/** The world of the oldest format: which chunk holds a block, which
    region file holds a chunk, and how a chunk load is retried. The chunk
    and region caches are left to the caller; what a region answers on
    each attempt, and whether a wait is interrupted, enter as parameters. */
module DatWorlds {
  import opened JavaInt

  /** `tries`: the number of load attempts. */
  const TRIES: nat := 3

  /** `(x >> 4, z >> 4)`: the chunk holding block column (x, z). */
  function ChunkOfBlock(x: Int32, z: Int32): (c: (Int32, Int32))
    ensures 16 * c.0 <= x < 16 * c.0 + 16
    ensures 16 * c.1 <= z < 16 * c.1 + 16
  {
    Pow2Facts();
    (Shr(x, 4), Shr(z, 4))
  }

  /** `(x >> 5, z >> 5)`: the region holding chunk (x, z). */
  function RegionOfChunk(x: Int32, z: Int32): (r: (Int32, Int32))
    ensures 32 * r.0 <= x < 32 * r.0 + 32
    ensures 32 * r.1 <= z < 32 * r.1 + 32
  {
    assert Pow2(5) == 32 by { Pow2Facts(); }
    (Shr(x, 5), Shr(z, 5))
  }

  /** `getChunkAtBlock(x, y, z)`: the height plays no part. */
  function ChunkAtBlock(x: Int32, y: Int32, z: Int32): (c: (Int32, Int32))
    ensures 16 * c.0 <= x < 16 * c.0 + 16
    ensures 16 * c.1 <= z < 16 * c.1 + 16
  {
    ChunkOfBlock(x, z)
  }

  /** `getMaxY(x, z)` and `getMinY(x, z)`: both ask the chunk holding the
      column. `chunkAt` stands for the chunk cache and `ask` for the chunk's
      own answer (its `getMaxY` or its `getMinY`). */
  function ColumnQuery<C>(chunkAt: (Int32, Int32) -> C, ask: (C, Int32, Int32) -> int, x: Int32, z: Int32): (r: int)
    ensures forall cx: Int32, cz: Int32 {:trigger chunkAt(cx, cz)} ::
      16 * cx <= x < 16 * cx + 16 && 16 * cz <= z < 16 * cz + 16 ==> r == ask(chunkAt(cx, cz), x, z)
  {
    var c := ChunkOfBlock(x, z);
    ask(chunkAt(c.0, c.1), x, z)
  }

  /** The outcome of a chunk load: the chunk (none standing for the shared
      empty chunk), how many attempts were made and how many waits begun. */
  datatype LoadOutcome<C> = LoadOutcome(chunk: Option<C>, tries: nat, waits: nat)

  /** The retry policy as a recursion over the attempt number: attempt `i`
      of region (rx, rz) either gives a chunk (`attempt` answers `Some`) or
      fails; after a failure that is not the last, a wait begins, and an
      interrupted wait ends the load. */
  function Retry<C>(attempt: (Int32, Int32, nat) -> Option<C>, interrupted: nat -> bool,
                    rx: Int32, rz: Int32, i: nat): (r: LoadOutcome<C>)
    requires i < TRIES
    ensures i < r.tries <= TRIES && r.tries - 1 <= r.waits <= r.tries
    ensures r.chunk.Some? ==> r.chunk == attempt(rx, rz, r.tries - 1)
    decreases TRIES - i
  {
    if attempt(rx, rz, i).Some? then LoadOutcome(attempt(rx, rz, i), i + 1, i)
    else if i + 1 < TRIES then
      if interrupted(i) then LoadOutcome(None, i + 1, i + 1)
      else Retry(attempt, interrupted, rx, rz, i + 1)
    else LoadOutcome(None, i + 1, i)
  }

  /** `loadChunk(x, z)`: up to three attempts at the chunk's region, the
      first success returned at once, a wait between attempts but none
      after the last, and the empty chunk when every attempt failed or a
      wait was interrupted. Failures never escape. */
  method LoadChunk<C>(x: Int32, z: Int32, attempt: (Int32, Int32, nat) -> Option<C>, interrupted: nat -> bool)
    returns (chunk: Option<C>, tries: nat, waits: nat)
    ensures 1 <= tries <= TRIES && waits < TRIES
    ensures var r := RegionOfChunk(x, z);
      forall i :: 0 <= i < tries - 1 ==> attempt(r.0, r.1, i).None? && !interrupted(i)
    ensures var r := RegionOfChunk(x, z);
      chunk.Some? ==> chunk == attempt(r.0, r.1, tries - 1) && waits == tries - 1
    ensures var r := RegionOfChunk(x, z);
      chunk.None? ==> attempt(r.0, r.1, tries - 1).None? && (tries == TRIES || (interrupted(tries - 1) && waits == tries))
    ensures var r := RegionOfChunk(x, z);
      LoadOutcome(chunk, tries, waits) == Retry(attempt, interrupted, r.0, r.1, 0)
  {
    var r := RegionOfChunk(x, z);
    chunk, tries, waits := None, 0, 0;
    var i: nat := 0;
    while i < TRIES
      invariant i <= TRIES && tries == i && chunk == None
      invariant waits == if i < TRIES then i else TRIES - 1
      invariant forall j :: 0 <= j < i ==> attempt(r.0, r.1, j).None?
      invariant forall j :: 0 <= j < i && j + 1 < TRIES ==> !interrupted(j)
      invariant i < TRIES ==> Retry(attempt, interrupted, r.0, r.1, 0) == Retry(attempt, interrupted, r.0, r.1, i)
      invariant i == TRIES ==> Retry(attempt, interrupted, r.0, r.1, 0) == LoadOutcome(None, TRIES, TRIES - 1)
      decreases TRIES - i
    {
      tries := tries + 1;
      var a := attempt(r.0, r.1, i);
      if a.Some? {
        chunk := a;
        return;
      }
      if i + 1 < TRIES {
        waits := waits + 1;
        if interrupted(i) {
          return;
        }
      }
      i := i + 1;
    }
  }

  // ---------------------------------------------------------------------
  // Properties

  /** A first success is returned without any retry or wait. */
  lemma FirstSuccessWins<C>(attempt: (Int32, Int32, nat) -> Option<C>, interrupted: nat -> bool, rx: Int32, rz: Int32)
    requires attempt(rx, rz, 0).Some?
    ensures Retry(attempt, interrupted, rx, rz, 0) == LoadOutcome(attempt(rx, rz, 0), 1, 0)
  {
  }

  /** When every attempt fails and no wait is interrupted, three attempts
      and two waits are made and the empty chunk results. */
  lemma AllAttemptsFail<C>(attempt: (Int32, Int32, nat) -> Option<C>, interrupted: nat -> bool, rx: Int32, rz: Int32)
    requires forall i :: 0 <= i < TRIES ==> attempt(rx, rz, i).None?
    requires forall i :: 0 <= i < TRIES ==> !interrupted(i)
    ensures Retry(attempt, interrupted, rx, rz, 0) == LoadOutcome(None, TRIES, TRIES - 1)
  {
    assert attempt(rx, rz, 0).None? && attempt(rx, rz, 1).None? && attempt(rx, rz, 2).None?;
    assert !interrupted(0) && !interrupted(1);
  }

  /** An interrupted first wait stops the load after one attempt. */
  lemma InterruptStops<C>(attempt: (Int32, Int32, nat) -> Option<C>, interrupted: nat -> bool, rx: Int32, rz: Int32)
    requires attempt(rx, rz, 0).None? && interrupted(0)
    ensures Retry(attempt, interrupted, rx, rz, 0) == LoadOutcome(None, 1, 1)
  {
  }

  /** The chunks of one aligned 32 x 32 square share one region file. */
  lemma RegionSquares(x: Int32, z: Int32, dx: int, dz: int)
    requires 0 <= dx < 32 && 0 <= dz < 32
    requires 32 * RegionOfChunk(x, z).0 + dx <= INT_MAX && 32 * RegionOfChunk(x, z).1 + dz <= INT_MAX
    ensures RegionOfChunk(32 * RegionOfChunk(x, z).0 + dx, 32 * RegionOfChunk(x, z).1 + dz) == RegionOfChunk(x, z)
  {
    var r := RegionOfChunk(x, z);
    var r' := RegionOfChunk(32 * r.0 + dx, 32 * r.1 + dz);
    SquareUnique(32 * r.0 + dx, r.0, r'.0);
    SquareUnique(32 * r.1 + dz, r.1, r'.1);
  }

  lemma SquareUnique(v: int, a: int, b: int)
    requires 32 * a <= v < 32 * a + 32 && 32 * b <= v < 32 * b + 32
    ensures a == b
  {
  }

  /** A block column and its chunk agree on the region: the region of a
      block's chunk is the block's coordinates shifted by nine. */
  lemma BlockRegion(x: Int32, z: Int32)
    ensures 512 * RegionOfChunk(ChunkOfBlock(x, z).0, ChunkOfBlock(x, z).1).0 <= x
    ensures x < 512 * RegionOfChunk(ChunkOfBlock(x, z).0, ChunkOfBlock(x, z).1).0 + 512
  {
  }
}
