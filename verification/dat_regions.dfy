/** A region of the oldest world format: one file per chunk, named after
    the chunk's coordinates in base 36 and stored two folders deep. */
module DatRegions {
  import opened JavaInt
  import opened JavaText
  import opened Paths
  import DatChunks

  const FILE_SUFFIX: string := ".dat"

  /** A region file together with the chunk position its name encodes. */
  datatype DatRegion = DatRegion(regionFile: Path, x: Int32, z: Int32)

  /** What the file system reports about a region file: absent, or present
      with a size that could (`Some`) or could not (`None`, an I/O error)
      be read. */
  datatype FileStatus = Absent | Present(size: Option<nat>)

  /** The outcome of loading a chunk: the shared empty chunk, or a chunk
      decoded from the file. */
  datatype LoadedChunk = EmptyChunk | Loaded(chunk: DatChunks.DatChunk)

  function Base36(i: Int32): string { IntToString(i, 36) }

  /** The file name a chunk is stored under, without its folders. */
  function ChunkFileName(x: Int32, z: Int32): (s: string)
    ensures EndsWith(s, FILE_SUFFIX)
  {
    "c." + Base36(x) + "." + Base36(z) + FILE_SUFFIX
  }

  /** `getRegionFileName(x, z)`: the two folders are the coordinates'
      remainders modulo 64 (negative for negative coordinates, as Java's
      `%` truncates), each written in base 36. */
  function RegionFileName(x: Int32, z: Int32): (s: string)
    ensures EndsWith(s, FILE_SUFFIX)
  {
    Base36(Rem(x, 64)) + "/" + Base36(Rem(z, 64)) + "/" + ChunkFileName(x, z)
  }

  /** The constructor: the file name is split at dots; the second and third
      pieces are read as base-36 numbers. A missing piece is an index error
      and a piece that is not a number a format error, in that order. */
  function NewDatRegion(p: Path): (r: Result<DatRegion>)
    ensures r.Ok? ==> r.value.regionFile == p
    ensures r.Err? ==> r.error in {NullPointer, IndexOutOfBounds, NumberFormat}
    ensures r.Err? && r.error == NullPointer <==> |p.components| == 0
  {
    match FileName(p)
    case None => Err(NullPointer)
    case Some(name) =>
      var parts := Split(name, '.');
      if |parts| < 2 then Err(IndexOutOfBounds)
      else match ParseInt(parts[1], 36)
        case Err(e) => Err(e)
        case Ok(rx) =>
          if |parts| < 3 then Err(IndexOutOfBounds)
          else match ParseInt(parts[2], 36)
            case Err(e) => Err(e)
            case Ok(rz) => Ok(DatRegion(p, rx, rz))
  }

  /** `listChunks`: the single chunk of the file, unless the file is
      absent, empty, or its size cannot be read. */
  function ListChunks(r: DatRegion, f: FileStatus): (cs: seq<(Int32, Int32)>)
    ensures |cs| <= 1
    ensures |cs| == 1 <==> f.Present? && f.size.Some? && f.size.value > 0
    ensures |cs| == 1 ==> cs[0] == (r.x, r.z)
  {
    match f
    case Absent => []
    case Present(None) => []
    case Present(Some(n)) => if n == 0 then [] else [(r.x, r.z)]
  }

  /** `loadChunk`: an absent or empty file gives the empty chunk; an
      unreadable size, and any failure while decoding the file (`decoded`,
      since the binary tag format is not modelled), is an I/O error. The
      requested coordinates are not consulted: the file holds one chunk. */
  function LoadChunk(r: DatRegion, f: FileStatus, decoded: Result<DatChunks.DatChunk>): (res: Result<LoadedChunk>)
    ensures res.Err? ==> res.error == IOFailure
    ensures res == Ok(EmptyChunk) <==> f.Absent? || f.size == Some(0)
    ensures res.Ok? && res.value.Loaded? ==> decoded == Ok(res.value.chunk)
  {
    match f
    case Absent => Ok(EmptyChunk)
    case Present(None) => Err(IOFailure)
    case Present(Some(n)) =>
      if n == 0 then Ok(EmptyChunk)
      else match decoded
        case Err(_) => Err(IOFailure)
        case Ok(c) => Ok(Loaded(c))
  }

  // ---------------------------------------------------------------------
  // Properties

  /** Listing and loading agree: a file lists its chunk exactly when loading
      it neither fails on the size nor gives the empty chunk. */
  lemma ListedIffLoadable(r: DatRegion, f: FileStatus, c: DatChunks.DatChunk)
    ensures |ListChunks(r, f)| == 1 <==> LoadChunk(r, f, Ok(c)) == Ok(Loaded(c))
  {
  }

  /** The constructor reads back the position a file name was made from,
      whatever folder the region files live in. */
  lemma RegionFileRoundTrip(folder: Path, x: Int32, z: Int32)
    ensures NewDatRegion(Resolve(folder, RegionFileName(x, z)))
      == Ok(DatRegion(Resolve(folder, RegionFileName(x, z)), x, z))
  {
    var p := Resolve(folder, RegionFileName(x, z));
    FileNameOfRegionFile(folder, x, z);
    SplitChunkFileName(x, z);
    ParseOfToString(x, 36);
    ParseOfToString(z, 36);
  }

  /** The resolved path ends in the chunk's file name. */
  lemma FileNameOfRegionFile(folder: Path, x: Int32, z: Int32)
    ensures FileName(Resolve(folder, RegionFileName(x, z))) == Some(ChunkFileName(x, z))
  {
    NoSeparatorInNumber(Rem(x, 64), 36, '/');
    NoSeparatorInNumber(Rem(z, 64), 36, '/');
    NoSeparatorInNumber(x, 36, '/');
    NoSeparatorInNumber(z, 36, '/');
    ToStringShape(Rem(x, 64), 36);
    ToStringShape(Rem(z, 64), 36);
    RegionFileNameShape(x, z);
    ResolvedFileName(folder, [Base36(Rem(x, 64)), Base36(Rem(z, 64))], ChunkFileName(x, z));
  }

  /** The chunk's file name splits into its four dot-separated pieces. */
  lemma SplitChunkFileName(x: Int32, z: Int32)
    ensures Split(ChunkFileName(x, z), '.') == ["c", Base36(x), Base36(z), "dat"]
  {
    var parts := SplitAll(ChunkFileName(x, z), '.');
    SplitAllChunkFileName(x, z);
    assert ChunkFileName(x, z)[1] == '.';
    assert parts[|parts| - 1] == "dat";
  }

  lemma SplitAllChunkFileName(x: Int32, z: Int32)
    ensures SplitAll(ChunkFileName(x, z), '.') == ["c", Base36(x), Base36(z), "dat"]
  {
    var bx, bz := Base36(x), Base36(z);
    NoSeparatorInNumber(x, 36, '.');
    NoSeparatorInNumber(z, 36, '.');
    var tail := bz + ['.'] + "dat";
    var mid := bx + ['.'] + tail;
    assert ChunkFileName(x, z) == "c" + ['.'] + mid;
    SplitAllNoSep("dat", '.');
    SplitAllJoin(bz, "dat", '.');
    SplitAllJoin(bx, tail, '.');
    SplitAllJoin("c", mid, '.');
  }

  /** The region file name is the two folders and the chunk's file name,
      joined by slashes. */
  lemma RegionFileNameShape(x: Int32, z: Int32)
    ensures RegionFileName(x, z)
      == JoinSlash([Base36(Rem(x, 64)), Base36(Rem(z, 64))], ChunkFileName(x, z))
  {
    var a, b, c := Base36(Rem(x, 64)), Base36(Rem(z, 64)), ChunkFileName(x, z);
    assert [a, b][1..] == [b];
    assert JoinSlash([b], c) == b + "/" + c;
    assert a + "/" + b + "/" + c == a + "/" + (b + "/" + c);
  }

  /** The folders are short: a minus sign exactly for a negative nonzero
      remainder, then one or two base-36 digits, so a world has at most
      127 x 127 of them. */
  lemma FolderNamesShort(x: Int32)
    ensures 1 <= |Base36(Rem(x, 64))| <= 3
    ensures var f := Base36(Rem(x, 64));
      (f[0] == '-' <==> x < 0 && Rem(x, 64) != 0) && (f[0] != '-' ==> |f| <= 2)
  {
    var m := Rem(x, 64);
    ToStringShape(m, 36);
    if m < 0 {
      SmallNatDigits(-(m as int), 36);
    } else {
      SmallNatDigits(m as int, 36);
    }
  }

  /** Chunks 64 apart on an axis share a folder, which is how the folders
      spread the files of a large world. */
  lemma SameFolderEvery64(x: Int32, k: int)
    requires 0 <= x && x + 64 * k <= INT_MAX && 0 <= k
    ensures Rem(x + 64 * k, 64) == Rem(x, 64)
  {
    var y: Int32 := x + 64 * k;
    var r, r' := Rem(x, 64), Rem(y, 64);
    var q, q' := (x - r) / 64, (y - r') / 64;
    assert x - r == 64 * q;
    assert y - r' == 64 * q';
    DivModUnique(y, 64, q + k, r);
    DivModUnique(y, 64, q', r');
  }
}
