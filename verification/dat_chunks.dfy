/** A chunk of the single-file legacy format: one column of 16 x 128 x 16
    blocks, decoded into its byte and nibble arrays, and the block states
    and light values read from it. */
module DatChunks {
  import opened JavaInt
  import opened Nibbles
  import opened BlockIds
  import opened WorldTypes

  /** The decoded fields of a chunk: `Blocks`, `Data`, `SkyLight`,
      `BlockLight` and `TerrainPopulated` of its `Level` tag. */
  datatype DatChunk = DatChunk(blocks: seq<Byte>, metadata: NibbleArray, skyLight: NibbleArray,
                               blockLight: NibbleArray, terrainPopulated: bool)

  /** The column height of the format. */
  const HEIGHT: int := 128

  /** Block id 78 is snow, 80 a snow block. */
  const SNOW_ID: int := 78
  const SNOW_BLOCK_ID: int := 80
  const GRASS_ID: int := 2

  /** A chunk whose arrays cover the whole column. */
  predicate Full(c: DatChunk)
  {
    |c.blocks| >= 16 * 16 * HEIGHT && |c.metadata.data| >= READ_LIMIT
  }

  function IsGenerated(c: DatChunk): bool { c.terrainPopulated }
  function InhabitedTime(c: DatChunk): int { 1 }
  function MaxY(c: DatChunk, x: Int32, z: Int32): int { 255 }
  function MinY(c: DatChunk, x: Int32, z: Int32): int { 0 }
  function WorldSurfaceY(c: DatChunk, x: Int32, z: Int32): int { 63 }
  function OceanFloorY(c: DatChunk, x: Int32, z: Int32): int { 50 }

  /** `blocks[p] & 127`: the block id stored at byte position `p`. */
  function BlockIdAt(blocks: seq<Byte>, p: int): (r: Result<Int32>)
    ensures r.Ok? <==> 0 <= p < |blocks|
    ensures r.Err? ==> r.error == IndexOutOfBounds
    ensures r.Ok? ==> 0 <= r.value < 128 && r.value == blocks[p] % 128
  {
    if 0 <= p < |blocks| then
      Mask127(blocks[p]);
      Ok(And(blocks[p], 127))
    else Err(IndexOutOfBounds)
  }

  /** The constant an (id, metadata) pair stands for: the exact query
      first, then the query with data 0. */
  function Resolve(id: Int32, meta: Int32): (r: Option<BlockId>)
    ensures r.Some? ==> r.value.id == id
    ensures Query(id, meta).Some? ==> r == Query(id, meta)
    ensures Query(id, meta).None? ==> r == Query(id, 0)
    ensures r.None? <==> Query(id, meta).None? && Query(id, 0).None?
  {
    var exact := Query(id, meta);
    if exact.Some? then exact else QueryId(id)
  }

  /** The `snowy` value of grass at height `y`: whether the block above is
      snow or a snow block; the top layer has nothing above it. */
  function SnowyAbove(blocks: seq<Byte>, x: Int32, y: Int32, z: Int32): (r: Result<string>)
    requires 0 <= y < HEIGHT
    ensures r.Err? ==> r.error == IndexOutOfBounds
    ensures y + 1 == HEIGHT ==> r == Ok("false")
    ensures y + 1 < HEIGHT ==> (r.Ok? <==> BlockIdAt(blocks, Index(x, y + 1, z)).Ok?)
    ensures y + 1 < HEIGHT && r.Ok? ==>
      (r.value == "true" <==> BlockIdAt(blocks, Index(x, y + 1, z)).value in {SNOW_ID, SNOW_BLOCK_ID})
  {
    var above := if y + 1 < HEIGHT then BlockIdAt(blocks, Index(x, y + 1, z)) else Ok(0);
    if above.Err? then Err(above.error)
    else Ok(OnOff(above.value == SNOW_ID || above.value == SNOW_BLOCK_ID))
  }

  /** `getBlockState(x, y, z)`: air for an empty chunk or a height outside
      the column; otherwise the block at the masked position. */
  function GetBlockState(c: DatChunk, x: Int32, y: Int32, z: Int32): (r: Result<BlockState>)
    ensures |c.blocks| == 0 || y < 0 || y >= HEIGHT ==> r == Ok(Air)
    ensures r.Err? ==> r.error == IndexOutOfBounds
  {
    if |c.blocks| == 0 then Ok(Air)
    else if y >= HEIGHT || y < 0 then Ok(Air)
    else ColumnBlockState(c, And(x, 15), y, And(z, 15))
  }

  /** The id and metadata at a position inside the column, looked up in the
      catalogue, with the `snowy` rule for grass. Reading past the end of an
      array is an error. */
  function ColumnBlockState(c: DatChunk, x: Int32, y: Int32, z: Int32): (r: Result<BlockState>)
    requires 0 <= y < HEIGHT
    ensures r.Err? ==> r.error == IndexOutOfBounds
  {
    var id := BlockIdAt(c.blocks, Index(x, y, z));
    if id.Err? then Err(id.error)
    else
      var meta := GetData(c.metadata, x, y, z);
      if meta.Err? then Err(meta.error)
      else if id.value == 0 then Ok(Air)
      else
        match Resolve(id.value, meta.value)
        case None => Ok(Missing)
        case Some(bid) =>
          var props := MetadataToProperties(bid, meta.value);
          if id.value == GRASS_ID then
            var snowy := SnowyAbove(c.blocks, x, y, z);
            if snowy.Err? then Err(snowy.error)
            else Ok(State(bid.modernId, props[Snowy := snowy.value]))
          else Ok(State(bid.modernId, props))
  }

  /** `getLightData(x, y, z)`: (0, 0) when the chunk has no light at all;
      otherwise the light at the masked position. */
  function GetLightData(c: DatChunk, x: Int32, y: Int32, z: Int32): (r: Result<LightData>)
    ensures |c.blockLight.data| == 0 && |c.skyLight.data| == 0 ==> r == Ok(LightData(0, 0))
    ensures r.Ok? ==> 0 <= r.value.sky < 16 && 0 <= r.value.block < 16
    ensures r.Ok? && |c.skyLight.data| == 0 ==> r.value.sky == 0
    ensures r.Ok? && |c.blockLight.data| == 0 ==> r.value.block == 0
    ensures r.Err? ==> r.error == IndexOutOfBounds
  {
    if |c.blockLight.data| == 0 && |c.skyLight.data| == 0 then Ok(LightData(0, 0))
    else ColumnLight(c, And(x, 15), y, And(z, 15))
  }

  /** Each light value read from its array; an absent array contributes 0. */
  function ColumnLight(c: DatChunk, x: Int32, y: Int32, z: Int32): (r: Result<LightData>)
    ensures r.Ok? ==> 0 <= r.value.sky < 16 && 0 <= r.value.block < 16
    ensures r.Ok? && |c.skyLight.data| == 0 ==> r.value.sky == 0
    ensures r.Ok? && |c.blockLight.data| == 0 ==> r.value.block == 0
    ensures r.Err? ==> r.error == IndexOutOfBounds
  {
    var block := if |c.blockLight.data| > 0 then GetData(c.blockLight, x, y, z) else Ok(0);
    if block.Err? then Err(block.error)
    else
      var sky := if |c.skyLight.data| > 0 then GetData(c.skyLight, x, y, z) else Ok(0);
      if sky.Err? then Err(sky.error) else Ok(LightData(sky.value, block.value))
  }

  // ---------------------------------------------------------------------
  // Reference definition

  /** The block state at a column position of a full chunk, read with plain
      positions `x * 2048 + z * 128 + y` and remainders in place of shifts
      and masks. */
  function StateAt(c: DatChunk, x: int, y: int, z: int): BlockState
    requires Full(c) && InColumn(x, y, z)
  {
    var p := Position(x, y, z);
    var id := c.blocks[p] % 128;
    var meta := NibbleAt(c.metadata.data, p);
    if id == 0 then Air
    else
      match Resolve(id, meta)
      case None => Missing
      case Some(bid) =>
        var props := MetadataToProperties(bid, meta);
        if id != GRASS_ID then State(bid.modernId, props)
        else
          var snowy := y + 1 < HEIGHT && c.blocks[p + 1] % 128 in {SNOW_ID, SNOW_BLOCK_ID};
          State(bid.modernId, props[Snowy := OnOff(snowy)])
  }

  // ---------------------------------------------------------------------
  // Properties

  /** Only the low four bits of x and z matter. */
  lemma MaskedCoordinates(c: DatChunk, x: Int32, y: Int32, z: Int32)
    ensures GetBlockState(c, x, y, z) == GetBlockState(c, And(x, 15), y, And(z, 15))
    ensures GetLightData(c, x, y, z) == GetLightData(c, And(x, 15), y, And(z, 15))
  {
    MaskTwice(x);
    MaskTwice(z);
  }

  lemma MaskTwice(x: Int32)
    ensures And(And(x, 15), 15) == And(x, 15)
  {
    Mask15(x);
    Mask15(x % 16);
  }

  /** In a full chunk every read succeeds, and it agrees with the reference
      definition at the position of the masked coordinates. */
  lemma FullChunkState(c: DatChunk, x: Int32, y: Int32, z: Int32)
    requires Full(c) && 0 <= y < HEIGHT
    ensures GetBlockState(c, x, y, z) == Ok(StateAt(c, x % 16, y, z % 16))
  {
    Mask15(x);
    Mask15(z);
    ColumnState(c, x % 16, y, z % 16);
  }

  lemma ColumnState(c: DatChunk, x: Int32, y: Int32, z: Int32)
    requires Full(c) && InColumn(x, y, z)
    ensures ColumnBlockState(c, x, y, z) == Ok(StateAt(c, x, y, z))
  {
    var p := Position(x, y, z);
    ColumnId(c, x, y, z);
    ColumnRead(c.metadata, x, y, z);
    ColumnSnowy(c, x, y, z);
  }

  lemma ColumnId(c: DatChunk, x: Int32, y: Int32, z: Int32)
    requires Full(c) && InColumn(x, y, z)
    ensures BlockIdAt(c.blocks, Index(x, y, z)) == Ok(c.blocks[Position(x, y, z)] % 128)
  {
    IndexInColumn(x, y, z);
  }

  lemma ColumnSnowy(c: DatChunk, x: Int32, y: Int32, z: Int32)
    requires Full(c) && InColumn(x, y, z)
    ensures SnowyAbove(c.blocks, x, y, z)
      == Ok(OnOff(y + 1 < HEIGHT && c.blocks[Position(x, y, z) + 1] % 128 in {SNOW_ID, SNOW_BLOCK_ID}))
  {
    if y + 1 < HEIGHT {
      IndexInColumn(x, y + 1, z);
    }
  }

  /** Id 0 is air, whatever the metadata. */
  lemma ZeroIsAir(c: DatChunk, x: int, y: int, z: int)
    requires Full(c) && InColumn(x, y, z) && c.blocks[Position(x, y, z)] % 128 == 0
    ensures StateAt(c, x, y, z) == Air
  {
  }

  /** A known block is named by the constant the lookup finds, which has
      the stored id. */
  lemma StateIsResolved(c: DatChunk, x: int, y: int, z: int)
    requires Full(c) && InColumn(x, y, z) && StateAt(c, x, y, z).State?
    ensures var p := Position(x, y, z);
      var bid := Resolve(c.blocks[p] % 128, NibbleAt(c.metadata.data, p));
      bid.Some? && bid.value.id == c.blocks[p] % 128
      && StateAt(c, x, y, z).id == bid.value.modernId
  {
  }

  /** Grass carries `snowy`, true exactly when snow or a snow block lies
      directly above; every other block carries exactly the properties of
      its metadata, which never include `snowy`. */
  lemma SnowyRule(c: DatChunk, x: int, y: int, z: int)
    requires Full(c) && InColumn(x, y, z) && StateAt(c, x, y, z).State?
    ensures var p := Position(x, y, z);
      var props := StateAt(c, x, y, z).properties;
      if c.blocks[p] % 128 == GRASS_ID then
        Snowy in props
        && (props[Snowy] == "true" <==> y + 1 < HEIGHT && c.blocks[p + 1] % 128 in {SNOW_ID, SNOW_BLOCK_ID})
      else
        Snowy !in props
        && props == MetadataToProperties(Resolve(c.blocks[p] % 128, NibbleAt(c.metadata.data, p)).value,
                                         NibbleAt(c.metadata.data, p))
  {
    var p := Position(x, y, z);
    var id := c.blocks[p] % 128;
    var meta := NibbleAt(c.metadata.data, p);
    var bid := Resolve(id, meta).value;
    NoSnowyFromMetadata(bid, meta);
  }

  /** The metadata never produces a `snowy` key. */
  lemma NoSnowyFromMetadata(b: BlockId, m: Int32)
    ensures Snowy !in MetadataToProperties(b, m)
  {
    SnowyNotInKinds(KindOf(b));
  }

  lemma SnowyNotInKinds(k: MetadataKind)
    ensures Snowy !in KindKeys(k)
  {
  }

  /** Grass at the top of the column is never snowy. */
  lemma TopGrassNotSnowy(c: DatChunk, x: int, z: int)
    requires Full(c) && InColumn(x, HEIGHT - 1, z) && StateAt(c, x, HEIGHT - 1, z).State?
    requires c.blocks[Position(x, HEIGHT - 1, z)] % 128 == GRASS_ID
    ensures StateAt(c, x, HEIGHT - 1, z).properties[Snowy] == "false"
  {
  }

  /** In a chunk whose light arrays cover the column, each light value is
      the nibble at the column position. */
  lemma FullChunkLight(c: DatChunk, x: Int32, y: Int32, z: Int32)
    requires |c.skyLight.data| >= READ_LIMIT && |c.blockLight.data| >= READ_LIMIT && 0 <= y < HEIGHT
    ensures GetLightData(c, x, y, z)
      == Ok(LightData(NibbleAt(c.skyLight.data, Position(x % 16, y, z % 16)),
                      NibbleAt(c.blockLight.data, Position(x % 16, y, z % 16))))
  {
    Mask15(x);
    Mask15(z);
    ColumnRead(c.skyLight, x % 16, y, z % 16);
    ColumnRead(c.blockLight, x % 16, y, z % 16);
  }
}
