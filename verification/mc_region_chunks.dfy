/** A chunk of the sectioned region format: the chunk-level fields decoded
    from its tag, up to 32 sections of 16 blocks height, and the biome
    array; with the block, light and biome reads. */
module McRegionChunks {
  import opened JavaInt
  import opened Nibbles
  import opened WorldTypes

  /** The number of section slots a chunk keeps. */
  const SECTION_SLOTS: int := 32

  /** The number of biome entries a chunk ends up with at least. */
  const BIOME_ENTRIES: int := 256

  /** The decoded fields of one entry of the `Sections` list. */
  datatype SectionTag = SectionTag(y: Int32, blocks: seq<Byte>, metadata: seq<Byte>,
                                   skyLight: seq<Byte>, blockLight: seq<Byte>)

  /** The `Biomes` entry: a byte array, an int array, or absent (or of
      another tag type, which is read the same way). */
  datatype BiomesTag = NoBiomes | ByteBiomes(bytes: seq<Byte>) | IntBiomes(ints: seq<Int32>)

  /** The decoded fields of a chunk's `Level` tag; `sections` is absent when
      the tag has no `Sections` key. */
  datatype ChunkTag = ChunkTag(status: string, inhabitedTime: int,
                               sections: Option<seq<SectionTag>>, biomes: BiomesTag)

  /** A section. Its palette is never filled in, so it is always `null`. */
  datatype Section = Section(sectionY: Int32, blocks: seq<Byte>, metadata: NibbleArray,
                             skyLight: NibbleArray, blockLight: NibbleArray)

  datatype McRegionChunk = McRegionChunk(isGenerated: bool, hasLight: bool, inhabitedTime: int,
                                         sections: seq<Option<Section>>, biomes: seq<Int32>)

  /** The world settings a chunk consults. */
  datatype WorldSettings = WorldSettings(skyLight: int, ignoreMissingLightData: bool)

  // ---------------------------------------------------------------------
  // Construction

  /** `a` is `orig` as the constructor leaves it: a non-empty array shorter
      than `n` zero-padded to `n`, any other array kept as it is. */
  predicate PaddedFrom(a: seq<Byte>, orig: seq<Byte>, n: nat)
  {
    |a| == (if 0 < |orig| < n then n else |orig|)
    && a[..|orig|] == orig
    && forall i :: |orig| <= i < |a| ==> a[i] == 0
  }

  /** `Arrays.copyOf(s, n)` applied only to a non-empty array shorter than
      `n`: it is padded with zeros to length `n`; an empty array or one of
      length at least `n` is kept. */
  function PadNonEmpty(s: seq<Byte>, n: nat): (r: seq<Byte>)
    ensures PaddedFrom(r, s, n)
  {
    if 0 < |s| < n then s + seq(n - |s|, _ => 0) else s
  }

  /** The padding rule fixes the array: two paddings of one array agree. */
  lemma PaddedUnique(a: seq<Byte>, b: seq<Byte>, orig: seq<Byte>, n: nat)
    requires PaddedFrom(a, orig, n) && PaddedFrom(b, orig, n)
    ensures a == b
  {
    forall i | 0 <= i < |a|
      ensures a[i] == b[i]
    {
      if i < |orig| {
        assert a[i] == a[..|orig|][i] && b[i] == b[..|orig|][i];
      }
    }
  }

  /** The `Section` constructor: block and metadata arrays are padded to
      256 bytes, light arrays to 2048; empty arrays stay empty. */
  function NewSection(t: SectionTag): (s: Section)
    ensures s.sectionY == t.y
    ensures PaddedFrom(s.blocks, t.blocks, 256)
    ensures PaddedFrom(s.metadata.data, t.metadata, 256)
    ensures PaddedFrom(s.skyLight.data, t.skyLight, 2048)
    ensures PaddedFrom(s.blockLight.data, t.blockLight, 2048)
  {
    Section(t.y, PadNonEmpty(t.blocks, 256), NibbleArray(PadNonEmpty(t.metadata, 256)),
            NibbleArray(PadNonEmpty(t.skyLight, 2048)), NibbleArray(PadNonEmpty(t.blockLight, 2048)))
  }

  /** Stores a section at the slot named by its Y when that slot exists;
      any other section is dropped. */
  function PlaceSection(slots: seq<Option<Section>>, t: SectionTag): (r: seq<Option<Section>>)
    ensures |r| == |slots|
  {
    var s := NewSection(t);
    if 0 <= s.sectionY < |slots| then slots[s.sectionY := Some(s)] else slots
  }

  /** The sections of the list placed one after the other. */
  function PlaceAll(slots: seq<Option<Section>>, ts: seq<SectionTag>): (r: seq<Option<Section>>)
    ensures |r| == |slots|
  {
    if |ts| == 0 then slots else PlaceSection(PlaceAll(slots, ts[..|ts| - 1]), ts[|ts| - 1])
  }

  /** The last section tag of the list whose Y is `k`. */
  function LastWithY(ts: seq<SectionTag>, k: int): (r: Option<SectionTag>)
    ensures r.Some? ==> r.value in ts && r.value.y == k
    ensures r.None? <==> forall i :: 0 <= i < |ts| ==> ts[i].y != k
  {
    if |ts| == 0 then None
    else if ts[|ts| - 1].y == k then Some(ts[|ts| - 1])
    else LastWithY(ts[..|ts| - 1], k)
  }

  /** The `biomes` field: a byte array read unsigned, or an int array as
      it is; a missing or empty array becomes 256 zeros and a shorter one
      is padded with zeros to 256. */
  function NormaliseBiomes(b: BiomesTag): (r: seq<Int32>)
    ensures |r| >= BIOME_ENTRIES
  {
    var raw := RawBiomes(b);
    if raw.None? || |raw.value| == 0 then seq(BIOME_ENTRIES, _ => 0)
    else if |raw.value| < BIOME_ENTRIES then raw.value + seq(BIOME_ENTRIES - |raw.value|, _ => 0)
    else raw.value
  }

  /** The array as read from the tag, before any padding: bytes become
      `b & 0xFF`. */
  function RawBiomes(b: BiomesTag): (r: Option<seq<Int32>>)
    ensures r.None? <==> b.NoBiomes?
    ensures b.ByteBiomes? ==> |r.value| == |b.bytes|
    ensures b.ByteBiomes? ==>
      forall i :: 0 <= i < |b.bytes| ==> 0 <= r.value[i] < 256 && r.value[i] == (b.bytes[i] as int) % 256
    ensures b.IntBiomes? ==> r.value == b.ints
  {
    match b
    case NoBiomes => None
    case ByteBiomes(bs) => Some(seq(|bs|, i requires 0 <= i < |bs| => Unsigned8(bs[i])))
    case IntBiomes(ints) => Some(ints)
  }

  /** `b & 0xFF`. */
  function Unsigned8(b: Byte): (r: Int32)
    ensures 0 <= r < 256 && r == (b as int) % 256
  {
    Mask255(b);
    And(b, 255)
  }

  /** The constructor: the generated flag from the status (with the
      override for worlds that ignore missing light), the section slots and
      the biomes. */
  function NewChunk(tag: ChunkTag, world: WorldSettings): (c: McRegionChunk)
    ensures c.hasLight <==> tag.status in {"full", "fullchunk", "postprocessed"}
    ensures |c.sections| == if tag.sections.Some? then SECTION_SLOTS else 0
    ensures |c.biomes| >= BIOME_ENTRIES
  {
    var complete := tag.status == "full" || tag.status == "fullchunk" || tag.status == "postprocessed";
    var generated := if !complete && world.ignoreMissingLightData then tag.status != "empty" else complete;
    var sections := match tag.sections
      case None => []
      case Some(ts) => PlaceAll(seq(SECTION_SLOTS, _ => None), ts);
    McRegionChunk(generated, complete, tag.inhabitedTime, sections, NormaliseBiomes(tag.biomes))
  }

  // ---------------------------------------------------------------------
  // Reads

  function WorldSurfaceY(c: McRegionChunk, x: Int32, z: Int32): int { 63 }
  function OceanFloorY(c: McRegionChunk, x: Int32, z: Int32): int { 50 }

  /** `getBlockState(x, y, z)`: air where there is no section; a present
      section dereferences its `null` palette. */
  function GetBlockState(c: McRegionChunk, x: Int32, y: Int32, z: Int32): (r: Result<BlockState>)
    ensures r.Ok? ==> r.value == Air
    ensures r.Err? ==> r.error == NullPointer
  {
    var sectionY := Shr(y, 4);
    if sectionY < 0 || sectionY >= |c.sections| then Ok(Air)
    else if c.sections[sectionY].None? then Ok(Air)
    else SectionBlockState(c.sections[sectionY].value, x, y, z)
  }

  /** `Section.getBlockState`: its first step reads `palette.length`. */
  function SectionBlockState(s: Section, x: Int32, y: Int32, z: Int32): (r: Result<BlockState>)
    ensures r.Err?
  {
    Err(NullPointer)
  }

  /** `getLightData(x, y, z)`: the world's sky light and no block light for
      a chunk without light or above the sections, nothing below them, and
      the section's light otherwise. */
  function GetLightData(c: McRegionChunk, world: WorldSettings, x: Int32, y: Int32, z: Int32)
    : (r: Result<LightData>)
    ensures !c.hasLight ==> r == Ok(LightData(world.skyLight, 0))
    ensures r.Err? ==> r.error == IndexOutOfBounds
  {
    if !c.hasLight then Ok(LightData(world.skyLight, 0))
    else
      var sectionY := Shr(y, 4);
      if sectionY < 0 || sectionY >= |c.sections| then
        if y < 0 then Ok(LightData(0, 0)) else Ok(LightData(world.skyLight, 0))
      else if c.sections[sectionY].None? then Ok(LightData(world.skyLight, 0))
      else SectionLight(c.sections[sectionY].value, x, y, z)
  }

  /** `Section.getLightData`: (0, 0) without light arrays; otherwise the
      coordinates are masked to 0..15 and each array is read through the
      column layout of `NibbleArray`; an absent array contributes 0. */
  function SectionLight(s: Section, x: Int32, y: Int32, z: Int32): (r: Result<LightData>)
    ensures |s.blockLight.data| == 0 && |s.skyLight.data| == 0 ==> r == Ok(LightData(0, 0))
    ensures r.Ok? ==> 0 <= r.value.sky < 16 && 0 <= r.value.block < 16
    ensures r.Ok? && |s.skyLight.data| == 0 ==> r.value.sky == 0
    ensures r.Ok? && |s.blockLight.data| == 0 ==> r.value.block == 0
    ensures r.Err? ==> r.error == IndexOutOfBounds
  {
    if |s.blockLight.data| == 0 && |s.skyLight.data| == 0 then Ok(LightData(0, 0))
    else
      var mx, my, mz := And(x, 15), And(y, 15), And(z, 15);
      var sky := if |s.skyLight.data| > 0 then GetData(s.skyLight, mx, my, mz) else Ok(0);
      if sky.Err? then Err(sky.error)
      else
        var block := if |s.blockLight.data| > 0 then GetData(s.blockLight, mx, my, mz) else Ok(0);
        if block.Err? then Err(block.error) else Ok(LightData(sky.value, block.value))
  }

  /** `getBiome(x, y, z)`: the raw biome value at `z * 16 + x` of the
      masked coordinates, or none where the array is too short (the
      default biome). */
  function GetBiome(c: McRegionChunk, x: Int32, y: Int32, z: Int32): (r: Option<Int32>)
  {
    var mx, mz := And(x, 15), And(z, 15);
    var i := mz * 16 + mx;
    if i >= |c.biomes| then None else Some(c.biomes[i])
  }

  // ---------------------------------------------------------------------
  // Properties

  /** The generated flag: a complete status, or, in a world that ignores
      missing light data, any status but `empty`. The light flag keeps the
      value from before the override. */
  lemma GeneratedFlag(tag: ChunkTag, world: WorldSettings)
    ensures var c := NewChunk(tag, world);
      c.isGenerated <==> tag.status in {"full", "fullchunk", "postprocessed"}
                         || (world.ignoreMissingLightData && tag.status != "empty")
    ensures var c := NewChunk(tag, world); c.isGenerated ==> c.hasLight || world.ignoreMissingLightData
  {
  }

  /** After the list is placed, slot `k` holds the last section of the list
      whose Y is `k`, or what it held before when there is none. */
  lemma {:induction false} PlaceAllSlot(slots: seq<Option<Section>>, ts: seq<SectionTag>, k: int)
    requires 0 <= k < |slots|
    ensures PlaceAll(slots, ts)[k]
      == match LastWithY(ts, k) case None => slots[k] case Some(t) => Some(NewSection(t))
    decreases |ts|
  {
    if |ts| > 0 {
      PlaceAllSlot(slots, ts[..|ts| - 1], k);
    }
  }

  /** In a constructed chunk, slot `k` holds the last listed section with Y
      `k`, and is empty when no section has that Y; sections whose Y lies
      outside 0..31 are nowhere. */
  lemma SectionsPlaced(tag: ChunkTag, world: WorldSettings, k: int)
    requires tag.sections.Some? && 0 <= k < SECTION_SLOTS
    ensures NewChunk(tag, world).sections[k]
      == match LastWithY(tag.sections.value, k) case None => None case Some(t) => Some(NewSection(t))
  {
    PlaceAllSlot(seq(SECTION_SLOTS, _ => None), tag.sections.value, k);
  }

  /** Every present slot holds a section whose Y is its index. */
  lemma SlotsMatchY(tag: ChunkTag, world: WorldSettings, k: int)
    requires tag.sections.Some? && 0 <= k < SECTION_SLOTS
    requires NewChunk(tag, world).sections[k].Some?
    ensures NewChunk(tag, world).sections[k].value.sectionY == k
  {
    SectionsPlaced(tag, world, k);
  }

  /** The biome array keeps the values read from the tag and is zero
      beyond them. */
  lemma BiomesKept(b: BiomesTag, i: int)
    requires 0 <= i < |NormaliseBiomes(b)|
    ensures var raw := RawBiomes(b);
      NormaliseBiomes(b)[i] == if raw.Some? && i < |raw.value| then raw.value[i] else 0
  {
  }

  /** The read behind the default-biome branch never happens: after
      construction every masked position lies inside the array. */
  lemma BiomeAlwaysRead(tag: ChunkTag, world: WorldSettings, x: Int32, y: Int32, z: Int32)
    ensures var c := NewChunk(tag, world);
      GetBiome(c, x, y, z) == Some(c.biomes[(z % 16) * 16 + x % 16])
  {
    Mask15(x);
    Mask15(z);
  }

  /** The block read gives air exactly where there is no section; wherever
      a section is present it fails. */
  lemma BlockStateIsAirOrFails(c: McRegionChunk, x: Int32, y: Int32, z: Int32)
    ensures var k := y / 16;
      GetBlockState(c, x, y, z).Ok? <==> !(0 <= k < |c.sections| && c.sections[k].Some?)
  {
    Pow2Facts();
  }

  /** Below the sections (y < 0) a lit chunk is dark, above them it has the
      world's sky light. */
  lemma LightOutsideSections(c: McRegionChunk, world: WorldSettings, x: Int32, y: Int32, z: Int32)
    requires c.hasLight && !(0 <= y / 16 < |c.sections|)
    ensures GetLightData(c, world, x, y, z)
      == if y < 0 then Ok(LightData(0, 0)) else Ok(LightData(world.skyLight, 0))
  {
    Pow2Facts();
  }

  /** Inside the section range, a slot without a section is lit by the sky
      alone, and a present section answers for itself. */
  lemma LightInsideSections(c: McRegionChunk, world: WorldSettings, x: Int32, y: Int32, z: Int32)
    requires c.hasLight && 0 <= y / 16 < |c.sections|
    ensures GetLightData(c, world, x, y, z)
      == match c.sections[y / 16]
         case None => Ok(LightData(world.skyLight, 0))
         case Some(s) => SectionLight(s, x, y, z)
  {
    Pow2Facts();
  }

  /** With light arrays of the padded length 2048, the section read through
      the 128-high column layout stays inside the array exactly for masked
      x 0 and 1; from x = 2 on it runs past the end. */
  /** The light of a section depends on the coordinates only through their
      low four bits. */
  lemma SectionLightMasked(s: Section, x: Int32, y: Int32, z: Int32)
    ensures SectionLight(s, x, y, z) == SectionLight(s, x % 16, y % 16, z % 16)
  {
    MaskAgain(x);
    MaskAgain(y);
    MaskAgain(z);
  }

  /** Masking the remainder again changes nothing. */
  lemma MaskAgain(a: Int32)
    ensures And(a % 16, 15) == And(a, 15)
  {
    Mask15(a);
    Mask15(a % 16);
  }

  /** With the padded 2048-byte arrays, a read that succeeds gives the sky
      and block light nibbles at the masked position. */
  lemma SectionLightValue(s: Section, x: Int32, y: Int32, z: Int32)
    requires |s.skyLight.data| == 2048 && |s.blockLight.data| == 2048
    requires x % 16 < 2
    ensures var p := Position(x % 16, y % 16, z % 16);
      p / 2 < 2048
      && SectionLight(s, x, y, z) == Ok(LightData(NibbleAt(s.skyLight.data, p), NibbleAt(s.blockLight.data, p)))
  {
    var mx, my, mz := And(x, 15), And(y, 15), And(z, 15);
    Mask15(x);
    Mask15(y);
    Mask15(z);
    IndexInColumn(mx, my, mz);
    GetDataReadsNibble(s.skyLight, mx, my, mz);
    GetDataReadsNibble(s.blockLight, mx, my, mz);
  }

  lemma SectionLightBounds(s: Section, x: Int32, y: Int32, z: Int32)
    requires |s.skyLight.data| == 2048 && |s.blockLight.data| == 2048
    ensures SectionLight(s, x, y, z).Ok? <==> x % 16 < 2
  {
    var mx, my, mz := And(x, 15), And(y, 15), And(z, 15);
    Mask15(x);
    Mask15(y);
    Mask15(z);
    var p := Position(mx, my, mz);
    IndexInColumn(mx, my, mz);
    if mx < 2 {
      assert p / 2 < 2048;
    } else {
      assert 2048 <= p / 2 <= READ_LIMIT;
    }
  }
}
