/** The legacy block catalogue: every block of the old numeric format with
    its numeric id, its data value and the namespaced id of the block that
    replaced it, in declaration order; the first-match lookup by (id, data)
    and the translation of a block's metadata nibble into block-state
    properties. */
module BlockIds {
  import opened JavaInt
  import opened JavaText

  /** One constant of the catalogue: its position in declaration order (the
      enum ordinal), its numeric id, its data value and the namespaced id of
      the block that replaced it. */
  datatype BlockId = BlockId(ordinal: nat, id: int, data: int, modernId: string)

  const Stone := BlockId(0, 1, 0, "minecraft:stone")
  const Grass := BlockId(1, 2, 0, "minecraft:grass_block")
  const Dirt := BlockId(2, 3, 0, "minecraft:dirt")
  const Cobblestone := BlockId(3, 4, 0, "minecraft:cobblestone")
  const Wood := BlockId(4, 5, 0, "minecraft:oak_planks")
  const OakSapling := BlockId(5, 6, 0, "minecraft:oak_sapling")
  const SpruceSapling := BlockId(6, 6, 1, "minecraft:spruce_sapling")
  const BirchSapling := BlockId(7, 6, 2, "minecraft:birch_sapling")
  const Bedrock := BlockId(8, 7, 0, "minecraft:bedrock")
  const Water := BlockId(9, 8, 0, "minecraft:flowing_water")
  const StationaryWater := BlockId(10, 9, 0, "minecraft:water")
  const Lava := BlockId(11, 10, 0, "minecraft:flowing_lava")
  const StationaryLava := BlockId(12, 11, 0, "minecraft:lava")
  const Sand := BlockId(13, 12, 0, "minecraft:sand")
  const Gravel := BlockId(14, 13, 0, "minecraft:gravel")
  const GoldOre := BlockId(15, 14, 0, "minecraft:gold_ore")
  const IronOre := BlockId(16, 15, 0, "minecraft:iron_ore")
  const CoalOre := BlockId(17, 16, 0, "minecraft:coal_ore")
  const OakLog := BlockId(18, 17, 0, "minecraft:oak_log")
  const SpruceLog := BlockId(19, 17, 1, "minecraft:spruce_log")
  const BirchLog := BlockId(20, 17, 2, "minecraft:birch_log")
  const OakLeaves := BlockId(21, 18, 0, "minecraft:oak_leaves")
  const SpruceLeaves := BlockId(22, 18, 1, "minecraft:spruce_leaves")
  const BirchLeaves := BlockId(23, 18, 2, "minecraft:birch_leaves")
  const SpecialLeaves := BlockId(24, 18, 3, "minecraft:acacia_leaves")
  const Sponge := BlockId(25, 19, 0, "minecraft:sponge")
  const Glass := BlockId(26, 20, 0, "minecraft:glass")
  const LapisOre := BlockId(27, 21, 0, "minecraft:lapis_ore")
  const LapisBlock := BlockId(28, 22, 0, "minecraft:lapis_block")
  const Dispenser := BlockId(29, 23, 0, "minecraft:dispenser")
  const Sandstone := BlockId(30, 24, 0, "minecraft:sandstone")
  const NoteBlock := BlockId(31, 25, 0, "minecraft:note_block")
  const Bed := BlockId(32, 26, 0, "minecraft:red_bed")
  const GoldenRail := BlockId(33, 27, 0, "minecraft:powered_rail")
  const DetectorRail := BlockId(34, 28, 0, "minecraft:detector_rail")
  const PistonSticky := BlockId(35, 29, 0, "minecraft:sticky_piston")
  const Web := BlockId(36, 30, 0, "minecraft:cobweb")
  const LongGrass := BlockId(37, 31, 0, "minecraft:grass")
  const Fern := BlockId(38, 31, 1, "minecraft:fern")
  const DeadBush := BlockId(39, 32, 0, "minecraft:dead_bush")
  const Piston := BlockId(40, 33, 0, "minecraft:piston")
  const PistonExtension := BlockId(41, 34, 0, "minecraft:piston_head")
  const Wool := BlockId(42, 35, 0, "minecraft:white_wool")
  const OrangeWool := BlockId(43, 35, 1, "minecraft:orange_wool")
  const MagentaWool := BlockId(44, 35, 2, "minecraft:magenta_wool")
  const LightblueWool := BlockId(45, 35, 3, "minecraft:light_blue_wool")
  const YellowWool := BlockId(46, 35, 4, "minecraft:yellow_wool")
  const LimeWool := BlockId(47, 35, 5, "minecraft:lime_wool")
  const PinkWool := BlockId(48, 35, 6, "minecraft:pink_wool")
  const GrayWool := BlockId(49, 35, 7, "minecraft:gray_wool")
  const LightgrayWool := BlockId(50, 35, 8, "minecraft:light_gray_wool")
  const CyanWool := BlockId(51, 35, 9, "minecraft:cyan_wool")
  const PurpleWool := BlockId(52, 35, 10, "minecraft:purple_wool")
  const BlueWool := BlockId(53, 35, 11, "minecraft:blue_wool")
  const BrownWool := BlockId(54, 35, 12, "minecraft:brown_wool")
  const GreenWool := BlockId(55, 35, 13, "minecraft:green_wool")
  const RedWool := BlockId(56, 35, 14, "minecraft:red_wool")
  const BlackWool := BlockId(57, 35, 15, "minecraft:black_wool")
  const PistonMoving := BlockId(58, 36, 0, "minecraft:moving_piston")
  const YellowFlower := BlockId(59, 37, 0, "minecraft:dandelion")
  const RedRose := BlockId(60, 38, 0, "minecraft:poppy")
  const BrownMushroom := BlockId(61, 39, 0, "minecraft:brown_mushroom")
  const RedMushroom := BlockId(62, 40, 0, "minecraft:red_mushroom")
  const GoldBlock := BlockId(63, 41, 0, "minecraft:gold_block")
  const IronBlock := BlockId(64, 42, 0, "minecraft:iron_block")
  const DoubleStepStone := BlockId(65, 43, 0, "minecraft:smooth_stone_slab")
  const DoubleStepSandstone := BlockId(66, 43, 1, "minecraft:sandstone_slab")
  const DoubleStepOak := BlockId(67, 43, 2, "minecraft:oak_slab")
  const DoubleStepCobblestone := BlockId(68, 43, 3, "minecraft:cobblestone_slab")
  const DoubleStepSpecial := BlockId(69, 43, 4, "minecraft:smooth_stone")
  const StepStone := BlockId(70, 44, 0, "minecraft:smooth_stone_slab")
  const StepSandstone := BlockId(71, 44, 1, "minecraft:sandstone_slab")
  const StepOak := BlockId(72, 44, 2, "minecraft:oak_slab")
  const StepCobblestone := BlockId(73, 44, 3, "minecraft:cobblestone_slab")
  const Brick := BlockId(74, 45, 0, "minecraft:brick_block")
  const Tnt := BlockId(75, 46, 0, "minecraft:tnt")
  const Bookshelf := BlockId(76, 47, 0, "minecraft:bookshelf")
  const MossyCobblestone := BlockId(77, 48, 0, "minecraft:mossy_cobblestone")
  const Obsidian := BlockId(78, 49, 0, "minecraft:obsidian")
  const TorchGround := BlockId(79, 50, 5, "minecraft:torch")
  const TorchWall := BlockId(80, 50, 0, "minecraft:wall_torch")
  const Fire := BlockId(81, 51, 0, "minecraft:fire")
  const MobSpawner := BlockId(82, 52, 0, "minecraft:spawner")
  const WoodStairs := BlockId(83, 53, 0, "minecraft:oak_stairs")
  const Chest := BlockId(84, 54, 0, "minecraft:chest")
  const RedstoneWire := BlockId(85, 55, 0, "minecraft:redstone_wire")
  const DiamondOre := BlockId(86, 56, 0, "minecraft:diamond_ore")
  const DiamondBlock := BlockId(87, 57, 0, "minecraft:diamond_block")
  const Workbench := BlockId(88, 58, 0, "minecraft:crafting_table")
  const Crops := BlockId(89, 59, 0, "minecraft:wheat")
  const Soil := BlockId(90, 60, 0, "minecraft:farmland")
  const Furnace := BlockId(91, 61, 0, "minecraft:furnace")
  const BurningFurnace := BlockId(92, 62, 0, "minecraft:furnace")
  const SignPost := BlockId(93, 63, 0, "minecraft:oak_sign")
  const WoodenDoor := BlockId(94, 64, 0, "minecraft:oak_door")
  const Ladder := BlockId(95, 65, 0, "minecraft:ladder")
  const Rails := BlockId(96, 66, 0, "minecraft:rail")
  const CobblestoneStairs := BlockId(97, 67, 0, "minecraft:cobblestone_stairs")
  const WallSign := BlockId(98, 68, 0, "minecraft:oak_sign")
  const Lever := BlockId(99, 69, 0, "minecraft:lever")
  const StonePlate := BlockId(100, 70, 0, "minecraft:stone_pressure_plate")
  const IronDoorBlock := BlockId(101, 71, 0, "minecraft:iron_door")
  const WoodPlate := BlockId(102, 72, 0, "minecraft:oak_pressure_plate")
  const RedstoneOre := BlockId(103, 73, 0, "minecraft:redstone_ore")
  const GlowingRedstoneOre := BlockId(104, 74, 0, "minecraft:redstone_ore")
  const RedstoneTorchOffGround := BlockId(105, 75, 5, "minecraft:redstone_torch")
  const RedstoneTorchOffWall := BlockId(106, 75, 0, "minecraft:wall_redstone_torch")
  const RedstoneTorchOnGround := BlockId(107, 76, 5, "minecraft:redstone_torch")
  const RedstoneTorchOnWall := BlockId(108, 76, 0, "minecraft:wall_redstone_torch")
  const StoneButton := BlockId(109, 77, 0, "minecraft:stone_button")
  const Snow := BlockId(110, 78, 0, "minecraft:snow")
  const Ice := BlockId(111, 79, 0, "minecraft:ice")
  const SnowBlock := BlockId(112, 80, 0, "minecraft:snow_block")
  const Cactus := BlockId(113, 81, 0, "minecraft:cactus")
  const Clay := BlockId(114, 82, 0, "minecraft:clay_block")
  const SugarCaneBlock := BlockId(115, 83, 0, "minecraft:sugar_cane")
  const Jukebox := BlockId(116, 84, 0, "minecraft:jukebox")
  const Fence := BlockId(117, 85, 0, "minecraft:oak_fence")
  const Pumpkin := BlockId(118, 86, 0, "minecraft:pumpkin")
  const Netherrack := BlockId(119, 87, 0, "minecraft:netherrack")
  const SoulSand := BlockId(120, 88, 0, "minecraft:soul_sand")
  const Glowstone := BlockId(121, 89, 0, "minecraft:glowstone")
  const Portal := BlockId(122, 90, 0, "minecraft:nether_portal")
  const JackOLantern := BlockId(123, 91, 0, "minecraft:jack_o_lantern")
  const CakeBlock := BlockId(124, 92, 0, "minecraft:cake")
  const DiodeOff := BlockId(125, 93, 0, "minecraft:repeater")
  const DiodeOn := BlockId(126, 94, 0, "minecraft:repeater")
  const LockedChest := BlockId(127, 95, 0, "minecraft:chest_locked_aprilfools_super_old_legacy_we_should_not_even_have_this")
  const TrapDoor := BlockId(128, 96, 0, "minecraft:oak_trapdoor")

  /** The constants declared before the leaves. */
  const BeforeLeaves: seq<BlockId> := [
    Stone, Grass, Dirt, Cobblestone, Wood, OakSapling, SpruceSapling, BirchSapling, Bedrock,
    Water, StationaryWater, Lava, StationaryLava, Sand, Gravel, GoldOre, IronOre, CoalOre,
    OakLog, SpruceLog, BirchLog]

  /** The four leaves constants, in declaration order. */
  const LeavesRun: seq<BlockId> := [OakLeaves, SpruceLeaves, BirchLeaves, SpecialLeaves]

  /** The constants declared after the leaves. */
  const AfterLeaves: seq<BlockId> := [
    Sponge, Glass, LapisOre, LapisBlock, Dispenser, Sandstone, NoteBlock, Bed, GoldenRail,
    DetectorRail, PistonSticky, Web, LongGrass, Fern, DeadBush, Piston, PistonExtension, Wool,
    OrangeWool, MagentaWool, LightblueWool, YellowWool, LimeWool, PinkWool, GrayWool,
    LightgrayWool, CyanWool, PurpleWool, BlueWool, BrownWool, GreenWool, RedWool, BlackWool,
    PistonMoving, YellowFlower, RedRose, BrownMushroom, RedMushroom, GoldBlock, IronBlock,
    DoubleStepStone, DoubleStepSandstone, DoubleStepOak, DoubleStepCobblestone,
    DoubleStepSpecial, StepStone, StepSandstone, StepOak, StepCobblestone, Brick, Tnt,
    Bookshelf, MossyCobblestone, Obsidian, TorchGround, TorchWall, Fire, MobSpawner,
    WoodStairs, Chest, RedstoneWire, DiamondOre, DiamondBlock, Workbench, Crops, Soil, Furnace,
    BurningFurnace, SignPost, WoodenDoor, Ladder, Rails, CobblestoneStairs, WallSign, Lever,
    StonePlate, IronDoorBlock, WoodPlate, RedstoneOre, GlowingRedstoneOre,
    RedstoneTorchOffGround, RedstoneTorchOffWall, RedstoneTorchOnGround, RedstoneTorchOnWall,
    StoneButton, Snow, Ice, SnowBlock, Cactus, Clay, SugarCaneBlock, Jukebox, Fence, Pumpkin,
    Netherrack, SoulSand, Glowstone, Portal, JackOLantern, CakeBlock, DiodeOff, DiodeOn,
    LockedChest, TrapDoor]

  /** `values()`: every constant in declaration order. */
  const Values: seq<BlockId> := BeforeLeaves + LeavesRun + AfterLeaves

  // ---------------------------------------------------------------------
  // Groups of constants singled out by the catalogue

  predicate IsLeaves(b: BlockId)
  {
    b == OakLeaves || b == SpruceLeaves || b == BirchLeaves || b == SpecialLeaves
  }

  predicate IsLog(b: BlockId)
  {
    b == OakLog || b == SpruceLog || b == BirchLog
  }

  /** Only the flowing variants count as fluids. */
  predicate IsFluid(b: BlockId)
  {
    b == Water || b == Lava
  }

  predicate IsCobbleContainer(b: BlockId)
  {
    b == Dispenser || b == Furnace || b == BurningFurnace
  }

  predicate IsRail(b: BlockId)
  {
    b == Rails || b == GoldenRail || b == DetectorRail
  }

  predicate IsPistonVariant(b: BlockId)
  {
    b == PistonSticky || b == Piston || b == PistonExtension || b == PistonMoving
  }

  // ---------------------------------------------------------------------
  // Lookup

  /** Constant `b` answers the query (id, data); leaves compare only the
      two low bits of the data. */
  predicate Matches(b: BlockId, id: Int32, data: Int32)
  {
    b.id == id && b.data == (if IsLeaves(b) then And(data, 3) else data)
  }

  /** Position `j` of `entries` holds the first constant, at or after `i`,
      that answers (id, data). */
  ghost predicate FirstMatchFrom(entries: seq<BlockId>, id: Int32, data: Int32, i: int, j: int)
  {
    0 <= i <= j < |entries| && Matches(entries[j], id, data)
    && forall k :: i <= k < j ==> !Matches(entries[k], id, data)
  }

  /** The scan of `query`: the first constant of `entries`, from position
      `i` on, that answers (id, data). */
  function Lookup(entries: seq<BlockId>, id: Int32, data: Int32, i: nat): (r: Option<BlockId>)
    requires i <= |entries|
    ensures r.None? <==> forall k :: i <= k < |entries| ==> !Matches(entries[k], id, data)
    ensures r.Some? ==> exists j :: FirstMatchFrom(entries, id, data, i, j) && entries[j] == r.value
    decreases |entries| - i
  {
    if i == |entries| then None
    else if Matches(entries[i], id, data) then
      assert FirstMatchFrom(entries, id, data, i, i);
      Some(entries[i])
    else
      var r := Lookup(entries, id, data, i + 1);
      SkipMismatch(entries, id, data, i, r);
      r
  }

  lemma SkipMismatch(entries: seq<BlockId>, id: Int32, data: Int32, i: nat, r: Option<BlockId>)
    requires i < |entries| && !Matches(entries[i], id, data)
    requires r.Some? ==> exists j :: FirstMatchFrom(entries, id, data, i + 1, j) && entries[j] == r.value
    ensures r.Some? ==> exists j :: FirstMatchFrom(entries, id, data, i, j) && entries[j] == r.value
  {
    if r.Some? {
      var j :| FirstMatchFrom(entries, id, data, i + 1, j) && entries[j] == r.value;
      assert FirstMatchFrom(entries, id, data, i, j);
    }
  }

  /** `query(id, data)`: the first constant in declaration order that
      answers (id, data), or none (`null`). */
  function Query(id: Int32, data: Int32): (r: Option<BlockId>)
    ensures r.None? <==> forall k :: 0 <= k < |Values| ==> !Matches(Values[k], id, data)
    ensures r.Some? ==> exists j :: FirstMatchFrom(Values, id, data, 0, j) && Values[j] == r.value
    ensures r.Some? ==> r.value.id == id
  {
    Lookup(Values, id, data, 0)
  }

  /** `query(id)`: the lookup with data 0. */
  function QueryId(id: Int32): (r: Option<BlockId>)
    ensures r.Some? ==> r.value.id == id && r.value.data == 0
  {
    Mask3(0);
    Query(id, 0)
  }

  // ---------------------------------------------------------------------
  // Properties of the lookup

  /** Two first matches from the same start are the same position. */
  lemma FirstMatchUnique(entries: seq<BlockId>, id: Int32, data: Int32, i: int, j: int, j2: int)
    requires FirstMatchFrom(entries, id, data, i, j) && FirstMatchFrom(entries, id, data, i, j2)
    ensures j == j2
  {
  }

  /** The data values of the leaves run are 0, 1, 2, 3 in order. */
  lemma LeavesRunData(t: int)
    requires 0 <= t < 4
    ensures IsLeaves(LeavesRun[t]) && LeavesRun[t].id == 18 && LeavesRun[t].data == t
  {
  }

  /** No constant declared before the leaves has id 18. */
  lemma BeforeLeavesIds(k: int)
    requires 0 <= k < |BeforeLeaves|
    ensures BeforeLeaves[k].id < 18
  {
  }

  /** In any catalogue that lists the leaves run after constants with
      other ids, id 18 finds the leaves constant whose data is `d mod 4`. */
  lemma {:induction false} LeavesFound(p: seq<BlockId>, rest: seq<BlockId>, d: Int32)
    requires forall k :: 0 <= k < |p| ==> p[k].id != 18
    ensures Lookup(p + LeavesRun + rest, 18, d, 0) == Some(LeavesRun[d % 4])
  {
    var entries := p + LeavesRun + rest;
    var t := d % 4;
    var j := |p| + t;
    Mask3(d);
    assert entries[j] == LeavesRun[t];
    LeavesRunData(t);
    forall k | 0 <= k < j
      ensures !Matches(entries[k], 18, d)
    {
      if k < |p| {
        assert entries[k] == p[k];
      } else {
        assert entries[k] == LeavesRun[k - |p|];
        LeavesRunData(k - |p|);
      }
    }
    assert FirstMatchFrom(entries, 18, d, 0, j);
    var r := Lookup(entries, 18, d, 0);
    var j2 :| FirstMatchFrom(entries, 18, d, 0, j2) && entries[j2] == r.value;
    FirstMatchUnique(entries, 18, d, 0, j, j2);
  }

  /** No constant declared before the leaves has id 18. */
  lemma BeforeLeavesNot18()
    ensures forall k :: 0 <= k < |BeforeLeaves| ==> BeforeLeaves[k].id != 18
  {
    forall k | 0 <= k < |BeforeLeaves|
      ensures BeforeLeaves[k].id != 18
    {
      BeforeLeavesIds(k);
    }
  }

  /** Leaves ignore all but the two low bits of the data: `query(18, d)`
      is `query(18, d & 3)`, and it always finds a leaves constant. */
  lemma LeavesIgnoreHighBits(d: Int32)
    ensures Query(18, d) == Query(18, And(d, 3))
    ensures Query(18, d).Some? && IsLeaves(Query(18, d).value)
  {
    BeforeLeavesNot18();
    var t := d % 4;
    assert And(d, 3) == t && t % 4 == t by { Mask3(d); }
    assert Query(18, d) == Some(LeavesRun[t]) by {
      LeavesFound(BeforeLeaves, AfterLeaves, d);
    }
    assert Query(18, And(d, 3)) == Some(LeavesRun[t]) by {
      LeavesFound(BeforeLeaves, AfterLeaves, And(d, 3));
    }
    LeavesRunData(t);
  }

  // ---------------------------------------------------------------------
  // Properties

  /** The block-state property keys the legacy layer writes. */
  datatype Property = Axis | Type | Lit | Facing | Part | Level | Shape | Powered | Extended | Layers | Snowy

  /** The key string each property is stored under. */
  function KeyName(p: Property): string
  {
    match p
    case Axis => "axis"
    case Type => "type"
    case Lit => "lit"
    case Facing => "facing"
    case Part => "part"
    case Level => "level"
    case Shape => "shape"
    case Powered => "powered"
    case Extended => "extended"
    case Layers => "layers"
    case Snowy => "snowy"
  }

  /** The properties a constant carries whatever its metadata. */
  function BasicProperties(b: BlockId): (r: map<Property, string>)
    ensures r.Keys <= {Axis, Type, Lit}
    ensures Axis in r <==> IsLog(b)
  {
    if IsLog(b) then map[Axis := "y"]
    else if b == DoubleStepStone || b == DoubleStepSandstone || b == DoubleStepOak
      || b == DoubleStepCobblestone then map[Type := "double"]
    else if b == StepStone || b == StepSandstone || b == StepOak || b == StepCobblestone then
      map[Type := "bottom"]
    else if b == BurningFurnace || b == GlowingRedstoneOre || b == RedstoneTorchOnGround
      || b == RedstoneTorchOnWall || b == DiodeOn then map[Lit := "true"]
    else if b == RedstoneTorchOffGround || b == RedstoneTorchOffWall || b == DiodeOff then
      map[Lit := "false"]
    else map[]
  }

  const BedFacings: seq<string> := ["west", "north", "east", "south"]
  const ContainerFacings: seq<string> := ["east", "west", "north", "south"]
  const RailShapes: seq<string> := ["east_west", "north_south", "ascending_south",
    "ascending_north", "ascending_east", "ascending_west", "south_west", "north_west",
    "north_east", "south_east", "ascending_south", "ascending_north", "ascending_east",
    "ascending_west"]
  const PistonFacings: seq<string> := ["down", "up", "east", "west", "north", "south"]

  function OnOff(on: bool): string
  {
    if on then "true" else "false"
  }

  /** `hm` with `k` set to `v` when there is a value; every other key is left
      as it was. */
  function Put(hm: map<Property, string>, k: Property, v: Option<string>): (r: map<Property, string>)
    ensures k in r <==> k in hm || v.Some?
    ensures v.Some? ==> r[k] == v.value
    ensures v.None? ==> r == hm
    ensures forall j :: j != k && j in hm ==> j in r && r[j] == hm[j]
    ensures forall j :: j != k && j in r ==> j in hm
  {
    if v.Some? then hm[k := v.value] else hm
  }

  /** The bed facing written for a metadata value: the four directions cycle
      with the metadata, and only 0..15 set one. */
  function BedFacingOf(m: Int32): (f: Option<string>)
    ensures f.Some? <==> 0 <= m < 16
    ensures f.Some? ==> f.value == BedFacings[m % 4]
  {
    if m == 0 || m == 4 || m == 8 || m == 12 then Some("west")
    else if m == 1 || m == 5 || m == 9 || m == 13 then Some("north")
    else if m == 2 || m == 6 || m == 10 || m == 14 then Some("east")
    else if m == 3 || m == 7 || m == 11 || m == 15 then Some("south")
    else None
  }

  /** The facing of a furnace or dispenser: metadata 2..5 only. */
  function ContainerFacingOf(m: Int32): (f: Option<string>)
    ensures f.Some? <==> 2 <= m <= 5
    ensures f.Some? ==> f.value == ContainerFacings[m - 2]
  {
    if m == 4 then Some("north")
    else if m == 2 then Some("east")
    else if m == 5 then Some("south")
    else if m == 3 then Some("west")
    else None
  }

  /** The rail shape: metadata 0..13 index the shape table. */
  function RailShapeOf(m: Int32): (f: Option<string>)
    ensures f.Some? <==> 0 <= m < 14
    ensures f.Some? ==> f.value == RailShapes[m]
  {
    if m == 0 then Some("east_west")
    else if m == 1 then Some("north_south")
    else if m == 2 || m == 10 then Some("ascending_south")
    else if m == 3 || m == 11 then Some("ascending_north")
    else if m == 4 || m == 12 then Some("ascending_east")
    else if m == 5 || m == 13 then Some("ascending_west")
    else if m == 6 then Some("south_west")
    else if m == 7 then Some("north_west")
    else if m == 8 then Some("north_east")
    else if m == 9 then Some("south_east")
    else None
  }

  /** The piston facing: the low three bits choose among six directions, for
      metadata 0..5 and 8..13 only. */
  function PistonFacingOf(m: Int32): (f: Option<string>)
    ensures f.Some? <==> 0 <= m < 14 && m % 8 < 6
    ensures f.Some? ==> f.value == PistonFacings[m % 8]
  {
    if m == 0 || m == 8 then Some("down")
    else if m == 1 || m == 9 then Some("up")
    else if m == 2 || m == 10 then Some("east")
    else if m == 3 || m == 11 then Some("west")
    else if m == 4 || m == 12 then Some("north")
    else if m == 5 || m == 13 then Some("south")
    else None
  }

  /** The fluid level string: the low four bits of the metadata in decimal. */
  function LevelOf(m: Int32): (s: string)
    ensures s == Decimal(m % 16)
    ensures ParseDecimal(s) == Ok(m % 16)
  {
    Mask15(m);
    ParseOfToString(m % 16, 10);
    Decimal(And(m, 15))
  }

  /** The snow layer count string: bit 3 of the metadata selects one or nine. */
  function LayersOf(m: Int32): (s: string)
    ensures s == (if (m / 8) % 2 == 0 then "1" else "9")
  {
    AndBit3Mask(m);
    SmallDecimals();
    Decimal(And(m, 8) + 1)
  }

  lemma SmallDecimals()
    ensures Decimal(1) == "1" && Decimal(9) == "9"
  {
  }

  /** Which of the metadata encodings a constant uses, examined in the order
      `metadataToProperties` examines them. */
  datatype MetadataKind = BedKind | FluidKind | ContainerKind | RailKind(powered: bool)
    | PistonKind | SnowKind | NoMetadata

  function KindOf(b: BlockId): MetadataKind
  {
    if b == Bed then BedKind
    else if IsFluid(b) then FluidKind
    else if IsCobbleContainer(b) then ContainerKind
    else if IsRail(b) then RailKind(b != Rails)
    else if IsPistonVariant(b) then PistonKind
    else if b == Snow then SnowKind
    else NoMetadata
  }

  /** The keys an encoding can add. */
  function KindKeys(k: MetadataKind): set<Property>
  {
    match k
    case BedKind => {Facing, Part}
    case FluidKind => {Level}
    case ContainerKind => {Facing}
    case RailKind(powered) => if powered then {Shape, Powered} else {Shape}
    case PistonKind => {Facing, Extended}
    case SnowKind => {Layers}
    case NoMetadata => {}
  }

  /** The keys the metadata can add for a constant. */
  function MetadataKeys(b: BlockId): set<Property>
  {
    KindKeys(KindOf(b))
  }

  /** What one encoding adds to `hm` for a metadata value; keys outside the
      encoding's own are left alone. */
  function AddMetadata(k: MetadataKind, hm: map<Property, string>, m: Int32): (r: map<Property, string>)
    ensures forall p :: p in hm && p !in KindKeys(k) ==> p in r && r[p] == hm[p]
    ensures forall p :: p in r ==> p in hm || p in KindKeys(k)
  {
    match k
    case BedKind =>
      Put(Put(hm, Facing, BedFacingOf(m)), Part, Some(if m < 8 then "foot" else "head"))
    case FluidKind => Put(hm, Level, Some(LevelOf(m)))
    case ContainerKind => Put(hm, Facing, ContainerFacingOf(m))
    case RailKind(powered) =>
      var withShape := Put(hm, Shape, RailShapeOf(m));
      if powered then Put(withShape, Powered, Some(OnOff(m >= 8))) else withShape
    case PistonKind =>
      Put(Put(hm, Facing, PistonFacingOf(m)), Extended, Some(OnOff(m >= 8)))
    case SnowKind => Put(hm, Layers, Some(LayersOf(m)))
    case NoMetadata => hm
  }

  /** `metadataToProperties(bid, metadata)`: a fresh map holding the basic
      properties plus what the metadata encodes for beds, fluids, furnaces
      and dispensers, rails, pistons and snow. */
  function MetadataToProperties(b: BlockId, m: Int32): (r: map<Property, string>)
    ensures forall k :: k in BasicProperties(b) ==> k in r && r[k] == BasicProperties(b)[k]
    ensures forall k :: k in r ==> k in BasicProperties(b) || k in MetadataKeys(b)
  {
    BasicKeysApart(b);
    AddMetadata(KindOf(b), BasicProperties(b), m)
  }

  /** The metadata never touches a basic property. */
  lemma BasicKeysApart(b: BlockId)
    ensures forall p :: p in BasicProperties(b) ==> p !in KindKeys(KindOf(b))
  {
    KindKeysApart(KindOf(b), BasicProperties(b));
  }

  lemma KindKeysApart(k: MetadataKind, hm: map<Property, string>)
    requires hm.Keys <= {Axis, Type, Lit}
    ensures forall p :: p in hm ==> p !in KindKeys(k)
  {
  }

  /** Beds: the facing follows the metadata modulo 4 for metadata 0..15 and
      is absent otherwise; the part is the foot exactly below 8. */
  lemma BedProperties(m: Int32)
    ensures var r := MetadataToProperties(Bed, m);
      (Facing in r <==> 0 <= m < 16) && (0 <= m < 16 ==> r[Facing] == BedFacings[m % 4])
      && Part in r && r[Part] == (if m < 8 then "foot" else "head")
  {
    assert KindOf(Bed) == BedKind;
    BedAdds(BasicProperties(Bed), m);
  }

  lemma BedAdds(hm: map<Property, string>, m: Int32)
    requires hm.Keys <= {Axis, Type, Lit}
    ensures var r := AddMetadata(BedKind, hm, m);
      (Facing in r <==> 0 <= m < 16) && (0 <= m < 16 ==> r[Facing] == BedFacings[m % 4])
      && Part in r && r[Part] == (if m < 8 then "foot" else "head")
  {
  }

  /** Flowing water and lava: the level reads back as the metadata modulo 16. */
  lemma FluidLevel(b: BlockId, m: Int32)
    requires IsFluid(b)
    ensures var r := MetadataToProperties(b, m);
      Level in r && ParseDecimal(r[Level]) == Ok(m % 16)
  {
    assert KindOf(b) == FluidKind;
  }

  /** Furnaces and dispensers: metadata 2..5 face east, west, north, south;
      any other metadata sets no facing. */
  lemma ContainerFacing(b: BlockId, m: Int32)
    requires IsCobbleContainer(b)
    ensures var r := MetadataToProperties(b, m);
      (Facing in r <==> 2 <= m <= 5) && (2 <= m <= 5 ==> r[Facing] == ContainerFacings[m - 2])
  {
    assert KindOf(b) == ContainerKind;
    ContainerAdds(BasicProperties(b), m);
  }

  lemma ContainerAdds(hm: map<Property, string>, m: Int32)
    requires hm.Keys <= {Axis, Type, Lit}
    ensures var r := AddMetadata(ContainerKind, hm, m);
      (Facing in r <==> 2 <= m <= 5) && (2 <= m <= 5 ==> r[Facing] == ContainerFacings[m - 2])
  {
  }

  /** Rails: the shape follows the table for metadata 0..13 and is absent
      otherwise; only powered and detector rails get `powered`, which is
      true exactly from 8 on. */
  lemma RailProperties(b: BlockId, m: Int32)
    requires IsRail(b)
    ensures var r := MetadataToProperties(b, m);
      (Shape in r <==> 0 <= m < 14) && (0 <= m < 14 ==> r[Shape] == RailShapes[m])
      && (Powered in r <==> b != Rails) && (b != Rails ==> r[Powered] == OnOff(m >= 8))
  {
    assert KindOf(b) == RailKind(b != Rails);
    RailAdds(BasicProperties(b), b != Rails, m);
  }

  lemma RailAdds(hm: map<Property, string>, powered: bool, m: Int32)
    requires hm.Keys <= {Axis, Type, Lit}
    ensures var r := AddMetadata(RailKind(powered), hm, m);
      (Shape in r <==> 0 <= m < 14) && (0 <= m < 14 ==> r[Shape] == RailShapes[m])
      && (Powered in r <==> powered) && (powered ==> r[Powered] == OnOff(m >= 8))
  {
  }

  /** Pistons: the facing follows the low three bits for metadata 0..5 and
      8..13 and is absent for 6, 7, 14, 15 and anything outside 0..15;
      `extended` is true exactly from 8 on. */
  lemma PistonProperties(b: BlockId, m: Int32)
    requires IsPistonVariant(b)
    ensures var r := MetadataToProperties(b, m);
      (Facing in r <==> 0 <= m < 14 && m % 8 < 6)
      && (0 <= m < 14 && m % 8 < 6 ==> r[Facing] == PistonFacings[m % 8])
      && Extended in r && r[Extended] == OnOff(m >= 8)
  {
    assert KindOf(b) == PistonKind;
    PistonAdds(BasicProperties(b), m);
  }

  lemma PistonAdds(hm: map<Property, string>, m: Int32)
    requires hm.Keys <= {Axis, Type, Lit}
    ensures var r := AddMetadata(PistonKind, hm, m);
      (Facing in r <==> 0 <= m < 14 && m % 8 < 6)
      && (0 <= m < 14 && m % 8 < 6 ==> r[Facing] == PistonFacings[m % 8])
      && Extended in r && r[Extended] == OnOff(m >= 8)
  {
  }

  /** Snow: bit 3 of the metadata selects one layer or nine. */
  lemma SnowLayers(m: Int32)
    ensures var r := MetadataToProperties(Snow, m);
      Layers in r && r[Layers] == (if (m / 8) % 2 == 0 then "1" else "9")
  {
    assert KindOf(Snow) == SnowKind;
  }

  /** A lit burning furnace differs from the furnace only in the `lit`
      property, whatever the metadata. */
  lemma LitFurnace(m: Int32)
    ensures MetadataToProperties(BurningFurnace, m) == MetadataToProperties(Furnace, m)[Lit := "true"]
  {
    FurnaceKinds();
    FurnaceBasics();
    PutOtherKey(map[], Lit, "true", Facing, ContainerFacingOf(m));
  }

  lemma FurnaceKinds()
    ensures KindOf(BurningFurnace) == ContainerKind && KindOf(Furnace) == ContainerKind
  {
  }

  lemma FurnaceBasics()
    ensures BasicProperties(BurningFurnace) == map[][Lit := "true"] && BasicProperties(Furnace) == map[]
  {
  }

  /** The powered repeater likewise differs from the unpowered one only in
      `lit`, which is true instead of false. */
  lemma LitDiode(m: Int32)
    ensures MetadataToProperties(DiodeOn, m) == MetadataToProperties(DiodeOff, m)[Lit := "true"]
  {
    DiodeKinds();
    DiodeBasics();
  }

  lemma DiodeKinds()
    ensures KindOf(DiodeOn) == NoMetadata && KindOf(DiodeOff) == NoMetadata
  {
  }

  lemma DiodeBasics()
    ensures BasicProperties(DiodeOn) == map[Lit := "false"][Lit := "true"]
    ensures BasicProperties(DiodeOff) == map[Lit := "false"]
  {
  }

  /** Each lit constant has the modern id of its unlit twin. */
  lemma LitTwinsShareModernId()
    ensures BurningFurnace.modernId == Furnace.modernId
    ensures DiodeOn.modernId == DiodeOff.modernId
  {
  }

  /** Setting one key before or after putting another gives the same map. */
  lemma PutOtherKey(hm: map<Property, string>, k: Property, v: string, j: Property, w: Option<string>)
    requires k != j
    ensures Put(hm[k := v], j, w) == Put(hm, j, w)[k := v]
  {
    if w.Some? {
      assert hm[k := v][j := w.value] == hm[j := w.value][k := v];
    }
  }
}
