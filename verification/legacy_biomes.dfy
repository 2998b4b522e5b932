/** The table from the biomes of the old world generator to the namespaced
    biome ids of the modern format. */
module LegacyBiomes {
  import opened JavaInt
  import opened JavaText

  /** A biome of the old generator. The twelve named ones have a table
      entry; `Other` stands for any further biome value, such as the sky
      biome, which has none. */
  datatype BiomeBase = Desert | Plains | Forest | Taiga | Tundra | Shrubland | Rainforest
    | Savanna | SeasonalForest | IceDesert | Swampland | Hell | Other(name: string)

  /** `BIOME_IDS`, filled once in declaration order. */
  const BiomeIds: map<BiomeBase, string> := map[
    Desert := "minecraft:desert",
    Plains := "minecraft:plains",
    Forest := "minecraft:forest",
    Taiga := "minecraft:taiga",
    Tundra := "minecraft:tundra",
    Shrubland := "minecraft:shrubland",
    Rainforest := "minecraft:rain_forest",
    Savanna := "minecraft:savannah",
    SeasonalForest := "minecraft:seasonal_forest",
    IceDesert := "minecraft:tundra",
    Swampland := "minecraft:swampland",
    Hell := "minecraft:nether"]

  const NAMESPACE: string := "minecraft:"

  /** `idFor(base)`: the table entry, or none (`null`) for a biome without
      one. Every id it gives lies in the `minecraft` namespace. */
  function IdFor(b: BiomeBase): (r: Option<string>)
    ensures r.Some? <==> !b.Other?
    ensures r.Some? ==> StartsWith(r.value, NAMESPACE)
  {
    if b in BiomeIds then Some(BiomeIds[b]) else None
  }

  // ---------------------------------------------------------------------
  // Properties

  /** The old tundra and the ice desert both become the modern tundra, so
      the table is not injective. */
  lemma TundraShared()
    ensures IdFor(Tundra) == IdFor(IceDesert) == Some("minecraft:tundra")
    ensures Tundra != IceDesert
  {
  }

  /** The hell biome becomes the nether. */
  lemma HellIsNether()
    ensures IdFor(Hell) == Some("minecraft:nether")
  {
  }

  /** Apart from the tundra pair, different biomes get different ids. */
  lemma OnlyTundraCollides(a: BiomeBase, b: BiomeBase)
    requires IdFor(a).Some? && IdFor(a) == IdFor(b)
    ensures a == b || (a in {Tundra, IceDesert} && b in {Tundra, IceDesert})
  {
  }
}
