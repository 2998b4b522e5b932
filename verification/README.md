# BlueMap legacy world layer, modelled in Dafny

This project models the part of BlueMap that reads worlds saved by the
oldest Minecraft versions (alpha, beta and the McRegion releases) and turns
them into modern block, biome and light states. It covers:

- the packed 4-bit storage of block metadata and light (`NibbleArray`);
- the legacy block catalogue with its first-match lookup and its
  metadata-to-property table (`BlockID`), and the biome id table
  (`LegacyBiomes`);
- the two chunk decoders over already decoded fields: the 128-high column
  of the chunk-per-file format (`DatChunk`) and the sectioned McRegion chunk
  (`ChunkMcRegion`);
- region naming and dispatch: the base-36 file names of the chunk-per-file
  format, the parse back from a file name, listing and loading a region's
  single chunk (`DatRegion`), and the choice between the two region formats
  (`RegionType`);
- version parsing, ordering, hashing and best-matching-resource selection
  (`MinecraftVersion`);
- the block-to-chunk and chunk-to-region routing and the three-attempt
  chunk load of the chunk-per-file world (`DatWorld`).

Java's semantics are written out where they matter: `int` is `JavaInt.Int32`
and `byte` is `JavaInt.Byte` (signed); `&`, `|`, `<<` and `>>` are modelled
bit-exactly (module `JavaInt`); `%` truncates toward zero (`JavaInt.Rem`);
`Integer.toString`/`Integer.parseInt` with a radix and `String.split` with
its trailing-empty rule are in module `JavaText`; paths are sequences of
components (module `Paths`). Java exceptions become `Err` values of a
`Result`, with the exception kind (`IndexOutOfBounds`, `NullPointer`,
`NumberFormat`, `IllegalArgument`, `NegativeArraySize`, `IOFailure`) kept.

What the code gets from outside enters as parameters:

- the decoded chunk tags (`DatChunks.DatChunk` fields, `McRegionChunks.ChunkTag`)
  stand for the binary tag reader;
- `DatRegions.FileStatus` stands for `Files.notExists`/`Files.size`, and
  `decoded` for the outcome of reading the chunk file;
- `onDisk: Path -> bool` stands for `Files.exists` in `RegionType.loadRegion`;
- `RegionTypes.McrFormat` stands for the McRegion region class's file suffix
  and file name function;
- `McRegionChunks.WorldSettings` stands for the world's sky light and its
  ignore-missing-light flag;
- in `DatWorlds.LoadChunk`, `attempt(rx, rz, i)` is what the region cache and
  the region answer on attempt `i` (`None` for an exception), and
  `interrupted(i)` says whether the wait after attempt `i` is interrupted;
  `chunkAt` in `ColumnQuery` stands for the chunk cache.

Quirks of the code are modelled as they are:

- `ChunkMcRegion.Section.palette` is never assigned, so a present section's
  block lookup always ends in a `NullPointer` error.
- Section light is read through the 128-high column layout against arrays
  padded to 2048 bytes, so masked x of 2 or more runs past the array.
- `NibbleArray.getData` checks the byte index against 16384, not against
  the array length, so a short array gives an `IndexOutOfBounds` error.
- Region folders are `x % 64` with Java's truncating `%`, so negative
  coordinates give folders such as `-1`.

## Model

| member | source | states |
|---|---|---|
| Nibbles.OfLength | BlueMapCore/src/main/java/de/bluecolored/bluemap/core/mcr/NibbleArray.java:8-10 | a negative length fails with NegativeArraySize; otherwise the array holds `n >> 1` bytes (twice its length is n or n - 1), all zero |
| Nibbles.GetData | BlueMapCore/src/main/java/de/bluecolored/bluemap/core/mcr/NibbleArray.java:16-23 | every value read lies in 0..15; the read fails (IndexOutOfBounds) exactly when the byte index passes the 0..16384 guard but lies beyond the array |
| Nibbles.SetData | BlueMapCore/src/main/java/de/bluecolored/bluemap/core/mcr/NibbleArray.java:25-35 | fails exactly when the byte index is outside the array; otherwise the length is kept, every other byte is unchanged, the addressed nibble becomes `v mod 16` and its sibling nibble in the same byte is kept |
| Nibbles.ReadHigh | BlueMapCore/src/main/java/de/bluecolored/bluemap/core/mcr/NibbleArray.java:22 | `b >> 4 & 15` on a signed byte is its high nibble (bits 4..7) |
| Nibbles.WriteLow | BlueMapCore/src/main/java/de/bluecolored/bluemap/core/mcr/NibbleArray.java:31 | the low-nibble write stores `v mod 16` in bits 0..3 and keeps bits 4..7 |
| Nibbles.WriteHigh | BlueMapCore/src/main/java/de/bluecolored/bluemap/core/mcr/NibbleArray.java:33 | the high-nibble write stores `v mod 16` in bits 4..7 and keeps bits 0..3 |
| Nibbles.IndexInColumn | BlueMapCore/src/main/java/de/bluecolored/bluemap/core/mcr/NibbleArray.java:17 | for x, z in 0..15 and y in 0..127 the index `x<<11 \| z<<7 \| y` equals x*2048 + z*128 + y, and its byte index is below 16384 |
| Nibbles.IndexInjective | BlueMapCore/src/main/java/de/bluecolored/bluemap/core/mcr/NibbleArray.java:17 | inside the column, two positions with the same index are the same position |
| Nibbles.GetDataReadsNibble | BlueMapCore/src/main/java/de/bluecolored/bluemap/core/mcr/NibbleArray.java:18-22 | within the guard and the array, an even index reads the low nibble and an odd index the high nibble of byte `index >> 1` |
| Nibbles.GetDataOutsideLimit | BlueMapCore/src/main/java/de/bluecolored/bluemap/core/mcr/NibbleArray.java:21 | a byte index below 0 or above 16384 reads 0, whatever the array holds |
| Nibbles.ColumnRead | BlueMapCore/src/main/java/de/bluecolored/bluemap/core/mcr/NibbleArray.java:16-23 | on a full-size array, every column position reads its own nibble |
| Nibbles.SetThenGet | BlueMapCore/src/main/java/de/bluecolored/bluemap/core/mcr/NibbleArray.java:25-35 | reading back a successful write gives `v & 15` (or 0 past the read guard) |
| Nibbles.SetKeepsOthers | BlueMapCore/src/main/java/de/bluecolored/bluemap/core/mcr/NibbleArray.java:25-35 | a write leaves the reading at every other index unchanged, including the sibling nibble |
| Nibbles.ColumnWrite | BlueMapCore/src/main/java/de/bluecolored/bluemap/core/mcr/NibbleArray.java:25-35 | on a full-size array a column write cannot fail, is read back as `v mod 16`, and changes no other column position |
| BlockIds.Lookup | BlueMapCore/src/main/java/de/bluecolored/bluemap/core/mcr/BlockID.java:162-171 | the scan finds nothing exactly when no entry from the start matches, and otherwise returns the first matching entry |
| BlockIds.Query | BlueMapCore/src/main/java/de/bluecolored/bluemap/core/mcr/BlockID.java:161-172 | null exactly when no entry matches (id equal, data equal after masking leaves data to 2 bits); otherwise the first match in declaration order, whose id is the one asked for |
| BlockIds.QueryId | BlueMapCore/src/main/java/de/bluecolored/bluemap/core/mcr/BlockID.java:157-159 | a found entry has the id asked for and data 0 |
| BlockIds.FirstMatchUnique | BlueMapCore/src/main/java/de/bluecolored/bluemap/core/mcr/BlockID.java:161-172 | the first match of a query is one well-defined entry |
| BlockIds.LeavesIgnoreHighBits | BlueMapCore/src/main/java/de/bluecolored/bluemap/core/mcr/BlockID.java:164-167 | `query(18, d) == query(18, d & 3)` for every d, and the result is always one of the four leaves |
| BlockIds.BasicProperties | BlueMapCore/src/main/java/de/bluecolored/bluemap/core/mcr/BlockID.java:190-214 | the fixed properties use only the keys axis, type and lit, and an entry has an axis exactly when it is a log |
| BlockIds.BedFacingOf | BlueMapCore/src/main/java/de/bluecolored/bluemap/core/mcr/BlockID.java:245-252 | a bed faces some way exactly for metadata 0..15, namely west, north, east, south by metadata mod 4 |
| BlockIds.ContainerFacingOf | BlueMapCore/src/main/java/de/bluecolored/bluemap/core/mcr/BlockID.java:264-271 | a container faces some way exactly for metadata 2..5 (east, west, north, south) |
| BlockIds.RailShapeOf | BlueMapCore/src/main/java/de/bluecolored/bluemap/core/mcr/BlockID.java:274-293 | a rail has a shape exactly for metadata 0..13, taken from the fixed shape table |
| BlockIds.PistonFacingOf | BlueMapCore/src/main/java/de/bluecolored/bluemap/core/mcr/BlockID.java:302-313 | a piston faces some way exactly for metadata in 0..13 with `m mod 8 < 6`, by `m mod 8` |
| BlockIds.LevelOf | BlueMapCore/src/main/java/de/bluecolored/bluemap/core/mcr/BlockID.java:260-262 | the level string is exactly the decimal spelling of `metadata mod 16` (so `& 15` is the remainder) and reads back as that number |
| BlockIds.LayersOf | BlueMapCore/src/main/java/de/bluecolored/bluemap/core/mcr/BlockID.java:321-324 | the layers string is "1" or "9", by bit 3 of the metadata |
| BlockIds.AddMetadata | BlueMapCore/src/main/java/de/bluecolored/bluemap/core/mcr/BlockID.java:244-325 | the metadata step keeps every property outside its kind's keys and adds only keys of its kind |
| BlockIds.MetadataToProperties | BlueMapCore/src/main/java/de/bluecolored/bluemap/core/mcr/BlockID.java:240-242 | the result holds every basic property of the entry with its value, and no key other than basic ones and those of the entry's kind |
| BlockIds.BedProperties | BlueMapCore/src/main/java/de/bluecolored/bluemap/core/mcr/BlockID.java:244-257 | bed: facing by metadata mod 4 for metadata 0..15, none otherwise; part is "foot" exactly below 8, else "head" |
| BlockIds.FluidLevel | BlueMapCore/src/main/java/de/bluecolored/bluemap/core/mcr/BlockID.java:259-262 | water and lava get a level that reads back as `metadata & 15` |
| BlockIds.ContainerFacing | BlueMapCore/src/main/java/de/bluecolored/bluemap/core/mcr/BlockID.java:263-272 | dispensers and furnaces face some way exactly for metadata 2..5 |
| BlockIds.RailProperties | BlueMapCore/src/main/java/de/bluecolored/bluemap/core/mcr/BlockID.java:273-300 | rails get the table shape for metadata 0..13; only golden and detector rails get "powered", "true" exactly from metadata 8 |
| BlockIds.PistonProperties | BlueMapCore/src/main/java/de/bluecolored/bluemap/core/mcr/BlockID.java:301-318 | pistons get no facing for metadata 6, 7, 14, 15 (or outside 0..15); "extended" is "true" exactly from metadata 8 |
| BlockIds.SnowLayers | BlueMapCore/src/main/java/de/bluecolored/bluemap/core/mcr/BlockID.java:320-325 | snow layers are `(metadata & 8) + 1`, so always "1" or "9" |
| BlockIds.LitFurnace | BlueMapCore/src/main/java/de/bluecolored/bluemap/core/mcr/BlockID.java:206 | a burning furnace gets exactly the furnace's properties plus lit "true" |
| BlockIds.LitDiode | BlueMapCore/src/main/java/de/bluecolored/bluemap/core/mcr/BlockID.java:212-213 | a powered repeater gets exactly the unpowered one's properties with lit turned to "true" |
| BlockIds.LitTwinsShareModernId | BlueMapCore/src/main/java/de/bluecolored/bluemap/core/mcr/BlockID.java:99-100 | lit and unlit twins map to the same modern block id |
| LegacyBiomes.IdFor | BlueMapCore/src/main/java/de/bluecolored/bluemap/core/mcr/LegacyBiomes.java:34-53 | an id exists exactly for the twelve table biomes (null for any other), and every id lies in the `minecraft:` namespace |
| LegacyBiomes.TundraShared | BlueMapCore/src/main/java/de/bluecolored/bluemap/core/mcr/LegacyBiomes.java:41-46 | tundra and ice desert are distinct biomes with the same id "minecraft:tundra" |
| LegacyBiomes.HellIsNether | BlueMapCore/src/main/java/de/bluecolored/bluemap/core/mcr/LegacyBiomes.java:48 | hell maps to "minecraft:nether" |
| LegacyBiomes.OnlyTundraCollides | BlueMapCore/src/main/java/de/bluecolored/bluemap/core/mcr/LegacyBiomes.java:37-48 | the table is injective except for the tundra/ice desert pair |
| DatChunks.BlockIdAt | BlueMapCore/src/main/java/de/bluecolored/bluemap/core/dat/DatChunk.java:59 | the read succeeds exactly inside the array, and `byte & 127` is the byte mod 128, in 0..127 |
| DatChunks.Resolve | BlueMapCore/src/main/java/de/bluecolored/bluemap/core/dat/DatChunk.java:65-71 | lookup with the metadata wins; when it misses, the result is the metadata-0 lookup; nothing is found exactly when both fail; a found entry has the block's id |
| DatChunks.SnowyAbove | BlueMapCore/src/main/java/de/bluecolored/bluemap/core/dat/DatChunk.java:76-84 | at the top of the column the flag is "false" without reading above; below it the flag succeeds exactly when the block above can be read, and is "true" exactly when that block is snow (78) or a snow block (80); reads above can only fail with IndexOutOfBounds |
| DatChunks.GetBlockState | BlueMapCore/src/main/java/de/bluecolored/bluemap/core/dat/DatChunk.java:51-90 | an empty block array or y outside 0..127 gives air; the only failure is an array read out of bounds |
| DatChunks.ColumnBlockState | BlueMapCore/src/main/java/de/bluecolored/bluemap/core/dat/DatChunk.java:59-89 | past the guards, the only failure is an array read out of bounds |
| DatChunks.MaskedCoordinates | BlueMapCore/src/main/java/de/bluecolored/bluemap/core/dat/DatChunk.java:57 | block state and light depend on x and z only through `x & 15` and `z & 15` |
| DatChunks.FullChunkState | BlueMapCore/src/main/java/de/bluecolored/bluemap/core/dat/DatChunk.java:51-90 | on a chunk with full-size arrays every y in 0..127 gives the state of the reference decoding at (x mod 16, y, z mod 16), never an error |
| DatChunks.ZeroIsAir | BlueMapCore/src/main/java/de/bluecolored/bluemap/core/dat/DatChunk.java:62-63 | block id 0 is air |
| DatChunks.StateIsResolved | BlueMapCore/src/main/java/de/bluecolored/bluemap/core/dat/DatChunk.java:65-87 | a decoded state comes from a catalogue entry with the block's id and carries that entry's modern id |
| DatChunks.SnowyRule | BlueMapCore/src/main/java/de/bluecolored/bluemap/core/dat/DatChunk.java:73-85 | grass gets snowy "true" exactly when y + 1 < 128 and the block above is snow (78) or a snow block (80); every other block gets exactly the metadata properties, without a snowy key |
| DatChunks.TopGrassNotSnowy | BlueMapCore/src/main/java/de/bluecolored/bluemap/core/dat/DatChunk.java:78-84 | grass at y = 127 is never snowy |
| DatChunks.GetLightData | BlueMapCore/src/main/java/de/bluecolored/bluemap/core/dat/DatChunk.java:93-110 | both arrays empty gives (0, 0); an empty array contributes 0; values lie in 0..15; the only failure is an out-of-bounds read |
| DatChunks.FullChunkLight | BlueMapCore/src/main/java/de/bluecolored/bluemap/core/dat/DatChunk.java:93-110 | with full-size light arrays, light is the two nibbles at (x mod 16, y, z mod 16) |
| McRegionChunks.PadNonEmpty | BlueMapCore/src/main/java/de/bluecolored/bluemap/core/mcr/ChunkMcRegion.java:174-177 | a non-empty array shorter than n is zero-padded to n; an empty array or a long one is kept |
| McRegionChunks.PaddedUnique | BlueMapCore/src/main/java/de/bluecolored/bluemap/core/mcr/ChunkMcRegion.java:174-177 | the padding rule (length, original bytes kept, zeros after) determines the array, so every padded array of a section is fixed by its tag |
| McRegionChunks.NewSection | BlueMapCore/src/main/java/de/bluecolored/bluemap/core/mcr/ChunkMcRegion.java:167-177 | a section keeps its Y; each of its four arrays keeps the tag's bytes, a non-empty one shorter than 256 (blocks, metadata) or 2048 (sky and block light) is zero-padded to that length, and an empty one stays empty |
| McRegionChunks.LastWithY | BlueMapCore/src/main/java/de/bluecolored/bluemap/core/mcr/ChunkMcRegion.java:70-73 | the section that ends up in a slot is one of the tag's sections with that Y, and the slot is empty exactly when none has it |
| McRegionChunks.NewChunk | BlueMapCore/src/main/java/de/bluecolored/bluemap/core/mcr/ChunkMcRegion.java:51-98 | light is present exactly for status full, fullchunk or postprocessed; there are 32 section slots, or none without a Sections key; at least 256 biome entries |
| McRegionChunks.GeneratedFlag | BlueMapCore/src/main/java/de/bluecolored/bluemap/core/mcr/ChunkMcRegion.java:56-66 | generated exactly for the three lit statuses or, with the ignore-missing-light setting, any status but "empty"; the light flag keeps the value before the override |
| McRegionChunks.PlaceAllSlot | BlueMapCore/src/main/java/de/bluecolored/bluemap/core/mcr/ChunkMcRegion.java:70-73 | placing a list of sections leaves in slot k the last section with Y = k, or the slot's old content |
| McRegionChunks.SectionsPlaced | BlueMapCore/src/main/java/de/bluecolored/bluemap/core/mcr/ChunkMcRegion.java:68-76 | slot k of a new chunk holds the last section with Y = k, or nothing; sections with Y outside 0..31 are dropped |
| McRegionChunks.SlotsMatchY | BlueMapCore/src/main/java/de/bluecolored/bluemap/core/mcr/ChunkMcRegion.java:72 | a section stored in slot k has Y = k |
| McRegionChunks.RawBiomes | BlueMapCore/src/main/java/de/bluecolored/bluemap/core/mcr/ChunkMcRegion.java:78-89 | byte biomes are read unsigned (`& 0xFF`, 0..255) one for one, int biomes are taken as they are, anything else gives none |
| McRegionChunks.Unsigned8 | BlueMapCore/src/main/java/de/bluecolored/bluemap/core/mcr/ChunkMcRegion.java:84 | `b & 0xFF` is the byte read unsigned, in 0..255 |
| McRegionChunks.NormaliseBiomes | BlueMapCore/src/main/java/de/bluecolored/bluemap/core/mcr/ChunkMcRegion.java:91-97 | the biome array always ends with at least 256 entries |
| McRegionChunks.BiomesKept | BlueMapCore/src/main/java/de/bluecolored/bluemap/core/mcr/ChunkMcRegion.java:78-97 | each final biome entry is the read entry at that index, or 0 past its end (missing, empty and short arrays are zero-filled) |
| McRegionChunks.BiomeAlwaysRead | BlueMapCore/src/main/java/de/bluecolored/bluemap/core/mcr/ChunkMcRegion.java:136-143 | after construction the biome at any (x, z) is entry `(z mod 16) * 16 + x mod 16`; the default-biome branch is never taken |
| McRegionChunks.GetBlockState | BlueMapCore/src/main/java/de/bluecolored/bluemap/core/mcr/ChunkMcRegion.java:111-119 | a block state, when there is one, is air; the only failure is the null palette |
| McRegionChunks.SectionBlockState | BlueMapCore/src/main/java/de/bluecolored/bluemap/core/mcr/ChunkMcRegion.java:214-215 | a section's block lookup always fails, since its palette is never assigned |
| McRegionChunks.BlockStateIsAirOrFails | BlueMapCore/src/main/java/de/bluecolored/bluemap/core/mcr/ChunkMcRegion.java:112-118 | the lookup succeeds (with air) exactly when `y >> 4` is outside the slots or its slot is empty |
| McRegionChunks.GetLightData | BlueMapCore/src/main/java/de/bluecolored/bluemap/core/mcr/ChunkMcRegion.java:122-133 | a chunk without light gives (sky light, 0); the only failure is an out-of-bounds section read |
| McRegionChunks.LightOutsideSections | BlueMapCore/src/main/java/de/bluecolored/bluemap/core/mcr/ChunkMcRegion.java:125-127 | outside the section range, light is (0, 0) below y = 0 and (sky light, 0) above |
| McRegionChunks.LightInsideSections | BlueMapCore/src/main/java/de/bluecolored/bluemap/core/mcr/ChunkMcRegion.java:129-132 | inside the range, an empty slot gives (sky light, 0) and a present section answers for itself |
| McRegionChunks.SectionLight | BlueMapCore/src/main/java/de/bluecolored/bluemap/core/mcr/ChunkMcRegion.java:235-248 | both arrays empty gives (0, 0); an empty array contributes 0; values lie in 0..15; the only failure is an out-of-bounds read |
| McRegionChunks.SectionLightMasked | BlueMapCore/src/main/java/de/bluecolored/bluemap/core/mcr/ChunkMcRegion.java:238-247 | a section's light depends on x, y and z only through `& 15`: the read at (x, y, z) equals the read at (x mod 16, y mod 16, z mod 16) |
| McRegionChunks.SectionLightValue | BlueMapCore/src/main/java/de/bluecolored/bluemap/core/mcr/ChunkMcRegion.java:238-247 | with the padded 2048-byte arrays and masked x below 2, the light is the sky-light and block-light nibbles at the masked position |
| McRegionChunks.SectionLightBounds | BlueMapCore/src/main/java/de/bluecolored/bluemap/core/mcr/ChunkMcRegion.java:238-246 | with the padded 2048-byte arrays the read succeeds exactly for masked x 0 and 1 |
| DatRegions.ChunkFileName | BlueMapCore/src/main/java/de/bluecolored/bluemap/core/dat/region/DatRegion.java:81 | the chunk's own file name ends with ".dat" |
| DatRegions.RegionFileName | BlueMapCore/src/main/java/de/bluecolored/bluemap/core/dat/region/DatRegion.java:80-82 | every generated region file name ends with FILE_SUFFIX ".dat" |
| DatRegions.RegionFileNameShape | BlueMapCore/src/main/java/de/bluecolored/bluemap/core/dat/region/DatRegion.java:81 | the name is the two base-36 folders `x % 64`, `z % 64` and the chunk's file name, joined by slashes |
| DatRegions.NewDatRegion | BlueMapCore/src/main/java/de/bluecolored/bluemap/core/dat/region/DatRegion.java:29-38 | a region keeps its file; failure is NullPointer exactly for a path without a file name, otherwise a missing piece (IndexOutOfBounds) or a piece that is not a number (NumberFormat) |
| DatRegions.RegionFileRoundTrip | BlueMapCore/src/main/java/de/bluecolored/bluemap/core/dat/region/DatRegion.java:33-37 | for every int pair and every folder, parsing the file resolved from `getRegionFileName(x, z)` recovers (x, z) and cannot fail |
| DatRegions.FileNameOfRegionFile | BlueMapCore/src/main/java/de/bluecolored/bluemap/core/dat/region/DatRegion.java:33 | the last component of a resolved region file is the chunk's file name |
| DatRegions.SplitChunkFileName | BlueMapCore/src/main/java/de/bluecolored/bluemap/core/dat/region/DatRegion.java:33 | the chunk's file name splits at dots into "c", base36(x), base36(z), "dat" |
| DatRegions.FolderNamesShort | BlueMapCore/src/main/java/de/bluecolored/bluemap/core/dat/region/DatRegion.java:81 | each folder name has one to three characters: a minus sign exactly for a negative nonzero remainder, then one or two base-36 digits |
| DatRegions.SameFolderEvery64 | BlueMapCore/src/main/java/de/bluecolored/bluemap/core/dat/region/DatRegion.java:81 | non-negative coordinates 64 apart share a folder |
| DatRegions.ListChunks | BlueMapCore/src/main/java/de/bluecolored/bluemap/core/dat/region/DatRegion.java:41-57 | the list is empty for a missing file, an unreadable size or an empty file, and is exactly [region position] otherwise |
| DatRegions.LoadChunk | BlueMapCore/src/main/java/de/bluecolored/bluemap/core/dat/region/DatRegion.java:60-73 | the empty chunk exactly for a missing or zero-length file; every failure is an I/O error; a loaded chunk is the decoded one |
| DatRegions.ListedIffLoadable | BlueMapCore/src/main/java/de/bluecolored/bluemap/core/dat/region/DatRegion.java:41-73 | a file lists its chunk exactly when loading it (with a decodable file) yields that chunk |
| RegionTypes.RegionFileName | BlueMapCore/src/main/java/de/bluecolored/bluemap/core/mcr/region/RegionType.java:65-67 | a DAT name ends in ".dat" and `forFileName` classifies it as DAT; an MCR name ending in the McRegion suffix and not in ".dat" is classified as MCR |
| RegionTypes.RegionFile | BlueMapCore/src/main/java/de/bluecolored/bluemap/core/mcr/region/RegionType.java:69-71 | the region file lies inside the region folder |
| RegionTypes.CreateRegion | BlueMapCore/src/main/java/de/bluecolored/bluemap/core/mcr/region/RegionType.java:61-63 | MCR always builds a region at the file; DAT builds one keeping the file exactly when the file name parses |
| RegionTypes.FirstBySuffix | BlueMapCore/src/main/java/de/bluecolored/bluemap/core/mcr/region/RegionType.java:76-81 | a result is one of the types and its suffix ends the name; none exactly when no suffix does; a matching first type wins |
| RegionTypes.ForFileName | BlueMapCore/src/main/java/de/bluecolored/bluemap/core/mcr/region/RegionType.java:73-82 | DAT exactly for names ending ".dat"; MCR exactly for names not ending ".dat" but ending in MCR's suffix; null exactly when neither suffix ends the name |
| RegionTypes.FirstExisting | BlueMapCore/src/main/java/de/bluecolored/bluemap/core/mcr/region/RegionType.java:86-91 | a result is one of the types and its file exists; none exactly when no type's file exists; an existing first type wins |
| RegionTypes.LoadRegion | BlueMapCore/src/main/java/de/bluecolored/bluemap/core/mcr/region/RegionType.java:84-93 | an McRegion region is always at MCR's file for the position |
| RegionTypes.DatNamesClassified | BlueMapCore/src/main/java/de/bluecolored/bluemap/core/mcr/region/RegionType.java:74-80 | every DAT region file name is classified as DAT |
| RegionTypes.McrNamesClassified | BlueMapCore/src/main/java/de/bluecolored/bluemap/core/mcr/region/RegionType.java:74-80 | an MCR file name ending in MCR's suffix and not in ".dat" is classified as MCR |
| RegionTypes.LoadPrefersDat | BlueMapCore/src/main/java/de/bluecolored/bluemap/core/mcr/region/RegionType.java:86-91 | when DAT's file exists, the DAT region at that file, with the position it was named after, is loaded |
| RegionTypes.LoadFallsBackToMcr | BlueMapCore/src/main/java/de/bluecolored/bluemap/core/mcr/region/RegionType.java:86-92 | otherwise the MCR region at MCR's file is loaded, whether that file exists or not |
| RegionTypes.LoadNeverFails | BlueMapCore/src/main/java/de/bluecolored/bluemap/core/mcr/region/RegionType.java:84-93 | loading a region never fails (the result is never null) |
| MinecraftVersions.IntCompare | BlueMapCore/src/main/java/de/bluecolored/bluemap/core/MinecraftVersion.java:98-105 | `Integer.compare` is -1, 0 or 1, negative exactly for less and zero exactly for equal |
| MinecraftVersions.EraCompare | BlueMapCore/src/main/java/de/bluecolored/bluemap/core/MinecraftVersion.java:181-203 | the nested era comparison is the integer comparison of the eras' ranks alpha < beta < release |
| MinecraftVersions.EraOrder | BlueMapCore/src/main/java/de/bluecolored/bluemap/core/MinecraftVersion.java:181-203 | alpha comes before beta, beta before release |
| MinecraftVersions.EraCompareAntisymmetric | BlueMapCore/src/main/java/de/bluecolored/bluemap/core/MinecraftVersion.java:181-203 | `compare(e, e) = 0` and `compare(a, b) = -compare(b, a)` |
| MinecraftVersions.CompareTo | BlueMapCore/src/main/java/de/bluecolored/bluemap/core/MinecraftVersion.java:92-106 | the comparison is -1, 0 or 1, negative exactly when the version precedes the other lexicographically on (era, major, minor, patch), zero exactly when equal, positive exactly when it follows |
| MinecraftVersions.CompareAntisymmetric | BlueMapCore/src/main/java/de/bluecolored/bluemap/core/MinecraftVersion.java:92-106 | swapping the arguments negates the comparison |
| MinecraftVersions.PrecedesTransitive | BlueMapCore/src/main/java/de/bluecolored/bluemap/core/MinecraftVersion.java:92-106 | the order is transitive |
| MinecraftVersions.IsAtLeast | BlueMapCore/src/main/java/de/bluecolored/bluemap/core/MinecraftVersion.java:75-77 | at least exactly when the version does not precede the bound |
| MinecraftVersions.IsAtMost | BlueMapCore/src/main/java/de/bluecolored/bluemap/core/MinecraftVersion.java:79-81 | at most exactly when the bound does not precede the version |
| MinecraftVersions.IsBefore | BlueMapCore/src/main/java/de/bluecolored/bluemap/core/MinecraftVersion.java:83-85 | before exactly when the version precedes the other |
| MinecraftVersions.IsAfter | BlueMapCore/src/main/java/de/bluecolored/bluemap/core/MinecraftVersion.java:87-89 | after exactly when the other precedes the version |
| MinecraftVersions.DerivedTests | BlueMapCore/src/main/java/de/bluecolored/bluemap/core/MinecraftVersion.java:75-89 | `isBefore` is `!isAtLeast`, `isAfter` is `!isAtMost`, and at-least together with at-most means equal |
| MinecraftVersions.Equals | BlueMapCore/src/main/java/de/bluecolored/bluemap/core/MinecraftVersion.java:116-122 | equal exactly when all four fields agree |
| MinecraftVersions.EqualsIffCompareZero | BlueMapCore/src/main/java/de/bluecolored/bluemap/core/MinecraftVersion.java:116-122 | equality agrees with a zero comparison |
| MinecraftVersions.HashCode | BlueMapCore/src/main/java/de/bluecolored/bluemap/core/MinecraftVersion.java:124-127 | the hash is `31^3 + 31^2 major + 31 minor + patch` wrapped to 32 bits, as `Objects.hash` computes it with int overflow |
| MinecraftVersions.HashConsistent | BlueMapCore/src/main/java/de/bluecolored/bluemap/core/MinecraftVersion.java:124-127 | equal versions hash equally, and so do versions differing only in era |
| MinecraftVersions.DigitRun | BlueMapCore/src/main/java/de/bluecolored/bluemap/core/MinecraftVersion.java:39 | a `\d+` group matched greedily ends at the first non-digit |
| MinecraftVersions.MatchVersion | BlueMapCore/src/main/java/de/bluecolored/bluemap/core/MinecraftVersion.java:39 | a match has numeric major and minor (and patch when present), spells out a prefix of the string, and leaves only an optional "-preN"/"-rcN" suffix |
| MinecraftVersions.MatchThreeGroups | BlueMapCore/src/main/java/de/bluecolored/bluemap/core/MinecraftVersion.java:39 | "a.b.c" with a pre-release suffix matches with the three groups a, b, c |
| MinecraftVersions.MatchTwoGroups | BlueMapCore/src/main/java/de/bluecolored/bluemap/core/MinecraftVersion.java:39 | "a.b" with a pre-release suffix matches with no patch group |
| MinecraftVersions.EraOf | BlueMapCore/src/main/java/de/bluecolored/bluemap/core/MinecraftVersion.java:142-160 | alpha exactly for a leading 'a', beta exactly for a leading 'b', otherwise release |
| MinecraftVersions.Of | BlueMapCore/src/main/java/de/bluecolored/bluemap/core/MinecraftVersion.java:140-163 | failure is IllegalArgument exactly when the rest after the era letter does not match the pattern, otherwise only NumberFormat; a result has the era of the leading letter and non-negative fields |
| MinecraftVersions.OfRoundTrip | BlueMapCore/src/main/java/de/bluecolored/bluemap/core/MinecraftVersion.java:140-163 | era letter, "major.minor.patch" and any "-preN"/"-rcN" suffix parse back to the version, the suffix ignored |
| MinecraftVersions.OfWithoutPatch | BlueMapCore/src/main/java/de/bluecolored/bluemap/core/MinecraftVersion.java:151-153 | a missing patch parses as 0 |
| MinecraftVersions.OfRejectsMissingMinor | BlueMapCore/src/main/java/de/bluecolored/bluemap/core/MinecraftVersion.java:146-147 | a bare number without a minor part is rejected with IllegalArgument |
| MinecraftVersions.VersionString | BlueMapCore/src/main/java/de/bluecolored/bluemap/core/MinecraftVersion.java:67-69 | the string starts with the era's name ("Alpha ", "Beta " or nothing); with non-negative numbers, what follows that prefix parses back through `of` as the release with the same numbers, so a release's string parses back to it while an alpha or beta one is rejected |
| MinecraftVersions.SortDescending | BlueMapCore/src/main/java/de/bluecolored/bluemap/core/MinecraftVersion.java:131 | sorting the ascending resource versions in reverse order gives a strictly descending list of the same versions |
| MinecraftVersions.FirstAtMost | BlueMapCore/src/main/java/de/bluecolored/bluemap/core/MinecraftVersion.java:133-135 | the scan stops at the first entry the version is at least, passing only entries it is not |
| MinecraftVersions.FirstAtMostOrLast | BlueMapCore/src/main/java/de/bluecolored/bluemap/core/MinecraftVersion.java:133-137 | the pick is an entry of the list and either one the version is at least or the last entry |
| MinecraftVersions.FindBestMatchingResource | BlueMapCore/src/main/java/de/bluecolored/bluemap/core/MinecraftVersion.java:129-138 | the pick is always one of the resource versions |
| MinecraftVersions.ResourcesAscending | BlueMapCore/src/main/java/de/bluecolored/bluemap/core/MinecraftVersion.java:209-220 | the resources are declared in strictly ascending version order |
| MinecraftVersions.FirstAtMostIsGreatest | BlueMapCore/src/main/java/de/bluecolored/bluemap/core/MinecraftVersion.java:133-135 | in a descending list, the first entry at most the version is at least every other such entry |
| MinecraftVersions.BestMatchIsGreatest | BlueMapCore/src/main/java/de/bluecolored/bluemap/core/MinecraftVersion.java:129-138 | when some resource is at most the version, the pick is at most the version and at least every such resource: the greatest one |
| MinecraftVersions.BestMatchFallsBack | BlueMapCore/src/main/java/de/bluecolored/bluemap/core/MinecraftVersion.java:137 | when no resource qualifies, the lowest resource is picked |
| MinecraftVersions.BestMatchPick | BlueMapCore/src/main/java/de/bluecolored/bluemap/core/MinecraftVersion.java:129-138 | a version between resource n and resource n + 1 picks resource n |
| MinecraftVersions.BestMatchExamples | BlueMapCore/src/main/java/de/bluecolored/bluemap/core/MinecraftVersion.java:209-220 | beta 1.8 picks beta 1.7, 1.19.2 picks 1.19, and the latest supported version picks itself |
| DatWorlds.ChunkOfBlock | BlueMapCore/src/main/java/de/bluecolored/bluemap/core/dat/DatWorld.java:101 | `(x >> 4, z >> 4)` is the chunk whose 16-block square contains the column (floor division, also for negatives) |
| DatWorlds.ChunkAtBlock | BlueMapCore/src/main/java/de/bluecolored/bluemap/core/dat/DatWorld.java:120-122 | the chunk at a block contains its column, whatever its height |
| DatWorlds.RegionOfChunk | BlueMapCore/src/main/java/de/bluecolored/bluemap/core/dat/DatWorld.java:206 | `(x >> 5, z >> 5)` is the region whose 32-chunk square contains the chunk |
| DatWorlds.ColumnQuery | BlueMapCore/src/main/java/de/bluecolored/bluemap/core/dat/DatWorld.java:100-107 | `getMaxY` and `getMinY` answer with the chunk whose 16 x 16 square contains the column |
| DatWorlds.Retry | BlueMapCore/src/main/java/de/bluecolored/bluemap/core/dat/DatWorld.java:204-221 | at most three attempts, waits one fewer than or as many as the attempts, and a chunk is the last attempt's answer |
| DatWorlds.LoadChunk | BlueMapCore/src/main/java/de/bluecolored/bluemap/core/dat/DatWorld.java:199-225 | one to three attempts at region (x >> 5, z >> 5); all before the last failed with no interrupted wait; a success returns the chunk after one wait per failure; otherwise the empty chunk after three failures or an interrupted wait; the loop agrees with the recursive policy |
| DatWorlds.FirstSuccessWins | BlueMapCore/src/main/java/de/bluecolored/bluemap/core/dat/DatWorld.java:205-207 | a first success is returned after one attempt and no wait |
| DatWorlds.AllAttemptsFail | BlueMapCore/src/main/java/de/bluecolored/bluemap/core/dat/DatWorld.java:204-224 | three failures give the empty chunk after three attempts and two waits, none after the last |
| DatWorlds.InterruptStops | BlueMapCore/src/main/java/de/bluecolored/bluemap/core/dat/DatWorld.java:214-217 | an interrupted first wait ends the load with the empty chunk after one attempt |
| DatWorlds.RegionSquares | BlueMapCore/src/main/java/de/bluecolored/bluemap/core/dat/DatWorld.java:206 | all chunks of an aligned 32 x 32 square ask the same region |
| DatWorlds.BlockRegion | BlueMapCore/src/main/java/de/bluecolored/bluemap/core/dat/DatWorld.java:206 | a block's chunk's region is the 512-block square holding the block |
| JavaInt.Rem | BlueMapCore/src/main/java/de/bluecolored/bluemap/core/dat/region/DatRegion.java:81 | Java's `%` by a positive divisor: the remainder has the dividend's sign, is smaller than the divisor in size, and differs from the dividend by a multiple of it |
| JavaText.ParseOfToString | BlueMapCore/src/main/java/de/bluecolored/bluemap/core/dat/region/DatRegion.java:34-35 | `Integer.parseInt(Integer.toString(i, r), r) == i` for every int and radix 2..36 |
| Paths.Resolve | BlueMapCore/src/main/java/de/bluecolored/bluemap/core/mcr/region/RegionType.java:70 | resolving keeps the folder as a prefix and adds only non-empty components |
| Paths.FileName | BlueMapCore/src/main/java/de/bluecolored/bluemap/core/dat/region/DatRegion.java:33 | a path has a file name exactly when it has a component, and it is the last one |

## Left out

- The chunk and region caches of the chunk-per-file world, with their size
  and expiry limits, load deduplication and invalidation, and the thread
  pool: concurrency around a caching library; `DatWorlds` takes the cache's
  answers as parameters.
- Reading the binary tag format, both for chunk files and for `level.dat`
  (name, seed, spawn point, sky light): the model starts from the decoded
  fields.
- Real file-system calls (`Files.exists`, `Files.notExists`, `Files.size`,
  `listFiles`): they are parameters (`onDisk`, `FileStatus`).
- `DatWorld.listRegions`: a directory walk. As written, it casts the
  `Object[]` of `Stream.toArray()` to `File[]` and indexes the second
  folders with the first loop's counter. It is not part of this model.
- The one-second `Thread.sleep` between attempts, re-setting the thread's
  interrupt flag, the suppressed-exception chain and the debug log line in
  `DatWorld.loadChunk`: only attempts, waits and the outcome are modelled.
- `DatChunk.getBiome`: it asks the world chunk manager, which is not part
  of this model.
- The McRegion region class, chunk class and world: their file suffix and
  file name function enter as `McrFormat`, and their region constructor is
  taken to succeed.
- McRegionChunks.GetBiome: returns the stored biome int; the int-to-biome
  lookup before `LegacyBiomes.idFor` belongs to the world chunk manager,
  which is not part of this model.
- McRegionChunks.SectionBlockState: past the null palette the section
  lookup cannot be reached, so the block decoding that follows it is not
  modelled.
- The resource prefixes, client URLs and lazy caching of the version
  resources: only the resource versions take part in the best-match
  selection. `majorEquals`, `minorEquals`, `getResource` and the version
  constructors other than the four-field one are plain accessors.
- Commented-out code: the section palette reader and the slab/stair light
  override.
- `Integer.parseInt`'s acceptance of non-ASCII Unicode digits: `JavaText`
  accepts ASCII digits and letters only (the regular expression's `\d`
  likewise matches ASCII digits only).
- The `(DatWorld)` cast in the chunk-per-file region's constructor.
- A `null` biome passed to `LegacyBiomes.idFor`: every `BiomeBase` value is
  a real biome here; values outside the table are `Other`.
- The world's grids, name, seed, spawn point and the chunk getters through
  the cache.
- The block catalogue's other entries are listed, but only the leaves run
  is proved reachable by `query`; for other ids the lookup is characterised
  by its first-match contract.
- DatChunks.MaxY, MinY, InhabitedTime, WorldSurfaceY, OceanFloorY: constant
  answers (255, 0, 1, 63, 50) as in the source, without further contracts.
- McRegionChunks.WorldSurfaceY, OceanFloorY: constant answers (63 and 50) as
  in the source, without further contracts.
- Integer overflow in `Integer.parseInt`: a number outside the int range
  gives NumberFormat, as in Java, and version numbers outside the range
  are rejected that way.
