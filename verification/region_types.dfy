/** The two region file formats of the old worlds, how a region's file is
    named in each, and how a region is found on disk. */
module RegionTypes {
  import opened JavaInt
  import opened JavaText
  import opened Paths
  import DatRegions

  /** `DAT` (one file per chunk) and `MCR` (the McRegion format). */
  datatype RegionType = Dat | Mcr

  /** The declaration order, which is the order of every search below. */
  const VALUES: seq<RegionType> := [Dat, Mcr]

  /** The type used when no region file exists yet. */
  const DEFAULT: RegionType := Mcr

  /** What the McRegion format contributes: its file suffix and its file
      name function. Its region class is not part of this model, so both
      enter as parameters. */
  datatype McrFormat = McrFormat(suffix: string, fileName: (Int32, Int32) -> string)

  /** A loaded region: a chunk-per-file region, or an McRegion region,
      known here only by its file. */
  datatype Region = DatRegionOf(region: DatRegions.DatRegion) | McrRegionAt(file: Path)

  /** `getFileSuffix`: the suffix of the type's format. */
  function FileSuffix(t: RegionType, mcr: McrFormat): string
  {
    match t
    case Dat => DatRegions.FILE_SUFFIX
    case Mcr => mcr.suffix
  }

  /** `getRegionFileName`: the name function of the type. A chunk-per-file
      name always ends in that format's suffix, so `forFileName` gives the
      type back; an McRegion name does so when it ends in its own suffix and
      not in the chunk-per-file one. */
  function RegionFileName(t: RegionType, mcr: McrFormat, x: Int32, z: Int32): (s: string)
    ensures t == Dat ==> EndsWith(s, DatRegions.FILE_SUFFIX) && ForFileName(mcr, s) == Some(Dat)
    ensures t == Mcr && EndsWith(s, mcr.suffix) && !EndsWith(s, DatRegions.FILE_SUFFIX)
      ==> ForFileName(mcr, s) == Some(Mcr)
    ensures t == Dat ==> s == DatRegions.RegionFileName(x, z)
    ensures t == Mcr ==> s == mcr.fileName(x, z)
  {
    match t
    case Dat => DatRegions.RegionFileName(x, z)
    case Mcr => mcr.fileName(x, z)
  }

  /** `getRegionFile`: the name resolved against the region folder. */
  function RegionFile(t: RegionType, mcr: McrFormat, folder: Path, x: Int32, z: Int32): (p: Path)
    ensures |p.components| >= |folder.components|
    ensures p.components[..|folder.components|] == folder.components
  {
    Resolve(folder, RegionFileName(t, mcr, x, z))
  }

  /** `createRegion`: the type's factory. The chunk-per-file constructor
      can fail on a name it cannot read; the McRegion one is taken to
      succeed. */
  function CreateRegion(t: RegionType, p: Path): (r: Result<Region>)
    ensures t == Mcr ==> r == Ok(McrRegionAt(p))
    ensures t == Dat && r.Ok? ==> r.value.DatRegionOf? && r.value.region.regionFile == p
    ensures t == Dat ==> (r.Ok? <==> DatRegions.NewDatRegion(p).Ok?)
  {
    match t
    case Dat =>
      (match DatRegions.NewDatRegion(p)
       case Ok(d) => Ok(DatRegionOf(d))
       case Err(e) => Err(e))
    case Mcr => Ok(McrRegionAt(p))
  }

  /** The first of `ts` whose suffix ends `name`, if any. */
  function FirstBySuffix(ts: seq<RegionType>, mcr: McrFormat, name: string): (r: Option<RegionType>)
    ensures r.Some? ==> r.value in ts && EndsWith(name, FileSuffix(r.value, mcr))
    ensures r.None? <==> forall t :: t in ts ==> !EndsWith(name, FileSuffix(t, mcr))
    ensures |ts| > 0 && EndsWith(name, FileSuffix(ts[0], mcr)) ==> r == Some(ts[0])
  {
    if |ts| == 0 then None
    else if EndsWith(name, FileSuffix(ts[0], mcr)) then Some(ts[0])
    else FirstBySuffix(ts[1..], mcr, name)
  }

  /** `forFileName`: the first type, in declaration order, whose suffix
      ends the name; none (`null`) if no suffix does. */
  function ForFileName(mcr: McrFormat, name: string): (r: Option<RegionType>)
    ensures r == Some(Dat) <==> EndsWith(name, DatRegions.FILE_SUFFIX)
    ensures r == Some(Mcr) <==> !EndsWith(name, DatRegions.FILE_SUFFIX) && EndsWith(name, mcr.suffix)
    ensures r == None <==> !EndsWith(name, DatRegions.FILE_SUFFIX) && !EndsWith(name, mcr.suffix)
  {
    FirstBySuffix(VALUES, mcr, name)
  }

  /** The first of `ts` whose region file exists, if any. */
  function FirstExisting(ts: seq<RegionType>, mcr: McrFormat, folder: Path, x: Int32, z: Int32,
                         onDisk: Path -> bool): (r: Option<RegionType>)
    ensures r.Some? ==> r.value in ts && onDisk(RegionFile(r.value, mcr, folder, x, z))
    ensures r.None? <==> forall t :: t in ts ==> !onDisk(RegionFile(t, mcr, folder, x, z))
    ensures |ts| > 0 && onDisk(RegionFile(ts[0], mcr, folder, x, z)) ==> r == Some(ts[0])
  {
    if |ts| == 0 then None
    else if onDisk(RegionFile(ts[0], mcr, folder, x, z)) then Some(ts[0])
    else FirstExisting(ts[1..], mcr, folder, x, z, onDisk)
  }

  /** `loadRegion`: the region of the first type whose file exists, or an
      McRegion region at its (not yet existing) file. `onDisk` stands for
      the file system's answer. */
  function LoadRegion(mcr: McrFormat, folder: Path, x: Int32, z: Int32, onDisk: Path -> bool): (r: Result<Region>)
    ensures r.Ok? && r.value.McrRegionAt? ==> r.value.file == RegionFile(Mcr, mcr, folder, x, z)
  {
    match FirstExisting(VALUES, mcr, folder, x, z, onDisk)
    case Some(t) => CreateRegion(t, RegionFile(t, mcr, folder, x, z))
    case None => CreateRegion(DEFAULT, RegionFile(DEFAULT, mcr, folder, x, z))
  }

  // ---------------------------------------------------------------------
  // Properties

  /** A file of the chunk-per-file format is recognised as one by its name. */
  lemma DatNamesClassified(mcr: McrFormat, x: Int32, z: Int32)
    ensures ForFileName(mcr, RegionFileName(Dat, mcr, x, z)) == Some(Dat)
  {
  }

  /** An McRegion file is recognised as one, provided its name ends in the
      McRegion suffix and not in the chunk-per-file one, which is checked
      first. */
  lemma McrNamesClassified(mcr: McrFormat, x: Int32, z: Int32)
    requires EndsWith(mcr.fileName(x, z), mcr.suffix)
    requires !EndsWith(mcr.fileName(x, z), DatRegions.FILE_SUFFIX)
    ensures ForFileName(mcr, RegionFileName(Mcr, mcr, x, z)) == Some(Mcr)
  {
  }

  /** An existing chunk-per-file region wins, and loading it cannot fail:
      its own file name always reads back as its position. */
  lemma LoadPrefersDat(mcr: McrFormat, folder: Path, x: Int32, z: Int32, onDisk: Path -> bool)
    requires onDisk(RegionFile(Dat, mcr, folder, x, z))
    ensures LoadRegion(mcr, folder, x, z, onDisk)
      == Ok(DatRegionOf(DatRegions.DatRegion(RegionFile(Dat, mcr, folder, x, z), x, z)))
  {
    assert FirstExisting(VALUES, mcr, folder, x, z, onDisk) == Some(Dat);
    DatRegions.RegionFileRoundTrip(folder, x, z);
  }

  /** Without a chunk-per-file region, the McRegion region is loaded at its
      file, whether that file exists or not. */
  lemma LoadFallsBackToMcr(mcr: McrFormat, folder: Path, x: Int32, z: Int32, onDisk: Path -> bool)
    requires !onDisk(RegionFile(Dat, mcr, folder, x, z))
    ensures LoadRegion(mcr, folder, x, z, onDisk) == Ok(McrRegionAt(RegionFile(Mcr, mcr, folder, x, z)))
  {
    var f := FirstExisting(VALUES, mcr, folder, x, z, onDisk);
    assert VALUES[0] == Dat && VALUES[1] == Mcr;
    assert f == Some(Mcr) || f == None;
  }

  /** `loadRegion` never fails (its result is declared not null). */
  lemma LoadNeverFails(mcr: McrFormat, folder: Path, x: Int32, z: Int32, onDisk: Path -> bool)
    ensures LoadRegion(mcr, folder, x, z, onDisk).Ok?
  {
    if onDisk(RegionFile(Dat, mcr, folder, x, z)) {
      LoadPrefersDat(mcr, folder, x, z, onDisk);
    } else {
      LoadFallsBackToMcr(mcr, folder, x, z, onDisk);
    }
  }
}
