/** Minecraft versions: an era (alpha, beta, release) and three numbers,
    ordered lexicographically, parsed from strings such as `b1.7.3` or
    `1.19.4-pre2`, and matched to the closest bundled client resource. */
module MinecraftVersions {
  import opened JavaInt
  import opened JavaText

  datatype Era = Alpha | Beta | Release

  datatype Version = Version(era: Era, major: Int32, minor: Int32, patch: Int32)

  /** `new MinecraftVersion(major, minor)`: a release with patch 0. */
  function ReleaseVersion(major: Int32, minor: Int32): Version
  {
    Version(Release, major, minor, 0)
  }

  const LATEST_SUPPORTED: Version := ReleaseVersion(1, 20)
  const EARLIEST_SUPPORTED: Version := Version(Alpha, 1, 1, 0)

  /** The era's position in time, the reference for its order. */
  function EraRank(e: Era): nat
  {
    match e
    case Alpha => 0
    case Beta => 1
    case Release => 2
  }

  /** The era's `toString`, prefixed to the version string. */
  function EraPrefix(e: Era): string
  {
    match e
    case Alpha => "Alpha "
    case Beta => "Beta "
    case Release => ""
  }

  /** `getVersionString`: the era's name, then "major.minor.patch". With
      non-negative numbers, the string of a release reads back through `of`;
      that of an alpha or beta does not, since its prefix is a capitalised
      word and not the letter `of` expects, but what follows the prefix
      reads back as the release with the same numbers. */
  function VersionString(v: Version): (s: string)
    ensures StartsWith(s, EraPrefix(v.era))
    ensures v.major >= 0 && v.minor >= 0 && v.patch >= 0 ==>
      Of(s[|EraPrefix(v.era)|..]) == Ok(Version(Release, v.major, v.minor, v.patch))
    ensures v.era == Release && v.major >= 0 && v.minor >= 0 && v.patch >= 0 ==> Of(s) == Ok(v)
    ensures v.era != Release && v.major >= 0 && v.minor >= 0 && v.patch >= 0 ==> Of(s) == Err(IllegalArgument)
  {
    var s := EraPrefix(v.era) + Decimal(v.major) + "." + Decimal(v.minor) + "." + Decimal(v.patch);
    if v.major >= 0 && v.minor >= 0 && v.patch >= 0 then VersionStringParse(v, s); VersionStringTail(v, s); s else s
  }

  // ---------------------------------------------------------------------
  // Order

  /** `Integer.compare`. */
  function IntCompare(a: int, b: int): (r: int)
    ensures r == -1 || r == 0 || r == 1
    ensures r < 0 <==> a < b
    ensures r == 0 <==> a == b
  {
    if a < b then -1 else if a == b then 0 else 1
  }

  /** `MinecraftEra.compare`, written as a case table over the first era. */
  function EraCompare(e1: Era, e2: Era): (r: int)
    ensures r == IntCompare(EraRank(e1), EraRank(e2))
  {
    if e1 == Alpha then
      if e2 == e1 then 0 else -1
    else if e1 == Beta then
      if e2 == e1 then 0 else if e2 == Release then -1 else 1
    else
      if e2 == e1 then 0 else 1
  }

  /** The intended order: by era, then major, minor and patch. */
  predicate Precedes(a: Version, b: Version)
  {
    EraRank(a.era) < EraRank(b.era)
    || (a.era == b.era && (a.major < b.major
    || (a.major == b.major && (a.minor < b.minor
    || (a.minor == b.minor && a.patch < b.patch)))))
  }

  /** `compareTo`: the first field that differs decides. */
  function CompareTo(a: Version, b: Version): (r: int)
    ensures r == -1 || r == 0 || r == 1
    ensures r < 0 <==> Precedes(a, b)
    ensures r == 0 <==> a == b
    ensures r > 0 <==> Precedes(b, a)
  {
    var e := EraCompare(a.era, b.era);
    if e != 0 then e
    else
      var ma := IntCompare(a.major, b.major);
      if ma != 0 then ma
      else
        var mi := IntCompare(a.minor, b.minor);
        if mi != 0 then mi
        else IntCompare(a.patch, b.patch)
  }

  function IsAtLeast(v: Version, min: Version): (r: bool)
    ensures r <==> !Precedes(v, min)
  {
    CompareTo(v, min) >= 0
  }

  function IsAtMost(v: Version, max: Version): (r: bool)
    ensures r <==> !Precedes(max, v)
  {
    CompareTo(v, max) <= 0
  }

  function IsBefore(v: Version, other: Version): (r: bool)
    ensures r <==> Precedes(v, other)
  {
    CompareTo(v, other) < 0
  }

  function IsAfter(v: Version, other: Version): (r: bool)
    ensures r <==> Precedes(other, v)
  {
    CompareTo(v, other) > 0
  }

  /** `equals`: all four fields agree. */
  function Equals(a: Version, b: Version): (r: bool)
    ensures r <==> a == b
  {
    a.era == b.era && a.major == b.major && a.minor == b.minor && a.patch == b.patch
  }

  /** `hashCode` = `Objects.hash(major, minor, patch)`: the running value
      starts at 1 and each field is added after multiplying by 31, with
      every step wrapping to 32 bits. The era takes no part. */
  function HashCode(v: Version): (h: Int32)
    ensures h == Wrap(29791 + 961 * v.major + 31 * v.minor + v.patch)
  {
    var h1 := Wrap(31 * 1 + v.major);
    var h2 := Wrap(31 * h1 + v.minor);
    WrapStep(31 + v.major, v.minor);
    WrapStep(31 * (31 + v.major) + v.minor, v.patch);
    Wrap(31 * h2 + v.patch)
  }

  /** Wrapping an intermediate value changes nothing modulo 2^32. */
  lemma WrapStep(a: int, b: int)
    ensures Wrap(31 * Wrap(a) + b) == Wrap(31 * a + b)
  {
    var w := Wrap(a);
    var q := (w - a) / TWO_32;
    assert w - a == TWO_32 * q;
    assert 31 * w + b - (31 * a + b) == TWO_32 * (31 * q);
    WrapCongruent(31 * w + b, 31 * a + b, 31 * q);
  }

  lemma WrapCongruent(x: int, y: int, k: int)
    requires x - y == TWO_32 * k
    ensures Wrap(x) == Wrap(y)
  {
    DivModUnique(x, TWO_32, y / TWO_32 + k, y % TWO_32);
  }

  // ---------------------------------------------------------------------
  // Parsing

  predicate AsciiDigit(c: char)
  {
    '0' <= c <= '9'
  }

  predicate AllAscii(t: string)
  {
    forall k :: 0 <= k < |t| ==> AsciiDigit(t[k])
  }

  /** The end of the run of digits starting at `i` (what a greedy `\d*`
      consumes). */
  function DigitRun(s: string, i: nat): (j: nat)
    requires i <= |s|
    ensures i <= j <= |s|
    ensures forall k :: i <= k < j ==> AsciiDigit(s[k])
    ensures j == |s| || !AsciiDigit(s[j])
    decreases |s| - i
  {
    if i == |s| || !AsciiDigit(s[i]) then i else DigitRun(s, i + 1)
  }

  /** `tag` followed by at least one digit. */
  predicate Tagged(t: string, tag: string)
  {
    |t| > |tag| && t[..|tag|] == tag && AllAscii(t[|tag|..])
  }

  /** The optional tail `-preN` or `-rcN` of the version pattern. */
  predicate PreReleaseSuffix(t: string)
  {
    t == "" || (t[0] == '-' && (Tagged(t[1..], "pre") || Tagged(t[1..], "rc")))
  }

  /** The named groups of a match. */
  datatype VersionGroups = VersionGroups(major: string, minor: string, patch: Option<string>)

  /** The text of the groups, dots included. */
  function Spelled(g: VersionGroups): string
  {
    g.major + "." + g.minor + (if g.patch.Some? then "." + g.patch.value else "")
  }

  predicate Number(t: string)
  {
    |t| >= 1 && AllAscii(t)
  }

  /** A full match of `(\d+)\.(\d+)(?:\.(\d+))?(?:-(?:pre|rc)\d+)?`.
      Every group is followed by a character no digit run may absorb, so
      the greedy runs below are the only way to match; when the patch group
      fails, the tail would have to start with the `.`, which the suffix
      cannot, so no alternative remains. */
  function MatchVersion(s: string): (r: Option<VersionGroups>)
    ensures r.Some? ==> Number(r.value.major) && Number(r.value.minor)
    ensures r.Some? && r.value.patch.Some? ==> Number(r.value.patch.value)
    ensures r.Some? ==> |Spelled(r.value)| <= |s| && s[..|Spelled(r.value)|] == Spelled(r.value)
    ensures r.Some? ==> PreReleaseSuffix(s[|Spelled(r.value)|..])
  {
    var i := DigitRun(s, 0);
    if i == 0 || i == |s| || s[i] != '.' then None
    else
      var j := DigitRun(s, i + 1);
      if j == i + 1 then None
      else if j < |s| && s[j] == '.' then
        var k := DigitRun(s, j + 1);
        if k == j + 1 || !PreReleaseSuffix(s[k..]) then None
        else
          var g := VersionGroups(s[..i], s[i + 1..j], Some(s[j + 1..k]));
          SpelledThree(s, i, j, k);
          Some(g)
      else if PreReleaseSuffix(s[j..]) then
        var g := VersionGroups(s[..i], s[i + 1..j], None);
        SpelledTwo(s, i, j);
        Some(g)
      else None
  }

  lemma SpelledThree(s: string, i: nat, j: nat, k: nat)
    requires i < j < k <= |s| && s[i] == '.' && s[j] == '.'
    ensures Spelled(VersionGroups(s[..i], s[i + 1..j], Some(s[j + 1..k]))) == s[..k]
  {
    assert s[..k] == s[..i] + [s[i]] + s[i + 1..j] + [s[j]] + s[j + 1..k];
  }

  lemma SpelledTwo(s: string, i: nat, j: nat)
    requires i < j <= |s| && s[i] == '.'
    ensures Spelled(VersionGroups(s[..i], s[i + 1..j], None)) == s[..j]
  {
    assert s[..j] == s[..i] + [s[i]] + s[i + 1..j];
  }

  /** Whether the string starts with an era letter, which `of` strips. */
  predicate HasEraLetter(s: string)
  {
    |s| > 0 && (s[0] == 'a' || s[0] == 'b')
  }

  /** The era the leading letter selects. */
  function EraOf(s: string): (e: Era)
    ensures e == Alpha <==> HasEraLetter(s) && s[0] == 'a'
    ensures e == Beta <==> HasEraLetter(s) && s[0] == 'b'
  {
    if HasEraLetter(s) && s[0] == 'a' then Alpha
    else if HasEraLetter(s) && s[0] == 'b' then Beta
    else Release
  }

  /** `MinecraftVersion.of`: an optional era letter, then the version
      pattern; a string that does not match is an illegal argument, and a
      group too large for an `int` a number format error. */
  function Of(s: string): (r: Result<Version>)
    ensures r.Err? ==> r.error == IllegalArgument || r.error == NumberFormat
    ensures r.Err? && r.error == IllegalArgument <==>
      MatchVersion(if HasEraLetter(s) then s[1..] else s).None?
    ensures r.Ok? ==> r.value.era == EraOf(s)
    ensures r.Ok? ==> r.value.major >= 0 && r.value.minor >= 0 && r.value.patch >= 0
  {
    var rest := if HasEraLetter(s) then s[1..] else s;
    match MatchVersion(rest)
    case None => Err(IllegalArgument)
    case Some(g) =>
      match ParseDecimal(g.major)
      case Err(e) => Err(e)
      case Ok(major) =>
        match ParseDecimal(g.minor)
        case Err(e) => Err(e)
        case Ok(minor) =>
          match (if g.patch.None? then Ok(0) else ParseDecimal(g.patch.value))
          case Err(e) => Err(e)
          case Ok(patch) => Ok(Version(EraOf(s), major, minor, patch))
  }

  // ---------------------------------------------------------------------
  // Resources

  /** The versions of `MinecraftResource.values()`, in declaration order:
      the bundled clients a1.1.2, b1.7.3, 1.13, 1.14, 1.15, 1.16, 1.16.2,
      1.17, 1.18, 1.19, 1.19.4 and 1.20. A resource is identified by its
      version here, as no two share one. */
  const RESOURCES: seq<Version> := [
    Version(Alpha, 1, 1, 0),
    Version(Beta, 1, 7, 0),
    ReleaseVersion(1, 13),
    ReleaseVersion(1, 14),
    ReleaseVersion(1, 15),
    ReleaseVersion(1, 16),
    Version(Release, 1, 16, 2),
    ReleaseVersion(1, 17),
    ReleaseVersion(1, 18),
    ReleaseVersion(1, 19),
    Version(Release, 1, 19, 4),
    ReleaseVersion(1, 20)]

  function Reverse<T>(s: seq<T>): (r: seq<T>)
    ensures |r| == |s|
    ensures forall i :: 0 <= i < |s| ==> r[i] == s[|s| - 1 - i]
  {
    if |s| == 0 then [] else Reverse(s[1..]) + [s[0]]
  }

  predicate Ascending(s: seq<Version>)
  {
    forall i, j :: 0 <= i < j < |s| ==> Precedes(s[i], s[j])
  }

  predicate Descending(d: seq<Version>)
  {
    forall i, j :: 0 <= i < j < |d| ==> Precedes(d[j], d[i])
  }

  /** An ascending list sorted newest first: its reverse. The declaration
      order of the resources is strictly ascending, so their sort reverses
      it. */
  function SortDescending(s: seq<Version>): (d: seq<Version>)
    requires Ascending(s)
    ensures |d| == |s| && Descending(d)
    ensures forall i :: 0 <= i < |d| ==> d[i] == s[|s| - 1 - i]
    ensures forall r :: r in d <==> r in s
  {
    ReverseAscending(s);
    Reverse(s)
  }

  /** The first index from `i` on whose version is at most `v`, or `|d|`. */
  function FirstAtMost(d: seq<Version>, v: Version, i: nat): (k: nat)
    requires i <= |d|
    ensures i <= k <= |d|
    ensures k < |d| ==> IsAtLeast(v, d[k])
    ensures forall j :: i <= j < k ==> !IsAtLeast(v, d[j])
    decreases |d| - i
  {
    if i == |d| || IsAtLeast(v, d[i]) then i else FirstAtMost(d, v, i + 1)
  }

  /** The first entry of `d` that `v` is at least, or the last entry. */
  function FirstAtMostOrLast(d: seq<Version>, v: Version): (r: Version)
    requires |d| > 0
    ensures r in d
    ensures r == d[|d| - 1] || IsAtLeast(v, r)
  {
    var k := FirstAtMost(d, v, 0);
    if k < |d| then d[k] else d[|d| - 1]
  }

  /** `findBestMatchingResource`: the first resource, newest first, that
      the version is at least; failing that, the last one (the oldest). */
  function FindBestMatchingResource(v: Version): (r: Version)
    ensures r in RESOURCES
  {
    ResourcesAscending();
    FirstAtMostOrLast(SortDescending(RESOURCES), v)
  }

  // ---------------------------------------------------------------------
  // Properties

  /** The era order is alpha, beta, release. */
  lemma EraOrder()
    ensures EraCompare(Alpha, Beta) < 0 && EraCompare(Beta, Release) < 0 && EraCompare(Alpha, Release) < 0
  {
  }

  /** Era comparison is reflexive and antisymmetric. */
  lemma EraCompareAntisymmetric(a: Era, b: Era)
    ensures EraCompare(a, a) == 0
    ensures EraCompare(a, b) == -EraCompare(b, a)
  {
  }

  /** Swapping the operands negates the comparison. */
  lemma CompareAntisymmetric(a: Version, b: Version)
    ensures CompareTo(a, b) == -CompareTo(b, a)
  {
  }

  /** The order is transitive. */
  lemma PrecedesTransitive(a: Version, b: Version, c: Version)
    requires Precedes(a, b) && Precedes(b, c)
    ensures Precedes(a, c)
  {
  }

  /** The four derived tests are complementary in pairs. */
  lemma DerivedTests(v: Version, w: Version)
    ensures IsBefore(v, w) == !IsAtLeast(v, w)
    ensures IsAfter(v, w) == !IsAtMost(v, w)
    ensures IsAtLeast(v, w) && IsAtMost(v, w) <==> v == w
  {
  }

  /** `equals` holds exactly when `compareTo` gives 0. */
  lemma EqualsIffCompareZero(a: Version, b: Version)
    ensures Equals(a, b) <==> CompareTo(a, b) == 0
  {
  }

  /** Equal versions hash equally; the hash does not see the era, so an
      alpha and a release with the same numbers collide. */
  lemma HashConsistent(a: Version, b: Version)
    ensures Equals(a, b) ==> HashCode(a) == HashCode(b)
    ensures a.major == b.major && a.minor == b.minor && a.patch == b.patch ==> HashCode(a) == HashCode(b)
  {
  }

  /** The written-out form `of` accepts: era letter, then the numbers. */
  function EraLetter(e: Era): string
  {
    match e
    case Alpha => "a"
    case Beta => "b"
    case Release => ""
  }

  /** `of` reads back a version written with its era letter and any
      pre-release tail, which it ignores. */
  lemma OfRoundTrip(v: Version, suffix: string)
    requires v.major >= 0 && v.minor >= 0 && v.patch >= 0
    requires PreReleaseSuffix(suffix)
    ensures Of(EraLetter(v.era) + Decimal(v.major) + "." + Decimal(v.minor) + "." + Decimal(v.patch) + suffix)
      == Ok(v)
  {
    var a, b, c := Decimal(v.major), Decimal(v.minor), Decimal(v.patch);
    DecimalIsNumber(v.major);
    DecimalIsNumber(v.minor);
    DecimalIsNumber(v.patch);
    var body := a + "." + b + "." + c + suffix;
    var s := EraLetter(v.era) + a + "." + b + "." + c + suffix;
    assert s == EraLetter(v.era) + body;
    StripEraLetter(v.era, body);
    MatchThreeGroups(a, b, c, suffix);
    ParseOfToString(v.major, 10);
    ParseOfToString(v.minor, 10);
    ParseOfToString(v.patch, 10);
  }

  /** A version without its patch number reads back with patch 0. */
  lemma OfWithoutPatch(e: Era, major: Int32, minor: Int32, suffix: string)
    requires major >= 0 && minor >= 0
    requires PreReleaseSuffix(suffix)
    ensures Of(EraLetter(e) + Decimal(major) + "." + Decimal(minor) + suffix) == Ok(Version(e, major, minor, 0))
  {
    var a, b := Decimal(major), Decimal(minor);
    DecimalIsNumber(major);
    DecimalIsNumber(minor);
    var body := a + "." + b + suffix;
    assert EraLetter(e) + a + "." + b + suffix == EraLetter(e) + body;
    StripEraLetter(e, body);
    MatchTwoGroups(a, b, suffix);
    ParseOfToString(major, 10);
    ParseOfToString(minor, 10);
  }

  /** The parse of a version string, over the string spelled out. */
  lemma VersionStringParse(v: Version, s: string)
    requires v.major >= 0 && v.minor >= 0 && v.patch >= 0
    requires s == EraPrefix(v.era) + Decimal(v.major) + "." + Decimal(v.minor) + "." + Decimal(v.patch)
    ensures v.era == Release ==> Of(s) == Ok(v)
    ensures v.era != Release ==> Of(s) == Err(IllegalArgument)
  {
    if v.era == Release {
      OfRoundTrip(v, "");
      assert s == EraLetter(v.era) + Decimal(v.major) + "." + Decimal(v.minor) + "." + Decimal(v.patch) + "";
    } else {
      assert s[0] in "AB";
      assert DigitRun(s, 0) == 0;
    }
  }

  /** What follows the era's prefix is the string of the release with the
      same numbers, and so reads back as that release. */
  lemma VersionStringTail(v: Version, s: string)
    requires v.major >= 0 && v.minor >= 0 && v.patch >= 0
    requires s == EraPrefix(v.era) + Decimal(v.major) + "." + Decimal(v.minor) + "." + Decimal(v.patch)
    ensures Of(s[|EraPrefix(v.era)|..]) == Ok(Version(Release, v.major, v.minor, v.patch))
  {
    var numbers := Decimal(v.major) + "." + Decimal(v.minor) + "." + Decimal(v.patch);
    assert s[|EraPrefix(v.era)|..] == numbers;
    VersionStringParse(Version(Release, v.major, v.minor, v.patch), numbers);
  }

  /** A string outside the pattern is rejected. */
  lemma OfRejectsMissingMinor(s: string)
    requires Number(s)
    ensures Of(s) == Err(IllegalArgument)
  {
    assert !HasEraLetter(s);
    assert DigitRun(s, 0) == |s| by {
      DigitRunAt(s, 0, |s|);
    }
  }

  lemma DecimalIsNumber(n: Int32)
    requires n >= 0
    ensures Number(Decimal(n))
  {
    var d := Decimal(n);
    assert d == NatDigits(n, 10);
    forall k | 0 <= k < |d|
      ensures AsciiDigit(d[k])
    {
      assert IsDigit(d[k], 10);
    }
  }

  /** After the era letter, if any, `of` sees exactly the rest. */
  lemma StripEraLetter(e: Era, body: string)
    requires |body| > 0 && AsciiDigit(body[0])
    ensures HasEraLetter(EraLetter(e) + body) <==> e != Release
    ensures (if HasEraLetter(EraLetter(e) + body) then (EraLetter(e) + body)[1..] else EraLetter(e) + body) == body
    ensures EraOf(EraLetter(e) + body) == e
  {
    if e != Release {
      assert (EraLetter(e) + body)[1..] == body;
    } else {
      assert EraLetter(e) + body == body;
    }
  }

  lemma DigitRunAt(s: string, i: nat, j: nat)
    requires i <= j <= |s|
    requires forall k :: i <= k < j ==> AsciiDigit(s[k])
    requires j == |s| || !AsciiDigit(s[j])
    ensures DigitRun(s, i) == j
  {
  }

  /** A slice equal to a number consists of digits. */
  lemma SliceDigits(s: string, i: nat, j: nat, t: string)
    requires i <= j <= |s| && s[i..j] == t && AllAscii(t)
    ensures forall k :: i <= k < j ==> AsciiDigit(s[k])
  {
    forall k | i <= k < j
      ensures AsciiDigit(s[k])
    {
      assert s[k] == t[k - i];
    }
  }

  lemma SuffixStart(suffix: string)
    requires PreReleaseSuffix(suffix)
    ensures suffix == "" || !AsciiDigit(suffix[0])
    ensures suffix == "" || suffix[0] != '.'
  {
  }

  lemma MatchThreeGroups(a: string, b: string, c: string, suffix: string)
    requires Number(a) && Number(b) && Number(c) && PreReleaseSuffix(suffix)
    ensures MatchVersion(a + "." + b + "." + c + suffix) == Some(VersionGroups(a, b, Some(c)))
  {
    var s := a + "." + b + "." + c + suffix;
    var i, j, k := |a|, |a| + 1 + |b|, |a| + 1 + |b| + 1 + |c|;
    assert s[..i] == a && s[i] == '.';
    assert s[i + 1..j] == b && s[j] == '.';
    assert s[j + 1..k] == c && s[k..] == suffix;
    SliceDigits(s, 0, i, a);
    DigitRunAt(s, 0, i);
    SliceDigits(s, i + 1, j, b);
    DigitRunAt(s, i + 1, j);
    SliceDigits(s, j + 1, k, c);
    SuffixStart(suffix);
    assert k == |s| || s[k] == suffix[0];
    DigitRunAt(s, j + 1, k);
  }

  lemma MatchTwoGroups(a: string, b: string, suffix: string)
    requires Number(a) && Number(b) && PreReleaseSuffix(suffix)
    ensures MatchVersion(a + "." + b + suffix) == Some(VersionGroups(a, b, None))
  {
    var s := a + "." + b + suffix;
    var i, j := |a|, |a| + 1 + |b|;
    assert s[..i] == a && s[i] == '.';
    assert s[i + 1..j] == b && s[j..] == suffix;
    SliceDigits(s, 0, i, a);
    DigitRunAt(s, 0, i);
    SliceDigits(s, i + 1, j, b);
    SuffixStart(suffix);
    assert j == |s| || s[j] == suffix[0];
    DigitRunAt(s, i + 1, j);
  }

  /** The declaration order of the resources is strictly ascending. */
  lemma ResourcesAscending()
    ensures Ascending(RESOURCES)
  {
    forall i, j | 0 <= i < j < |RESOURCES|
      ensures Precedes(RESOURCES[i], RESOURCES[j])
    {
      AscendingFrom(i, j);
    }
  }

  lemma AdjacentAscending(i: nat)
    requires i + 1 < |RESOURCES|
    ensures Precedes(RESOURCES[i], RESOURCES[i + 1])
  {
  }

  lemma {:induction false} AscendingFrom(i: nat, j: nat)
    requires i < j < |RESOURCES|
    ensures Precedes(RESOURCES[i], RESOURCES[j])
    decreases j - i
  {
    AdjacentAscending(j - 1);
    if i < j - 1 {
      AscendingFrom(i, j - 1);
      PrecedesTransitive(RESOURCES[i], RESOURCES[j - 1], RESOURCES[j]);
    }
  }

  lemma ReverseAscending(s: seq<Version>)
    requires Ascending(s)
    ensures Descending(Reverse(s))
    ensures forall r :: r in Reverse(s) <==> r in s
  {
    var d := Reverse(s);
    forall r | r in s
      ensures r in d
    {
      var n :| 0 <= n < |s| && s[n] == r;
      assert d[|s| - 1 - n] == r;
    }
  }

  /** In a newest-first list, the first entry the version is at least is
      at least every entry the version is at least. */
  lemma FirstAtMostIsGreatest(d: seq<Version>, v: Version, q: Version)
    requires Descending(d) && q in d && IsAtLeast(v, q)
    ensures FirstAtMost(d, v, 0) < |d|
    ensures IsAtLeast(d[FirstAtMost(d, v, 0)], q)
  {
    var k := FirstAtMost(d, v, 0);
    var m :| 0 <= m < |d| && d[m] == q;
    assert k <= m;
    if k < m {
      assert Precedes(d[m], d[k]);
    }
  }

  /** The chosen resource is the newest one the version is at least, if
      any resource qualifies. */
  lemma BestMatchIsGreatest(v: Version, q: Version)
    requires q in RESOURCES && IsAtLeast(v, q)
    ensures IsAtLeast(v, FindBestMatchingResource(v))
    ensures IsAtLeast(FindBestMatchingResource(v), q)
  {
    ResourcesAscending();
    FirstAtMostIsGreatest(SortDescending(RESOURCES), v, q);
  }

  /** When no resource qualifies, the oldest one is chosen. */
  lemma BestMatchFallsBack(v: Version)
    requires forall q :: q in RESOURCES ==> !IsAtLeast(v, q)
    ensures FindBestMatchingResource(v) == RESOURCES[0]
  {
    ResourcesAscending();
    var d := SortDescending(RESOURCES);
    LastWhenNoneQualifies(d, v);
  }

  lemma LastWhenNoneQualifies(d: seq<Version>, v: Version)
    requires |d| > 0
    requires forall q :: q in d ==> !IsAtLeast(v, q)
    ensures FirstAtMostOrLast(d, v) == d[|d| - 1]
  {
  }

  /** Concrete picks: a beta 1.8 uses the beta 1.7 client, a 1.19.2 the
      1.19 one, and the newest release the newest client. */
  lemma BestMatchExamples()
    ensures FindBestMatchingResource(Version(Beta, 1, 8, 0)) == RESOURCES[1]
    ensures FindBestMatchingResource(Version(Release, 1, 19, 2)) == RESOURCES[9]
    ensures FindBestMatchingResource(LATEST_SUPPORTED) == LATEST_SUPPORTED
  {
    BestMatchPick(Version(Beta, 1, 8, 0), 1);
    BestMatchPick(Version(Release, 1, 19, 2), 9);
    BestMatchPick(LATEST_SUPPORTED, 11);
  }

  /** The pick is the resource `n` when the version lies between it and
      the next newer one. */
  lemma BestMatchPick(v: Version, n: nat)
    requires n < |RESOURCES| && IsAtLeast(v, RESOURCES[n])
    requires n + 1 == |RESOURCES| || Precedes(v, RESOURCES[n + 1])
    ensures FindBestMatchingResource(v) == RESOURCES[n]
  {
    ResourcesAscending();
    var d := SortDescending(RESOURCES);
    var k := |RESOURCES| - 1 - n;
    assert d[k] == RESOURCES[n];
    assert k > 0 ==> d[k - 1] == RESOURCES[n + 1];
    PickBetween(d, v, k);
  }

  /** In a newest-first list, `v` picks the entry it lies between. */
  lemma PickBetween(d: seq<Version>, v: Version, k: nat)
    requires Descending(d) && k < |d|
    requires IsAtLeast(v, d[k])
    requires k == 0 || Precedes(v, d[k - 1])
    ensures FirstAtMostOrLast(d, v) == d[k]
  {
    var f := FirstAtMost(d, v, 0);
    assert f <= k;
    if f < k {
      if f < k - 1 {
        assert Precedes(d[k - 1], d[f]);
        PrecedesTransitive(v, d[k - 1], d[f]);
      }
    }
  }
}
