/** File-system paths as sequences of name components, with the two
    operations the region code uses: resolving a relative `/`-separated
    name against a folder, and taking the last component. */
module Paths {
  import opened JavaInt
  import opened JavaText

  datatype Path = Path(components: seq<string>)

  /** The non-empty pieces, in order: separators that repeat, lead or
      trail add no component. */
  function NonEmpty(parts: seq<string>): (r: seq<string>)
    ensures |r| <= |parts|
    ensures forall i :: 0 <= i < |r| ==> r[i] != ""
    ensures (forall i :: 0 <= i < |parts| ==> parts[i] != "") ==> r == parts
  {
    if |parts| == 0 then []
    else if parts[|parts| - 1] == "" then NonEmpty(parts[..|parts| - 1])
    else NonEmpty(parts[..|parts| - 1]) + [parts[|parts| - 1]]
  }

  /** `folder.resolve(name)` for a relative name. */
  function Resolve(folder: Path, name: string): (p: Path)
    ensures |p.components| >= |folder.components|
    ensures p.components[..|folder.components|] == folder.components
    ensures forall i :: |folder.components| <= i < |p.components| ==> p.components[i] != ""
  {
    Path(folder.components + NonEmpty(SplitAll(name, '/')))
  }

  /** `getFileName()`: the last component, or none for the empty path. */
  function FileName(p: Path): (r: Option<string>)
    ensures r.Some? <==> |p.components| > 0
    ensures r.Some? ==> r.value == p.components[|p.components| - 1]
  {
    if |p.components| == 0 then None else Some(p.components[|p.components| - 1])
  }

  /** The last component of a resolved name is the name's last piece. */
  lemma ResolvedFileName(folder: Path, dirs: seq<string>, last: string)
    requires last != "" && '/' !in last
    requires forall i :: 0 <= i < |dirs| ==> dirs[i] != "" && '/' !in dirs[i]
    ensures FileName(Resolve(folder, JoinSlash(dirs, last))) == Some(last)
  {
    var parts := SplitAll(JoinSlash(dirs, last), '/');
    SplitJoinSlash(dirs, last);
    assert parts == dirs + [last];
    assert NonEmpty(parts) == parts;
  }

  /** The pieces joined with `/`, each followed by a separator, then `last`. */
  function JoinSlash(dirs: seq<string>, last: string): string
  {
    if |dirs| == 0 then last else dirs[0] + "/" + JoinSlash(dirs[1..], last)
  }

  lemma {:induction false} SplitJoinSlash(dirs: seq<string>, last: string)
    requires '/' !in last
    requires forall i :: 0 <= i < |dirs| ==> '/' !in dirs[i]
    ensures SplitAll(JoinSlash(dirs, last), '/') == dirs + [last]
    decreases |dirs|
  {
    if |dirs| == 0 {
      SplitAllNoSep(last, '/');
    } else {
      SplitJoinSlash(dirs[1..], last);
      SplitAllJoin(dirs[0], JoinSlash(dirs[1..], last), '/');
      assert dirs[0] + "/" + JoinSlash(dirs[1..], last) == dirs[0] + ['/'] + JoinSlash(dirs[1..], last);
      assert [dirs[0]] + (dirs[1..] + [last]) == dirs + [last];
    }
  }
}
