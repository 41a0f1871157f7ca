/** Path helpers of ProjectParser.cpp: `toGenericPath`, `GetProjectPath` and
    the project directory that `Open`/`SaveAs` derive from the file name. */
module Paths {

  function Generic(c: char): char
  {
    if c == '\\' then '/' else c
  }

  /** `toGenericPath`: every backslash becomes a forward slash, every other
      character stays where it is. */
  function ToGenericPath(p: string): (r: string)
    ensures |r| == |p|
    ensures forall i :: 0 <= i < |p| ==> r[i] == Generic(p[i])
    decreases |p|
  {
    if p == [] then [] else ToGenericPath(p[..|p| - 1]) + [Generic(p[|p| - 1])]
  }

  lemma {:induction false} GenericPathHasNoBackslash(p: string)
    ensures '\\' !in ToGenericPath(p)
  {
    var r := ToGenericPath(p);
    forall i | 0 <= i < |r| ensures r[i] != '\\' {
      assert r[i] == Generic(p[i]);
    }
  }

  /** Normalising twice is normalising once. */
  lemma {:induction false} GenericPathIdempotent(p: string)
    ensures ToGenericPath(ToGenericPath(p)) == ToGenericPath(p)
  {
    var r := ToGenericPath(p);
    var rr := ToGenericPath(r);
    assert |rr| == |r|;
    forall i | 0 <= i < |r| ensures rr[i] == r[i] {
      assert r[i] == Generic(p[i]);
    }
  }

  /** A path that has no backslash is already generic. */
  lemma GenericPathKeepsGeneric(p: string)
    requires '\\' !in p
    ensures ToGenericPath(p) == p
  {
    var r := ToGenericPath(p);
    forall i | 0 <= i < |p| ensures r[i] == p[i] {
      assert p[i] != '\\';
    }
  }

  /** `GetProjectPath(to)`: the project directory and `to` joined by one
      `/`, which is left out when the directory already ends in `/`. The
      source reads the last character of the directory, so it demands a
      non-empty directory. */
  function ProjectPath(dir: string, to: string): (r: string)
    requires |dir| > 0
    ensures dir[|dir| - 1] == '/' ==> |r| == |dir| + |to|
    ensures dir[|dir| - 1] != '/' ==> |r| == |dir| + 1 + |to| && r[|dir|] == '/'
    ensures r[..|dir|] == dir && r[|r| - |to|..] == to
  {
    var r := dir + (if dir[|dir| - 1] == '/' then "" else "/") + to;
    assert r[|r| - |to|..] == to;
    r
  }

  function IsSeparator(c: char): bool
  {
    c == '/' || c == '\\'
  }

  /** `find_last_of("/\\")` */
  function LastSeparator(s: string): (r: int)
    ensures -1 <= r < |s|
    ensures r >= 0 ==> IsSeparator(s[r])
    ensures forall j :: r < j < |s| ==> !IsSeparator(s[j])
    decreases |s|
  {
    if s == [] then -1
    else if IsSeparator(s[|s| - 1]) then |s| - 1
    else LastSeparator(s[..|s| - 1])
  }

  /** `file.substr(0, file.find_last_of("/\\"))`: the part of the file name
      before its last separator, or the whole name when it has none (the
      search returns `npos` and `substr` then takes everything). */
  function DirectoryOf(file: string): (dir: string)
    ensures (forall j :: 0 <= j < |file| ==> !IsSeparator(file[j])) ==> dir == file
    ensures (exists j :: 0 <= j < |file| && IsSeparator(file[j])) ==>
              |dir| < |file| && dir == file[..|dir|] && IsSeparator(file[|dir|])
              && forall j :: |dir| < j < |file| ==> !IsSeparator(file[j])
  {
    var k := LastSeparator(file);
    if k < 0 then file else file[..k]
  }
}
