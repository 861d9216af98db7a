/** `pathlib` on POSIX paths, as far as the upload handlers use it. */
module Paths {
  import opened Strings

  /** The last component of a POSIX path, skipping empty and `.` components, as `Path(p).name`. */
  function PathName(p: string): (name: string)
  {
    LastName(Split(p, "/"))
  }

  function LastName(parts: seq<string>): (name: string)
    ensures name == [] || name in parts
  {
    if parts == [] then []
    else
      var last := parts[|parts| - 1];
      if last == [] || last == "." then LastName(parts[..|parts| - 1]) else last
  }

  /** A name without `/`, other than `.`, is its own last component. */
  lemma PathNameOfPlainName(p: string)
    requires p != "." && forall k :: 0 <= k < |p| ==> p[k] != '/'
    ensures PathName(p) == p
  {
    AbsentChar(p, '/');
    assert ['/'] == "/";
    SplitNoSep(p, "/");
    assert LastName([p]) == p;
  }

  lemma PathNameNoSlash(p: string)
    ensures !Contains(PathName(p), "/")
  {
    var parts := Split(p, "/");
    SplitPiecesFree(p, "/");
    var name := PathName(p);
    if name != [] {
      var k :| 0 <= k < |parts| && parts[k] == name;
    } else {
      assert !OccursAt(name, "/", 0);
      ContainsIff(name, "/");
    }
  }
}
