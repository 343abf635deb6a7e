/**
 * The two functions of Node's path module the program uses, path.join and
 * path.dirname, on paths made of plain segments (no "." or ".." segments, no
 * repeated or trailing separators).
 */
module NodePath {

  /** dir without one trailing '/'. */
  function Trimmed(dir: string): string {
    if dir != [] && dir[|dir| - 1] == '/' then dir[..|dir| - 1] else dir
  }

  /** path.join(dir, name). */
  function Join(dir: string, name: string): string {
    if dir == "" then name
    else if dir[|dir| - 1] == '/' then dir + name
    else dir + "/" + name
  }

  /** An empty dir is dropped; otherwise exactly one '/' separates dir and name. */
  lemma JoinShape(dir: string, name: string)
    ensures dir == "" ==> Join(dir, name) == name
    ensures dir != "" ==> Join(dir, name) == Trimmed(dir) + "/" + name
  {
    if dir != "" && dir[|dir| - 1] == '/' {
      assert dir == dir[..|dir| - 1] + "/";
    }
  }

  /** The position of the last '/' of p. */
  function LastSlash(p: string): (i: nat)
    requires '/' in p
    ensures i < |p| && p[i] == '/'
    ensures forall j :: i < j < |p| ==> p[j] != '/'
  {
    if p[|p| - 1] == '/' then |p| - 1
    else
      assert '/' in p[..|p| - 1] by {
        var k :| 0 <= k < |p| && p[k] == '/';
        assert p[..|p| - 1][k] == '/';
      }
      LastSlash(p[..|p| - 1])
  }

  /** path.dirname(p): what comes before the last '/', "." when p has none, "/" when only the root does. */
  function Dirname(p: string): (r: string)
    ensures r != ""
    ensures |p| > 1 ==> r != p
  {
    if '/' !in p then "."
    else
      var i := LastSlash(p);
      if i == 0 then "/" else p[..i]
  }

  /** The separator Join inserts is the last '/' when the name has none. */
  lemma LastSlashOfJoin(t: string, name: string)
    requires '/' !in name
    ensures '/' in t + "/" + name
    ensures LastSlash(t + "/" + name) == |t|
  {
    var p := t + "/" + name;
    assert p[|t|] == '/';
    assert forall j :: |t| < j < |p| ==> p[j] == name[j - |t| - 1];
  }

  /** The directory of a file joined onto dir is dir itself (less a trailing '/'). */
  lemma DirnameOfJoin(dir: string, name: string)
    requires '/' !in name
    requires Trimmed(dir) != ""
    ensures Dirname(Join(dir, name)) == Trimmed(dir)
  {
    var t := Trimmed(dir);
    JoinShape(dir, name);
    LastSlashOfJoin(t, name);
    assert (t + "/" + name)[..|t|] == t;
  }

  /**
   * Joining onto the same directory never maps two single-segment names to
   * one path (names with '/', "." or ".." are normalised away by Node).
   */
  lemma JoinInjective(dir: string, a: string, b: string)
    requires '/' !in a && '/' !in b
    requires a != "." && a != ".." && b != "." && b != ".."
    requires Join(dir, a) == Join(dir, b)
    ensures a == b
  {
    var r := Join(dir, a);
    JoinShape(dir, a);
    JoinShape(dir, b);
    if dir != "" {
      var k := |Trimmed(dir) + "/"|;
      assert r[k..] == a;
      assert r[k..] == b;
    }
  }
}
