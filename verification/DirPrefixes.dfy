/** Making a directory and its parents, written twice: mkpath in src/single-instance/main.cpp and mkdirRecursive in
    src/launcherlib/booster.cpp. */
module DirPrefixes {

  /** A directory named by its components; repeated, leading and trailing slashes do not matter. */
  type Path = seq<string>

  function Components(s: string): (path: Path)
    ensures s != "" && s[|s| - 1] != '/' ==> path != []
  {
    if s == "" then []
    else
      var n := |s| - 1;
      var path := Components(s[..n]);
      if s[n] == '/' then path
      else if n == 0 || s[n - 1] == '/' then path + [[s[n]]]
      else path[..|path| - 1] + [path[|path| - 1] + [s[n]]]
  }

  /** What is tried, in order: every prefix, and the whole path again if it ends with a slash. */
  function Prefixes(path: Path, again: bool): (visits: seq<Path>)
    ensures |visits| == |path| + if again then 1 else 0
  {
    seq(|path| + if again then 1 else 0, k requires k >= 0 => path[..if k < |path| then k + 1 else |path|])
  }

  predicate EndsWithSlash(s: string) { s != "" && s[|s| - 1] == '/' }

  function Visits(s: string): seq<Path> { Prefixes(Components(s), EndsWithSlash(s)) }

  /** The directories and other files there are, and where mkdir and chmod are refused. */
  datatype Tree = Tree(dirs: set<Path>, files: set<Path>, denied: set<Path>, unchangeable: set<Path>)

  predicate WellFormed(t: Tree) {
    [] in t.dirs && t.dirs !! t.files && forall p :: p in t.dirs && p != [] ==> p[..|p| - 1] in t.dirs
  }

  /** mkdir succeeds: there is nothing of that name, there is a parent, and it is not refused. */
  predicate Makes(t: Tree, p: Path) {
    p !in t.dirs && p !in t.files && p !in t.denied && p != [] && p[..|p| - 1] in t.dirs
  }

  function Made(t: Tree, p: Path): Tree { t.(dirs := t.dirs + {p}) }

  /** mkpath goes on when mkdir fails, and stops only when chmod fails on a directory it has made. */
  function MkPathOn(t: Tree, visits: seq<Path>): (bool, Tree)
    decreases |visits|
  {
    if visits == [] then (true, t)
    else if !Makes(t, visits[0]) then MkPathOn(t, visits[1..])
    else if visits[0] in t.unchangeable then (false, Made(t, visits[0]))
    else MkPathOn(Made(t, visits[0]), visits[1..])
  }

  /** mkdirRecursive stops at the first prefix that is no directory and cannot be made one. */
  function MkdirRecursiveOn(t: Tree, visits: seq<Path>): (bool, Tree)
    decreases |visits|
  {
    if visits == [] then (true, t)
    else if visits[0] in t.dirs then MkdirRecursiveOn(t, visits[1..])
    else if Makes(t, visits[0]) then MkdirRecursiveOn(Made(t, visits[0]), visits[1..])
    else (false, t)
  }

  // ---- components of a string and of its beginnings ----

  lemma ComponentsStep(s: string, i: nat)
    requires i < |s|
    ensures var path := Components(s[..i]);
            Components(s[..i + 1]) ==
            if s[i] == '/' then path
            else if i == 0 || s[i - 1] == '/' then path + [[s[i]]]
            else path[..|path| - 1] + [path[|path| - 1] + [s[i]]]
  {
    assert s[..i + 1][..i] == s[..i];
  }

  /** The components of a beginning are the first of the whole, but for the last if it is cut. */
  lemma {:induction false} ComponentsGrow(s: string, i: nat, j: nat)
    requires i <= j <= |s|
    ensures var a, b := Components(s[..i]), Components(s[..j]);
            && |a| <= |b|
            && (a != [] ==> b[..|a| - 1] == a[..|a| - 1])
            && (i == 0 || s[i - 1] == '/' || i == j || s[i] == '/' ==> b[..|a|] == a)
    decreases j
  {
    hide Components;
    if i < j {
      ComponentsGrow(s, i, j - 1);
      ComponentsStep(s, j - 1);
      var a, b, c := Components(s[..i]), Components(s[..j - 1]), Components(s[..j]);
      if i == j - 1 {
        assert s[j - 1] == '/' || |c| >= |a|;
      } else if s[j - 1] != '/' && s[j - 2] != '/' {
        NotCutAgain(s, i, j - 1);
      }
    } else {
      var a := Components(s[..i]);
      assert a[..|a|] == a;
    }
  }

  /** A component that is being read after a slash is not one of those read before it. */
  lemma {:induction false} NotCutAgain(s: string, i: nat, j: nat)
    requires i < j <= |s| && s[j - 1] != '/'
    ensures i == 0 || s[i - 1] == '/' || s[i] == '/' ==> |Components(s[..i])| < |Components(s[..j])|
    decreases j
  {
    hide Components;
    ComponentsStep(s, j - 1);
    if i < j - 1 {
      if s[j - 2] != '/' {
        NotCutAgain(s, i, j - 1);
      } else {
        ComponentsGrow(s, i, j - 1);
      }
    }
  }

  /** Slashes add no component. */
  lemma {:induction false} Slashes(s: string, i: nat, j: nat)
    requires i <= j <= |s| && forall k :: i <= k < j ==> s[k] == '/'
    ensures Components(s[..j]) == Components(s[..i])
    decreases j
  {
    hide Components;
    if i < j {
      Slashes(s, i, j - 1);
      ComponentsStep(s, j - 1);
    }
  }

  /** A name after a slash, or at the beginning, adds itself. */
  lemma {:induction false} OneName(s: string, i: nat, j: nat)
    requires i < j <= |s| && (i == 0 || s[i - 1] == '/') && forall k :: i <= k < j ==> s[k] != '/'
    ensures Components(s[..j]) == Components(s[..i]) + [s[i..j]]
    decreases j
  {
    hide Components;
    ComponentsStep(s, j - 1);
    if i < j - 1 {
      OneName(s, i, j - 1);
      assert s[i..j] == s[i..j - 1] + [s[j - 1]];
    } else {
      assert s[i..j] == [s[i]];
    }
  }

  /** A name and a slash after text that ends with a slash. */
  lemma NameAndSlash(s: string, name: string)
    requires s == "" || s[|s| - 1] == '/'
    requires '/' !in name
    ensures Components(s + name + "/") == Components(s) + if name == "" then [] else [name]
  {
    hide Components;
    var t, n := s + name + "/", |s| + |name|;
    ComponentsStep(t, n);
    assert t[..n + 1] == t && t[..|s|] == s && t[|s|..n] == name;
    if name == "" {
      assert n == |s|;
    } else {
      OneName(t, |s|, n);
    }
  }

  // ---- the two loops ----

  class FileSystem {
    var tree: Tree

    constructor (tree: Tree)
      ensures this.tree == tree
    {
      this.tree := tree;
    }

    method Mkdir(path: string) returns (made: bool)
      modifies this
      ensures made == Makes(old(tree), Components(path))
      ensures tree == if made then Made(old(tree), Components(path)) else old(tree)
    {
      made := Makes(tree, Components(path));
      if made {
        tree := Made(tree, Components(path));
      }
    }

    method MkPath(path: string) returns (ok: bool)
      modifies this
      ensures (ok, tree) == MkPathOn(old(tree), Visits(path))
    {
      hide Makes, Components, Visits, Passed;
      ghost var visits, done := Visits(path), 0;
      PassedEnds(path);
      assert visits[0..] == visits;
      var i := 0;
      while i < |path|
        invariant 0 <= i <= |path| && done <= |visits|
        invariant MkPathOn(tree, visits[done..]) == MkPathOn(old(tree), visits)
        invariant done == Passed(path, i)
      {
        VisitAt(path, i);
        if (i + 1 < |path| && path[i + 1] == '/' && path[i] != '/') || i + 1 == |path| {
          var part := path[..i + 1];
          assert visits[done] == Components(part);
          assert visits[done..][1..] == visits[done + 1..];
          var made := Mkdir(part);
          done := done + 1;
          if made && Components(part) in tree.unchangeable {
            return false;
          }
        }
        i := i + 1;
      }
      assert visits[done..] == [];
      ok := true;
    }

    method MkdirRecursive(path: string) returns (ok: bool)
      modifies this
      ensures (ok, tree) == MkdirRecursiveOn(old(tree), Visits(path))
    {
      hide Makes, Made, Components, Visits;
      ghost var visits, done := Visits(path), 0;
      PassedEnds(path);
      assert visits[0..] == visits;
      var relative := "";
      var i := 0;
      assert path[..0] == "";
      while i < |path|
        invariant 0 <= i <= |path| && done <= |visits|
        invariant i == 0 || i == |path| || path[i] == '/'
        invariant relative == "" || relative[|relative| - 1] == '/'
        invariant MkdirRecursiveOn(tree, visits[done..]) == MkdirRecursiveOn(old(tree), visits)
        invariant i < |path| ==> Components(relative) == Components(path[..i]) && done == |Components(path[..i])|
        invariant i == |path| ==> done == |visits|
      {
        var begin := Find(path, i, false);
        var next := Find(path, begin, true);
        ghost var before := relative;
        relative := relative + path[begin..next] + "/";
        NextVisit(path, i, begin, next, relative, before);
        assert visits[done] == Components(relative);
        assert visits[done..][1..] == visits[done + 1..];
        if Components(relative) !in tree.dirs {
          if Components(relative) in tree.files {
            NotMade(tree, Components(relative));
            return false;
          }
          var made := Mkdir(relative);
          if !made {
            return false;
          }
        }
        done := done + 1;
        i := next;
      }
      assert visits[done..] == [];
      ok := true;
    }
  }

  lemma NotMade(t: Tree, p: Path)
    requires p in t.files
    ensures !Makes(t, p)
  {
  }

  /** std::find and std::find_if: the first slash, or the first other character, from i on. */
  method Find(s: string, i: nat, slash: bool) returns (j: nat)
    requires i <= |s|
    ensures i <= j <= |s| && (j < |s| ==> (s[j] == '/') == slash)
    ensures forall k :: i <= k < j ==> (s[k] == '/') != slash
  {
    j := i;
    while j < |s| && (s[j] == '/') != slash
      invariant i <= j <= |s| && forall k :: i <= k < j ==> (s[k] == '/') != slash
    {
      j := j + 1;
    }
  }

  /** How many visits mkpath has made before it looks at index i. */
  function Passed(s: string, i: nat): nat
    requires i <= |s|
  {
    if i == |s| then |Visits(s)|
    else if i > 0 && s[i - 1] != '/' && s[i] != '/' then |Components(s[..i])| - 1
    else |Components(s[..i])|
  }

  lemma PassedEnds(s: string)
    ensures Passed(s, 0) == 0 && Passed(s, |s|) == |Visits(s)|
    ensures Components("") == [] && (s == "" ==> Visits(s) == [])
  {
    assert s[..0] == "";
  }

  lemma VisitAt(s: string, i: nat)
    requires i < |s|
    ensures Passed(s, i) <= |Visits(s)|
    ensures if (i + 1 < |s| && s[i + 1] == '/' && s[i] != '/') || i + 1 == |s|
            then Passed(s, i) < |Visits(s)| && Visits(s)[Passed(s, i)] == Components(s[..i + 1])
                 && Passed(s, i + 1) == Passed(s, i) + 1
            else Passed(s, i + 1) == Passed(s, i)
  {
    if i + 1 == |s| {
      LastVisit(s);
    } else {
      InnerVisit(s, i);
    }
  }

  lemma LastVisit(s: string)
    requires s != ""
    ensures var i := |s| - 1;
            Passed(s, i) == |Visits(s)| - 1 && Visits(s)[Passed(s, i)] == Components(s[..i + 1])
  {
    hide Components;
    ComponentsStep(s, |s| - 1);
    assert s[..|s|] == s && Components(s)[..|Components(s)|] == Components(s);
  }

  lemma InnerVisit(s: string, i: nat)
    requires i + 1 < |s|
    ensures Passed(s, i) <= |Visits(s)|
    ensures if s[i + 1] == '/' && s[i] != '/'
            then Passed(s, i) < |Visits(s)| && Visits(s)[Passed(s, i)] == Components(s[..i + 1])
                 && Passed(s, i + 1) == Passed(s, i) + 1
            else Passed(s, i + 1) == Passed(s, i)
  {
    hide Components;
    ComponentsStep(s, i);
    ComponentsGrow(s, i, |s|);
    ComponentsGrow(s, i + 1, |s|);
    assert s[..|s|] == s;
  }

  lemma NextVisit(s: string, i: nat, begin: nat, next: nat, relative: string, before: string)
    requires i <= begin <= next <= |s| && i < |s| && (i == 0 || s[i] == '/')
    requires forall k :: i <= k < begin ==> s[k] == '/'
    requires begin < |s| ==> s[begin] != '/'
    requires forall k :: begin <= k < next ==> s[k] != '/'
    requires next < |s| ==> s[next] == '/'
    requires before == "" || before[|before| - 1] == '/'
    requires Components(before) == Components(s[..i])
    requires relative == before + s[begin..next] + "/"
    ensures Components(relative) == Components(s[..next])
    ensures var done := |Components(s[..i])|;
            && done < |Visits(s)| && Visits(s)[done] == Components(s[..next])
            && (if next < |s| then |Components(s[..next])| == done + 1 else |Visits(s)| == done + 1)
  {
    hide Components;
    NameAndSlash(before, s[begin..next]);
    Slashes(s, i, begin);
    assert s[..|s|] == s;
    if begin < next {
      OneName(s, begin, next);
    }
    ComponentsGrow(s, next, |s|);
  }

  // ---- what they come to ----

  /** Every directory is tried after its parent, and the last one tried is the whole path. */
  lemma ParentsFirst(s: string, k: nat)
    requires k < |Visits(s)|
    ensures var p := Visits(s)[k];
            p != [] && |p| > 1 ==> exists j :: 0 <= j < k && Visits(s)[j] == p[..|p| - 1]
    ensures Visits(s)[|Visits(s)| - 1] == Components(s)
  {
    var p := Visits(s)[k];
    if |p| > 1 {
      assert Visits(s)[|p| - 2] == p[..|p| - 1];
    }
  }

  /** A prefix that is there, or could be made if the shorter ones were. */
  predicate Open(t: Tree, p: Path) { p in t.dirs || (p !in t.files && p !in t.denied) }

  /** From a prefix that cannot be made on, mkpath changes nothing. */
  lemma {:induction false} BlockedFrom(t: Tree, path: Path, again: bool, j: nat, k: nat)
    requires WellFormed(t) && 1 <= j <= |path| && path[..j] !in t.dirs && !Makes(t, path[..j])
    requires j - 1 <= k <= |Prefixes(path, again)|
    ensures MkPathOn(t, Prefixes(path, again)[k..]) == (true, t)
    decreases |Prefixes(path, again)| - k
  {
    hide Makes, Prefixes;
    PrefixAt(path, again, k);
    if k < |Prefixes(path, again)| {
      var n := if k < |path| then k + 1 else |path|;
      assert path[..|path|] == path;
      BlockedFrom(t, path, again, j, k + 1);
      if n > j {
        NoChild(t, path, j, n);
      }
    }
  }

  lemma {:induction false} NoChild(t: Tree, path: Path, j: nat, n: nat)
    requires WellFormed(t) && j < n <= |path| && path[..j] !in t.dirs
    ensures path[..n] !in t.dirs && !Makes(t, path[..n])
    decreases n
  {
    var p := path[..n];
    assert |p| == n && p[..n - 1] == path[..n - 1];
    if j < n - 1 {
      NoChild(t, path, j, n - 1);
    }
  }

  /** A directory mkpath has made but could not change the mode of, after making the shorter ones. */
  predicate StoppedAt(t: Tree, path: Path, j: nat, t': Tree) {
    && 0 < j <= |path| && path[..j] !in t.dirs && path[..j] in t.unchangeable
    && forall i :: 0 <= i <= |path| ==> (path[..i] in t'.dirs <==> i <= j || path[..i] in t.dirs)
  }

  /** A prefix of the path is there after mkdirRecursive exactly when it and all shorter ones were there or could be
      made, and it says whether the whole path is there.  mkpath succeeds exactly when chmod is refused on none of the
      directories that mkdirRecursive makes, and then it makes the same ones; otherwise it has made them up to one on
      which chmod is refused. */
  ghost predicate Agree(t: Tree, path: Path, visits: seq<Path>) {
    var (ok, t') := MkPathOn(t, visits);
    var (whole, r) := MkdirRecursiveOn(t, visits);
    && WellFormed(r) && whole == (path in r.dirs)
    && (forall j :: 0 <= j <= |path| ==> (path[..j] in r.dirs <==> forall i :: 0 <= i <= j ==> Open(t, path[..i])))
    && (ok <==> forall p :: p in r.dirs && p !in t.dirs ==> p !in t.unchangeable)
    && (ok ==> t' == r)
    && (!ok ==> t'.dirs <= r.dirs && exists j: nat :: StoppedAt(t, path, j, t'))
  }

  /** The two functions agree so on every tree and every path, however it is written. */
  lemma SameDirectories(t: Tree, s: string)
    requires WellFormed(t)
    ensures Agree(t, Components(s), Visits(s))
  {
    assert Visits(s)[0..] == Visits(s);
    assert Components(s)[..0] == [];
    SameFrom(t, Components(s), EndsWithSlash(s), 0);
  }

  lemma {:induction false} SameFrom(t: Tree, path: Path, again: bool, k: nat)
    requires WellFormed(t) && k <= |Prefixes(path, again)|
    requires forall i :: 0 <= i <= k && i <= |path| ==> path[..i] in t.dirs
    ensures Agree(t, path, Prefixes(path, again)[k..])
    decreases |Prefixes(path, again)| - k
  {
    hide Makes, Prefixes, Agree;
    var visits := Prefixes(path, again);
    PrefixAt(path, again, k);
    if k < |path| {
      var p := path[..k + 1];
      assert p[..k] == path[..k];
      if p in t.dirs {
        SameFrom(t, path, again, k + 1);
        AgreeThere(t, path, visits[k..]);
      } else if Makes(t, p) {
        MadeKeeps(t, p);
        SameFrom(Made(t, p), path, again, k + 1);
        AgreeMade(t, path, k, visits[k..]);
      } else {
        BlockedFrom(t, path, again, k + 1, k);
        AgreeStuck(t, path, k + 1, visits[k..]);
      }
    } else if k < |visits| {
      assert path[..|path|] == path;
      SameFrom(t, path, again, k + 1);
      AgreeThere(t, path, visits[k..]);
    } else {
      AgreeDone(t, path);
    }
  }

  lemma AgreeDone(t: Tree, path: Path)
    requires WellFormed(t) && forall i :: 0 <= i <= |path| ==> path[..i] in t.dirs
    ensures Agree(t, path, [])
  {
    assert path[..|path|] == path;
  }

  lemma AgreeThere(t: Tree, path: Path, visits: seq<Path>)
    requires visits != [] && visits[0] in t.dirs && Agree(t, path, visits[1..])
    ensures Agree(t, path, visits)
  {
  }

  lemma AgreeMade(t: Tree, path: Path, k: nat, visits: seq<Path>)
    requires k < |path| && visits != [] && visits[0] == path[..k + 1] && Makes(t, path[..k + 1])
    requires forall i :: 0 <= i <= k ==> path[..i] in t.dirs
    requires Agree(Made(t, path[..k + 1]), path, visits[1..])
    ensures Agree(t, path, visits)
  {
    hide Makes;
    var p := path[..k + 1];
    var m := Made(t, p);
    MadeMore(t, p, visits[1..]);
    OpenSame(t, p);
    NotThere(t, p);
    var (ok, t') := MkPathOn(m, visits[1..]);
    if p in t.unchangeable {
      assert StoppedAt(t, path, k + 1, m) by { FirstPrefixes(t, path, k); }
    } else if !ok {
      var j: nat :| StoppedAt(m, path, j, t');
      assert StoppedAt(t, path, j, t') by { hide MkPathOn, MkdirRecursiveOn; FirstPrefixes(t, path, k); }
    }
  }

  lemma NotThere(t: Tree, p: Path)
    requires Makes(t, p)
    ensures p !in t.dirs
  {
  }

  lemma OpenSame(t: Tree, p: Path)
    requires Makes(t, p)
    ensures forall q :: Open(Made(t, p), q) <==> Open(t, q)
  {
  }

  lemma {:induction false} MadeMore(t: Tree, p: Path, visits: seq<Path>)
    ensures p in MkdirRecursiveOn(Made(t, p), visits).1.dirs
    ensures Made(t, p).dirs <= MkdirRecursiveOn(Made(t, p), visits).1.dirs
  {
    NoneLost(Made(t, p), visits);
  }

  lemma {:induction false} NoneLost(t: Tree, visits: seq<Path>)
    ensures t.dirs <= MkdirRecursiveOn(t, visits).1.dirs
    decreases |visits|
  {
    hide Makes;
    if visits != [] {
      NoneLost(t, visits[1..]);
      NoneLost(Made(t, visits[0]), visits[1..]);
    }
  }

  /** Prefixes of one path are told apart by their lengths. */
  lemma FirstPrefixes(t: Tree, path: Path, k: nat)
    requires k < |path| && forall i :: 0 <= i <= k ==> path[..i] in t.dirs
    ensures forall i :: 0 <= i <= |path| ==>
              (path[..i] in Made(t, path[..k + 1]).dirs <==> i == k + 1 || path[..i] in t.dirs)
  {
    forall i | 0 <= i <= |path| && path[..i] == path[..k + 1]
      ensures i == k + 1
    {
      assert |path[..i]| == i;
    }
  }

  lemma PrefixAt(path: Path, again: bool, k: nat)
    requires k <= |Prefixes(path, again)|
    ensures |Prefixes(path, again)| == |path| + if again then 1 else 0
    ensures k < |Prefixes(path, again)| ==>
              && Prefixes(path, again)[k..] != []
              && Prefixes(path, again)[k..][1..] == Prefixes(path, again)[k + 1..]
              && Prefixes(path, again)[k..][0] == if k < |path| then path[..k + 1] else path
    ensures k == |Prefixes(path, again)| ==> Prefixes(path, again)[k..] == []
  {
  }

  lemma MadeKeeps(t: Tree, p: Path)
    requires WellFormed(t) && Makes(t, p)
    ensures WellFormed(Made(t, p))
  {
  }

  lemma AgreeStuck(t: Tree, path: Path, k: nat, visits: seq<Path>)
    requires WellFormed(t) && 1 <= k <= |path| && path[..k] !in t.dirs && !Makes(t, path[..k])
    requires forall i :: 0 <= i < k ==> path[..i] in t.dirs
    requires visits != [] && visits[0] == path[..k] && MkPathOn(t, visits) == (true, t)
    ensures Agree(t, path, visits)
  {
    assert path[..k][..k - 1] == path[..k - 1];
    assert !Open(t, path[..k]);
    assert path[..|path|] == path;
    forall j | k <= j <= |path|
      ensures path[..j] !in t.dirs
    {
      if k < j {
        NoChild(t, path, k, j);
      }
    }
  }
}
