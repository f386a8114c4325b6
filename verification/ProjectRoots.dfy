/** The search for project directories: one walk per root, then a merge over all roots. */
module ProjectRoots {
  import opened Sorting

  type Name = string

  /** A path is its list of components, so `p <= q` on paths is the component-wise `q.starts_with(p)`. */
  type Path = seq<Name>

  const PROJECT_CONFIG_FILES: set<Name> :=
    {"foundry.toml", "hardhat.config.ts", "hardhat.config.js", "hardhat.config.cjs"}

  const BLACKLISTED_DIRS: set<Name> :=
    {"node_modules", "target", "build", "dist", "coverage", "__pycache__", "venv", "cache",
     "tmp", "out", "artifacts", "dependencies"}

  /** A directory as a walk meets it: the names in it, and the directories in it in the walk's order. */
  datatype Dir = Dir(name: Name, entries: set<Name>, children: seq<Dir>)

  datatype Root = Root(path: Path, dir: Dir)

  predicate HasConfig(d: Dir) {
    PROJECT_CONFIG_FILES * d.entries != {}
  }

  predicate Skipped(d: Dir, isRoot: bool) {
    (!isRoot && d.name != "" && d.name[0] == '.') || d.name in BLACKLISTED_DIRS
  }

  /** Names of siblings differ. */
  ghost predicate WellFormed(d: Dir)
    decreases d
  {
    && (forall i, j :: 0 <= i < j < |d.children| ==> d.children[i].name != d.children[j].name)
    && (forall i :: 0 <= i < |d.children| ==> WellFormed(d.children[i]))
  }

  // ----- what is looked for ----------------------------------------------------------------

  /** The path from `d` leads to a project directory without meeting a skipped one below `d`. */
  ghost predicate LeadsToProject(d: Dir, rest: Path)
    decreases |rest|
  {
    if rest == [] then HasConfig(d)
    else exists i :: 0 <= i < |d.children| && d.children[i].name == rest[0]
                     && !Skipped(d.children[i], false) && LeadsToProject(d.children[i], rest[1..])
  }

  ghost predicate Accepted(root: Root, p: Path) {
    root.path <= p && !Skipped(root.dir, true) && LeadsToProject(root.dir, p[|root.path|..])
  }

  ghost predicate AcceptedIn(roots: seq<Root>, p: Path) {
    exists i :: 0 <= i < |roots| && Accepted(roots[i], p)
  }

  // ----- what is accepted, name by name -----------------------------------------------------

  predicate IsSkippedName(name: Name) {
    || name == "node_modules" || name == "target" || name == "build" || name == "dist"
    || name == "coverage" || name == "__pycache__" || name == "venv" || name == "cache"
    || name == "tmp" || name == "out" || name == "artifacts" || name == "dependencies"
  }

  predicate IsHiddenName(name: Name) {
    "." <= name
  }

  predicate HoldsProjectFile(d: Dir) {
    || "foundry.toml" in d.entries || "hardhat.config.ts" in d.entries
    || "hardhat.config.js" in d.entries || "hardhat.config.cjs" in d.entries
  }

  /** The directories met on the way down along `names`, none of them one a walk passes over. */
  ghost predicate IsTrail(trail: seq<Dir>, names: Path) {
    && |trail| == |names| + 1
    && forall i :: 0 <= i < |names| ==>
         && trail[i + 1] in trail[i].children && trail[i + 1].name == names[i]
         && !IsHiddenName(names[i]) && !IsSkippedName(names[i])
  }

  lemma NamesDecide(d: Dir, isRoot: bool)
    ensures Skipped(d, isRoot) <==> (!isRoot && IsHiddenName(d.name)) || IsSkippedName(d.name)
    ensures HasConfig(d) <==> HoldsProjectFile(d)
  {
    if HasConfig(d) {
      var f :| f in PROJECT_CONFIG_FILES * d.entries;
    }
    forall f | f in PROJECT_CONFIG_FILES && f in d.entries
      ensures HasConfig(d)
    {
      assert f in PROJECT_CONFIG_FILES * d.entries;
    }
  }

  lemma {:induction false} LeadsIffTrail(d: Dir, names: Path)
    ensures LeadsToProject(d, names) <==>
            exists trail :: IsTrail(trail, names) && trail[0] == d && HoldsProjectFile(trail[|names|])
    decreases |names|
  {
    hide HasConfig, HoldsProjectFile, Skipped, IsSkippedName, IsHiddenName;
    NamesDecide(d, false);
    if names == [] {
      assert IsTrail([d], names);
    } else {
      if LeadsToProject(d, names) {
        var i :| 0 <= i < |d.children| && d.children[i].name == names[0]
                 && !Skipped(d.children[i], false) && LeadsToProject(d.children[i], names[1..]);
        LeadsIffTrail(d.children[i], names[1..]);
        NamesDecide(d.children[i], false);
        var rest: seq<Dir> :| IsTrail(rest, names[1..]) && rest[0] == d.children[i]
                              && HoldsProjectFile(rest[|names| - 1]);
        TrailGrows(d, rest, names);
        assert ([d] + rest)[|names|] == rest[|names| - 1];
      }
      if trail: seq<Dir> :| IsTrail(trail, names) && trail[0] == d && HoldsProjectFile(trail[|names|]) {
        assert trail[0 + 1] in trail[0].children && trail[0 + 1].name == names[0];
        var i :| 0 <= i < |d.children| && d.children[i] == trail[1];
        NamesDecide(trail[1], false);
        TrailShrinks(trail, names);
        assert trail[1..][|names| - 1] == trail[|names|];
        LeadsIffTrail(trail[1], names[1..]);
      }
    }
  }

  lemma TrailGrows(d: Dir, rest: seq<Dir>, names: Path)
    requires names != [] && IsTrail(rest, names[1..]) && rest[0] in d.children && rest[0].name == names[0]
    requires !IsHiddenName(names[0]) && !IsSkippedName(names[0])
    ensures IsTrail([d] + rest, names)
  {
    hide IsSkippedName, IsHiddenName;
    forall i | 0 < i < |names|
      ensures ([d] + rest)[i + 1] in ([d] + rest)[i].children && ([d] + rest)[i + 1].name == names[i]
      ensures !IsHiddenName(names[i]) && !IsSkippedName(names[i])
    {
      assert rest[i - 1 + 1] in rest[i - 1].children && names[1..][i - 1] == names[i];
    }
  }

  lemma TrailShrinks(trail: seq<Dir>, names: Path)
    requires names != [] && IsTrail(trail, names)
    ensures IsTrail(trail[1..], names[1..])
  {
    hide IsSkippedName, IsHiddenName;
  }

  /** A path is accepted exactly if it leads down from the root to a directory holding one of the
      four project files, and no directory on the way is skipped by name or, below the root, hidden. */
  lemma AcceptedIffTrail(root: Root, p: Path)
    ensures Accepted(root, p) <==>
            && root.path <= p && !IsSkippedName(root.dir.name)
            && exists trail :: IsTrail(trail, p[|root.path|..]) && trail[0] == root.dir
                               && HoldsProjectFile(trail[|p| - |root.path|])
  {
    NamesDecide(root.dir, true);
    if root.path <= p {
      LeadsIffTrail(root.dir, p[|root.path|..]);
    }
  }

  // ----- keeping what is not nested --------------------------------------------------------

  predicate IsNested(kept: set<Path>, dir: Path) {
    exists p :: p in kept && p <= dir
  }

  function Minimal(s: set<Path>): set<Path> {
    set p | p in s && forall q :: q in s && q <= p ==> q == p
  }

  /** No path comes after one it is an ancestor of. */
  ghost predicate ParentsFirst(list: seq<Path>) {
    forall i, j :: 0 <= i < j < |list| ==> !(list[j] < list[i])
  }

  function ToSet(list: seq<Path>): set<Path> {
    set p | p in list
  }

  lemma {:induction false} MinimalCovers(s: set<Path>, p: Path)
    requires p in s
    ensures IsNested(Minimal(s), p)
    decreases |p|
  {
    if p !in Minimal(s) {
      var q :| q in s && q <= p && q != p;
      MinimalCovers(s, q);
      var m :| m in Minimal(s) && m <= q;
      assert m <= p;
    }
  }

  lemma NestedInMinimal(s: set<Path>, p: Path)
    ensures IsNested(Minimal(s), p) <==> IsNested(s, p)
  {
    if IsNested(s, p) {
      var q :| q in s && q <= p;
      MinimalCovers(s, q);
      var m :| m in Minimal(s) && m <= q;
      assert m <= p;
    }
  }

  /** One step of either loop keeps the minimal paths met so far. */
  lemma KeepingOneMore(seen: set<Path>, dir: Path)
    requires forall p :: p in seen ==> !(dir < p)
    ensures Minimal(seen + {dir})
            == if IsNested(Minimal(seen), dir) then Minimal(seen) else Minimal(seen) + {dir}
  {
    NestedInMinimal(seen, dir);
    forall p | p in seen
      ensures p in Minimal(seen + {dir}) <==> p in Minimal(seen)
    {
    }
    if IsNested(seen, dir) && dir in Minimal(seen + {dir}) {
      var q :| q in seen && q <= dir;
      assert q == dir;
    }
  }

  // ----- the walk --------------------------------------------------------------------------

  datatype Visit = Visit(path: Path, dir: Dir)

  /** The directories `WalkDir` yields, parents before what is in them. */
  function Walk(d: Dir, path: Path, isRoot: bool): seq<Visit>
    decreases d, 1
  {
    if Skipped(d, isRoot) then [] else [Visit(path, d)] + WalkAll(d, |d.children|, path)
  }

  /** The visits to what is in the first `n` directories in `d`. */
  function WalkAll(d: Dir, n: nat, path: Path): seq<Visit>
    requires n <= |d.children|
    decreases d, 0, n
  {
    if n == 0 then []
    else WalkAll(d, n - 1, path) + Walk(d.children[n - 1], path + [d.children[n - 1].name], false)
  }

  function Paths(visits: seq<Visit>): seq<Path> {
    seq(|visits|, i requires 0 <= i < |visits| => visits[i].path)
  }

  lemma {:induction false} WalkStaysBelow(d: Dir, path: Path, isRoot: bool)
    ensures forall i :: 0 <= i < |Walk(d, path, isRoot)| ==> path <= Walk(d, path, isRoot)[i].path
    decreases d, 1
  {
    WalkAllStaysBelow(d, |d.children|, path);
  }

  lemma {:induction false} WalkAllStaysBelow(d: Dir, n: nat, path: Path)
    requires n <= |d.children|
    ensures forall i :: 0 <= i < |WalkAll(d, n, path)| ==>
              path < WalkAll(d, n, path)[i].path
              && exists k :: 0 <= k < n && WalkAll(d, n, path)[i].path[|path|] == d.children[k].name
    decreases d, 0, n
  {
    if n > 0 {
      var at := path + [d.children[n - 1].name];
      WalkAllStaysBelow(d, n - 1, path);
      WalkStaysBelow(d.children[n - 1], at, false);
      var before: seq<Visit>, last: seq<Visit> := WalkAll(d, n - 1, path), Walk(d.children[n - 1], at, false);
      forall i | 0 <= i < |before + last|
        ensures path < (before + last)[i].path
        ensures exists k :: 0 <= k < n && (before + last)[i].path[|path|] == d.children[k].name
      {
        if i < |before| {
          assert (before + last)[i] == before[i];
        } else {
          var p := last[i - |before|].path;
          assert at <= p && p[|path|] == at[|path|] == d.children[n - 1].name;
        }
      }
    }
  }

  lemma {:induction false} WalkIsParentsFirst(d: Dir, path: Path, isRoot: bool)
    requires WellFormed(d)
    ensures ParentsFirst(Paths(Walk(d, path, isRoot)))
    decreases d, 1
  {
    if !Skipped(d, isRoot) {
      WalkAllIsParentsFirst(d, |d.children|, path);
      WalkAllStaysBelow(d, |d.children|, path);
      var below := WalkAll(d, |d.children|, path);
      ParentsFirstAppends([path], Paths(below));
      assert Paths([Visit(path, d)] + below) == [path] + Paths(below);
    }
  }

  lemma SiblingsAreApart(d: Dir, n: nat, path: Path, before: seq<Visit>, last: seq<Visit>)
    requires WellFormed(d) && 0 < n <= |d.children|
    requires before == WalkAll(d, n - 1, path)
    requires last == Walk(d.children[n - 1], path + [d.children[n - 1].name], false)
    ensures forall i, j :: 0 <= i < |before| && 0 <= j < |last| ==> !(last[j].path < before[i].path)
  {
    hide Walk, WalkAll;
    var at := path + [d.children[n - 1].name];
    WalkAllStaysBelow(d, n - 1, path);
    WalkStaysBelow(d.children[n - 1], at, false);
    forall i, j | 0 <= i < |before| && 0 <= j < |last|
      ensures !(last[j].path < before[i].path)
    {
      assert last[j].path[|path|] == at[|path|] == d.children[n - 1].name;
    }
  }

  lemma {:induction false} WalkAllIsParentsFirst(d: Dir, n: nat, path: Path)
    requires WellFormed(d) && n <= |d.children|
    ensures ParentsFirst(Paths(WalkAll(d, n, path)))
    decreases d, 0, n
  {
    hide ParentsFirst, Skipped;
    if n > 0 {
      var at := path + [d.children[n - 1].name];
      var before: seq<Visit>, last: seq<Visit> := WalkAll(d, n - 1, path), Walk(d.children[n - 1], at, false);
      WalkAllIsParentsFirst(d, n - 1, path);
      WalkIsParentsFirst(d.children[n - 1], at, false);
      SiblingsAreApart(d, n, path, before, last);
      ParentsFirstAppends(Paths(before), Paths(last));
      assert Paths(before + last) == Paths(before) + Paths(last);
    } else {
      NothingIsParentsFirst(d, path);
    }
  }

  lemma NothingIsParentsFirst(d: Dir, path: Path)
    ensures ParentsFirst(Paths(WalkAll(d, 0, path)))
  {
  }

  lemma ParentsFirstAppends(a: seq<Path>, b: seq<Path>)
    requires ParentsFirst(a) && ParentsFirst(b)
    requires forall i, j :: 0 <= i < |a| && 0 <= j < |b| ==> !(b[j] < a[i])
    ensures ParentsFirst(a + b)
  {
  }

  ghost predicate Finds(visits: seq<Visit>, p: Path) {
    exists i :: 0 <= i < |visits| && visits[i].path == p && HasConfig(visits[i].dir)
  }

  lemma {:induction false} WalkFindsProjects(d: Dir, path: Path, isRoot: bool, p: Path)
    ensures Finds(Walk(d, path, isRoot), p) <==>
            !Skipped(d, isRoot) && path <= p && LeadsToProject(d, p[|path|..])
    decreases d, 1
  {
    if !Skipped(d, isRoot) {
      var first: seq<Visit>, below: seq<Visit> := [Visit(path, d)], WalkAll(d, |d.children|, path);
      WalkAllFindsProjects(d, |d.children|, path, p);
      FindsInEither(first, below, p);
      assert Finds(first, p) <==> path == p && HasConfig(d) by {
        assert first[0].path == path;
      }
      if path < p {
        assert p[|path|..] != [] && p[|path|..][0] == p[|path|] && p[|path|..][1..] == p[|path| + 1..];
      }
    }
  }

  lemma {:induction false} WalkAllFindsProjects(d: Dir, n: nat, path: Path, p: Path)
    requires n <= |d.children|
    ensures Finds(WalkAll(d, n, path), p) <==>
            path < p && exists i :: 0 <= i < n && d.children[i].name == p[|path|]
                                    && !Skipped(d.children[i], false)
                                    && LeadsToProject(d.children[i], p[|path| + 1..])
    decreases d, 0, n
  {
    if n > 0 {
      var child := d.children[n - 1];
      var at := path + [child.name];
      WalkAllFindsProjects(d, n - 1, path, p);
      WalkFindsProjects(child, at, false, p);
      FindsInEither(WalkAll(d, n - 1, path), Walk(child, at, false), p);
      assert at <= p <==> path < p && child.name == p[|path|];
    }
  }

  lemma FindsInEither(a: seq<Visit>, b: seq<Visit>, p: Path)
    ensures Finds(a + b, p) <==> Finds(a, p) || Finds(b, p)
  {
    if Finds(a, p) {
      var i :| 0 <= i < |a| && a[i].path == p && HasConfig(a[i].dir);
      assert (a + b)[i].path == p;
    }
    if Finds(b, p) {
      var i :| 0 <= i < |b| && b[i].path == p && HasConfig(b[i].dir);
      assert (a + b)[|a| + i].path == p;
    }
  }

  // ----- one root --------------------------------------------------------------------------

  ghost predicate IsOutermost(root: Root, p: Path) {
    Accepted(root, p) && forall q :: Accepted(root, q) && q <= p ==> q == p
  }

  ghost predicate IsOutermostIn(roots: seq<Root>, p: Path) {
    AcceptedIn(roots, p) && forall q :: AcceptedIn(roots, q) && q <= p ==> q == p
  }

  function Projects(visits: seq<Visit>): set<Path> {
    set i | 0 <= i < |visits| && HasConfig(visits[i].dir) :: visits[i].path
  }

  lemma ProjectsOfSnoc(visits: seq<Visit>, n: nat)
    requires n < |visits|
    ensures Projects(visits[..n + 1])
            == if HasConfig(visits[n].dir) then Projects(visits[..n]) + {visits[n].path} else Projects(visits[..n])
  {
    assert visits[..n + 1] == visits[..n] + [visits[n]];
    forall p
      ensures p in Projects(visits[..n + 1]) <==> Finds(visits[..n] + [visits[n]], p)
      ensures p in Projects(visits[..n]) <==> Finds(visits[..n], p)
    {
    }
    forall p
      ensures Finds(visits[..n + 1], p) <==> Finds(visits[..n], p) || (p == visits[n].path && HasConfig(visits[n].dir))
    {
      FindsInEither(visits[..n], [visits[n]], p);
      assert [visits[n]][0] == visits[n];
    }
  }

  lemma MinimalProjectsAreOutermost(root: Root)
    ensures forall p :: p in Minimal(Projects(Walk(root.dir, root.path, true))) <==> IsOutermost(root, p)
  {
    var visits := Walk(root.dir, root.path, true);
    forall p
      ensures p in Projects(visits) <==> Accepted(root, p)
    {
      WalkFindsProjects(root.dir, root.path, true, p);
    }
  }

  /** The walk of one root keeps its outermost project directories. */
  method ScanRoot(root: Root) returns (found: set<Path>)
    requires WellFormed(root.dir)
    ensures forall p :: p in found <==> IsOutermost(root, p)
  {
    var visits := Walk(root.dir, root.path, true);
    WalkIsParentsFirst(root.dir, root.path, true);
    found := {};
    for n := 0 to |visits|
      invariant found == Minimal(Projects(visits[..n]))
    {
      var dir := visits[n].path;
      ProjectsOfSnoc(visits, n);
      if HasConfig(visits[n].dir) {
        forall p | p in Projects(visits[..n])
          ensures !(dir < p)
        {
          var i :| 0 <= i < n && visits[i].path == p;
          assert Paths(visits)[i] == p && Paths(visits)[n] == dir;
        }
        KeepingOneMore(Projects(visits[..n]), dir);
        if !IsNested(found, dir) {
          found := found + {dir};
        }
      }
    }
    assert visits[..|visits|] == visits;
    MinimalProjectsAreOutermost(root);
  }

  // ----- all roots -------------------------------------------------------------------------

  predicate CharLe(a: char, b: char) {
    a <= b
  }

  predicate NameLe(a: Name, b: Name) {
    LexLe(CharLe, a, b)
  }

  predicate PathLe(a: Path, b: Path) {
    LexLe(NameLe, a, b)
  }

  lemma PathsAreOrdered()
    ensures IsTotalOrder(PathLe)
  {
    LexIsTotalOrder(CharLe, NameLe);
    LexIsTotalOrder(NameLe, PathLe);
  }

  /** Sorting paths component by component puts parents first. */
  lemma SortedIsParentsFirst(list: seq<Path>)
    requires Sorted(PathLe, list)
    ensures ParentsFirst(list)
  {
    PathsAreOrdered();
    forall i, j | 0 <= i < j < |list|
      ensures !(list[j] < list[i])
    {
      if list[j] < list[i] {
        PrefixIsLexLe(NameLe, list[j], list[i]);
      }
    }
  }

  lemma SortingPutsParentsFirst(dirs: seq<Path>)
    ensures ParentsFirst(Sort(PathLe, dirs)) && ToSet(Sort(PathLe, dirs)) == ToSet(dirs)
  {
    var list := Sort(PathLe, dirs);
    PathsAreOrdered();
    SortSorts(PathLe, dirs);
    SortPermutes(PathLe, dirs);
    SortedIsParentsFirst(list);
    forall p
      ensures p in list <==> p in dirs
    {
      assert p in list <==> p in multiset(list);
    }
  }

  /** Sort, then keep what is not below something already kept. */
  method Merge(dirs: seq<Path>) returns (kept: set<Path>)
    ensures kept == Minimal(ToSet(dirs))
  {
    var list := Sort(PathLe, dirs);
    SortingPutsParentsFirst(dirs);
    kept := {};
    for n := 0 to |list|
      invariant kept == Minimal(ToSet(list[..n]))
    {
      assert ToSet(list[..n + 1]) == ToSet(list[..n]) + {list[n]};
      KeepingOneMore(ToSet(list[..n]), list[n]);
      if !IsNested(kept, list[n]) {
        kept := kept + {list[n]};
      }
    }
    assert list[..|list|] == list;
  }

  lemma {:induction false} OutermostCovers(root: Root, p: Path)
    requires Accepted(root, p)
    ensures exists m :: IsOutermost(root, m) && m <= p
    decreases |p|
  {
    if !IsOutermost(root, p) {
      var q :| Accepted(root, q) && q <= p && q != p;
      OutermostCovers(root, q);
      var m :| IsOutermost(root, m) && m <= q;
      assert m <= p;
    }
  }

  /** The outermost of the outermost of each root are the outermost of all. */
  lemma MinimalOfAll(roots: seq<Root>, s: set<Path>)
    requires forall p :: p in s <==> exists i :: 0 <= i < |roots| && IsOutermost(roots[i], p)
    ensures forall p :: p in Minimal(s) <==> IsOutermostIn(roots, p)
  {
    forall p | p in Minimal(s)
      ensures IsOutermostIn(roots, p)
    {
      forall q | AcceptedIn(roots, q) && q <= p
        ensures q == p
      {
        var j :| 0 <= j < |roots| && Accepted(roots[j], q);
        OutermostCovers(roots[j], q);
        var m :| IsOutermost(roots[j], m) && m <= q;
        assert m in s && m <= p;
      }
    }
    forall p | IsOutermostIn(roots, p)
      ensures p in Minimal(s)
    {
      var i :| 0 <= i < |roots| && Accepted(roots[i], p);
      forall q | Accepted(roots[i], q) && q <= p
        ensures q == p
      {
        assert AcceptedIn(roots, q);
      }
      forall q | q in s
        ensures AcceptedIn(roots, q)
      {
      }
    }
  }

  /** A set as a list, in an order nobody decides. */
  method Listed(s: set<Path>) returns (list: seq<Path>)
    ensures ToSet(list) == s
  {
    list := [];
    var left := s;
    while left != {}
      invariant left <= s && ToSet(list) == s - left
      decreases left
    {
      var p :| p in left;
      assert ToSet(list + [p]) == ToSet(list) + {p};
      list, left := list + [p], left - {p};
    }
  }

  /** Exactly the outermost project directories over all roots, in whatever order the walks end. */
  method FindProjectRoots(roots: seq<Root>) returns (projects: set<Path>)
    requires forall i :: 0 <= i < |roots| ==> WellFormed(roots[i].dir)
    ensures forall p :: p in projects <==> IsOutermostIn(roots, p)
    ensures forall p, q :: p in projects && q in projects && p <= q ==> p == q
    ensures forall p :: AcceptedIn(roots, p) ==> IsNested(projects, p)
  {
    var dirs := [];
    for n := 0 to |roots|
      invariant forall p :: p in ToSet(dirs) <==> exists i :: 0 <= i < n && IsOutermost(roots[i], p)
    {
      var found := ScanRoot(roots[n]);
      var list := Listed(found);
      assert ToSet(dirs + list) == ToSet(dirs) + ToSet(list);
      dirs := dirs + list;
    }
    projects := Merge(dirs);
    MinimalOfAll(roots, ToSet(dirs));
    forall p | AcceptedIn(roots, p)
      ensures IsNested(projects, p)
    {
      var i :| 0 <= i < |roots| && Accepted(roots[i], p);
      OutermostCovers(roots[i], p);
      var m :| IsOutermost(roots[i], m) && m <= p;
      assert m in ToSet(dirs);
      NestedInMinimal(ToSet(dirs), p);
    }
  }
}
