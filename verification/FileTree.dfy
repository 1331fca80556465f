/**
 A file system with symbolic links, and the calls the workspace manager makes on it:
 path lookup, Lstat, Stat, EvalSymlinks, Mkdir, MkdirAll, Remove and RemoveAll.
 */
module FileTree {
  import opened Paths
  import opened Wrappers

  // A link holds the components of its target.
  datatype Node = Dir | File(content: string) | Link(absolute: bool, steps: seq<string>)

  // Every node under the path that leads to it without passing a link.
  type Tree = map<Path, Node>

  datatype Errno = NotExist | NotDir | TooManyLinks | Exists | NotEmpty | Busy | Escapes | NoIdentifier

  datatype Change = Change(tree: Tree, error: Option<Errno>)

  // Every node but the root has a clean name and lies in a directory.
  predicate Seated(fs: Tree, p: Path) {
    p == [] || (CleanName(p[|p| - 1]) && Parent(p) in fs && fs[Parent(p)].Dir?)
  }

  ghost predicate WellFormed(fs: Tree) {
    && [] in fs
    && fs[[]].Dir?
    && forall p {:trigger Seated(fs, p)} | p in fs :: Seated(fs, p)
  }

  // Nothing of fs is lost in bigger, and what both have is the same.
  predicate Within(fs: Tree, bigger: Tree) {
    forall p | p in fs :: p in bigger && bigger[p] == fs[p]
  }

  // The trees agree on every node that is not at or below the path.
  ghost predicate SameOutside(root: Path, a: Tree, b: Tree) {
    forall p | !(root <= p) :: (p in a <==> p in b) && (p in a ==> a[p] == b[p])
  }

  // --- Lookup ---

  // Where a lookup ends, with the number of links it may still follow.
  datatype Walked = At(path: Path, links: nat) | Failed(error: Errno)

  function Walk(fs: Tree, cur: Path, rest: seq<string>, follow: bool, links: nat): Walked
    decreases links, |rest|
  {
    if rest == [] then At(cur, links)
    else if cur !in fs then Failed(NotExist)
    else if !fs[cur].Dir? then Failed(NotDir)
    else if rest[0] == "" || rest[0] == "." then Walk(fs, cur, rest[1..], follow, links)
    else if rest[0] == ".." then Walk(fs, Parent(cur), rest[1..], follow, links)
    else
      var next := cur + [rest[0]];
      if next !in fs then Failed(NotExist)
      else if fs[next].Link? && (|rest| > 1 || follow) then
        if links == 0 then Failed(TooManyLinks)
        else Walk(fs, if fs[next].absolute then [] else cur, fs[next].steps + rest[1..], follow, links - 1)
      else Walk(fs, next, rest[1..], follow, links)
  }

  // A lookup by the kernel follows at most 40 links, EvalSymlinks at most 255.
  const KERNEL_LINKS := 40
  const EVAL_LINKS := 255

  function Lstat(fs: Tree, path: Path): Walked {
    Walk(fs, [], path, false, KERNEL_LINKS)
  }

  function Stat(fs: Tree, path: Path): Walked {
    Walk(fs, [], path, true, KERNEL_LINKS)
  }

  function EvalSymlinks(fs: Tree, path: Path): Walked {
    Walk(fs, [], path, true, EVAL_LINKS)
  }

  // --- Changes ---

  function Mkdir(fs: Tree, path: Path): Change
    requires path != []
  {
    var w := Stat(fs, Parent(path));
    if w.Failed? then Change(fs, Some(w.error))
    else if w.path !in fs then Change(fs, Some(NotExist))
    else if !fs[w.path].Dir? then Change(fs, Some(NotDir))
    else
      var made := w.path + [path[|path| - 1]];
      if made in fs then Change(fs, Some(Exists)) else Change(fs[made := Dir], None)
  }

  predicate IsDirAt(fs: Tree, w: Walked) {
    w.At? && w.path in fs && fs[w.path].Dir?
  }

  function MkdirAll(fs: Tree, path: Path): Change
    decreases |path|
  {
    var w := Stat(fs, path);
    if path == [] || w.At? then Change(fs, if IsDirAt(fs, w) then None else Some(NotDir))
    else
      var up := MkdirAll(fs, Parent(path));
      if up.error.Some? then up
      else
        var made := Mkdir(up.tree, path);
        if made.error.Some? && IsDirAt(made.tree, Lstat(made.tree, path)) then made.(error := None) else made
  }

  // Unlinks a file or a link, and removes a directory that is empty.
  function Remove(fs: Tree, path: Path): Change {
    var w := Lstat(fs, path);
    if w.Failed? then Change(fs, Some(w.error))
    else if w.path == [] then Change(fs, Some(Busy))
    else if exists p | p in fs :: p != w.path && w.path <= p then Change(fs, Some(NotEmpty))
    else Change(fs - {w.path}, None)
  }

  // The file system's root itself cannot be removed, only emptied.
  function RemoveAll(fs: Tree, path: Path): Change {
    var w := Lstat(fs, path);
    if w.Failed? then Change(fs, if w.error.NotExist? then None else Some(w.error))
    else if w.path == [] then Change(map[[] := Dir], Some(Busy))
    else Change(map p | p in fs && !(w.path <= p) :: fs[p], None)
  }

  // --- Laws of lookup ---

  lemma {:induction false} WalkSplit(fs: Tree, cur: Path, a: seq<string>, b: seq<string>, follow: bool, links: nat)
    requires b != []
    ensures Walk(fs, cur, a + b, follow, links) ==
      (var w := Walk(fs, cur, a, true, links); if w.At? then Walk(fs, w.path, b, follow, w.links) else w)
    decreases links, |a|
  {
    if a == [] {
      assert a + b == b;
    } else {
      var ab := a + b;
      assert ab[0] == a[0] && ab[1..] == a[1..] + b && |ab| > 1;
      if cur in fs && fs[cur].Dir? {
        var next := cur + [a[0]];
        if a[0] == "" || a[0] == "." {
          WalkSplit(fs, cur, a[1..], b, follow, links);
        } else if a[0] == ".." {
          WalkSplit(fs, Parent(cur), a[1..], b, follow, links);
        } else if next in fs {
          if !fs[next].Link? {
            WalkSplit(fs, next, a[1..], b, follow, links);
          } else if links > 0 {
            var steps := fs[next].steps;
            assert steps + ab[1..] == (steps + a[1..]) + b;
            WalkSplit(fs, if fs[next].absolute then [] else cur, steps + a[1..], b, follow, links - 1);
          }
        }
      }
    }
  }

  // More links allowed change nothing but the failure for too many.
  lemma {:induction false} WalkWithMoreLinks(fs: Tree, cur: Path, rest: seq<string>, follow: bool, links: nat,
      more: nat)
    ensures var w := Walk(fs, cur, rest, follow, links);
      (w.At? ==> Walk(fs, cur, rest, follow, links + more) == At(w.path, w.links + more))
      && (w.Failed? && !w.error.TooManyLinks? ==> Walk(fs, cur, rest, follow, links + more) == w)
    decreases links, |rest|
  {
    if rest != [] && cur in fs && fs[cur].Dir? {
      var next := cur + [rest[0]];
      if rest[0] == "" || rest[0] == "." {
        WalkWithMoreLinks(fs, cur, rest[1..], follow, links, more);
      } else if rest[0] == ".." {
        WalkWithMoreLinks(fs, Parent(cur), rest[1..], follow, links, more);
      } else if next in fs {
        if !(fs[next].Link? && (|rest| > 1 || follow)) {
          WalkWithMoreLinks(fs, next, rest[1..], follow, links, more);
        } else if links > 0 {
          var from := if fs[next].absolute then [] else cur;
          WalkWithMoreLinks(fs, from, fs[next].steps + rest[1..], follow, links - 1, more);
        }
      }
    }
  }

  // In a part of the tree a lookup ends where it ended, or finds something missing.
  lemma {:induction false} WalkInPart(part: Tree, fs: Tree, cur: Path, rest: seq<string>, follow: bool, links: nat)
    requires Within(part, fs)
    ensures var w := Walk(part, cur, rest, follow, links);
      w == Walk(fs, cur, rest, follow, links) || w == Failed(NotExist)
    decreases links, |rest|
  {
    if rest != [] && cur in part && part[cur].Dir? {
      var next := cur + [rest[0]];
      if rest[0] == "" || rest[0] == "." {
        WalkInPart(part, fs, cur, rest[1..], follow, links);
      } else if rest[0] == ".." {
        WalkInPart(part, fs, Parent(cur), rest[1..], follow, links);
      } else if next in part {
        if !(part[next].Link? && (|rest| > 1 || follow)) {
          WalkInPart(part, fs, next, rest[1..], follow, links);
        } else if links > 0 {
          var from := if part[next].absolute then [] else cur;
          WalkInPart(part, fs, from, part[next].steps + rest[1..], follow, links - 1);
        }
      }
    }
  }

  // In a well-formed tree a lookup ends at a node.
  lemma {:induction false} WalkEndsInTree(fs: Tree, cur: Path, rest: seq<string>, follow: bool, links: nat)
    requires WellFormed(fs) && cur in fs
    ensures var w := Walk(fs, cur, rest, follow, links); w.At? ==> w.path in fs
    decreases links, |rest|
  {
    if rest != [] && fs[cur].Dir? {
      var next := cur + [rest[0]];
      if rest[0] == "" || rest[0] == "." {
        WalkEndsInTree(fs, cur, rest[1..], follow, links);
      } else if rest[0] == ".." {
        assert Seated(fs, cur);
        WalkEndsInTree(fs, Parent(cur), rest[1..], follow, links);
      } else if next in fs {
        if !(fs[next].Link? && (|rest| > 1 || follow)) {
          WalkEndsInTree(fs, next, rest[1..], follow, links);
        } else if links > 0 {
          WalkEndsInTree(fs, if fs[next].absolute then [] else cur, fs[next].steps + rest[1..], follow, links - 1);
        }
      }
    }
  }

  // Lstat looks the parent up through every link, and then one name.
  lemma LstatByParent(fs: Tree, path: Path)
    requires path != [] && CleanName(path[|path| - 1])
    ensures Lstat(fs, path) ==
      (var w := Stat(fs, Parent(path));
       if w.Failed? then w
       else if w.path !in fs then Failed(NotExist)
       else if !fs[w.path].Dir? then Failed(NotDir)
       else if w.path + [path[|path| - 1]] !in fs then Failed(NotExist)
       else At(w.path + [path[|path| - 1]], w.links))
  {
    var last := [path[|path| - 1]];
    assert path == Parent(path) + last;
    WalkSplit(fs, [], Parent(path), last, false, KERNEL_LINKS);
    assert last[1..] == [];
  }

  // Stat ends where Lstat does unless that is a link.
  lemma StatByLstat(fs: Tree, path: Path, links: nat)
    requires path != [] && CleanName(path[|path| - 1])
    ensures var l := Walk(fs, [], path, false, links);
      (l.Failed? ==> Walk(fs, [], path, true, links) == l)
      && (l.At? && l.path in fs && !fs[l.path].Link? ==> Walk(fs, [], path, true, links) == l)
  {
    var last := [path[|path| - 1]];
    assert path == Parent(path) + last;
    WalkSplit(fs, [], Parent(path), last, false, links);
    WalkSplit(fs, [], Parent(path), last, true, links);
    assert last[1..] == [];
  }

  // --- What MkdirAll makes ---

  lemma {:induction false} AncestorsAreThere(fs: Tree, above: Path, p: Path)
    requires WellFormed(fs) && p in fs && above <= p
    ensures above in fs && (above != p ==> fs[above].Dir?)
    decreases |p|
  {
    if above != p {
      assert Seated(fs, p) && above <= Parent(p);
      AncestorsAreThere(fs, above, Parent(p));
    }
  }

  // Where the names of path from k - 1 on would be made.
  ghost predicate MadeBelow(fs: Tree, after: Tree, path: Path, k: nat) {
    && 0 < k <= |path|
    && var w := Stat(fs, path[..k - 1]);
    && w.At?
    && var site := w.path + [path[k - 1]];
    && site !in fs && site in after
    && forall p | p in after && p !in fs :: site <= p && after[p].Dir?
  }

  ghost predicate OnTheWay(fs: Tree, path: Path, p: Path) {
    exists k | 0 <= k <= |path| :: Stat(fs, path[..k]).At? && Stat(fs, path[..k]).path == p
  }

  lemma {:induction false} WalkBelowIsPlain(fs: Tree, top: Path, cur: Path, rest: Path, links: nat)
    requires top <= cur && CleanPath(rest)
    requires forall p | p in fs && top <= p :: fs[p].Dir?
    ensures var w := Walk(fs, cur, rest, true, links); w.At? ==> w.path == cur + rest
    decreases |rest|
  {
    if rest != [] && cur in fs {
      var next := cur + [rest[0]];
      if next in fs {
        WalkBelowIsPlain(fs, top, next, rest[1..], links);
        assert next + rest[1..] == cur + rest;
      }
    }
  }

  // A lookup that passes through a directory made on the way ends below it.
  lemma MadeIsPassed(fs: Tree, after: Tree, path: Path, k: nat)
    requires WellFormed(fs) && WellFormed(after) && Within(fs, after) && CleanPath(path)
    requires MadeBelow(fs, after, path, k) && Stat(after, path).At?
    ensures Stat(fs, path[..k - 1]).path + [path[k - 1]] <= Stat(after, path).path
  {
    var w := Stat(fs, path[..k - 1]);
    var site := w.path + [path[k - 1]];
    WalkInPart(fs, after, [], path[..k - 1], true, KERNEL_LINKS);
    assert Stat(after, path[..k - 1]) == w;
    forall p | p in after && site <= p ensures after[p].Dir? {
      if p in fs {
        AncestorsAreThere(fs, site, p);
      }
    }
    assert Parent(site) == w.path;
    assert path == path[..k - 1] + path[k - 1..];
    WalkSplit(after, [], path[..k - 1], path[k - 1..], true, KERNEL_LINKS);
    WalkBelowIsPlain(after, site, site, path[k..], w.links);
    assert path[k - 1..][1..] == path[k..];
  }

  lemma AddDir(fs: Tree, above: Path, name: string)
    requires WellFormed(fs) && above in fs && fs[above].Dir? && CleanName(name) && above + [name] !in fs
    ensures WellFormed(fs[above + [name] := Dir]) && Within(fs, fs[above + [name] := Dir])
  {
    var after := fs[above + [name] := Dir];
    assert Parent(above + [name]) == above;
    forall p | p in after ensures Seated(after, p) {
      assert p in fs ==> Seated(fs, p);
    }
  }

  lemma MkdirKeepsForm(fs: Tree, path: Path)
    requires WellFormed(fs) && path != [] && CleanName(path[|path| - 1])
    ensures var c := Mkdir(fs, path); WellFormed(c.tree) && Within(fs, c.tree)
    ensures var c := Mkdir(fs, path);
      c.tree != fs ==>
        && c.error.None? && Lstat(c.tree, path).At? && c.tree == fs[Lstat(c.tree, path).path := Dir]
        && var w := Stat(fs, Parent(path));
        && w.At? && Lstat(c.tree, path).path == w.path + [path[|path| - 1]]
  {
    hide Walk, WellFormed, Within;
    var c := Mkdir(fs, path);
    var w := Stat(fs, Parent(path));
    if c.tree != fs {
      AddDir(fs, w.path, path[|path| - 1]);
      WalkInPart(fs, c.tree, [], Parent(path), true, KERNEL_LINKS);
      LstatByParent(c.tree, path);
    } else {
      WithinItself(fs);
    }
  }

  lemma WithinItself(fs: Tree)
    ensures Within(fs, fs)
  {
  }

  // MkdirAll loses nothing, and makes directories only: all below one name that was
  // missing, and each where a prefix of the path leads.
  lemma {:induction false} MkdirAllMakes(fs: Tree, path: Path)
    requires WellFormed(fs) && CleanPath(path)
    ensures var after := MkdirAll(fs, path).tree;
      && WellFormed(after) && Within(fs, after)
      && (after == fs || exists k :: MadeBelow(fs, after, path, k))
      && (forall p | p in after && p !in fs :: OnTheWay(after, path, p))
      && forall p | p in after && p !in fs :: after[p].Dir?
    decreases |path|
  {
    hide Walk, Mkdir, MadeBelow, OnTheWay, IsDirAt;
    if path != [] && Stat(fs, path).Failed? {
      var up := MkdirAll(fs, Parent(path));
      hide Within, WellFormed;
      MkdirAllMakes(fs, Parent(path));
      PrefixesCarry(fs, up.tree, path);
      if up.error.None? {
        MkdirKeepsForm(up.tree, path);
        if Mkdir(up.tree, path).tree != up.tree {
          OneMoreMade(fs, up.tree, path);
        }
      }
    }
  }

  // What holds of the parent's prefixes holds of the path's.
  lemma PrefixesCarry(fs: Tree, after: Tree, path: Path)
    requires path != []
    ensures forall k | MadeBelow(fs, after, Parent(path), k) :: MadeBelow(fs, after, path, k)
    ensures forall p | OnTheWay(after, Parent(path), p) :: OnTheWay(after, path, p)
  {
    forall k: nat | k <= |Parent(path)| ensures Parent(path)[..k] == path[..k] {
    }
    forall k | MadeBelow(fs, after, Parent(path), k) ensures MadeBelow(fs, after, path, k) {
      assert Parent(path)[..k - 1] == path[..k - 1] && Parent(path)[k - 1] == path[k - 1];
    }
    forall p | OnTheWay(after, Parent(path), p) ensures OnTheWay(after, path, p) {
      var k :| 0 <= k <= |Parent(path)| && Stat(after, Parent(path)[..k]).At?
        && Stat(after, Parent(path)[..k]).path == p;
      assert Stat(after, path[..k]).At? && Stat(after, path[..k]).path == p;
    }
  }

  lemma OnTheWayStays(fs: Tree, after: Tree, path: Path, p: Path)
    requires Within(fs, after) && OnTheWay(fs, path, p)
    ensures OnTheWay(after, path, p)
  {
    var k :| 0 <= k <= |path| && Stat(fs, path[..k]).At? && Stat(fs, path[..k]).path == p;
    WalkInPart(fs, after, [], path[..k], true, KERNEL_LINKS);
    assert Stat(after, path[..k]).At? && Stat(after, path[..k]).path == p;
  }

  lemma OneMoreMade(fs: Tree, before: Tree, path: Path)
    requires WellFormed(fs) && WellFormed(before) && CleanPath(path) && path != []
    requires Within(fs, before) && (before == fs || exists k :: MadeBelow(fs, before, Parent(path), k))
    requires forall p | p in before && p !in fs :: OnTheWay(before, path, p)
    requires Mkdir(before, path).tree != before
    ensures var after := Mkdir(before, path).tree;
      && WellFormed(after) && Within(fs, after)
      && (exists k :: MadeBelow(fs, after, path, k))
      && forall p | p in after && p !in fs :: OnTheWay(after, path, p)
  {
    var after := Mkdir(before, path).tree;
    MkdirKeepsForm(before, path);
    MadeLastIsOnTheWay(fs, before, path);
    if before == fs {
      MadeHere(fs, path);
    } else {
      var k :| MadeBelow(fs, before, Parent(path), k);
      MadeFurther(fs, before, path, k);
    }
  }

  lemma MadeLastIsOnTheWay(fs: Tree, before: Tree, path: Path)
    requires WellFormed(before) && CleanPath(path) && path != []
    requires forall p | p in before && p !in fs :: OnTheWay(before, path, p)
    requires Mkdir(before, path).tree != before
    ensures var after := Mkdir(before, path).tree; forall p | p in after && p !in fs :: OnTheWay(after, path, p)
  {
    var after := Mkdir(before, path).tree;
    MkdirKeepsForm(before, path);
    hide Walk, WellFormed, Mkdir;
    var made := Lstat(after, path).path;
    StatByLstat(after, path, KERNEL_LINKS);
    assert path[..|path|] == path;
    assert OnTheWay(after, path, made);
    forall p | p in after && p !in fs ensures OnTheWay(after, path, p) {
      if p != made {
        OnTheWayStays(before, after, path, p);
      }
    }
  }

  lemma MadeHere(fs: Tree, path: Path)
    requires WellFormed(fs) && path != []
    requires Mkdir(fs, path).tree != fs
    ensures MadeBelow(fs, Mkdir(fs, path).tree, path, |path|)
  {
    assert path[..|path| - 1] == Parent(path);
  }

  lemma MadeFurther(fs: Tree, before: Tree, path: Path, k: nat)
    requires WellFormed(fs) && WellFormed(before) && CleanPath(path) && path != [] && Within(fs, before)
    requires MadeBelow(fs, before, Parent(path), k)
    requires Mkdir(before, path).tree != before
    ensures MadeBelow(fs, Mkdir(before, path).tree, path, k)
  {
    hide Walk, WellFormed;
    MadeIsPassed(fs, before, Parent(path), k);
    assert Parent(path)[..k - 1] == path[..k - 1] && Parent(path)[k - 1] == path[k - 1];
    assert Stat(before, Parent(path)).path <= Stat(before, Parent(path)).path + [path[|path| - 1]];
  }

  // On success the path leads to a directory; if it led nowhere before, not by a link.
  lemma {:induction false} MkdirAllSucceeds(fs: Tree, path: Path)
    requires WellFormed(fs) && CleanPath(path) && MkdirAll(fs, path).error.None?
    ensures var after := MkdirAll(fs, path).tree;
      && IsDirAt(after, Stat(after, path))
      && (Stat(fs, path).Failed? ==> IsDirAt(after, Lstat(after, path)))
  {
    hide Walk, MadeBelow, OnTheWay, WellFormed, Within;
    if path != [] && Stat(fs, path).Failed? {
      var up := MkdirAll(fs, Parent(path));
      MkdirAllMakes(fs, Parent(path));
      MkdirKeepsForm(up.tree, path);
      var after := MkdirAll(fs, path).tree;
      if Mkdir(up.tree, path).error.None? {
        assert after != up.tree;
      }
      StatByLstat(after, path, KERNEL_LINKS);
    }
  }
}
