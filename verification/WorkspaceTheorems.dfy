/** What making and removing workspaces can change: only nodes inside the resolved root. */
module WorkspaceTheorems {
  import opened FileTree
  import opened Paths
  import opened Workspace
  import opened Wrappers

  ghost predicate Settled(fs: Tree, s: Settings) {
    WellFormed(fs) && CleanPath(s.root) && CleanPath(s.cwd)
  }

  lemma {:induction false} NodesAreClean(fs: Tree, p: Path)
    requires WellFormed(fs) && p in fs
    ensures CleanPath(p)
    decreases |p|
  {
    if p != [] {
      assert Seated(fs, p);
      NodesAreClean(fs, Parent(p));
      assert p == Parent(p) + [p[|p| - 1]];
    }
  }

  // A path that can be followed to its end can be followed part of the way.
  lemma PrefixIsThere(fs: Tree, above: Path, path: Path)
    requires above <= path && Stat(fs, path).At?
    ensures Stat(fs, above).At?
  {
    if above != path {
      assert path == above + path[|above|..];
      WalkSplit(fs, [], above, path[|above|..], true, KERNEL_LINKS);
    }
  }

  lemma LstatOfStat(fs: Tree, path: Path)
    requires CleanPath(path) && Stat(fs, path).At?
    ensures Lstat(fs, path).At?
  {
    if path != [] {
      StatByLstat(fs, path, KERNEL_LINKS);
    }
  }

  lemma EvalOfStat(fs: Tree, path: Path)
    requires Stat(fs, path).At?
    ensures EvalSymlinks(fs, path).At? && EvalSymlinks(fs, path).path == Stat(fs, path).path
  {
    WalkWithMoreLinks(fs, [], path, true, KERNEL_LINKS, EVAL_LINKS - KERNEL_LINKS);
  }

  // Validation of a path that can be followed: it passes exactly when the path leads
  // inside the resolved root.
  lemma ValidateJudgesTarget(fs: Tree, s: Settings, path: Path)
    requires Settled(fs, s) && CleanPath(path) && !s.StaticCWD() && s.root <= path && Stat(fs, path).At?
    ensures EvalSymlinks(fs, s.root).At? && Stat(fs, s.root).At?
    ensures Validate(fs, s, path).None? <==> EvalSymlinks(fs, s.root).path <= Stat(fs, path).path
  {
    PrefixIsThere(fs, s.root, path);
    LstatOfStat(fs, s.root);
    LstatOfStat(fs, path);
    EvalOfStat(fs, s.root);
    EvalOfStat(fs, path);
    PathWithinIsPrefix(s.root, path);
    WalkEndsInTree(fs, [], s.root, true, KERNEL_LINKS);
    WalkEndsInTree(fs, [], path, true, KERNEL_LINKS);
    NodesAreClean(fs, Stat(fs, s.root).path);
    NodesAreClean(fs, Stat(fs, path).path);
    PathWithinIsPrefix(Stat(fs, s.root).path, Stat(fs, path).path);
  }

  // --- What Remove and RemoveAll take away ---

  lemma NothingBelow(fs: Tree, p: Path)
    requires WellFormed(fs) && p in fs && !fs[p].Dir?
    ensures p != [] && forall q | q in fs && p <= q :: q == p
    ensures WellFormed(fs - {p}) && Within(fs - {p}, fs)
  {
    forall q | q in fs && p <= q ensures q == p {
      AncestorsAreThere(fs, p, q);
    }
    forall q | q in fs - {p} ensures Seated(fs - {p}, q) {
      assert Seated(fs, q);
    }
  }

  lemma RemoveAllKeepsRest(fs: Tree, path: Path)
    requires WellFormed(fs)
    ensures var after := RemoveAll(fs, path).tree;
      && WellFormed(after) && Within(after, fs)
      && (after == fs || (Lstat(fs, path).At? && SameOutside(Lstat(fs, path).path, fs, after)))
    ensures Lstat(fs, path).At? && RemoveAll(fs, path).error.None? ==> Lstat(fs, path).path !in RemoveAll(fs, path).tree
  {
    hide Walk;
    var w := Lstat(fs, path);
    var after := RemoveAll(fs, path).tree;
    if w.At? && w.path != [] {
      forall q | q in after ensures Seated(after, q) {
        assert Seated(fs, q) && Parent(q) <= q;
      }
    }
  }

  // Remove leaves every node outside the resolved root as it was, and makes nothing.
  lemma RemoveStaysInside(fs: Tree, s: Settings, path: Option<Path>)
    requires Settled(fs, s) && (path.Some? ==> CleanPath(path.value))
    ensures var after := RemoveIn(fs, s, path).tree;
      && WellFormed(after) && Within(after, fs)
      && (after == fs ||
          (&& !s.StaticCWD() && path.Some?
           && Lstat(fs, path.value).At? && EvalSymlinks(fs, s.root).At?
           && EvalSymlinks(fs, s.root).path <= Lstat(fs, path.value).path
           && SameOutside(Lstat(fs, path.value).path, fs, after)))
  {
    hide Walk, Validate;
    if RemoveIn(fs, s, path).tree != fs {
      var w := Lstat(fs, path.value);
      WalkEndsInTree(fs, [], path.value, false, KERNEL_LINKS);
      PathWithinIsPrefix(s.root, path.value);
      if IsLinkAt(fs, w) {
        RemovedLinkIsInside(fs, s, path.value);
      } else {
        RemovedNodeIsInside(fs, s, path.value);
      }
    }
  }

  lemma RemovedLinkIsInside(fs: Tree, s: Settings, path: Path)
    requires Settled(fs, s) && CleanPath(path) && !s.StaticCWD() && IsLinkAt(fs, Lstat(fs, path))
    requires Validate(fs, s, Parent(path)).None?
    ensures var p := Lstat(fs, path).path;
      && EvalSymlinks(fs, s.root).At? && EvalSymlinks(fs, s.root).path <= p
      && Remove(fs, path) == Change(fs - {p}, None)
      && WellFormed(fs - {p}) && Within(fs - {p}, fs) && SameOutside(p, fs, fs - {p})
  {
    var p := Lstat(fs, path).path;
    assert path != [];
    LstatByParent(fs, path);
    PathWithinIsPrefix(s.root, Parent(path));
    ValidateJudgesTarget(fs, s, Parent(path));
    NothingBelow(fs, p);
    hide Walk, Validate;
  }

  lemma RemovedNodeIsInside(fs: Tree, s: Settings, path: Path)
    requires Settled(fs, s) && CleanPath(path) && !s.StaticCWD() && Lstat(fs, path).At?
    requires !IsLinkAt(fs, Lstat(fs, path))
    requires s.root <= path && Validate(fs, s, path).None?
    ensures var p := Lstat(fs, path).path; var after := RemoveAll(fs, path).tree;
      && EvalSymlinks(fs, s.root).At? && EvalSymlinks(fs, s.root).path <= p
      && WellFormed(after) && Within(after, fs) && (after == fs || SameOutside(p, fs, after))
  {
    WalkEndsInTree(fs, [], path, false, KERNEL_LINKS);
    if path != [] {
      StatByLstat(fs, path, KERNEL_LINKS);
    }
    hide Walk, Validate;
    ValidateJudgesTarget(fs, s, path);
    RemoveAllKeepsRest(fs, path);
  }

  // After a successful Remove there is nothing at the path.
  lemma RemoveSucceeds(fs: Tree, s: Settings, path: Path)
    requires Settled(fs, s) && CleanPath(path) && !s.StaticCWD()
    requires RemoveIn(fs, s, Some(path)).error.None?
    ensures Lstat(RemoveIn(fs, s, Some(path)).tree, path) == Failed(NotExist)
  {
    var w := Lstat(fs, path);
    var after := RemoveIn(fs, s, Some(path)).tree;
    if w.At? {
      PathWithinIsPrefix(s.root, path);
      WalkEndsInTree(fs, [], path, false, KERNEL_LINKS);
      if IsLinkAt(fs, w) {
        RemovedLinkIsInside(fs, s, path);
      } else {
        RemovedNodeIsInside(fs, s, path);
        RemoveAllKeepsRest(fs, path);
      }
      WalkInPart(after, fs, [], path, false, KERNEL_LINKS);
      WalkEndsInTree(after, [], path, false, KERNEL_LINKS);
    }
  }

  // --- Ensure ---

  // The only name of the path that can be missing is its last.
  lemma OnlyTheEntryIsMissing(fs: Tree, gone: Tree, root: Path, name: string, k: nat)
    requires CleanPath(root) && CleanName(name) && Stat(fs, root).At?
    requires var entry := Stat(fs, root).path + [name]; gone == fs || gone == fs - {entry}
    requires 0 < k <= |root| + 1
    requires var w := Stat(gone, (root + [name])[..k - 1]); w.At? && w.path + [(root + [name])[k - 1]] !in gone
    ensures Stat(gone, (root + [name])[..k - 1]).path + [(root + [name])[k - 1]] == Stat(fs, root).path + [name]
  {
    hide Walk;
    var path := root + [name];
    var above := path[..k - 1];
    WalkInPart(gone, fs, [], above, true, KERNEL_LINKS);
    if k == |path| {
      assert above == root;
    } else {
      var upTo := path[..k];
      assert upTo <= root && Parent(upTo) == above && upTo[|upTo| - 1] == path[k - 1] == root[k - 1];
      PrefixIsThere(fs, upTo, root);
      LstatOfStat(fs, upTo);
      LstatByParent(fs, upTo);
    }
  }

  // What MkdirAll makes on a path whose last entry alone is gone lies at or below it.
  lemma MadeInTheGap(fs: Tree, gone: Tree, root: Path, name: string)
    requires WellFormed(fs) && WellFormed(gone) && CleanPath(root) && CleanName(name)
    requires Stat(fs, root).At?
    requires var entry := Stat(fs, root).path + [name]; gone == fs || gone == fs - {entry}
    ensures var after := MkdirAll(gone, root + [name]).tree; var entry := Stat(fs, root).path + [name];
      WellFormed(after) && SameOutside(entry, fs, after)
  {
    hide Walk, MkdirAll, WellFormed, Stat;
    var path := root + [name];
    var after := MkdirAll(gone, path).tree;
    MkdirAllMakes(gone, path);
    if after != gone {
      var k: nat :| MadeBelow(gone, after, path, k);
      OnlyTheEntryIsMissing(fs, gone, root, name, k);
    }
  }

  // The workspace's own entry: its path in the resolved root.
  function EntryPath(fs: Tree, s: Settings, identifier: string): Path
    requires Stat(fs, s.root).At?
  {
    Stat(fs, s.root).path + [SafeIdentifier(identifier)]
  }

  // With the root there, Ensure touches nothing but the entry and what is below it.
  lemma EnsureEntryStaysInside(fs: Tree, s: Settings, identifier: string)
    requires Settled(fs, s) && !s.StaticCWD() && IsDirAt(fs, Stat(fs, s.root))
    ensures var after := EnsureEntry(fs, s, IssuePath(s.root, identifier)).tree;
      WellFormed(after) && SameOutside(EntryPath(fs, s, identifier), fs, after)
  {
    var name := SafeIdentifier(identifier);
    var path := IssuePath(s.root, identifier);
    var entry := EntryPath(fs, s, identifier);
    IssuePathIsDirectlyBelow(s.root, identifier);
    SafeIdentifierIsName(identifier);
    LstatByParent(fs, path);
    assert Parent(path) == s.root;
    var w := Lstat(fs, path);
    hide Walk, Validate, MkdirAll, WellFormed;
    if w.At? && !IsDirAt(fs, w) {
      NothingBelow(fs, entry);
      assert Remove(fs, path).tree == fs - {entry};
      assert RemoveAll(fs, path).tree == fs - {entry};
      MadeInTheGap(fs, fs - {entry}, s.root, name);
    } else if w.Failed? {
      MadeInTheGap(fs, fs, s.root, name);
    }
  }

  // Ensure makes the root's missing ancestors, loses nothing of what was there, and
  // then changes nothing that is not at or below the workspace's entry in the root as
  // it resolves.
  lemma EnsureStaysInside(fs: Tree, s: Settings, identifier: string)
    requires Settled(fs, s)
    ensures var up := MkdirAll(fs, s.root).tree; var after := EnsureIn(fs, s, identifier).tree;
      && WellFormed(after)
      && (s.StaticCWD() ==> after == fs)
      && (!s.StaticCWD() ==> Within(fs, up))
      && (!s.StaticCWD() ==> forall p | p in up && p !in fs :: up[p].Dir? && OnTheWay(up, s.root, p))
      && (!s.StaticCWD() && after != up ==>
            && Stat(up, s.root).At? && EvalSymlinks(up, s.root).At?
            && EvalSymlinks(up, s.root).path == Stat(up, s.root).path
            && SameOutside(EntryPath(up, s, identifier), up, after))
  {
    hide Walk;
    if !s.StaticCWD() {
      var up := MkdirAll(fs, s.root);
      MkdirAllMakes(fs, s.root);
      if up.error.None? {
        MkdirAllSucceeds(fs, s.root);
        EnsureEntryStaysInside(up.tree, s, identifier);
        EvalOfStat(up.tree, s.root);
      }
    }
  }

  // A directory that is really there, not a link to one, directly inside the root.
  ghost predicate ReadyWorkspace(fs: Tree, s: Settings, path: Path) {
    && path != [] && Parent(path) == s.root
    && CleanName(path[|path| - 1])
    && IsDirAt(fs, Stat(fs, s.root))
    && IsDirAt(fs, Lstat(fs, path))
    && EvalSymlinks(fs, s.root).At?
    && Lstat(fs, path).path == EvalSymlinks(fs, s.root).path + [path[|path| - 1]]
  }

  lemma ReadyIfDir(fs: Tree, s: Settings, path: Path)
    requires Settled(fs, s) && path != [] && Parent(path) == s.root && CleanName(path[|path| - 1])
    requires IsDirAt(fs, Lstat(fs, path))
    ensures ReadyWorkspace(fs, s, path)
  {
    LstatByParent(fs, path);
    EvalOfStat(fs, s.root);
  }

  lemma MakeAfterSucceeds(gone: Tree, path: Path)
    requires WellFormed(gone) && CleanPath(path) && MkdirAll(gone, path).error.None? && !Lstat(gone, path).At?
    ensures IsDirAt(MkdirAll(gone, path).tree, Lstat(MkdirAll(gone, path).tree, path))
  {
    if path != [] {
      StatByLstat(gone, path, KERNEL_LINKS);
    }
    hide Walk;
    MkdirAllSucceeds(gone, path);
  }

  // A successful Ensure ends with a real directory directly inside the resolved root.
  lemma EnsureSucceeds(fs: Tree, s: Settings, identifier: string)
    requires Settled(fs, s) && !s.StaticCWD() && EnsureIn(fs, s, identifier).result.Ok?
    ensures var e := EnsureIn(fs, s, identifier);
      && identifier != "" && e.result.value.0 == s.root + [SafeIdentifier(identifier)]
      && ReadyWorkspace(e.tree, s, e.result.value.0)
  {
    hide Walk;
    var up := MkdirAll(fs, s.root).tree;
    var path := IssuePath(s.root, identifier);
    MkdirAllMakes(fs, s.root);
    MkdirAllSucceeds(fs, s.root);
    IssuePathIsDirectlyBelow(s.root, identifier);
    SafeIdentifierIsName(identifier);
    EnsureEntryStaysInside(up, s, identifier);
    EnsureEntryMakesDir(up, s, identifier);
    ReadyIfDir(EnsureEntry(up, s, path).tree, s, path);
  }

  lemma EnsureEntryMakesDir(fs: Tree, s: Settings, identifier: string)
    requires Settled(fs, s) && !s.StaticCWD() && IsDirAt(fs, Stat(fs, s.root))
    requires EnsureEntry(fs, s, IssuePath(s.root, identifier)).result.Ok?
    ensures var e := EnsureEntry(fs, s, IssuePath(s.root, identifier));
      IsDirAt(e.tree, Lstat(e.tree, IssuePath(s.root, identifier)))
  {
    var path := IssuePath(s.root, identifier);
    var entry := EntryPath(fs, s, identifier);
    IssuePathIsDirectlyBelow(s.root, identifier);
    SafeIdentifierIsName(identifier);
    LstatByParent(fs, path);
    assert Parent(path) == s.root;
    var w := Lstat(fs, path);
    hide Walk, Validate, MkdirAll, WellFormed;
    if w.At? && !IsDirAt(fs, w) {
      NothingBelow(fs, entry);
      var gone := fs - {entry};
      assert Remove(fs, path).tree == gone && RemoveAll(fs, path).tree == gone;
      WalkInPart(gone, fs, [], path, false, KERNEL_LINKS);
      WalkEndsInTree(gone, [], path, false, KERNEL_LINKS);
      MakeAfterSucceeds(gone, path);
    } else if w.Failed? {
      MakeAfterSucceeds(fs, path);
    }
  }

  // --- Ensure and Remove together ---

  lemma ReadyIsValid(fs: Tree, s: Settings, path: Path)
    requires Settled(fs, s) && !s.StaticCWD() && ReadyWorkspace(fs, s, path)
    ensures CleanPath(path) && Validate(fs, s, path).None?
  {
    assert path == s.root + [path[|path| - 1]];
    StatByLstat(fs, path, KERNEL_LINKS);
    hide Walk, Validate;
    ValidateJudgesTarget(fs, s, path);
  }

  // Ensured once, ensured again: the same path, not new, and nothing changed.
  lemma EnsureTwice(fs: Tree, s: Settings, identifier: string)
    requires Settled(fs, s) && !s.StaticCWD() && EnsureIn(fs, s, identifier).result.Ok?
    ensures var e := EnsureIn(fs, s, identifier);
      EnsureIn(e.tree, s, identifier) == Ensured(e.tree, Ok((e.result.value.0, false)))
  {
    hide Walk, Validate;
    var e := EnsureIn(fs, s, identifier);
    var path := e.result.value.0;
    EnsureSucceeds(fs, s, identifier);
    EnsureStaysInside(fs, s, identifier);
    IssuePathIsDirectlyBelow(s.root, identifier);
    assert MkdirAll(e.tree, s.root) == Change(e.tree, None);
    ReadyIsValid(e.tree, s, path);
  }

  // Remove undoes Ensure: it succeeds, and the workspace is gone.
  lemma RemoveUndoesEnsure(fs: Tree, s: Settings, identifier: string)
    requires Settled(fs, s) && !s.StaticCWD() && EnsureIn(fs, s, identifier).result.Ok?
    ensures var e := EnsureIn(fs, s, identifier);
      var path := e.result.value.0;
      var r := RemoveIn(e.tree, s, Some(path));
      && Lstat(e.tree, path).At? && r.error.None? && Lstat(r.tree, path) == Failed(NotExist)
      && SameOutside(Lstat(e.tree, path).path, e.tree, r.tree)
  {
    hide Walk, Validate;
    var e := EnsureIn(fs, s, identifier);
    var path := e.result.value.0;
    EnsureSucceeds(fs, s, identifier);
    EnsureStaysInside(fs, s, identifier);
    EvalOfStat(e.tree, s.root);
    ReadyIsValid(e.tree, s, path);
    PathWithinIsPrefix(s.root, path);
    RemoveAllKeepsRest(e.tree, path);
    RemoveSucceeds(e.tree, s, path);
  }
}
