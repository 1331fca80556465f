/** Exactly when making, validating and removing workspaces succeed, and what is left then. */
module WorkspaceSuccess {
  import opened FileTree
  import opened Names
  import opened Paths
  import opened Workspace
  import opened WorkspaceTheorems
  import opened Wrappers

  // --- Validation ---

  // The first k names of the path are there, and no more of them are.
  ghost predicate LongestThere(fs: Tree, path: Path, k: nat)
    ensures LongestThere(fs, path, k) ==> k <= |path|
  {
    && k <= |path| && Lstat(fs, path[..k]).At?
    && forall m | k < m <= |path| :: Lstat(fs, path[..m]) == Failed(NotExist)
  }

  lemma {:induction false} NearestIsLongest(fs: Tree, path: Path, k: nat)
    requires LongestThere(fs, path, k)
    ensures NearestExisting(fs, path) == Ok(path[..k])
    decreases |path|
  {
    hide Walk;
    assert path[..|path|] == path;
    if k < |path| {
      var up := Parent(path);
      forall m | 0 <= m <= |up| ensures up[..m] == path[..m] {
      }
      NearestIsLongest(fs, up, k);
    }
  }

  lemma {:induction false} LongestIsNearest(fs: Tree, path: Path)
    requires NearestExisting(fs, path).Ok?
    ensures exists k: nat :: LongestThere(fs, path, k)
    decreases |path|
  {
    hide Walk;
    assert path[..|path|] == path;
    if Lstat(fs, path).At? {
      assert LongestThere(fs, path, |path|);
    } else {
      var up := Parent(path);
      LongestIsNearest(fs, up);
      var k: nat :| LongestThere(fs, up, k);
      forall m | 0 <= m <= |up| ensures up[..m] == path[..m] {
      }
      forall m | k < m <= |path| ensures Lstat(fs, path[..m]) == Failed(NotExist) {
        if m <= |up| {
          assert up[..m] == path[..m];
        }
      }
      assert LongestThere(fs, path, k);
    }
  }

  // The root as EvalSymlinks resolves it, or as it is written when it leads nowhere.
  function RealRoot(fs: Tree, root: Path): Path {
    if EvalSymlinks(fs, root).At? then EvalSymlinks(fs, root).path else root
  }

  lemma TargetIsClean(fs: Tree, path: Path)
    requires WellFormed(fs) && EvalSymlinks(fs, path).At?
    ensures CleanPath(EvalSymlinks(fs, path).path)
  {
    WalkEndsInTree(fs, [], path, true, EVAL_LINKS);
    hide Walk;
    NodesAreClean(fs, EvalSymlinks(fs, path).path);
  }

  // Below the root as it is written, and where the root is there, the longest part of the
  // path that is there leads inside the root as it resolves.
  ghost predicate LeadsInside(fs: Tree, root: Path, path: Path) {
    && (EvalSymlinks(fs, root).At? || EvalSymlinks(fs, root) == Failed(NotExist))
    && exists k: nat ::
      && LongestThere(fs, path, k) && EvalSymlinks(fs, path[..k]).At?
      && RealRoot(fs, root) <= EvalSymlinks(fs, path[..k]).path
  }

  // Validation of any path, there or not.
  lemma ValidatesExactlyWhen(fs: Tree, s: Settings, path: Path)
    requires Settled(fs, s) && CleanPath(path)
    ensures Validate(fs, s, path).None? <==>
      if s.StaticCWD() then s.cwd <= path
      else
        && s.root <= path
        && (Lstat(fs, s.root) == Failed(NotExist) || (Lstat(fs, s.root).At? && LeadsInside(fs, s.root, path)))
  {
    hide Walk, WellFormed, CleanPath, NearestExisting;
    PathWithinIsPrefix(s.cwd, path);
    PathWithinIsPrefix(s.root, path);
    if !s.StaticCWD() && s.root <= path && Lstat(fs, s.root).At? {
      ResolvesExactlyWhen(fs, s, path);
    }
  }

  lemma ResolvesExactlyWhen(fs: Tree, s: Settings, path: Path)
    requires Settled(fs, s) && CleanPath(path) && !s.StaticCWD()
    requires PathWithin(s.root, path) && Lstat(fs, s.root).At?
    ensures Validate(fs, s, path).None? <==> LeadsInside(fs, s.root, path)
  {
    hide Walk, NearestExisting, LongestThere, PathWithin;
    if EvalSymlinks(fs, s.root).At? {
      TargetIsClean(fs, s.root);
    }
    if NearestExisting(fs, path).Ok? {
      LongestIsNearest(fs, path);
      var k: nat :| LongestThere(fs, path, k);
      NearestIsLongest(fs, path, k);
      forall j: nat | LongestThere(fs, path, j) ensures path[..j] == path[..k] {
        NearestIsLongest(fs, path, j);
      }
      if EvalSymlinks(fs, path[..k]).At? {
        TargetIsClean(fs, path[..k]);
        PathWithinIsPrefix(RealRoot(fs, s.root), EvalSymlinks(fs, path[..k]).path);
      }
    }
    forall k: nat | LongestThere(fs, path, k) ensures NearestExisting(fs, path).Ok? {
      NearestIsLongest(fs, path, k);
    }
  }

  // --- Making directories ---

  // What MkdirAll makes at the end of the path is new and empty.
  lemma {:induction false} MadeIsEmpty(fs: Tree, path: Path)
    requires WellFormed(fs) && CleanPath(path) && Stat(fs, path).Failed? && MkdirAll(fs, path).error.None?
    ensures var after := MkdirAll(fs, path).tree; var made := Stat(after, path);
      && WellFormed(after) && IsDirAt(after, made) && Lstat(after, path) == made && made.path !in fs
      && forall p | p in after && made.path <= p :: p == made.path
    decreases |path|
  {
    hide Walk, WellFormed, Within;
    MkdirAllMakes(fs, path);
    MkdirAllSucceeds(fs, path);
    assert path != [] by {
      RootIsThere(fs);
    }
    var up := MkdirAll(fs, Parent(path));
    MkdirAllMakes(fs, Parent(path));
    MkdirAllSucceeds(fs, Parent(path));
    StatByLstat(MkdirAll(fs, path).tree, path, KERNEL_LINKS);
    LastIsMade(fs, path);
    MkdirKeepsForm(up.tree, path);
    EntryIsEmpty(fs, up.tree, path);
  }

  lemma RootIsThere(fs: Tree)
    ensures Stat(fs, []).At?
  {
  }

  lemma {:induction false} LastIsMade(fs: Tree, path: Path)
    requires WellFormed(fs) && CleanPath(path) && path != [] && Stat(fs, path).Failed?
    requires MkdirAll(fs, path).error.None?
    ensures Mkdir(MkdirAll(fs, Parent(path)).tree, path).error.None?
    decreases |path|, 0
  {
    var up := MkdirAll(fs, Parent(path)).tree;
    var w := Stat(up, Parent(path));
    LstatByParent(up, path);
    StatByLstat(fs, path, KERNEL_LINKS);
    hide Walk, WellFormed;
    MkdirAllSucceeds(fs, Parent(path));
    if Stat(fs, Parent(path)).Failed? && path[..|path| - 1] != [] {
      MadeIsEmpty(fs, Parent(path));
      assert w.path <= w.path + [path[|path| - 1]];
    }
  }

  lemma EntryIsEmpty(fs: Tree, up: Tree, path: Path)
    requires WellFormed(fs) && WellFormed(up) && Within(fs, up) && CleanPath(path) && path != []
    requires Mkdir(up, path).error.None?
    ensures var made := Lstat(Mkdir(up, path).tree, path);
      made.At? && made.path !in fs && forall p | p in Mkdir(up, path).tree && made.path <= p :: p == made.path
  {
    MkdirKeepsForm(up, path);
    hide Walk;
    var made := Lstat(Mkdir(up, path).tree, path).path;
    forall p | p in up ensures !(made <= p) {
      if made <= p {
        AncestorsAreThere(up, made, p);
      }
    }
  }

  // One more name, below a path that led nowhere.
  lemma OneMoreName(fs: Tree, root: Path, name: string)
    requires WellFormed(fs) && CleanPath(root) && CleanName(name) && Stat(fs, root).Failed?
    ensures MkdirAll(fs, root + [name]).error.None? <==> MkdirAll(fs, root).error.None?
    ensures MkdirAll(fs, root).error.None? ==>
      var up := MkdirAll(fs, root).tree;
      && Stat(up, root).At?
      && MkdirAll(fs, root + [name]).tree == up[Stat(up, root).path + [name] := Dir]
  {
    var path := root + [name];
    assert Parent(path) == root;
    LstatByParent(fs, path);
    StatByLstat(fs, path, KERNEL_LINKS);
    hide Walk, WellFormed;
    var up := MkdirAll(fs, root).tree;
    if MkdirAll(fs, root).error.None? {
      MadeIsEmpty(fs, root);
      assert Stat(up, root).path <= Stat(up, root).path + [name];
    }
  }

  // Some part of the path leads to a directory, and the rest of it can be made there.
  ghost predicate CanBeMade(fs: Tree, path: Path) {
    exists k | 0 <= k <= |path| ::
      IsDirAt(fs, Stat(fs, path[..k])) && (k < |path| ==> Lstat(fs, path[..k + 1]) == Failed(NotExist))
  }

  lemma MissingPart(fs: Tree, path: Path, k: nat)
    requires k <= |path| && Lstat(fs, path[..k]).Failed? && CleanPath(path)
    ensures Stat(fs, path).Failed?
  {
    hide Walk;
    if Stat(fs, path).At? {
      PrefixIsThere(fs, path[..k], path);
      LstatOfStat(fs, path[..k]);
    }
  }

  lemma MadeFromPart(fs: Tree, path: Path, k: nat)
    requires path != [] && CleanPath(path) && k <= |path| && IsDirAt(fs, Stat(fs, path[..k]))
    requires k < |path| ==> Lstat(fs, path[..k + 1]) == Failed(NotExist)
    ensures
      || IsDirAt(fs, Stat(fs, path))
      || (IsDirAt(fs, Stat(fs, Parent(path))) && Lstat(fs, path) == Failed(NotExist))
      || (Stat(fs, Parent(path)).Failed? && CanBeMade(fs, Parent(path)))
  {
    hide Walk;
    var up := Parent(path);
    assert path[..|path|] == path;
    if k < |up| {
      assert up[..k] == path[..k] && up[..k + 1] == path[..k + 1];
      MissingPart(fs, up, k + 1);
    } else if k == |up| {
      assert path[..k] == up && path[..k + 1] == path;
    }
  }

  // Step by step: the last name is there, can be made in its parent, or the parent can be made.
  lemma MadeUpTo(fs: Tree, path: Path)
    requires path != [] && CleanPath(path)
    ensures CanBeMade(fs, path) <==>
      || IsDirAt(fs, Stat(fs, path))
      || (IsDirAt(fs, Stat(fs, Parent(path))) && Lstat(fs, path) == Failed(NotExist))
      || (Stat(fs, Parent(path)).Failed? && CanBeMade(fs, Parent(path)))
  {
    hide Walk;
    var up := Parent(path);
    assert path[..|path|] == path && path[..|up|] == up && up[..|up|] == up;
    if CanBeMade(fs, path) {
      var k :| 0 <= k <= |path| && IsDirAt(fs, Stat(fs, path[..k]))
        && (k < |path| ==> Lstat(fs, path[..k + 1]) == Failed(NotExist));
      MadeFromPart(fs, path, k);
    }
    if IsDirAt(fs, Stat(fs, up)) && Lstat(fs, path) == Failed(NotExist) {
      assert path[..|up| + 1] == path;
    }
    if Stat(fs, up).Failed? && CanBeMade(fs, up) {
      var k :| 0 <= k <= |up| && IsDirAt(fs, Stat(fs, up[..k]))
        && (k < |up| ==> Lstat(fs, up[..k + 1]) == Failed(NotExist));
      assert path[..k] == up[..k] && (k < |up| ==> path[..k + 1] == up[..k + 1]);
    }
  }

  lemma {:induction false} MkdirAllExactlyWhen(fs: Tree, path: Path)
    requires WellFormed(fs) && CleanPath(path)
    ensures MkdirAll(fs, path).error.None? <==> CanBeMade(fs, path)
    decreases |path|
  {
    if path == [] {
      RootIsThere(fs);
      assert path[..0] == [];
      assert IsDirAt(fs, Stat(fs, path[..0]));
    } else {
      var up, name := Parent(path), path[|path| - 1];
      assert path == up + [name];
      LstatByParent(fs, path);
      StatByLstat(fs, path, KERNEL_LINKS);
      if Stat(fs, path).At? {
        PrefixIsThere(fs, up, path);
        LstatOfStat(fs, path);
      }
      hide Walk, WellFormed, CanBeMade;
      MadeUpTo(fs, path);
      MkdirAllExactlyWhen(fs, up);
      if Stat(fs, up).Failed? {
        OneMoreName(fs, up, name);
      }
    }
  }

  // --- The entry ---

  // A lookup that does not end at a file or an unfollowed link does without it.
  lemma {:induction false} WalkWithoutFile(fs: Tree, file: Path, cur: Path, rest: seq<string>, links: nat)
    requires WellFormed(fs) && file in fs && fs[file].File? && cur in fs
    requires IsDirAt(fs, Walk(fs, cur, rest, true, links))
    ensures Walk(fs - {file}, cur, rest, true, links) == Walk(fs, cur, rest, true, links)
    decreases links, |rest|
  {
    if rest != [] {
      var next := cur + [rest[0]];
      if rest[0] == "" || rest[0] == "." {
        WalkWithoutFile(fs, file, cur, rest[1..], links);
      } else if rest[0] == ".." {
        assert Seated(fs, cur);
        WalkWithoutFile(fs, file, Parent(cur), rest[1..], links);
      } else if fs[next].Link? {
        WalkWithoutFile(fs, file, if fs[next].absolute then [] else cur, fs[next].steps + rest[1..], links - 1);
      } else {
        WalkWithoutFile(fs, file, next, rest[1..], links);
      }
    }
  }

  // MkdirAll makes the entry, and nothing else, where the root is there without it.
  lemma MakesTheEntry(gone: Tree, root: Path, name: string)
    requires WellFormed(gone) && CleanPath(root) && CleanName(name)
    requires IsDirAt(gone, Stat(gone, root)) && Stat(gone, root).path + [name] !in gone
    ensures MkdirAll(gone, root + [name]) == Change(gone[Stat(gone, root).path + [name] := Dir], None)
  {
    var path := root + [name];
    assert Parent(path) == root;
    LstatByParent(gone, path);
    StatByLstat(gone, path, KERNEL_LINKS);
    hide Walk, WellFormed;
    assert MkdirAll(gone, root) == Change(gone, None);
  }

  // --- Ensure ---

  // What is at the workspace's entry, in the root as it resolves.
  datatype Entry = Nothing | Directory | Leaf | Symlink

  function EntryOf(fs: Tree, p: Path): Entry {
    if p !in fs then Nothing
    else
      match fs[p]
      case Dir => Directory
      case File(_) => Leaf
      case Link(_, _) => Symlink
  }

  // With the root there and no link at the entry, Ensure succeeds, with the entry made
  // unless it is a directory already, and nothing else changed.
  lemma EnsuresEntry(fs: Tree, s: Settings, identifier: string)
    requires Settled(fs, s) && !s.StaticCWD() && IsDirAt(fs, Stat(fs, s.root))
    requires !EntryOf(fs, EntryPath(fs, s, identifier)).Symlink?
    ensures var entry := EntryPath(fs, s, identifier); var path := s.root + [SafeIdentifier(identifier)];
      EnsureEntry(fs, s, path) ==
        if EntryOf(fs, entry).Directory? then Ensured(fs, Ok((path, false)))
        else Ensured(fs[entry := Dir], Ok((path, true)))
  {
    var name := SafeIdentifier(identifier);
    var path := s.root + [name];
    var entry := EntryPath(fs, s, identifier);
    SafeIdentifierIsName(identifier);
    LstatByParent(fs, path);
    assert Parent(path) == s.root;
    EntryIsValid(fs, s, name);
    hide Walk, Validate, MkdirAll, WellFormed;
    if !EntryOf(fs, entry).Directory? {
      RemovedForEntry(fs, s.root, name);
    }
  }

  lemma RemovedForEntry(fs: Tree, root: Path, name: string)
    requires WellFormed(fs) && CleanPath(root) && CleanName(name) && IsDirAt(fs, Stat(fs, root))
    requires var e := EntryOf(fs, Stat(fs, root).path + [name]); e.Nothing? || e.Leaf?
    ensures var gone := RemoveAll(fs, root + [name]);
      && gone.error.None?
      && MkdirAll(gone.tree, root + [name]) == Change(fs[Stat(fs, root).path + [name] := Dir], None)
  {
    var path, entry := root + [name], Stat(fs, root).path + [name];
    assert Parent(path) == root;
    LstatByParent(fs, path);
    hide Walk, MkdirAll, WellFormed;
    if entry in fs {
      NothingBelow(fs, entry);
      RootWithoutFile(fs, root, entry);
      MakesTheEntry(fs - {entry}, root, name);
      assert RemoveAll(fs, path).tree == fs - {entry};
      assert (fs - {entry})[entry := Dir] == fs[entry := Dir];
    } else {
      MakesTheEntry(fs, root, name);
    }
  }

  lemma RootWithoutFile(fs: Tree, root: Path, file: Path)
    requires WellFormed(fs) && file in fs && fs[file].File? && IsDirAt(fs, Stat(fs, root))
    ensures Stat(fs - {file}, root) == Stat(fs, root) && IsDirAt(fs - {file}, Stat(fs, root))
  {
    WalkWithoutFile(fs, file, [], root, KERNEL_LINKS);
  }

  // A missing entry, a file and a directory are all valid.
  lemma EntryIsValid(fs: Tree, s: Settings, name: string)
    requires Settled(fs, s) && !s.StaticCWD() && IsDirAt(fs, Stat(fs, s.root)) && CleanName(name)
    requires !EntryOf(fs, Stat(fs, s.root).path + [name]).Symlink?
    ensures Validate(fs, s, s.root + [name]).None?
  {
    var path := s.root + [name];
    assert Parent(path) == s.root && path[..|s.root|] == s.root && path[..|path|] == path;
    LstatByParent(fs, path);
    StatByLstat(fs, path, KERNEL_LINKS);
    LstatOfStat(fs, s.root);
    EvalOfStat(fs, s.root);
    hide Walk, Validate, WellFormed;
    ValidatesExactlyWhen(fs, s, path);
    if Lstat(fs, path).At? {
      ValidateJudgesTarget(fs, s, path);
    } else {
      assert LongestThere(fs, path, |s.root|);
      assert LeadsInside(fs, s.root, path);
    }
  }

  // A link at the entry is replaced, if the root can do without it.
  lemma EnsureReplacesLink(fs: Tree, s: Settings, identifier: string)
    requires Settled(fs, s) && !s.StaticCWD() && IsDirAt(fs, Stat(fs, s.root))
    requires EntryOf(fs, EntryPath(fs, s, identifier)).Symlink?
    ensures var entry := EntryPath(fs, s, identifier); var path := s.root + [SafeIdentifier(identifier)];
      var gone := fs - {entry};
      && (EnsureEntry(fs, s, path).result.Ok? <==> CanBeMade(gone, s.root))
      && (EnsureEntry(fs, s, path).result.Ok? ==> EnsureEntry(fs, s, path).result == Ok((path, true)))
      && (Stat(gone, s.root) == Stat(fs, s.root) ==>
            EnsureEntry(fs, s, path) == Ensured(fs[entry := Dir], Ok((path, true))))
  {
    var name := SafeIdentifier(identifier);
    var path := s.root + [name];
    var entry := EntryPath(fs, s, identifier);
    var gone := fs - {entry};
    SafeIdentifierIsName(identifier);
    LstatByParent(fs, path);
    assert Parent(path) == s.root;
    NothingBelow(fs, entry);
    hide Walk, Validate, MkdirAll, WellFormed;
    assert Remove(fs, path) == Change(gone, None);
    WalkInPart(gone, fs, [], s.root, true, KERNEL_LINKS);
    MkdirAllExactlyWhen(gone, s.root);
    if Stat(gone, s.root).At? {
      assert IsDirAt(gone, Stat(gone, s.root));
      MakesTheEntry(gone, s.root, name);
      assert gone[entry := Dir] == fs[entry := Dir];
      assert s.root[..|s.root|] == s.root && CanBeMade(gone, s.root);
    } else {
      OneMoreName(gone, s.root, name);
    }
  }

  // Ensure succeeds exactly for an identifier, with a root that is there or can be made,
  // and can still be made when a link at the entry is taken away. It says whether the
  // directory is new, and leaves the tree with the root made and the entry a directory.
  lemma EnsureExactlyWhen(fs: Tree, s: Settings, identifier: string)
    requires Settled(fs, s) && !s.StaticCWD()
    ensures var up := MkdirAll(fs, s.root).tree; var e := EnsureIn(fs, s, identifier);
      var path := s.root + [SafeIdentifier(identifier)];
      && (!CanBeMade(fs, s.root) || identifier == "" ==> e.result.Err? && e.tree == up)
      && (CanBeMade(fs, s.root) && identifier != "" ==>
            && Stat(up, s.root).At?
            && var entry := EntryPath(up, s, identifier);
            && (e.result.Ok? <==> (EntryOf(up, entry).Symlink? ==> CanBeMade(up - {entry}, s.root)))
            && (e.result.Ok? ==> e.result == Ok((path, !EntryOf(up, entry).Directory?)))
            && (!EntryOf(up, entry).Symlink? || Stat(up - {entry}, s.root) == Stat(up, s.root) ==>
                  e == Ensured(up[entry := Dir], Ok((path, !EntryOf(up, entry).Directory?)))))
  {
    hide Walk;
    var up := MkdirAll(fs, s.root).tree;
    MkdirAllExactlyWhen(fs, s.root);
    IssuePathIsDirectlyBelow(s.root, identifier);
    if CanBeMade(fs, s.root) && identifier != "" {
      MkdirAllMakes(fs, s.root);
      MkdirAllSucceeds(fs, s.root);
      var entry := EntryPath(up, s, identifier);
      if EntryOf(up, entry).Symlink? {
        EnsureReplacesLink(up, s, identifier);
      } else {
        EnsuresEntry(up, s, identifier);
        assert EntryOf(up, entry).Directory? ==> up[entry := Dir] == up;
      }
    }
  }

  // The mode's name counts without case and surrounding space.
  lemma StaticExactlyWhen(s: Settings)
    ensures s.StaticCWD() <==> SameText(Trim(s.mode), "static_cwd")
  {
    FoldIsCaseless(Trim(s.mode), "static_cwd");
  }

  // In the static mode there is nothing to make: the directory is there or not.
  lemma StaticEnsureExactlyWhen(fs: Tree, s: Settings, identifier: string)
    requires Settled(fs, s) && s.StaticCWD()
    ensures EnsureIn(fs, s, identifier).tree == fs
    ensures EnsureIn(fs, s, identifier).result == Ok((s.cwd, false)) <==> IsDirAt(fs, Stat(fs, s.cwd))
    ensures EnsureIn(fs, s, identifier).result.Ok? ==> EnsureIn(fs, s, identifier).result == Ok((s.cwd, false))
  {
    PathWithinIsPrefix(s.cwd, s.cwd);
  }

  // --- Remove ---

  // Remove fails only for a path outside the root, one that cannot be looked up, one that
  // does not lead inside the root as it resolves, and the file system's own root. What a
  // link leads to does not matter: only where the link is.
  lemma RemoveExactlyWhen(fs: Tree, s: Settings, path: Path)
    requires Settled(fs, s) && CleanPath(path) && !s.StaticCWD()
    ensures var l := Lstat(fs, path);
      RemoveIn(fs, s, Some(path)).error.None? <==>
      && s.root <= path
      && (|| l == Failed(NotExist)
          || (l.At? &&
              if IsLinkAt(fs, l) then s.root != path && RealRoot(fs, s.root) <= Parent(l.path)
              else l.path != [] && RealRoot(fs, s.root) <= l.path))
  {
    PathWithinIsPrefix(s.root, path);
    var l := Lstat(fs, path);
    if l.At? && s.root <= path {
      WalkEndsInTree(fs, [], path, false, KERNEL_LINKS);
      if path != [] {
        StatByLstat(fs, path, KERNEL_LINKS);
        LstatByParent(fs, path);
      }
      hide Walk, Validate, WellFormed;
      if !IsLinkAt(fs, l) {
        ValidateJudgesTarget(fs, s, path);
      } else if s.root != path {
        NothingBelow(fs, l.path);
        PathWithinIsPrefix(s.root, Parent(path));
        ValidateJudgesTarget(fs, s, Parent(path));
      } else {
        RootIsNotBelowItself(fs, s);
      }
    }
  }

  lemma RootIsNotBelowItself(fs: Tree, s: Settings)
    requires CleanPath(s.root) && s.root != [] && !s.StaticCWD()
    ensures Validate(fs, s, Parent(s.root)) == Some(Escapes)
  {
    PathWithinIsPrefix(s.root, Parent(s.root));
  }

  // In the static mode Remove only says whether the path is inside the directory, and the
  // empty path is nothing to remove.
  lemma RemovesNothing(fs: Tree, s: Settings, path: Option<Path>)
    requires Settled(fs, s) && (path.Some? ==> CleanPath(path.value)) && (path.None? || s.StaticCWD())
    ensures RemoveIn(fs, s, path) ==
      Change(fs, if path.None? || s.cwd <= path.value then None else Some(Escapes))
  {
    if path.Some? {
      PathWithinIsPrefix(s.cwd, path.value);
    }
  }

  // --- A link that the root itself needs ---

  // The root is a link to d/e/.., and d/e a link to d/f: the root is d, by way of d/e.
  const WINDING: Tree := map[
    [] := Dir,
    ["r"] := Link(true, ["d", "e", ".."]),
    ["d"] := Dir,
    ["d", "e"] := Link(false, ["f"]),
    ["d", "f"] := Dir]

  const WOUND := Settings(["r"], "", [])

  lemma WindingIsSettled()
    ensures Settled(WINDING, WOUND) && !WOUND.StaticCWD() && SafeIdentifier("e") == "e"
  {
    var fs := WINDING;
    assert Parent(["r"]) == [] && Parent(["d"]) == [] && Parent(["d", "e"]) == ["d"] && Parent(["d", "f"]) == ["d"];
    assert CleanName("r") && CleanName("d") && CleanName("e") && CleanName("f");
    forall p | p in fs ensures Seated(fs, p) {
    }
    assert !AllDots("e") by { assert "e"[0] == 'e'; }
    assert Masked("e") == "e";
  }

  // How the root is found, and that it is not without d/e.
  lemma RootByWayOfLink(fs: Tree)
    requires fs == WINDING || fs == WINDING - {["d", "e"]}
    ensures Stat(fs, ["r"]) == if ["d", "e"] in fs then At(["d"], 38) else Failed(NotExist)
    ensures Lstat(fs, ["r"]).At?
  {
    assert ["r"][1..] == [] && [] + ["r"] == ["r"] && ["d", "e", ".."] + [] == ["d", "e", ".."];
    assert Stat(fs, ["r"]) == Walk(fs, [], ["d", "e", ".."], true, 39);
    assert ["d", "e", ".."][1..] == ["e", ".."] && [] + ["d"] == ["d"];
    assert Walk(fs, [], ["d", "e", ".."], true, 39) == Walk(fs, ["d"], ["e", ".."], true, 39);
    assert ["e", ".."][1..] == [".."] && ["d"] + ["e"] == ["d", "e"] && ["f"] + [".."] == ["f", ".."];
    if ["d", "e"] in fs {
      assert Walk(fs, ["d"], ["e", ".."], true, 39) == Walk(fs, ["d"], ["f", ".."], true, 38);
      assert ["f", ".."][1..] == [".."] && ["d"] + ["f"] == ["d", "f"] && [".."][1..] == [];
      assert Parent(["d", "f"]) == ["d"];
      assert Walk(fs, ["d", "f"], [".."], true, 38) == At(["d"], 38);
    }
  }

  // With the link gone, MkdirAll stops at the root, which is still there as a link.
  lemma StopsAtTheRoot(gone: Tree)
    requires WellFormed(gone) && Stat(gone, ["r"]) == Failed(NotExist) && ["r"] in gone && Lstat(gone, ["r"]).At?
    requires IsLinkAt(gone, Lstat(gone, ["r"]))
    ensures MkdirAll(gone, ["r", "e"]).error.Some? && MkdirAll(gone, ["r", "e"]).tree == gone
  {
    assert Parent(["r", "e"]) == ["r"] && Parent(["r"]) == [] && [] + ["r"] == ["r"] && ["r", "e"][..1] == ["r"];
    assert Stat(gone, []) == At([], KERNEL_LINKS);
    hide Walk, WellFormed;
    if Stat(gone, ["r", "e"]).At? {
      PrefixIsThere(gone, ["r"], ["r", "e"]);
    }
    assert Mkdir(gone, ["r"]) == Change(gone, Some(Exists));
  }

  lemma EnsureStopsThere(fs: Tree, gone: Tree, s: Settings)
    requires Settled(fs, s) && !s.StaticCWD() && s.root == ["r"] && SafeIdentifier("e") == "e"
    requires IsDirAt(fs, Stat(fs, ["r"])) && IsLinkAt(fs, Lstat(fs, ["r", "e"]))
    requires Remove(fs, ["r", "e"]) == Change(gone, None)
    requires MkdirAll(gone, ["r", "e"]).error.Some? && MkdirAll(gone, ["r", "e"]).tree == gone
    ensures EnsureIn(fs, s, "e").result.Err? && EnsureIn(fs, s, "e").tree == gone
  {
    IssuePathIsDirectlyBelow(["r"], "e");
    assert ["r"] + ["e"] == ["r", "e"];
    RootIsMade(fs);
    hide Walk, WellFormed, MkdirAll, Remove, Stat, Lstat, IssuePath;
  }

  lemma RootIsMade(fs: Tree)
    requires IsDirAt(fs, Stat(fs, ["r"]))
    ensures MkdirAll(fs, ["r"]) == Change(fs, None)
  {
    hide Walk;
  }

  // The link is at the entry, and can be removed.
  lemma EntryIsTheLink(fs: Tree)
    requires WellFormed(fs) && Stat(fs, ["r"]) == At(["d"], 38) && ["d"] in fs && fs[["d"]].Dir?
    requires ["d", "e"] in fs && fs[["d", "e"]].Link?
    ensures Lstat(fs, ["r", "e"]) == At(["d", "e"], 38)
    ensures Remove(fs, ["r", "e"]) == Change(fs - {["d", "e"]}, None) && WellFormed(fs - {["d", "e"]})
  {
    assert Parent(["r", "e"]) == ["r"] && ["d"] + ["e"] == ["d", "e"];
    LstatByParent(fs, ["r", "e"]);
    NothingBelow(fs, ["d", "e"]);
    hide Walk, WellFormed;
  }

  // For the issue e, Ensure takes that link away and then finds no root.
  lemma NeededLinkIsLost()
    ensures var e := EnsureIn(WINDING, WOUND, "e"); e.result.Err? && ["d", "e"] !in e.tree
  {
    var fs, gone := WINDING, WINDING - {["d", "e"]};
    WindingIsSettled();
    RootByWayOfLink(fs);
    RootByWayOfLink(gone);
    RootIsALink(gone);
    hide Walk, WellFormed, MkdirAll, Remove, EnsureIn, Stat, Lstat;
    EntryIsTheLink(fs);
    StopsAtTheRoot(gone);
    EnsureStopsThere(fs, gone, WOUND);
  }

  lemma RootIsALink(fs: Tree)
    requires [] in fs && fs[[]].Dir? && ["r"] in fs && fs[["r"]].Link?
    ensures Lstat(fs, ["r"]) == At(["r"], KERNEL_LINKS)
  {
    assert ["r"][1..] == [] && [] + ["r"] == ["r"];
  }
}
