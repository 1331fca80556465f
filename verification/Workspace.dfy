/**
 Making and removing issue workspaces: internal/service/workspace/workspace.go.
 A root that is itself below links is resolved by them; hooks do nothing here.
 */
module Workspace {
  import opened FileTree
  import opened Names
  import opened Paths
  import opened Wrappers

  datatype Settings = Settings(root: Path, mode: string, cwd: Path) {
    predicate StaticCWD() {
      EqualFold(Trim(mode), "static_cwd")
    }
  }

  // The workspace and whether it is new.
  datatype Ensured = Ensured(tree: Tree, result: Result<(Path, bool), Errno>)

  function EvalIfExists(fs: Tree, path: Path): Result<Path, Errno> {
    var w := EvalSymlinks(fs, path);
    if w.At? then Ok(w.path) else if w.error.NotExist? then Ok(path) else Err(w.error)
  }

  function NearestExisting(fs: Tree, path: Path): Result<Path, Errno>
    decreases |path|
  {
    var w := Lstat(fs, path);
    if w.At? then Ok(path)
    else if !w.error.NotExist? then Err(w.error)
    else if path == [] then Err(NotExist)
    else NearestExisting(fs, Parent(path))
  }

  function Validate(fs: Tree, s: Settings, path: Path): Option<Errno> {
    if s.StaticCWD() then
      if PathWithin(s.cwd, path) then None else Some(Escapes)
    else if !PathWithin(s.root, path) then Some(Escapes)
    else
      var w := Lstat(fs, s.root);
      if w.Failed? then (if w.error.NotExist? then None else Some(w.error))
      else
        var realRoot := EvalIfExists(fs, s.root);
        var existing := NearestExisting(fs, path);
        if realRoot.Err? then Some(realRoot.error)
        else if existing.Err? then Some(existing.error)
        else
          var found := EvalSymlinks(fs, existing.value);
          if found.Failed? then Some(found.error)
          else if !PathWithin(realRoot.value, found.path) then Some(Escapes)
          else None
  }

  function MakeAfter(gone: Change, path: Path): Ensured {
    if gone.error.Some? then Ensured(gone.tree, Err(gone.error.value))
    else
      var made := MkdirAll(gone.tree, path);
      Ensured(made.tree, if made.error.Some? then Err(made.error.value) else Ok((path, true)))
  }

  predicate IsLinkAt(fs: Tree, w: Walked) {
    w.At? && w.path in fs && fs[w.path].Link?
  }

  function EnsureEntry(fs: Tree, s: Settings, path: Path): Ensured {
    var w := Lstat(fs, path);
    if IsLinkAt(fs, w) then MakeAfter(Remove(fs, path), path)
    else
      var valid := Validate(fs, s, path);
      if IsDirAt(fs, w) then Ensured(fs, if valid.Some? then Err(valid.value) else Ok((path, false)))
      else if w.Failed? && !w.error.NotExist? then Ensured(fs, Err(w.error))
      else if valid.Some? then Ensured(fs, Err(valid.value))
      else MakeAfter(RemoveAll(fs, path), path)
  }

  function EnsureStatic(fs: Tree, s: Settings): Result<(Path, bool), Errno> {
    var valid := Validate(fs, s, s.cwd);
    var w := Stat(fs, s.cwd);
    if valid.Some? then Err(valid.value)
    else if w.Failed? then Err(w.error)
    else if !IsDirAt(fs, w) then Err(NotDir)
    else Ok((s.cwd, false))
  }

  function EnsureIn(fs: Tree, s: Settings, identifier: string): Ensured {
    if s.StaticCWD() then Ensured(fs, EnsureStatic(fs, s))
    else
      var up := MkdirAll(fs, s.root);
      var path := IssuePath(s.root, identifier);
      if up.error.Some? then Ensured(up.tree, Err(up.error.value))
      else if identifier == "" then Ensured(up.tree, Err(NoIdentifier))
      else if !PathWithin(s.root, path) then Ensured(up.tree, Err(Escapes))
      else EnsureEntry(up.tree, s, path)
  }

  // The empty path is None.
  function RemoveIn(fs: Tree, s: Settings, path: Option<Path>): Change {
    if path.None? then Change(fs, None)
    else if s.StaticCWD() then Change(fs, Validate(fs, s, path.value))
    else if !PathWithin(s.root, path.value) then Change(fs, Some(Escapes))
    else
      var w := Lstat(fs, path.value);
      if w.Failed? then Change(fs, if w.error.NotExist? then None else Some(w.error))
      else if IsLinkAt(fs, w) then
        var valid := Validate(fs, s, Parent(path.value));
        if valid.Some? then Change(fs, valid) else Remove(fs, path.value)
      else
        var valid := Validate(fs, s, path.value);
        if valid.Some? then Change(fs, valid) else RemoveAll(fs, path.value)
  }

  // --- The manager and its disk ---

  class Manager {
    const settings: Settings
    var disk: Tree

    constructor (settings: Settings, disk: Tree)
      ensures this.settings == settings && this.disk == disk
    {
      this.settings := settings;
      this.disk := disk;
    }

    method NearestExistingPath(start: Path) returns (r: Result<Path, Errno>)
      ensures r == NearestExisting(disk, start)
      ensures r.Ok? ==> r.value <= start && Lstat(disk, r.value).At?
      ensures r.Ok? ==>
        forall k | |r.value| < k <= |start| :: Lstat(disk, start[..k]) == Failed(NotExist)
    {
      var path := start;
      while true
        invariant path <= start && NearestExisting(disk, path) == NearestExisting(disk, start)
        invariant forall k | |path| < k <= |start| :: Lstat(disk, start[..k]) == Failed(NotExist)
        decreases |path|
      {
        assert start[..|path|] == path;
        var w := Lstat(disk, path);
        if w.At? {
          return Ok(path);
        } else if !w.error.NotExist? {
          return Err(w.error);
        }
        var parent := Parent(path);
        if parent == path {
          return Err(NotExist);
        }
        path := parent;
      }
    }

    method ValidateWorkspacePath(path: Path) returns (error: Option<Errno>)
      ensures error == Validate(disk, settings, path)
    {
      if settings.StaticCWD() {
        return if PathWithin(settings.cwd, path) then None else Some(Escapes);
      }
      if !PathWithin(settings.root, path) {
        return Some(Escapes);
      }
      var w := Lstat(disk, settings.root);
      if w.Failed? {
        return if w.error.NotExist? then None else Some(w.error);
      }
      var realRoot := EvalIfExists(disk, settings.root);
      if realRoot.Err? {
        return Some(realRoot.error);
      }
      var existing := NearestExistingPath(path);
      if existing.Err? {
        return Some(existing.error);
      }
      var found := EvalSymlinks(disk, existing.value);
      if found.Failed? {
        return Some(found.error);
      }
      error := if PathWithin(realRoot.value, found.path) then None else Some(Escapes);
    }

    method Apply(c: Change) returns (error: Option<Errno>)
      modifies this`disk
      ensures disk == c.tree && error == c.error
    {
      disk := c.tree;
      error := c.error;
    }

    method Ensure(identifier: string) returns (r: Result<(Path, bool), Errno>)
      modifies this`disk
      ensures Ensured(disk, r) == EnsureIn(old(disk), settings, identifier)
    {
      if settings.StaticCWD() {
        var valid := ValidateWorkspacePath(settings.cwd);
        if valid.Some? {
          return Err(valid.value);
        }
        var w := Stat(disk, settings.cwd);
        if w.Failed? {
          return Err(w.error);
        }
        return if IsDirAt(disk, w) then Ok((settings.cwd, false)) else Err(NotDir);
      }
      var error := Apply(MkdirAll(disk, settings.root));
      if error.Some? {
        return Err(error.value);
      }
      if identifier == "" {
        return Err(NoIdentifier);
      }
      var path := IssuePath(settings.root, identifier);
      if !PathWithin(settings.root, path) {
        return Err(Escapes);
      }
      var w := Lstat(disk, path);
      if IsLinkAt(disk, w) {
        error := Apply(Remove(disk, path));
        if error.Some? {
          return Err(error.value);
        }
        error := Apply(MkdirAll(disk, path));
        return if error.Some? then Err(error.value) else Ok((path, true));
      }
      if IsDirAt(disk, w) {
        error := ValidateWorkspacePath(path);
        return if error.Some? then Err(error.value) else Ok((path, false));
      }
      if w.Failed? && !w.error.NotExist? {
        return Err(w.error);
      }
      error := ValidateWorkspacePath(path);
      if error.Some? {
        return Err(error.value);
      }
      error := Apply(RemoveAll(disk, path));
      if error.Some? {
        return Err(error.value);
      }
      error := Apply(MkdirAll(disk, path));
      return if error.Some? then Err(error.value) else Ok((path, true));
    }

    method RemoveWorkspace(path: Option<Path>) returns (error: Option<Errno>)
      modifies this`disk
      ensures Change(disk, error) == RemoveIn(old(disk), settings, path)
    {
      if path.None? {
        return None;
      }
      if settings.StaticCWD() {
        error := ValidateWorkspacePath(path.value);
        return;
      }
      if !PathWithin(settings.root, path.value) {
        return Some(Escapes);
      }
      var w := Lstat(disk, path.value);
      if w.Failed? {
        return if w.error.NotExist? then None else Some(w.error);
      }
      if IsLinkAt(disk, w) {
        error := ValidateWorkspacePath(Parent(path.value));
        if error.None? {
          error := Apply(Remove(disk, path.value));
        }
        return;
      }
      error := ValidateWorkspacePath(path.value);
      if error.None? {
        error := Apply(RemoveAll(disk, path.value));
      }
    }
  }
}
