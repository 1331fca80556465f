/**
 Workspace paths: internal/service/workspace/workspace.go. A cleaned absolute path is
 the list of its components.
 */
module Paths {
  type Path = seq<string>

  predicate CleanName(name: string) {
    name != "" && name != "." && name != ".." && '/' !in name
  }

  predicate CleanPath(path: Path) {
    forall i | 0 <= i < |path| :: CleanName(path[i])
  }

  function Parent(path: Path): Path {
    if path == [] then [] else path[..|path| - 1]
  }

  // Lexical cleaning of an absolute path's components.
  function Clean(done: Path, steps: seq<string>): (r: Path)
    decreases |steps|
  {
    if steps == [] then done
    else if steps[0] == "" || steps[0] == "." then Clean(done, steps[1..])
    else if steps[0] == ".." then Clean(Parent(done), steps[1..])
    else Clean(done + [steps[0]], steps[1..])
  }

  lemma {:induction false} CleanIsClean(done: Path, steps: seq<string>)
    requires CleanPath(done) && forall i | 0 <= i < |steps| :: '/' !in steps[i]
    ensures CleanPath(Clean(done, steps))
    decreases |steps|
  {
    if steps != [] {
      if steps[0] == "" || steps[0] == "." {
        CleanIsClean(done, steps[1..]);
      } else if steps[0] == ".." {
        CleanIsClean(Parent(done), steps[1..]);
      } else {
        CleanIsClean(done + [steps[0]], steps[1..]);
      }
    }
  }

  lemma {:induction false} CleanKeeps(done: Path, steps: Path)
    requires CleanPath(steps)
    ensures Clean(done, steps) == done + steps
    decreases |steps|
  {
    if steps == [] {
      assert done + steps == done;
    } else {
      CleanKeeps(done + [steps[0]], steps[1..]);
      assert done + [steps[0]] + steps[1..] == done + steps;
    }
  }

  // --- Containment ---

  function Join(names: seq<string>): string {
    if names == [] then ""
    else if |names| == 1 then names[0]
    else names[0] + "/" + Join(names[1..])
  }

  function Shared(a: Path, b: Path): (n: nat)
    ensures n <= |a| && n <= |b|
    ensures a[..n] == b[..n]
    ensures n < |a| && n < |b| ==> a[n] != b[n]
  {
    if a == [] || b == [] || a[0] != b[0] then 0 else 1 + Shared(a[1..], b[1..])
  }

  function Ups(n: nat): (r: seq<string>)
    ensures |r| == n && forall i | 0 <= i < n :: r[i] == ".."
  {
    seq(n, _ => "..")
  }

  // The relative path from root, by which PathWithin judges.
  function Rel(root: Path, path: Path): string {
    if root == path then "."
    else
      var n := Shared(root, path);
      Join(Ups(|root| - n) + path[n..])
  }

  predicate PathWithin(root: Path, path: Path) {
    var rel := Rel(root, path);
    rel != ".." && !("../" <= rel) && !("/" <= rel)
  }

  lemma JoinStarts(names: seq<string>)
    requires names != []
    ensures names[0] <= Join(names)
    ensures |names| > 1 ==> names[0] + "/" <= Join(names)
    ensures |names| == 1 ==> Join(names) == names[0]
  {
  }

  lemma SharedOfPrefix(root: Path, path: Path)
    ensures Shared(root, path) == |root| <==> root <= path
  {
    var n := Shared(root, path);
    assert n == |root| ==> root[..n] == root && path[..n] <= path;
    assert root <= path ==> forall i | 0 <= i < |root| :: root[i] == path[i];
  }

  lemma JoinOfCleanStays(names: Path)
    requires names != [] && CleanPath(names)
    ensures Join(names) != ".." && !("../" <= Join(names)) && !("/" <= Join(names))
  {
    var rel, first := Join(names), names[0];
    JoinStarts(names);
    assert CleanName(first) && rel[0] == first[0];
    assert |names| > 1 ==> (first + "/")[|first|] == '/' && rel[|first|] == '/';
    assert |first| == 2 && first[0] == '.' && first[1] == '.' ==> first == "..";
    assert |rel| > 2 && rel[0] == '.' && rel[1] == '.' ==> rel[2] != '/';
  }

  // Judging by the text of the relative path is judging by components: "..x" is inside,
  // ".." and "../x" are not.
  lemma PathWithinIsPrefix(root: Path, path: Path)
    requires CleanPath(root) && CleanPath(path)
    ensures PathWithin(root, path) <==> root <= path
  {
    var n := Shared(root, path);
    SharedOfPrefix(root, path);
    if root == path {
      assert Rel(root, path) == "." && "."[0] != '/' && |"."| == 1;
    } else if root <= path {
      assert Ups(|root| - n) + path[n..] == path[n..];
      JoinOfCleanStays(path[n..]);
    } else {
      var names := Ups(|root| - n) + path[n..];
      assert names[0] == ".." && ".." + "/" == "../";
      JoinStarts(names);
    }
  }

  // --- The workspace of an issue ---

  predicate SafeChar(c: char) {
    'a' <= c <= 'z' || 'A' <= c <= 'Z' || '0' <= c <= '9' || c == '.' || c == '_' || c == '-'
  }

  predicate AllDots(s: string) {
    forall i | 0 <= i < |s| :: s[i] == '.'
  }

  function Masked(s: string): (r: string)
    ensures |r| == |s|
    ensures forall i | 0 <= i < |s| :: r[i] == if SafeChar(s[i]) then s[i] else '_'
  {
    seq(|s|, i requires 0 <= i < |s| => if SafeChar(s[i]) then s[i] else '_')
  }

  function SafeIdentifier(identifier: string): string {
    if identifier == "" || AllDots(Masked(identifier)) then "issue" else Masked(identifier)
  }

  // Letters, digits, dots, underscores and dashes stay; everything else becomes an
  // underscore.
  lemma MaskedExactly(s: string, i: nat)
    requires i < |s|
    ensures var c := s[i];
      Masked(s)[i] == if c in "._-" || '0' <= c <= '9' || 'a' <= c <= 'z' || 'A' <= c <= 'Z' then c else '_'
  {
  }

  // A safe identifier is one component, and is safe already.
  lemma SafeIdentifierIsName(identifier: string)
    ensures var safe := SafeIdentifier(identifier);
      && CleanName(safe) && (forall i | 0 <= i < |safe| :: SafeChar(safe[i]))
      && SafeIdentifier(safe) == safe
      && (safe == identifier <==>
          (identifier != "" && !AllDots(identifier) && forall i | 0 <= i < |identifier| :: SafeChar(identifier[i])))
  {
    var safe := SafeIdentifier(identifier);
    assert !AllDots("issue") by { assert "issue"[0] == 'i'; }
    assert Masked("issue") == "issue";
    assert Masked(safe) == safe;
    assert AllDots(".") && AllDots("..");
    assert forall i | 0 <= i < |safe| :: SafeChar(safe[i]);
    assert !AllDots(safe);
    if forall i | 0 <= i < |identifier| :: SafeChar(identifier[i]) {
      assert Masked(identifier) == identifier;
    }
  }

  // filepath.Join cleans, and there is nothing to clean.
  function IssuePath(root: Path, identifier: string): Path {
    Clean([], root + [SafeIdentifier(identifier)])
  }

  lemma IssuePathIsDirectlyBelow(root: Path, identifier: string)
    requires CleanPath(root)
    ensures IssuePath(root, identifier) == root + [SafeIdentifier(identifier)] && CleanPath(IssuePath(root, identifier))
    ensures PathWithin(root, IssuePath(root, identifier))
  {
    var path := root + [SafeIdentifier(identifier)];
    SafeIdentifierIsName(identifier);
    CleanKeeps([], path);
    assert [] + path == path;
    PathWithinIsPrefix(root, path);
  }
}
