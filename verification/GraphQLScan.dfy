/**
 The scanner that lets a GraphQL document through only if it holds exactly one
 operation: internal/service/codex/dynamic_tool.go.
 */
module GraphQLScan {
  import opened Wrappers

  predicate NameStart(c: char) {
    c == '_' || 'A' <= c <= 'Z' || 'a' <= c <= 'z'
  }

  predicate NameContinue(c: char) {
    NameStart(c) || '0' <= c <= '9'
  }

  predicate LineEnd(c: char) {
    c == '\n' || c == '\r'
  }

  predicate OperationKeyword(name: string) {
    name == "query" || name == "mutation" || name == "subscription"
  }

  const TRIPLE := "\"\"\""

  // --- The scan of what is left of the text ---

  function SkipLineComment(s: string): (r: string)
    ensures |r| <= |s|
  {
    if s == "" || LineEnd(s[0]) then s else SkipLineComment(s[1..])
  }

  // Where the first triple quote starts.
  function FindTriple(s: string): (r: Option<nat>)
    ensures r.Some? ==> r.value + 3 <= |s|
  {
    if |s| < 3 then None
    else if s[..3] == TRIPLE then Some(0)
    else
      var later := FindTriple(s[1..]);
      if later.Some? then Some(later.value + 1) else None
  }

  // What follows a quoted string whose opening quote is behind us.
  function SkipQuoted(s: string): (r: Option<string>)
    ensures r.Some? ==> |r.value| < |s|
    decreases |s|
  {
    if s == "" then None
    else if s[0] == '\\' then (if |s| < 2 then None else SkipQuoted(s[2..]))
    else if s[0] == '"' then Some(s[1..])
    else SkipQuoted(s[1..])
  }

  // What follows the string that starts here.
  function SkipString(s: string): (r: Option<string>)
    requires s != "" && s[0] == '"'
    ensures r.Some? ==> |r.value| < |s|
  {
    if |s| >= 3 && s[..3] == TRIPLE then
      var end := FindTriple(s[3..]);
      if end.Some? then Some(s[3..][end.value + 3..]) else None
    else SkipQuoted(s[1..])
  }

  function NameLength(s: string): (n: nat)
    ensures n <= |s|
    ensures forall i | 0 <= i < n :: NameContinue(s[i])
    ensures n < |s| ==> !NameContinue(s[n])
  {
    if s == "" || !NameContinue(s[0]) then 0 else 1 + NameLength(s[1..])
  }

  // What the scanner has counted, at depth zero.
  datatype Tally = Tally(operations: nat, pending: bool)

  function CountName(t: Tally, name: string): Tally {
    if OperationKeyword(name) then Tally(t.operations + 1, true)
    else if name == "fragment" then t.(pending := true)
    else t
  }

  function CountBody(t: Tally): Tally {
    if t.pending then t.(pending := false) else t.(operations := t.operations + 1)
  }

  function ScanFrom(s: string, depth: nat, t: Tally): bool
    decreases |s|
  {
    if s == "" then t.operations == 1
    else if s[0] == '#' then ScanFrom(SkipLineComment(s[1..]), depth, t)
    else if s[0] == '"' then
      var rest := SkipString(s);
      rest.Some? && ScanFrom(rest.value, depth, t)
    else if s[0] == '{' then
      var u := if depth == 0 then CountBody(t) else t;
      if u.operations > 1 && depth == 0 then false else ScanFrom(s[1..], depth + 1, u)
    else if s[0] == '}' then ScanFrom(s[1..], if depth > 0 then depth - 1 else 0, t)
    else if depth == 0 && NameStart(s[0]) then
      var n := NameLength(s);
      var u := CountName(t, s[..n]);
      if u.operations > 1 && u != t then false else ScanFrom(s[n..], depth, u)
    else ScanFrom(s[1..], depth, t)
  }

  function HasExactlyOne(query: string): bool {
    ScanFrom(query, 0, Tally(0, false))
  }

  // --- The index loops ---

  method SkipLineCommentAt(query: string, start: nat) returns (i: nat)
    requires start <= |query|
    ensures start <= i <= |query|
    ensures query[i..] == SkipLineComment(query[start..])
  {
    i := start;
    while i < |query| && !LineEnd(query[i])
      invariant start <= i <= |query|
      invariant SkipLineComment(query[i..]) == SkipLineComment(query[start..])
    {
      assert query[i..][1..] == query[i + 1..];
      i := i + 1;
    }
  }

  method IndexTriple(query: string, start: nat) returns (found: Option<nat>)
    requires start <= |query|
    ensures found == FindTriple(query[start..])
  {
    var i := start;
    while i + 3 <= |query|
      invariant start <= i <= |query|
      invariant FindTriple(query[start..]) ==
        (var r := FindTriple(query[i..]); if r.Some? then Some(r.value + (i - start)) else None)
    {
      assert query[i..][..3] == query[i..i + 3] && query[i..][1..] == query[i + 1..];
      if query[i..i + 3] == TRIPLE {
        return Some(i - start);
      }
      i := i + 1;
    }
    found := None;
  }

  lemma QuotedAt(query: string, i: nat)
    requires i <= |query|
    ensures SkipQuoted(query[i..]) ==
      if i == |query| then None
      else if query[i] == '\\' then (if i + 2 <= |query| then SkipQuoted(query[i + 2..]) else None)
      else if query[i] == '"' then Some(query[i + 1..])
      else SkipQuoted(query[i + 1..])
  {
    if i < |query| {
      assert query[i..][1..] == query[i + 1..];
      assert i + 2 <= |query| ==> query[i..][2..] == query[i + 2..];
    }
  }

  lemma StringAt(query: string, i: nat)
    requires i < |query| && query[i] == '"'
    ensures SkipString(query[i..]) ==
      if i + 3 <= |query| && query[i..i + 3] == TRIPLE then
        var end := FindTriple(query[i + 3..]);
        if end.Some? then Some(query[i + 3 + end.value + 3..]) else None
      else SkipQuoted(query[i + 1..])
  {
    hide SkipQuoted, FindTriple;
    assert query[i..][1..] == query[i + 1..];
    if i + 3 <= |query| {
      assert query[i..][..3] == query[i..i + 3] && query[i..][3..] == query[i + 3..];
      var end := FindTriple(query[i + 3..]);
      assert end.Some? ==> query[i + 3..][end.value + 3..] == query[i + 3 + end.value + 3..];
    }
  }

  // The index stays within the text, even after a backslash at its very end.
  method SkipStringAt(query: string, start: nat) returns (i: nat, ok: bool)
    requires start < |query| && query[start] == '"'
    ensures start < i <= |query|
    ensures ok == SkipString(query[start..]).Some?
    ensures ok ==> query[i..] == SkipString(query[start..]).value
  {
    hide SkipString, SkipQuoted, FindTriple;
    StringAt(query, start);
    if start + 3 <= |query| && query[start..start + 3] == TRIPLE {
      var end := IndexTriple(query, start + 3);
      if end.None? {
        return |query|, false;
      }
      return start + 3 + end.value + 3, true;
    }
    i := start + 1;
    while i < |query|
      invariant start < i <= |query| + 1
      invariant i <= |query| ==> SkipQuoted(query[i..]) == SkipQuoted(query[start + 1..])
      invariant i > |query| ==> SkipQuoted(query[start + 1..]) == None
      decreases |query| - i
    {
      QuotedAt(query, i);
      if query[i] == '\\' {
        i := i + 2;
      } else if query[i] == '"' {
        return i + 1, true;
      } else {
        i := i + 1;
      }
    }
    QuotedAt(query, |query|);
    return |query|, false;
  }

  method NameEndAt(query: string, start: nat) returns (i: nat)
    requires start < |query| && NameStart(query[start])
    ensures start < i <= |query| && i == start + NameLength(query[start..])
  {
    i := start + 1;
    assert query[start..][1..] == query[start + 1..];
    while i < |query| && NameContinue(query[i])
      invariant start < i <= |query|
      invariant NameLength(query[start..]) == (i - start) + NameLength(query[i..])
    {
      assert query[i..][1..] == query[i + 1..];
      i := i + 1;
    }
  }

  lemma SplitAt(query: string, i: nat, j: nat)
    requires i <= j <= |query|
    ensures query[i..][j - i..] == query[j..] && query[i..][..j - i] == query[i..j]
  {
  }

  // The scan at an index, in terms of what the index loop goes on to.
  lemma ScanAt(query: string, i: nat, depth: nat, t: Tally)
    requires i < |query|
    ensures ScanFrom(query[i..], depth, t) ==
      if query[i] == '#' then ScanFrom(SkipLineComment(query[i + 1..]), depth, t)
      else if query[i] == '"' then
        var rest := SkipString(query[i..]);
        rest.Some? && ScanFrom(rest.value, depth, t)
      else if query[i] == '{' then
        var u := if depth == 0 then CountBody(t) else t;
        !(u.operations > 1 && depth == 0) && ScanFrom(query[i + 1..], depth + 1, u)
      else if query[i] == '}' then ScanFrom(query[i + 1..], if depth > 0 then depth - 1 else 0, t)
      else if depth == 0 && NameStart(query[i]) then
        var j := i + NameLength(query[i..]);
        var u := CountName(t, query[i..j]);
        !(u.operations > 1 && u != t) && ScanFrom(query[j..], depth, u)
      else ScanFrom(query[i + 1..], depth, t)
  {
    hide SkipString, SkipLineComment, NameLength, OperationKeyword;
    SplitAt(query, i, i + 1);
    if NameStart(query[i]) {
      SplitAt(query, i, i + NameLength(query[i..]));
    }
  }

  lemma ScanEnds(query: string)
    ensures ScanFrom(query[0..], 0, Tally(0, false)) == HasExactlyOne(query)
    ensures forall depth, t :: ScanFrom(query[|query|..], depth, t) == (t.operations == 1)
  {
    assert query[0..] == query;
  }

  method HasExactlyOneGraphQLOperation(query: string) returns (r: bool)
    ensures r == HasExactlyOne(query)
  {
    ScanEnds(query);
    hide ScanFrom, HasExactlyOne, SkipString, SkipLineComment, NameLength, NameStart, OperationKeyword;
    var depth, operations, pending := 0, 0, false;
    var i := 0;
    while i < |query|
      invariant 0 <= i <= |query| && 0 <= depth && 0 <= operations <= 1
      invariant ScanFrom(query[i..], depth, Tally(operations, pending)) == HasExactlyOne(query)
      decreases |query| - i
    {
      ScanAt(query, i, depth, Tally(operations, pending));
      if query[i] == '#' {
        i := SkipLineCommentAt(query, i + 1);
      } else if query[i] == '"' {
        var ok;
        i, ok := SkipStringAt(query, i);
        if !ok {
          return false;
        }
      } else if query[i] == '{' {
        if depth == 0 {
          if pending {
            pending := false;
          } else {
            operations := operations + 1;
            if operations > 1 {
              return false;
            }
          }
        }
        depth := depth + 1;
        i := i + 1;
      } else if query[i] == '}' {
        if depth > 0 {
          depth := depth - 1;
        }
        i := i + 1;
      } else if depth == 0 && NameStart(query[i]) {
        var start := i;
        i := NameEndAt(query, start);
        var name := query[start..i];
        if OperationKeyword(name) {
          operations := operations + 1;
          if operations > 1 {
            return false;
          }
          pending := true;
        } else if name == "fragment" {
          pending := true;
        }
      } else {
        i := i + 1;
      }
    }
    ScanEnds(query);
    r := operations == 1;
  }
}
