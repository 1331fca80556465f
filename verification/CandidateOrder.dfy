/** The order in which a poll pass looks at candidates: sortCandidates. */
module CandidateOrder {
  import opened Wrappers
  import opened Eligibility

  // 1 January 9999, in the clock's unit, for an issue without a creation time.
  const NO_CREATION_TIME := 253_370_764_800

  function PrioritySortValue(priority: Option<int>): int {
    if priority.None? || priority.value < 1 || priority.value > 4 then 999 else priority.value
  }

  function TimeSortValue(value: Option<int>): int {
    if value.None? then NO_CREATION_TIME else value.value
  }

  // Strings compare by their first differing character.
  predicate StringLess(a: string, b: string) {
    if b == "" then false
    else if a == "" then true
    else if a[0] != b[0] then a[0] < b[0]
    else StringLess(a[1..], b[1..])
  }

  predicate Before(a: Issue, b: Issue) {
    var pa, pb := PrioritySortValue(a.priority), PrioritySortValue(b.priority);
    var ta, tb := TimeSortValue(a.createdAt), TimeSortValue(b.createdAt);
    if pa != pb then pa < pb
    else if ta != tb then ta < tb
    else StringLess(a.identifier, b.identifier)
  }

  predicate Tied(a: Issue, b: Issue) {
    !Before(a, b) && !Before(b, a)
  }

  // --- The comparator is a strict weak order ---

  lemma {:induction false} StringLessOrders(a: string, b: string, c: string)
    ensures !StringLess(a, a)
    ensures StringLess(a, b) ==> !StringLess(b, a)
    ensures !StringLess(a, b) && !StringLess(b, a) ==> a == b
    ensures StringLess(a, b) && StringLess(b, c) ==> StringLess(a, c)
    decreases |a| + |b| + |c|
  {
    if a != "" {
      StringLessOrders(a[1..], if b == "" then "" else b[1..], if c == "" then "" else c[1..]);
    } else if b != "" {
      StringLessOrders("", b[1..], "");
    }
    if a != "" && b != "" && a[0] == b[0] && a[1..] == b[1..] {
      assert a == [a[0]] + a[1..] && b == [b[0]] + b[1..];
    }
  }

  lemma StrictWeakOrder(a: Issue, b: Issue, c: Issue)
    ensures !Before(a, a)
    ensures Before(a, b) ==> !Before(b, a)
    ensures Before(a, b) && Before(b, c) ==> Before(a, c)
    ensures Tied(a, b) && Tied(b, c) ==> Tied(a, c)
    ensures Before(a, b) && Tied(b, c) ==> Before(a, c)
    ensures Tied(a, b) && Before(b, c) ==> Before(a, c)
    ensures Tied(a, b) <==>
      && PrioritySortValue(a.priority) == PrioritySortValue(b.priority)
      && TimeSortValue(a.createdAt) == TimeSortValue(b.createdAt)
      && a.identifier == b.identifier
  {
    StringLessOrders(a.identifier, b.identifier, c.identifier);
    StringLessOrders(b.identifier, c.identifier, a.identifier);
  }

  // --- A stable sort has one result ---

  predicate Sorted(s: seq<Issue>) {
    forall i, j | 0 <= i < j < |s| :: !Before(s[j], s[i])
  }

  // The issues tied with x, in their order in s.
  function TiedWith(s: seq<Issue>, x: Issue): seq<Issue> {
    if s == [] then []
    else (if Tied(s[0], x) then [s[0]] else []) + TiedWith(s[1..], x)
  }

  ghost predicate SameTies(s: seq<Issue>, r: seq<Issue>) {
    forall x :: TiedWith(s, x) == TiedWith(r, x)
  }

  // Where a stable insertion puts x: after everything that is not behind it.
  function Insert(s: seq<Issue>, x: Issue): seq<Issue> {
    if s == [] || !Before(x, s[|s| - 1]) then s + [x] else Insert(s[..|s| - 1], x) + [s[|s| - 1]]
  }

  function StableSort(s: seq<Issue>): seq<Issue> {
    if s == [] then [] else Insert(StableSort(s[..|s| - 1]), s[|s| - 1])
  }

  lemma {:induction false} TiedWithAppend(s: seq<Issue>, r: seq<Issue>, x: Issue)
    ensures TiedWith(s + r, x) == TiedWith(s, x) + TiedWith(r, x)
  {
    hide Tied;
    if s == [] {
      assert s + r == r;
    } else {
      TiedWithAppend(s[1..], r, x);
      assert (s + r)[1..] == s[1..] + r;
    }
  }

  lemma {:induction false} InsertKeepsTies(s: seq<Issue>, e: Issue, x: Issue)
    ensures TiedWith(Insert(s, e), x) == TiedWith(s, x) + TiedWith([e], x)
  {
    if s == [] || !Before(e, s[|s| - 1]) {
      TiedWithAppend(s, [e], x);
    } else {
      var front, last := s[..|s| - 1], s[|s| - 1];
      InsertKeepsTies(front, e, x);
      TiedWithAppend(Insert(front, e), [last], x);
      TiedWithAppend(front, [last], x);
      assert s == front + [last];
      StrictWeakOrder(e, x, last);
      StrictWeakOrder(last, x, e);
    }
  }

  lemma {:induction false} InsertSorts(s: seq<Issue>, e: Issue)
    requires Sorted(s)
    ensures Sorted(Insert(s, e))
    ensures forall x | x in Insert(s, e) :: x in s || x == e
  {
    if s != [] {
      var front, last := s[..|s| - 1], s[|s| - 1];
      if Before(e, last) {
        InsertSorts(front, e);
        var r := Insert(front, e);
        forall i | 0 <= i < |r| ensures !Before(last, r[i]) {
          assert r[i] in r;
          StrictWeakOrder(e, last, e);
        }
      } else {
        forall i | 0 <= i < |s| ensures !Before(e, s[i]) {
          StrictWeakOrder(e, s[i], last);
        }
      }
    }
  }

  lemma {:induction false} StableSortSorts(s: seq<Issue>)
    ensures Sorted(StableSort(s)) && SameTies(s, StableSort(s))
  {
    if s != [] {
      var front, last := s[..|s| - 1], s[|s| - 1];
      StableSortSorts(front);
      InsertSorts(StableSort(front), last);
      forall x ensures TiedWith(s, x) == TiedWith(StableSort(s), x) {
        InsertKeepsTies(StableSort(front), last, x);
        TiedWithAppend(front, [last], x);
        assert s == front + [last];
      }
    }
  }

  lemma {:induction false} TiedWithMembers(s: seq<Issue>, x: Issue)
    ensures forall y | y in TiedWith(s, x) :: y in s && Tied(y, x)
    ensures (exists i | 0 <= i < |s| :: Tied(s[i], x)) ==> TiedWith(s, x) != []
  {
    if s != [] {
      TiedWithMembers(s[1..], x);
    }
  }

  lemma SortedHead(s: seq<Issue>, r: seq<Issue>)
    requires Sorted(s) && Sorted(r) && SameTies(s, r) && s != []
    ensures r != [] && !Before(r[0], s[0])
  {
    StrictWeakOrder(s[0], s[0], s[0]);
    assert TiedWith(s, s[0]) == TiedWith(r, s[0]);
    TiedWithMembers(s, s[0]);
    TiedWithMembers(r, s[0]);
    var y := TiedWith(r, s[0])[0];
    assert y in r;
    var i :| 0 <= i < |r| && r[i] == y;
    assert i > 0 ==> !Before(r[i], r[0]);
    assert r[0] in r;
    assert TiedWith(s, r[0]) == TiedWith(r, r[0]);
    StrictWeakOrder(r[0], r[0], r[0]);
    TiedWithMembers(r, r[0]);
    TiedWithMembers(s, r[0]);
    assert TiedWith(r, r[0]) != [] by { assert Tied(r[0], r[0]); }
    var z := TiedWith(s, r[0])[0];
    var j :| 0 <= j < |s| && s[j] == z;
    assert j > 0 ==> !Before(s[j], s[0]);
    StrictWeakOrder(r[0], s[0], z);
    StrictWeakOrder(z, r[0], s[0]);
  }

  // Sorted, and in the given order among ties: there is only one such arrangement,
  // so any stable sort yields StableSort.
  lemma {:induction false} StableSortUnique(s: seq<Issue>, r: seq<Issue>)
    requires Sorted(s) && Sorted(r) && SameTies(s, r)
    ensures s == r
    decreases |s|
  {
    if s == [] {
      if r != [] {
        StrictWeakOrder(r[0], r[0], r[0]);
        var ties := TiedWith(r, r[0]);
        assert false;
      }
    } else {
      SortedHead(s, r);
      SortedHead(r, s);
      StrictWeakOrder(s[0], r[0], s[0]);
      assert TiedWith(s, s[0])[0] == s[0];
      assert TiedWith(r, s[0])[0] == r[0];
      assert TiedWith(s, s[0]) == TiedWith(r, s[0]);
      forall x ensures TiedWith(s[1..], x) == TiedWith(r[1..], x) {
        assert TiedWith(s, x) == TiedWith(r, x);
        var head := if Tied(s[0], x) then [s[0]] else [];
        assert TiedWith(s[1..], x) == TiedWith(s, x)[|head|..];
        assert TiedWith(r[1..], x) == TiedWith(r, x)[|head|..];
      }
      StableSortUnique(s[1..], r[1..]);
      assert s == [s[0]] + s[1..] && r == [r[0]] + r[1..];
    }
  }

  // --- What stands first, in terms of the issues themselves ---

  // Urgent, high, medium and low; anything else ranks as no priority.
  predicate Ranked(priority: Option<int>) {
    priority == Some(1) || priority == Some(2) || priority == Some(3) || priority == Some(4)
  }

  predicate SameRank(a: Issue, b: Issue) {
    if Ranked(a.priority) then a.priority == b.priority else !Ranked(b.priority)
  }

  // Seconds since 1970; without a time, the beginning of the year 9999.
  predicate CreatedNoLater(a: Issue, b: Issue) {
    match (a.createdAt, b.createdAt)
    case (Some(at), Some(bt)) => at <= bt
    case (Some(at), None) => at <= 253_370_764_800
    case (None, Some(bt)) => 253_370_764_800 <= bt
    case (None, None) => true
  }

  // Equal, or smaller at the first difference.
  ghost predicate Ascends(a: string, b: string) {
    exists k | 0 <= k <= |a| && k <= |b| ::
      a[..k] == b[..k] && (k == |a| || (k < |b| && a[k] < b[k]))
  }

  lemma {:induction false} NotLessAscends(a: string, b: string)
    requires !StringLess(b, a)
    ensures Ascends(a, b)
    decreases |a|
  {
    if a == "" || (b != "" && a[0] != b[0]) {
      assert a[..0] == b[..0];
    } else {
      NotLessAscends(a[1..], b[1..]);
      var k :| 0 <= k < |a| && k < |b|
        && a[1..][..k] == b[1..][..k] && (k + 1 == |a| || (k + 1 < |b| && a[k + 1] < b[k + 1]));
      assert a[..k + 1] == [a[0]] + a[1..][..k] && b[..k + 1] == [b[0]] + b[1..][..k];
    }
  }

  // A higher urgency stands first, and an issue without one behind those that have one;
  // then the earlier creation, and then the smaller identifier.
  lemma UrgentStandsFirst(issues: seq<Issue>, i: nat, j: nat)
    requires i < j < |StableSort(issues)|
    ensures var a, b := StableSort(issues)[i], StableSort(issues)[j];
      && (Ranked(b.priority) ==> Ranked(a.priority) && a.priority.value <= b.priority.value)
      && (SameRank(a, b) ==> CreatedNoLater(a, b))
      && (SameRank(a, b) && CreatedNoLater(b, a) ==> Ascends(a.identifier, b.identifier))
  {
    StableSortSorts(issues);
    hide StableSort;
    var a, b := StableSort(issues)[i], StableSort(issues)[j];
    assert !Before(b, a);
    if !StringLess(b.identifier, a.identifier) {
      NotLessAscends(a.identifier, b.identifier);
    }
  }

  lemma SnocAdds(front: seq<Issue>, last: Issue)
    ensures multiset(front + [last]) == multiset(front) + multiset{last}
  {
  }

  lemma {:induction false} InsertAdds(s: seq<Issue>, e: Issue)
    ensures multiset(Insert(s, e)) == multiset(s) + multiset{e}
  {
    hide Before;
    SnocAdds(s, e);
    if s != [] && Before(e, s[|s| - 1]) {
      var front, last := s[..|s| - 1], s[|s| - 1];
      InsertAdds(front, e);
      SnocAdds(Insert(front, e), last);
      SnocAdds(front, last);
      assert s == front + [last];
    }
  }

  // Nothing is lost and nothing appears.
  lemma {:induction false} StableSortPermutes(s: seq<Issue>)
    ensures multiset(StableSort(s)) == multiset(s)
  {
    hide Insert;
    if s != [] {
      var front, last := s[..|s| - 1], s[|s| - 1];
      StableSortPermutes(front);
      InsertAdds(StableSort(front), last);
      SnocAdds(front, last);
      assert s == front + [last];
    }
  }

  lemma {:induction false} InsertAt(s: seq<Issue>, x: Issue, j: nat)
    requires j <= |s| && (j == 0 || !Before(x, s[j - 1]))
    requires forall k | j <= k < |s| :: Before(x, s[k])
    ensures Insert(s, x) == s[..j] + [x] + s[j..]
  {
    if j < |s| {
      var front := s[..|s| - 1];
      InsertAt(front, x, j);
      assert front[..j] == s[..j] && front[j..] + [s[|s| - 1]] == s[j..];
    } else {
      assert s[..j] == s && s[j..] == [];
    }
  }

  /** In place: each issue sinks back past those it comes before. */
  method SortCandidates(issues: array<Issue>)
    modifies issues
    ensures issues[..] == StableSort(old(issues[..]))
  {
    ghost var was := issues[..];
    for n := 0 to issues.Length
      invariant issues[..n] == StableSort(was[..n])
      invariant forall k | n <= k < issues.Length :: issues[k] == was[k]
    {
      assert was[..n + 1][..n] == was[..n];
      Sink(issues, n);
    }
    assert issues[..issues.Length] == issues[..] && was[..issues.Length] == was;
  }

  function Placed(s: seq<Issue>, x: Issue, j: nat): seq<Issue>
    requires j <= |s|
  {
    s[..j] + [x] + s[j..]
  }

  lemma SwapMovesBack(s: seq<Issue>, x: Issue, j: nat)
    requires 0 < j <= |s|
    ensures Placed(s, x, j)[j - 1] == s[j - 1] && Placed(s, x, j)[j] == x
    ensures Placed(s, x, j)[j - 1 := x][j := s[j - 1]] == Placed(s, x, j - 1)
  {
  }

  method Sink(issues: array<Issue>, n: nat)
    requires n < issues.Length
    modifies issues
    ensures issues[..n + 1] == Insert(old(issues[..n]), old(issues[n]))
    ensures forall k | n < k < issues.Length :: issues[k] == old(issues[k])
  {
    hide Before, Insert;
    ghost var done, x := issues[..n], issues[n];
    var j := n;
    assert issues[..n + 1] == Placed(done, x, n);
    while j > 0 && Before(issues[j], issues[j - 1])
      invariant 0 <= j <= n
      invariant issues[..n + 1] == Placed(done, x, j)
      invariant forall k | n < k < issues.Length :: issues[k] == old(issues[k])
      invariant forall k | j <= k < n :: Before(x, done[k])
    {
      SwapMovesBack(done, x, j);
      assert issues[j - 1] == issues[..n + 1][j - 1] && issues[j] == issues[..n + 1][j];
      ghost var whole := issues[..n + 1];
      issues[j], issues[j - 1] := issues[j - 1], issues[j];
      assert issues[..n + 1] == whole[j - 1 := x][j := done[j - 1]];
      j := j - 1;
    }
    assert issues[j] == issues[..n + 1][j] == x;
    if j > 0 {
      assert issues[j - 1] == issues[..n + 1][j - 1] == done[j - 1];
    }
    InsertAt(done, x, j);
  }
}
