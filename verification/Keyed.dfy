/**
 Sequences of entries that carry a key, as the orchestrator keeps them: find the
 first entry with a key, replace it or append, and filter a key out.
 */
module Keyed {
  function Keys<T>(s: seq<T>, key: T -> string): (r: set<string>) {
    set i | 0 <= i < |s| :: key(s[i])
  }

  ghost predicate Unique<T>(s: seq<T>, key: T -> string) {
    forall i, j | 0 <= i < j < |s| :: key(s[i]) != key(s[j])
  }

  // The first index at or after `from` whose entry has key `id`, or |s|.
  function Find<T>(s: seq<T>, key: T -> string, id: string, from: nat := 0): (r: nat)
    requires from <= |s|
    ensures from <= r <= |s|
    ensures forall i | from <= i < r :: key(s[i]) != id
    ensures r < |s| ==> key(s[r]) == id
    decreases |s| - from
  {
    if from == |s| || key(s[from]) == id then from else Find(s, key, id, from + 1)
  }

  // Replace the first entry with the new entry's key, or append.
  function Put<T>(s: seq<T>, key: T -> string, e: T): seq<T> {
    var i := Find(s, key, key(e));
    if i < |s| then s[i := e] else s + [e]
  }

  function Without<T>(s: seq<T>, key: T -> string, id: string): seq<T> {
    if s == [] then []
    else
      var rest := Without(s[..|s| - 1], key, id);
      if key(s[|s| - 1]) == id then rest else rest + [s[|s| - 1]]
  }

  lemma KeysHas<T>(s: seq<T>, key: T -> string, i: nat)
    requires i < |s|
    ensures key(s[i]) in Keys(s, key)
  {
  }

  lemma PutKeys<T>(s: seq<T>, key: T -> string, e: T)
    requires Unique(s, key)
    ensures Unique(Put(s, key, e), key)
    ensures Keys(Put(s, key, e), key) == Keys(s, key) + {key(e)}
    ensures |Put(s, key, e)| == if key(e) in Keys(s, key) then |s| else |s| + 1
    ensures forall x | x in Put(s, key, e) :: x == e || (x in s && key(x) != key(e))
  {
    var i := Find(s, key, key(e));
    var r := Put(s, key, e);
    if i < |s| {
      assert forall k | 0 <= k < |s| :: key(r[k]) == key(s[k]);
      forall k | k in Keys(s, key) ensures k in Keys(r, key) {
        var j :| 0 <= j < |s| && key(s[j]) == k;
        assert key(r[j]) == k;
      }
      assert key(s[i]) in Keys(s, key);
    } else {
      forall k | k in Keys(s, key) + {key(e)} ensures k in Keys(r, key) {
        if k == key(e) {
          assert key(r[|s|]) == k;
        } else {
          var j :| 0 <= j < |s| && key(s[j]) == k;
          assert key(r[j]) == k;
        }
      }
    }
  }

  lemma PutFinds<T>(s: seq<T>, key: T -> string, e: T)
    ensures var r := Put(s, key, e); Find(r, key, key(e)) < |r| && r[Find(r, key, key(e))] == e
  {
    var i := Find(s, key, key(e));
    var r := Put(s, key, e);
    assert forall k | 0 <= k < i :: r[k] == s[k];
    assert r[i] == e;
  }

  lemma {:induction false} WithoutMembers<T>(s: seq<T>, key: T -> string, id: string)
    ensures forall x | x in Without(s, key, id) :: x in s && key(x) != id
    ensures forall x | x in s && key(x) != id :: x in Without(s, key, id)
    ensures |Without(s, key, id)| <= |s|
  {
    if s != [] {
      var front, last := s[..|s| - 1], s[|s| - 1];
      WithoutMembers(front, key, id);
      assert s == front + [last];
      assert forall x :: x in s <==> x in front || x == last;
    }
  }

  lemma {:induction false} WithoutUnique<T>(s: seq<T>, key: T -> string, id: string)
    requires Unique(s, key)
    ensures Unique(Without(s, key, id), key)
  {
    if s != [] {
      var front, last := s[..|s| - 1], s[|s| - 1];
      WithoutUnique(front, key, id);
      WithoutMembers(front, key, id);
      var q := Without(front, key, id);
      forall i | 0 <= i < |q| ensures key(q[i]) != key(last) {
        assert q[i] in front;
        var j :| 0 <= j < |front| && front[j] == q[i];
        assert key(s[j]) != key(s[|s| - 1]);
      }
    }
  }

  lemma WithoutKeys<T>(s: seq<T>, key: T -> string, id: string)
    ensures Keys(Without(s, key, id), key) == Keys(s, key) - {id}
  {
    var r := Without(s, key, id);
    WithoutMembers(s, key, id);
    forall k | k in Keys(r, key) ensures k in Keys(s, key) - {id} {
      var i :| 0 <= i < |r| && key(r[i]) == k;
      assert r[i] in r;
      var j :| 0 <= j < |s| && s[j] == r[i];
    }
    forall k | k in Keys(s, key) - {id} ensures k in Keys(r, key) {
      var i :| 0 <= i < |s| && key(s[i]) == k;
      assert s[i] in r;
      var j :| 0 <= j < |r| && r[j] == s[i];
    }
  }

  lemma KeysOfLast<T>(s: seq<T>, key: T -> string)
    requires s != []
    ensures Keys(s, key) == Keys(s[..|s| - 1], key) + {key(s[|s| - 1])}
  {
    var front, last := s[..|s| - 1], s[|s| - 1];
    assert forall i | 0 <= i < |front| :: s[i] == front[i];
    forall k | k in Keys(s, key) ensures k in Keys(front, key) + {key(last)} {
      var i :| 0 <= i < |s| && key(s[i]) == k;
      assert i < |front| ==> key(front[i]) in Keys(front, key);
    }
    forall k | k in Keys(front, key) + {key(last)} ensures k in Keys(s, key) {
      if k in Keys(front, key) {
        var i :| 0 <= i < |front| && key(front[i]) == k;
        assert key(s[i]) in Keys(s, key);
      } else {
        assert key(s[|s| - 1]) in Keys(s, key);
      }
    }
  }

  lemma UniqueFront<T>(s: seq<T>, key: T -> string)
    requires s != [] && Unique(s, key)
    ensures Unique(s[..|s| - 1], key) && key(s[|s| - 1]) !in Keys(s[..|s| - 1], key)
  {
    var front := s[..|s| - 1];
    assert forall i | 0 <= i < |front| :: s[i] == front[i];
  }

  lemma {:induction false} UniqueCount<T>(s: seq<T>, key: T -> string)
    requires Unique(s, key)
    ensures |Keys(s, key)| == |s|
    decreases |s|
  {
    if s == [] {
      assert Keys(s, key) == {};
    } else {
      UniqueFront(s, key);
      KeysOfLast(s, key);
      hide Keys, Unique;
      UniqueCount(s[..|s| - 1], key);
    }
  }

  // A key with no entry leaves nothing to filter.
  lemma {:induction false} WithoutAbsent<T>(s: seq<T>, key: T -> string, id: string)
    requires id !in Keys(s, key)
    ensures Without(s, key, id) == s
  {
    if s != [] {
      var front := s[..|s| - 1];
      assert forall i | 0 <= i < |s| :: key(s[i]) in Keys(s, key);
      assert id !in Keys(front, key) by {
        assert forall i | 0 <= i < |front| :: front[i] == s[i];
      }
      WithoutAbsent(front, key, id);
      assert s == front + [s[|s| - 1]];
    }
  }
}
