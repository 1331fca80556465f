/** Tracker state names: trimming and case folding, for ASCII letters. */
module Names {
  function LowerChar(c: char): char {
    if 'A' <= c <= 'Z' then (c as int + 32) as char else c
  }

  function Lower(s: string): string {
    seq(|s|, i requires 0 <= i < |s| => LowerChar(s[i]))
  }

  predicate IsSpace(c: char) {
    c == ' ' || '\t' <= c <= '\r'
  }

  function Trim(s: string): string
    decreases |s|
  {
    if s == "" then s
    else if IsSpace(s[0]) then Trim(s[1..])
    else if IsSpace(s[|s| - 1]) then Trim(s[..|s| - 1])
    else s
  }

  predicate EqualFold(a: string, b: string) {
    Lower(a) == Lower(b)
  }

  predicate StateNameIn(state: string, list: seq<string>) {
    && Trim(state) != ""
    && exists i | 0 <= i < |list| :: EqualFold(Trim(list[i]), Trim(state))
  }

  predicate IsPrefix(prefix: string, s: string) {
    |prefix| <= |s| && s[..|prefix|] == prefix
  }

  // --- What they mean, character by character ---

  // Capital letters, and only those, become small ones.
  lemma LowerIsSmall(s: string, i: nat)
    requires i < |s|
    ensures |Lower(s)| == |s|
    ensures 'A' <= s[i] <= 'Z' ==> Lower(s)[i] in "abcdefghijklmnopqrstuvwxyz" && Lower(s)[i] as int - s[i] as int == 32
    ensures !('A' <= s[i] <= 'Z') ==> Lower(s)[i] == s[i]
  {
    var small := "abcdefghijklmnopqrstuvwxyz";
    if 'A' <= s[i] <= 'Z' {
      var k := s[i] as int - 'A' as int;
      assert small[k] == Lower(s)[i];
    }
  }

  // The same letter in either case, or the same character.
  predicate SameLetter(a: char, b: char) {
    || a == b
    || ('A' <= a <= 'Z' && b as int - a as int == 32)
    || ('A' <= b <= 'Z' && a as int - b as int == 32)
  }

  predicate SameText(a: string, b: string) {
    |a| == |b| && forall i | 0 <= i < |a| :: SameLetter(a[i], b[i])
  }

  lemma FoldIsCaseless(a: string, b: string)
    ensures EqualFold(a, b) <==> SameText(a, b)
  {
    if EqualFold(a, b) {
      assert |Lower(a)| == |a| && |Lower(b)| == |b|;
      forall i | 0 <= i < |a| ensures SameLetter(a[i], b[i]) {
        assert Lower(a)[i] == Lower(b)[i];
      }
    }
  }

  predicate Blank(c: char) {
    c == ' ' || c == '\t' || c == '\n' || c == '\r' || c == '\U{0B}' || c == '\U{0C}'
  }

  // What is left has no space at either end, and only space is gone.
  predicate TrimmedAt(s: string, core: string, i: nat, j: nat) {
    && i <= j <= |s| && core == s[i..j]
    && (forall k | 0 <= k < i :: Blank(s[k])) && (forall k | j <= k < |s| :: Blank(s[k]))
    && (i < j ==> !Blank(s[i]) && !Blank(s[j - 1]))
  }

  lemma {:induction false} TrimTrims(s: string) returns (i: nat, j: nat)
    ensures TrimmedAt(s, Trim(s), i, j)
    decreases |s|
  {
    if s == "" {
      return 0, 0;
    } else if IsSpace(s[0]) {
      i, j := TrimTrims(s[1..]);
      LongerInFront(s, Trim(s), i, j);
      return i + 1, j + 1;
    } else if IsSpace(s[|s| - 1]) {
      i, j := TrimTrims(s[..|s| - 1]);
      assert s[..|s| - 1][i..j] == s[i..j];
    } else {
      return 0, |s|;
    }
  }

  lemma LongerInFront(s: string, core: string, i: nat, j: nat)
    requires s != "" && TrimmedAt(s[1..], core, i, j) && Blank(s[0])
    ensures TrimmedAt(s, core, i + 1, j + 1)
  {
    assert s[1..][i..j] == s[i + 1..j + 1];
    forall k | 0 <= k < i + 1 ensures Blank(s[k]) {
      assert k > 0 ==> s[k] == s[1..][k - 1];
    }
    forall k | j + 1 <= k < |s| ensures Blank(s[k]) {
      assert s[k] == s[1..][k - 1];
    }
  }

  // A name is listed when it is not blank and the list has it, whatever the case of the
  // letters and the space around either.
  lemma ListedExactlyWhen(state: string, list: seq<string>)
    ensures StateNameIn(state, list) <==>
      Trim(state) != "" && exists i | 0 <= i < |list| :: SameText(Trim(list[i]), Trim(state))
  {
    forall i | 0 <= i < |list| ensures EqualFold(Trim(list[i]), Trim(state)) == SameText(Trim(list[i]), Trim(state)) {
      FoldIsCaseless(Trim(list[i]), Trim(state));
    }
  }
}
