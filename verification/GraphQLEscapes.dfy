/**
 Block strings with an escaped triple quote, which the scanner does not know:
 internal/service/codex/dynamic_tool.go. GraphQL, October 2021 edition, section 2.9.4.
 */
module GraphQLEscapes {
  import opened Wrappers
  import opened GraphQLScan
  import opened GraphQLDocument
  import opened GraphQLReading
  import opened GraphQLAgreement

  // --- A document around one block string ---

  // What comes before the block string is passed, and what comes after it fits.
  lemma AroundBlock(front: seq<Token>, text: string, back: seq<Token>)
    requires Fits(front + [Lexed(Block(text))] + back, "") && Tame(front, 0)
    ensures var rest := TRIPLE + text + TRIPLE + PrintTokens(back);
      && PrintTokens(front + [Lexed(Block(text))] + back) == PrintTokens(front) + rest
      && Passes(front, rest, 0) && Fits(back, "")
  {
    hide Fits, Passes, Tame, LexemeFits;
    var block := [Lexed(Block(text))];
    assert front + block + back == front + (block + back) && (block + back)[1..] == back;
    assert PrintTokens(block + back) == TRIPLE + text + TRIPLE + PrintTokens(back);
    PrintJoin(front, block + back);
    FitsJoin(front, block + back, "");
    FitsJoin(block, back, "");
    assert PrintTokens(block + back) + "" == PrintTokens(block + back);
    TamePasses(front, PrintTokens(block + back), 0);
  }

  // --- Misread and refused ---

  // The block string holds a triple quote, and what follows that in it is unmarked.
  predicate HoldsTriple(text: string) {
    var n := FindTriple(text);
    n.Some? && Unmarked(text[n.value + 3..])
  }

  lemma OpenStringFails(rest: string, depth: nat, t: Tally)
    requires FindTriple(rest).None?
    ensures !ScanFrom(TRIPLE + rest, depth, t)
  {
    var s := TRIPLE + rest;
    assert s[..3] == TRIPLE && s[3..] == rest;
    hide FindTriple;
  }

  lemma UnmarkedTail(s: string, n: nat)
    requires Unmarked(s) && n <= |s|
    ensures Unmarked(s[n..])
  {
  }

  // Unmarked text leads on to what follows, if anywhere.
  lemma {:induction false} ScanUnmarked(s: string, tail: string, depth: nat, t: Tally)
    requires Unmarked(s) && tail != "" && tail[0] == '"'
    requires forall d: nat, u: Tally :: !ScanFrom(tail, d, u)
    ensures !ScanFrom(s + tail, depth, t)
    decreases |s|
  {
    hide SkipString, SkipLineComment, NameLength, OperationKeyword;
    var whole := s + tail;
    if s == "" {
      assert whole == tail;
    } else {
      assert whole[0] == s[0] && whole[1..] == s[1..] + tail;
      UnmarkedTail(s, 1);
      if depth == 0 && NameStart(s[0]) {
        var n := NameLength(whole);
        assert whole[|s|] == '"';
        assert 0 < n <= |s|;
        assert whole[n..] == s[n..] + tail;
        UnmarkedTail(s, n);
        ScanUnmarked(s[n..], tail, depth, CountName(t, whole[..n]));
      } else {
        ScanUnmarked(s[1..], tail, depth, t);
        ScanUnmarked(s[1..], tail, depth + 1, t);
        ScanUnmarked(s[1..], tail, depth + 1, CountBody(t));
        ScanUnmarked(s[1..], tail, if depth > 0 then depth - 1 else 0, t);
      }
    }
  }

  // The closing quotes then open a string that never ends.
  lemma MisreadBlock(text: string, after: string, depth: nat, t: Tally)
    requires HoldsTriple(text) && FindTriple(after).None?
    ensures !ScanFrom(TRIPLE + text + TRIPLE + after, depth, t)
  {
    var tail, later := TRIPLE + after, text[FindTriple(text).value + 3..];
    ScanHeldTriple(text, tail, depth, t);
    assert TRIPLE + text + tail == TRIPLE + text + TRIPLE + after;
    hide FindTriple, ScanFrom;
    forall d: nat, u: Tally ensures !ScanFrom(tail, d, u) {
      OpenStringFails(after, d, u);
    }
    ScanUnmarked(later, tail, depth, t);
  }

  // The first block string with an escape holds a triple quote and no other triple quote
  // follows its end: the document is refused, however many operations it has, and the
  // answer is right unless there is exactly one.
  lemma MisreadIsRefused(doc: Document, front: seq<Token>, text: string, back: seq<Token>)
    requires WellFormed(doc) && Tokens(doc) == front + [Lexed(Block(text))] + back
    requires Tame(front, 0) && HoldsTriple(text) && FindTriple(PrintTokens(back)).None?
    ensures !HasExactlyOne(Print(doc))
    ensures (HasExactlyOne(Print(doc)) <==> Operations(doc.definitions) == 1) <==> Operations(doc.definitions) != 1
  {
    hide ScanFrom, Fits, Passes, Tame, HoldsTriple, CountItems;
    var rest := TRIPLE + text + TRIPLE + PrintTokens(back);
    AroundBlock(front, text, back);
    ScanTokens(front, rest, 0, Tally(0, false));
    MisreadBlock(text, PrintTokens(back), DepthOf(front, 0), CountItems(Tally(0, false), Tops(front, 0)));
  }

  // --- Misread and let through: what lies between two misread block strings is swallowed ---

  // The string's own closing quotes open another string for the scanner.
  predicate OpensAtEnd(text: string) {
    OpenAfter(text, true) == Some(false)
  }

  // Reached outside any string, it leaves the scanner outside again.
  predicate ClosesAgain(text: string) {
    OpenAfter(text, false) == Some(true)
  }

  // Whatever lies between the two, the scan goes on after the second as it was before the first.
  lemma ScanSwallows(a: string, mid: string, b: string, after: string, depth: nat, t: Tally)
    requires OpensAtEnd(a) && ClosesAgain(b) && FindTriple(mid + TRIPLE) == Some(|mid|) && depth > 0
    ensures ScanFrom(TRIPLE + a + TRIPLE + (mid + (TRIPLE + b + TRIPLE + after)), depth, t) ==
      ScanFrom(after, depth, t)
  {
    hide FindTriple, ScanFrom, OpenAfter;
    var inner := b + (TRIPLE + after);
    Regroups(TRIPLE, a, mid, b, after);
    ScanThrough(a, true, mid + TRIPLE + inner, depth, t);
    ScanPastBlock(mid, inner, depth, t);
    ScanThrough(b, false, after, depth, t);
  }

  lemma Regroups(q: string, a: string, mid: string, b: string, after: string)
    ensures q + a + q + (mid + (q + b + q + after)) == q + a + (q + (mid + q + (b + (q + after))))
    ensures q + (mid + q + (b + (q + after))) == q + mid + q + (b + (q + after))
  {
  }

  // Two misread block strings inside braces: the document is accepted exactly when what
  // remains without the text between them opens one operation.
  lemma SwallowedIsNotCounted(
    doc: Document, front: seq<Token>, a: string, mid: seq<Token>, b: string, back: seq<Token>)
    requires WellFormed(doc)
    requires Tokens(doc) == front + [Lexed(Block(a))] + (mid + [Lexed(Block(b))] + back)
    requires Tame(front, 0) && DepthOf(front, 0) > 0 && Tame(back, DepthOf(front, 0))
    requires OpensAtEnd(a) && ClosesAgain(b)
    requires FindTriple(PrintTokens(mid) + TRIPLE) == Some(|PrintTokens(mid)|)
    ensures HasExactlyOne(Print(doc)) <==> Openings(Tops(front + back, 0)) == 1
  {
    hide ScanFrom, Fits, Passes, Tame, OpensAtEnd, ClosesAgain, CountItems, FindTriple;
    var later := mid + [Lexed(Block(b))] + back;
    var depth, t := DepthOf(front, 0), CountItems(Tally(0, false), Tops(front, 0));
    AroundBlock(front, a, later);
    AroundMiddle(mid, b, back);
    ScanTokens(front, TRIPLE + a + TRIPLE + PrintTokens(later), 0, Tally(0, false));
    ScanSwallows(a, PrintTokens(mid), b, PrintTokens(back), depth, t);
    TopsJoin(front, back, 0);
    CountAppend(Tally(0, false), Tops(front, 0), Tops(back, depth));
    CountIsOpenings(Tops(front + back, 0));
    if t.operations <= 1 {
      TamePasses(back, "", depth);
      ScanTokens(back, "", depth, t);
      assert PrintTokens(back) + "" == PrintTokens(back);
      ScanEnds("");
    } else {
      CountingGrows(t, Tops(back, depth));
    }
  }

  lemma AroundMiddle(mid: seq<Token>, text: string, back: seq<Token>)
    requires Fits(mid + [Lexed(Block(text))] + back, "")
    ensures Fits(back, "")
    ensures PrintTokens(mid + [Lexed(Block(text))] + back) ==
      PrintTokens(mid) + (TRIPLE + text + TRIPLE + PrintTokens(back))
  {
    hide Fits;
    var block := [Lexed(Block(text))];
    assert mid + block + back == mid + (block + back) && (block + back)[1..] == back;
    assert PrintTokens(block + back) == TRIPLE + text + TRIPLE + PrintTokens(back);
    PrintJoin(mid, block + back);
    FitsJoin(mid + block, back, "");
  }

  // --- Operations around an escaped triple quote ---

  const CLOSE := Lex(Punct(')'))

  // An escaped triple quote and a space.
  const ESCAPE := "\\\"\"\" "

  function Before(): seq<Item> {
    [F, Lex(Punct('(')), F, Lex(Punct(':'))]
  }

  const LAST := [Lex(Block(ESCAPE)), CLOSE]

  // For example query f{f(f:"""\""" """)}
  function Escaping(keyword: string, name: string): Definition {
    Operation([GAP], keyword, [GAP, Lex(Name(name))], Before() + LAST)
  }

  function Start(keyword: string, name: string): seq<Item> {
    [GAP, Lex(Name(keyword)), GAP, Lex(Name(name))]
  }

  function Opening(keyword: string, name: string): seq<Token> {
    TokensOf(Start(keyword, name)) + [Open] + TokensOf(Before())
  }

  const CLOSING := [Lexed(Punct(')')), Close]

  lemma EscapeCloses()
    ensures FindClosing(ESCAPE + TRIPLE) == Some(|ESCAPE|)
  {
    var s := ESCAPE + TRIPLE;
    assert EscapedTripleAt(s, 0) && s[4..] == " \"\"\"" && s[4..][1..] == TRIPLE;
    assert FindClosing(TRIPLE) == Some(0) && FindClosing(s[4..]) == Some(1);
  }

  lemma EscapeIsOdd()
    ensures HoldsTriple(ESCAPE) && OpensAtEnd(ESCAPE) && ClosesAgain(ESCAPE)
  {
    assert ESCAPE[..3][0] == '\\' && ESCAPE[1..][..3] == TRIPLE && FindTriple(ESCAPE[1..]) == Some(0);
    assert FindTriple(ESCAPE) == Some(1) && ESCAPE[4..] == " " && ESCAPE[..1] == "\\";
    var s := ESCAPE + TRIPLE;
    assert s[..3][0] == '\\' && s[1..][..3] == TRIPLE && FindTriple(s[1..]) == Some(0) && FindTriple(s) == Some(1);
    var last := " " + TRIPLE;
    assert last[..3][0] == ' ' && last[1..] == TRIPLE && FindTriple(TRIPLE) == Some(0) && FindTriple(last) == Some(1);
  }

  lemma EscapingTokens(keyword: string, name: string)
    ensures TokensOf(ItemsOf(Escaping(keyword, name))) == Opening(keyword, name) + [Lexed(Block(ESCAPE))] + CLOSING
  {
    var body := Before() + LAST;
    assert ItemsOf(Escaping(keyword, name)) == Start(keyword, name) + [Braces(body)];
    assert LAST[1..] == [CLOSE] && TokensOf([CLOSE]) == [Lexed(Punct(')'))];
    assert TokensOf(LAST) == [Lexed(Block(ESCAPE)), Lexed(Punct(')'))];
    assert TokensOf([Braces(body)]) == [Open] + TokensOf(body) + [Close];
    hide Before, Start, TokensOf;
    TokensJoin(Start(keyword, name), [Braces(body)]);
    TokensJoin(Before(), LAST);
  }

  lemma StartIsSpaced(keyword: string, name: string)
    requires ValidName(keyword) && ValidName(name)
    ensures Spaced(Start(keyword, name), "{") && Spaced(Before(), "\"")
  {
    WordFits(keyword);
    WordFits(name);
    WordFits("f");
    SignFits(' ');
    SignFits('(');
    SignFits(':');
    hide LexemeFits, EasyItem, EndsName, ValidName;
  }

  lemma OpeningFits(keyword: string, name: string, rest: string)
    requires ValidName(keyword) && ValidName(name) && rest != "" && rest[0] == '"'
    ensures Fits(Opening(keyword, name), rest) && PlainRow(Opening(keyword, name))
    ensures var s := PrintTokens(Opening(keyword, name)); s != "" && Unquoted(s)
  {
    var front, open, back := TokensOf(Start(keyword, name)), [Open], TokensOf(Before());
    var later := PrintTokens(back) + rest;
    OpenFits(later);
    StartIsSpaced(keyword, name);
    hide Fits, TokensOf, PrintTokens, Before, Start, PlainLexeme, EasyItem, EndsName, ValidName;
    SpacedFits(Start(keyword, name), "{" + later);
    SpacedFits(Before(), rest);
    FitsJoin(front + open, back, rest);
    FitsJoin(front, open, later);
    PrintJoin(front + open, back);
    PrintJoin(front, open);
  }

  lemma OpenFits(rest: string)
    ensures Fits([Open], rest) && PlainRow([Open]) && PrintTokens([Open]) == "{" && !NameChar('{')
  {
    assert [Open][1..] == [] && Fits([], rest);
  }

  lemma ClosingFits(rest: string)
    ensures Fits(CLOSING, rest) && PlainRow(CLOSING)
    ensures PrintTokens(CLOSING) == ")}" && FindTriple(")}") == None
  {
    var row := CLOSING;
    assert row[1..] == [Close] && [Close][1..] == [] && PrintTokens([Close]) == "}";
    assert Fits([], rest) && Fits([Close], rest) && LexemeFits(Punct(')'), "}" + rest);
    assert Fits(row, rest) && PrintTokens(row) == ")}";
    assert ")}"[1..] == "}";
  }

  lemma EscapingFits(keyword: string, name: string, rest: string)
    requires ValidName(keyword) && ValidName(name)
    ensures Fits(TokensOf(ItemsOf(Escaping(keyword, name))), rest)
  {
    var block := [Lexed(Block(ESCAPE))];
    ClosingFits(rest);
    EscapeCloses();
    assert block[1..] == [] && Fits([], PrintTokens(CLOSING) + rest);
    assert Fits(block, PrintTokens(CLOSING) + rest) && PrintTokens(block) == TRIPLE + ESCAPE + TRIPLE;
    EscapingTokens(keyword, name);
    hide Fits, PrintTokens, Opening, TokensOf, ItemsOf, Escaping, FindClosing, ValidName;
    OpeningFits(keyword, name, PrintTokens(block) + (PrintTokens(CLOSING) + rest));
    FitsJoin(Opening(keyword, name) + block, CLOSING, rest);
    FitsJoin(Opening(keyword, name), block, PrintTokens(CLOSING) + rest);
  }

  lemma EscapingOpens(keyword: string, name: string)
    requires OperationType(keyword)
    ensures Opens(Escaping(keyword, name)) && Escaping(keyword, name).Operation?
  {
  }

  // One of them alone is refused.
  lemma EscapedTripleIsRefused(keyword: string, name: string)
    requires OperationType(keyword) && ValidName(keyword) && ValidName(name)
    ensures var doc := Document([Escaping(keyword, name)], []);
      WellFormed(doc) && Operations(doc.definitions) == 1 && !HasExactlyOne(Print(doc))
  {
    hide *;
    EscapingOpens(keyword, name);
    EscapingFits(keyword, name, "");
    EscapingTokens(keyword, name);
    OpeningFits(keyword, name, "\"");
    PlainIsTame(Opening(keyword, name), 0);
    ClosingFits("");
    EscapeIsOdd();
    AloneIsDocument(Escaping(keyword, name));
    MisreadIsRefused(Document([Escaping(keyword, name)], []), Opening(keyword, name), ESCAPE, CLOSING);
  }

  // --- A tame block string ---

  predicate Unquoted(s: string) {
    forall i | 0 <= i < |s| :: s[i] != '"'
  }

  // The first triple quote after a text without any is the one put there.
  lemma {:induction false} FirstTripleAfter(s: string, between: string)
    requires FindTriple(s).None? && between != "" && Unquoted(between)
    ensures FindTriple(s + between + TRIPLE) == Some(|s + between|)
    decreases |s| + |between|
  {
    var whole := s + between + TRIPLE;
    if |s| >= 3 {
      assert whole[..3] == s[..3];
    } else {
      assert whole[|s|] == between[0];
      TripleFirst(whole);
    }
    if s != "" {
      assert whole[1..] == s[1..] + between + TRIPLE;
      FirstTripleAfter(s[1..], between);
    } else if |between| > 1 {
      assert whole[1..] == s + between[1..] + TRIPLE;
      FirstTripleAfter(s, between[1..]);
    } else {
      assert whole[1..] == TRIPLE && FindTriple(TRIPLE) == Some(0);
    }
  }

  lemma FirstTripleIn(s: string, rest: string)
    requires Unquoted(s)
    ensures FindTriple(s + TRIPLE + rest) == Some(|s|) && (s + TRIPLE + rest)[|s| + 3..] == rest
  {
    if s != "" {
      FirstTripleAfter("", s);
      assert "" + s == s;
    } else {
      assert s + TRIPLE == TRIPLE;
    }
    assert FindTriple(s + TRIPLE) == Some(|s|);
    hide FindTriple;
    FindTripleInFront(s + TRIPLE, rest);
  }

  // Two escaped triple quotes, and silent text between them.
  lemma PairIsEven(a: string, between: string, b: string)
    requires Unquoted(a) && Silent(between) && Unquoted(b)
    ensures EvenlyQuoted(a + "\\" + TRIPLE + (between + "\\" + TRIPLE + b))
  {
    var x, y := a + "\\", between + "\\";
    var rest := y + TRIPLE + b;
    var text := x + TRIPLE + rest;
    hide FindTriple;
    FirstTripleIn(b, "");
    FirstTripleIn(y, b);
    FirstTripleIn(x, rest);
    FirstTripleIn(x, rest + TRIPLE);
    assert b + TRIPLE + "" == b + TRIPLE && OpenAfter(b, true) == Some(true);
    assert rest[..|y|] == y && Silent(y) && rest[|y|] == '"';
    assert OpenAfter(rest, false) == Some(true);
    assert text + TRIPLE == x + TRIPLE + (rest + TRIPLE);
  }

  // --- Two of them with any definitions between ---

  function Wrapped(first: Definition, swallowed: seq<Definition>, last: Definition): Document {
    Document([first] + swallowed + [last], [])
  }

  lemma {:induction false} OperationsJoin(a: seq<Definition>, b: seq<Definition>)
    ensures Operations(a + b) == Operations(a) + Operations(b)
    ensures AllItems(a + b) == AllItems(a) + AllItems(b)
    decreases |a|
  {
    hide ItemsOf;
    if a == [] {
      assert a + b == b;
    } else {
      assert (a + b)[0] == a[0] && (a + b)[1..] == a[1..] + b;
      OperationsJoin(a[1..], b);
    }
  }

  lemma WrappedTokens(first: Definition, swallowed: seq<Definition>, last: Definition)
    ensures Tokens(Wrapped(first, swallowed, last)) ==
      TokensOf(ItemsOf(first)) + TokensOf(AllItems(swallowed)) + TokensOf(ItemsOf(last))
    ensures first.Operation? && last.Operation? ==>
      Operations(Wrapped(first, swallowed, last).definitions) == Operations(swallowed) + 2
  {
    hide ItemsOf, TokensOf;
    OperationsJoin([first] + swallowed, [last]);
    OperationsJoin([first], swallowed);
    assert [first][1..] == [] && [last][1..] == [] && AllItems([]) == [];
    assert AllItems([first]) == ItemsOf(first) && AllItems([last]) == ItemsOf(last);
    var items := AllItems([first] + swallowed + [last]);
    assert items + [] == items;
    TokensJoin(ItemsOf(first) + AllItems(swallowed), ItemsOf(last));
    TokensJoin(ItemsOf(first), AllItems(swallowed));
  }

  predicate Opener(keyword: string, name: string) {
    OperationType(keyword) && ValidName(keyword) && ValidName(name) && !OperationType(name) && name != "fragment"
  }

  lemma StartCounts(keyword: string, name: string)
    requires Opener(keyword, name)
    ensures CountItems(Tally(0, false), Shallow(Start(keyword, name)) + [Braces([])]) == Tally(1, false)
  {
    var t, start := Tally(0, false), Start(keyword, name);
    ShallowCounts(t, start);
    CountAppend(t, Shallow(start), [Braces([])]);
    hide OperationType, ValidName;
    var u := Tally(1, true);
    assert CountItem(t, start[0]) == t && CountItem(t, start[1]) == u;
    assert start[3..] == [Lex(Name(name))] && start[3..][1..] == [] && CountItems(u, start[3..]) == u;
    assert start[2..][1..] == start[3..] && start[1..][1..] == start[2..];
    assert CountItems(u, start[2..]) == u && CountItems(t, start[1..]) == u && CountItems(t, start) == u;
  }

  lemma OpeningTops(keyword: string, name: string)
    ensures var front := Opening(keyword, name);
      DepthOf(front, 0) == 1 && Tops(front + CLOSING, 0) == Shallow(Start(keyword, name)) + [Braces([])]
  {
    var start, before := TokensOf(Start(keyword, name)), TokensOf(Before());
    assert CLOSING[1..] == [Close] && Tops(CLOSING, 1) == [] && [Open][1..] == [];
    assert DepthOf([Open], 0) == 1 && Tops([Open], 0) == [Braces([])];
    hide Start, Before, TokensOf, Tops, DepthOf;
    ItemsAreLevel(Start(keyword, name), 0);
    ItemsAreLevel(Before(), 1);
    TopsJoin(start + [Open], before, 0);
    TopsJoin(start, [Open], 0);
    TopsJoin(start + [Open] + before, CLOSING, 0);
  }

  lemma EscapingIsTame(keyword: string, name: string)
    requires ValidName(keyword) && ValidName(name)
    ensures Tame(Opening(keyword, name), 0) && Tame(CLOSING, 1)
  {
    hide *;
    OpeningFits(keyword, name, "\"");
    ClosingFits("");
    PlainIsTame(Opening(keyword, name), 0);
    PlainIsTame(CLOSING, 1);
  }

  // What the scanner swallows goes from the end of the first to the middle of the second.
  lemma SwallowedText(inner: seq<Token>, keyword: string, name: string)
    requires FindTriple(PrintTokens(inner)).None? && ValidName(keyword) && ValidName(name)
    ensures var mid := PrintTokens(CLOSING + inner + Opening(keyword, name));
      FindTriple(mid + TRIPLE) == Some(|mid|)
  {
    hide *;
    OpeningFits(keyword, name, "\"");
    ClosingFits("");
    PrintJoin(CLOSING + inner, Opening(keyword, name));
    PrintJoin(CLOSING, inner);
    ClosedHasNoTriple(PrintTokens(inner));
    FirstTripleAfter(")}" + PrintTokens(inner), PrintTokens(Opening(keyword, name)));
  }

  // They are let through, however many operations lie between them.
  lemma WrappedIsAccepted(
    keyword: string, name: string, swallowed: seq<Definition>, keyword': string, name': string)
    requires Opener(keyword, name) && Opener(keyword', name')
    requires FindTriple(PrintTokens(TokensOf(AllItems(swallowed)))).None?
    requires WellFormed(Wrapped(Escaping(keyword, name), swallowed, Escaping(keyword', name')))
    ensures var doc := Wrapped(Escaping(keyword, name), swallowed, Escaping(keyword', name'));
      Operations(doc.definitions) == Operations(swallowed) + 2 && HasExactlyOne(Print(doc))
  {
    var doc := Wrapped(Escaping(keyword, name), swallowed, Escaping(keyword', name'));
    var block, front, open := [Lexed(Block(ESCAPE))], Opening(keyword, name), Opening(keyword', name');
    var inner := TokensOf(AllItems(swallowed));
    EscapingOpens(keyword, name);
    EscapingOpens(keyword', name');
    hide TokensOf, AllItems, Operations, WellFormed, HasExactlyOne, Print, Tokens, FindTriple, PrintTokens, Opening,
      ItemsOf, Escaping, ValidName, OpensAtEnd, ClosesAgain, Tame;
    WrappedTokens(Escaping(keyword, name), swallowed, Escaping(keyword', name'));
    EscapingTokens(keyword, name);
    EscapingTokens(keyword', name');
    SwallowedText(inner, keyword', name');
    EscapingIsTame(keyword, name);
    EscapeIsOdd();
    OpeningTops(keyword, name);
    StartCounts(keyword, name);
    CountIsOpenings(Tops(front + CLOSING, 0));
    Regrouped(front, block, CLOSING, inner, open);
    SwallowedIsNotCounted(doc, front, ESCAPE, CLOSING + inner + open, ESCAPE, CLOSING);
  }

  lemma Regrouped(front: seq<Token>, block: seq<Token>, closing: seq<Token>, inner: seq<Token>, open: seq<Token>)
    ensures (front + block + closing) + inner + (open + block + closing) ==
      front + block + ((closing + inner + open) + block + closing)
  {
  }

  lemma ClosedHasNoTriple(s: string)
    requires FindTriple(s).None?
    ensures FindTriple(")}" + s).None?
  {
    assert (")}" + s)[1..] == "}" + s && ("}" + s)[1..] == s;
    assert |s| >= 2 ==> ("}" + s)[..3][0] == '}';
    assert |s| >= 1 ==> (")}" + s)[..3][0] == ')';
  }

  function Copies(n: nat): seq<Definition> {
    if n == 0 then [] else [Shorthand([], BODY)] + Copies(n - 1)
  }

  lemma {:induction false} CopiesAreBraces(n: nat)
    ensures Operations(Copies(n)) == n
    ensures forall i | 0 <= i < |Copies(n)| :: Opens(Copies(n)[i])
    ensures forall i | 0 <= i < |AllItems(Copies(n))| :: AllItems(Copies(n))[i] == Braces(BODY)
  {
    if n > 0 {
      CopiesAreBraces(n - 1);
      var copies, first := Copies(n), Shorthand([], BODY);
      assert copies[0] == first && copies[1..] == Copies(n - 1) && ItemsOf(first) == [Braces(BODY)];
      assert AllItems(copies) == [Braces(BODY)] + AllItems(Copies(n - 1));
    }
  }

  lemma {:induction false} NoTripleWithoutQuotes(s: string)
    requires Unquoted(s)
    ensures FindTriple(s).None?
  {
    if |s| >= 3 {
      assert s[..3][0] != '"';
      NoTripleWithoutQuotes(s[1..]);
    }
  }

  lemma CopiesFit(n: nat, rest: string)
    requires rest == "" || !NameChar(rest[0])
    ensures Fits(TokensOf(AllItems(Copies(n))), rest)
    ensures FindTriple(PrintTokens(TokensOf(AllItems(Copies(n))))).None?
  {
    hide Fits, FindTriple, EasyItem;
    var items := AllItems(Copies(n));
    CopiesAreBraces(n);
    BracesAreEasy();
    forall i | 0 <= i < |items| ensures EasyItem(items[i]) && items[i].Braces? {
      assert items[i] == Braces(BODY);
    }
    SpacedFits(items, rest);
    NoTripleWithoutQuotes(PrintTokens(TokensOf(items)));
  }

  lemma CopiesAreWellFormed(first: Definition, n: nat, last: Definition)
    requires Opens(first) && Opens(last)
    requires forall rest :: Fits(TokensOf(ItemsOf(first)), rest) && Fits(TokensOf(ItemsOf(last)), rest)
    requires var s := PrintTokens(TokensOf(ItemsOf(last))); s != "" && !NameChar(s[0])
    ensures WellFormed(Wrapped(first, Copies(n), last))
  {
    CopiesAreBraces(n);
    var a, inner, b := TokensOf(ItemsOf(first)), TokensOf(AllItems(Copies(n))), TokensOf(ItemsOf(last));
    hide Copies, AllItems, Fits, TokensOf, ItemsOf, PrintTokens, NameChar, Tokens;
    WrappedTokens(first, Copies(n), last);
    CopiesFit(n, PrintTokens(b) + "");
    FitsJoin(a + inner, b, "");
    FitsJoin(a, inner, PrintTokens(b) + "");
  }

  // For every number of operations from two on, a document with that many is accepted.
  lemma ManyAreAccepted(n: nat)
    ensures var doc := Wrapped(Escaping("query", "f"), Copies(n), Escaping("mutation", "g"));
      WellFormed(doc) && Operations(doc.definitions) == n + 2 && HasExactlyOne(Print(doc))
  {
    assert Opener("query", "f") && Opener("mutation", "g");
    WrappedCopies("query", "f", n, "mutation", "g");
  }

  lemma EscapingStarts(keyword: string, name: string)
    ensures var s := PrintTokens(TokensOf(ItemsOf(Escaping(keyword, name)))); s != "" && s[0] == ' '
  {
    var items := ItemsOf(Escaping(keyword, name));
    assert items[0] == GAP && TokensIn(GAP) == [Lexed(Punct(' '))];
    hide Escaping, ItemsOf, TokensIn;
    assert TokensOf(items)[0] == Lexed(Punct(' '));
  }

  lemma WrappedCopies(keyword: string, name: string, n: nat, keyword': string, name': string)
    requires Opener(keyword, name) && Opener(keyword', name')
    ensures var doc := Wrapped(Escaping(keyword, name), Copies(n), Escaping(keyword', name'));
      WellFormed(doc) && Operations(doc.definitions) == n + 2 && HasExactlyOne(Print(doc))
  {
    var first, last := Escaping(keyword, name), Escaping(keyword', name');
    EscapingOpens(keyword, name);
    EscapingOpens(keyword', name');
    EscapingStarts(keyword', name');
    CopiesAreBraces(n);
    hide TokensOf, AllItems, Operations, WellFormed, HasExactlyOne, Print, Fits, FindTriple, PrintTokens, ItemsOf,
      Escaping, ValidName, Wrapped;
    forall rest ensures Fits(TokensOf(ItemsOf(first)), rest) && Fits(TokensOf(ItemsOf(last)), rest) {
      EscapingFits(keyword, name, rest);
      EscapingFits(keyword', name', rest);
    }
    CopiesAreWellFormed(first, n, last);
    CopiesFit(n, "");
    WrappedIsAccepted(keyword, name, Copies(n), keyword', name');
  }
}
