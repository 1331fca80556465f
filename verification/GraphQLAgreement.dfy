/**
 What the scan of a document says against what the document holds, definition by
 definition: internal/service/codex/dynamic_tool.go.
 */
module GraphQLAgreement {
  import opened GraphQLScan
  import opened GraphQLDocument
  import opened GraphQLReading

  // --- Definition by definition ---

  // What a definition adds to the count; a definition always leaves nothing pending.
  function Counted(d: Definition): nat {
    CountItems(Tally(0, false), ItemsOf(d)).operations
  }

  function TotalCounted(definitions: seq<Definition>): nat {
    if definitions == [] then 0 else Counted(definitions[0]) + TotalCounted(definitions[1..])
  }

  function Operations(definitions: seq<Definition>): nat {
    if definitions == [] then 0
    else (if definitions[0].Fragment? then 0 else 1) + Operations(definitions[1..])
  }

  lemma {:induction false} CountShift(t: Tally, more: nat, items: seq<Item>)
    ensures var u := CountItems(t, items);
      CountItems(t.(operations := t.operations + more), items) == u.(operations := u.operations + more)
    decreases items
  {
    if items != [] {
      CountShift(CountItem(t, items[0]), more, items[1..]);
    }
  }

  lemma {:induction false} GapsDoNotCount(t: Tally, gap: seq<Item>)
    requires AllIgnorable(gap)
    ensures CountItems(t, gap) == t
    decreases gap
  {
    if gap != [] {
      assert Ignorable(gap[0]);
      GapsDoNotCount(t, gap[1..]);
    }
  }

  lemma LeavesNothingPending(t: Tally, items: seq<Item>, body: seq<Item>)
    ensures !CountItems(t, items + [Braces(body)]).pending
  {
    CountAppend(t, items, [Braces(body)]);
  }

  lemma DefinitionCounts(d: Definition, operations: nat)
    ensures CountItems(Tally(operations, false), ItemsOf(d)) == Tally(operations + Counted(d), false)
  {
    CountShift(Tally(0, false), operations, ItemsOf(d));
    var items := ItemsOf(d);
    var front := items[..|items| - 1];
    assert items == front + [Braces(d.body)];
    LeavesNothingPending(Tally(operations, false), front, d.body);
  }

  lemma {:induction false} DefinitionsCount(definitions: seq<Definition>, operations: nat)
    ensures CountItems(Tally(operations, false), AllItems(definitions)) ==
      Tally(operations + TotalCounted(definitions), false)
  {
    if definitions != [] {
      CountAppend(Tally(operations, false), ItemsOf(definitions[0]), AllItems(definitions[1..]));
      DefinitionCounts(definitions[0], operations);
      DefinitionsCount(definitions[1..], operations + Counted(definitions[0]));
    }
  }

  // The scan accepts a tame document exactly when its definitions count one.
  lemma ScanCountsDefinitions(doc: Document)
    requires WellFormed(doc) && Tame(Tokens(doc), 0)
    ensures HasExactlyOne(Print(doc)) <==> TotalCounted(doc.definitions) == 1
  {
    TameCounts(doc);
    hide ScanFrom, CountItems, Tame, Tokens, TotalCounted, AllItems, AllIgnorable;
    CountAppend(Tally(0, false), AllItems(doc.definitions), doc.tail);
    DefinitionsCount(doc.definitions, 0);
    GapsDoNotCount(Tally(TotalCounted(doc.definitions), false), doc.tail);
  }

  // --- Against the number of operations ---

  // A defining name comes before any brace group.
  predicate Announced(items: seq<Item>) {
    exists k | 0 <= k < |items| :: Announces(items[k]) && forall j | 0 <= j < k :: !items[j].Braces?
  }

  // What of a header counts as an operation: a keyword does, and a brace group does unless
  // a body is announced again before the next brace group or the end.
  function Extras(items: seq<Item>): nat {
    if items == [] then 0
    else
      (if Keyword(items[0]) || (items[0].Braces? && !Announced(items[1..])) then 1 else 0) + Extras(items[1..])
  }

  function HeaderExtras(d: Definition): nat {
    if d.Shorthand? then 0 else Extras(d.header)
  }

  function TotalExtras(definitions: seq<Definition>): nat {
    if definitions == [] then 0 else HeaderExtras(definitions[0]) + TotalExtras(definitions[1..])
  }

  // Nothing in the header counts.
  predicate TidyHeader(d: Definition) {
    d.Shorthand? ||
    forall i | 0 <= i < |d.header| ::
      !Keyword(d.header[i]) && (d.header[i].Braces? ==> Announced(d.header[i + 1..]))
  }

  lemma AnnouncedFromHead(items: seq<Item>)
    requires items != []
    ensures Announced(items) <==> Announces(items[0]) || (!items[0].Braces? && Announced(items[1..]))
  {
    var rest := items[1..];
    if Announced(items) && !Announces(items[0]) {
      var k :| 0 <= k < |items| && Announces(items[k]) && forall j | 0 <= j < k :: !items[j].Braces?;
      assert rest[k - 1] == items[k] && forall j | 0 <= j < k - 1 :: rest[j] == items[j + 1];
    }
    if !items[0].Braces? && Announced(rest) {
      var k :| 0 <= k < |rest| && Announces(rest[k]) && forall j | 0 <= j < k :: !rest[j].Braces?;
      assert items[k + 1] == rest[k] && forall j | 0 < j <= k :: items[j] == rest[j - 1];
    }
  }

  // What the scanner counts in a header and its body, against what is there.
  lemma {:induction false} HeaderCounts(t: Tally, items: seq<Item>)
    ensures CountBody(CountItems(t, items)).operations ==
      t.operations + Extras(items) + if t.pending || Announced(items) then 0 else 1
    decreases |items|
  {
    if items != [] {
      AnnouncedFromHead(items);
      HeaderCounts(CountItem(t, items[0]), items[1..]);
    }
  }

  lemma {:induction false} TidyMeansNoExtras(items: seq<Item>)
    ensures Extras(items) == 0 <==>
      forall i | 0 <= i < |items| :: !Keyword(items[i]) && (items[i].Braces? ==> Announced(items[i + 1..]))
    decreases |items|
  {
    if items != [] {
      var rest := items[1..];
      TidyMeansNoExtras(rest);
      forall i | 0 <= i < |rest| ensures rest[i] == items[i + 1] && rest[i + 1..] == items[i + 1 + 1..] {
      }
      if Extras(items) == 0 {
        forall i | 0 <= i < |items| ensures !Keyword(items[i]) && (items[i].Braces? ==> Announced(items[i + 1..])) {
          assert i > 0 ==> items[i] == rest[i - 1] && items[i + 1..] == rest[i - 1 + 1..];
        }
      }
    }
  }

  function KeywordOf(d: Definition): string
    requires !d.Shorthand?
  {
    if d.Fragment? then "fragment" else d.keyword
  }

  lemma CountedByParts(d: Definition)
    requires AllIgnorable(d.gap) && (d.Operation? ==> OperationType(d.keyword))
    ensures Counted(d) ==
      if d.Shorthand? then 1
      else CountBody(CountItems(Tally(if d.Fragment? then 0 else 1, true), d.header)).operations
  {
    var t := Tally(0, false);
    GapsDoNotCount(t, d.gap);
    if d.Shorthand? {
      CountAppend(t, d.gap, [Braces(d.body)]);
    } else {
      var keyword := [Lex(Name(KeywordOf(d)))];
      CountAppend(t, d.gap + keyword + d.header, [Braces(d.body)]);
      CountAppend(t, d.gap + keyword, d.header);
      CountAppend(t, d.gap, keyword);
      assert CountItems(t, keyword) == CountItem(t, keyword[0]);
    }
  }

  predicate Opens(d: Definition) {
    AllIgnorable(d.gap) && (d.Operation? ==> OperationType(d.keyword))
  }

  // A definition counts for itself, unless it is a fragment, and for its header's extras.
  lemma CountedIsExtras(d: Definition)
    requires Opens(d)
    ensures Counted(d) == HeaderExtras(d) + if d.Fragment? then 0 else 1
  {
    CountedByParts(d);
    if !d.Shorthand? {
      HeaderCounts(Tally(if d.Fragment? then 0 else 1, true), d.header);
    }
  }

  lemma {:induction false} TotalIsExtras(definitions: seq<Definition>)
    requires forall i | 0 <= i < |definitions| :: Opens(definitions[i])
    ensures TotalCounted(definitions) == Operations(definitions) + TotalExtras(definitions)
    ensures TotalExtras(definitions) == 0 <==> forall i | 0 <= i < |definitions| :: TidyHeader(definitions[i])
    decreases |definitions|
  {
    hide HeaderExtras, TidyHeader, Counted;
    if definitions != [] {
      var rest := definitions[1..];
      assert Opens(definitions[0]);
      CountedIsExtras(definitions[0]);
      TidyIsNoExtras(definitions[0]);
      TotalIsExtras(rest);
      if TotalExtras(definitions) == 0 {
        forall i | 0 <= i < |definitions| ensures TidyHeader(definitions[i]) {
          assert i > 0 ==> definitions[i] == rest[i - 1];
        }
      }
    }
  }

  lemma TidyIsNoExtras(d: Definition)
    ensures TidyHeader(d) <==> HeaderExtras(d) == 0
  {
    if !d.Shorthand? {
      TidyMeansNoExtras(d.header);
    }
  }

  // A tame document is accepted exactly when its operations and its headers' extras are one
  // together.
  lemma AcceptedMeansOne(doc: Document)
    requires WellFormed(doc) && Tame(Tokens(doc), 0)
    ensures HasExactlyOne(Print(doc)) <==> Operations(doc.definitions) + TotalExtras(doc.definitions) == 1
    ensures TotalExtras(doc.definitions) == 0 <==>
      forall i | 0 <= i < |doc.definitions| :: TidyHeader(doc.definitions[i])
  {
    ScanCountsDefinitions(doc);
    hide TidyHeader, HasExactlyOne, Print, Fits, Tame, Tokens;
    forall i | 0 <= i < |doc.definitions| ensures Opens(doc.definitions[i]) {
    }
    TotalIsExtras(doc.definitions);
  }

  // Exactly when the scan's answer is right. For a tame document: always from two operations
  // on; for one if every header is tidy; for none unless the headers' extras are one. For any
  // other: when what the scanner reads agrees with what is there.
  lemma ScanAgreesExactlyWhen(doc: Document)
    requires WellFormed(doc)
    ensures var operations := Operations(doc.definitions);
      (HasExactlyOne(Print(doc)) <==> operations == 1)
      <==> if Tame(Tokens(doc), 0) then
          || operations >= 2
          || (operations == 1 && forall i | 0 <= i < |doc.definitions| :: TidyHeader(doc.definitions[i]))
          || (operations == 0 && TotalExtras(doc.definitions) != 1)
        else ReadsAsOne(Print(doc)) <==> operations == 1
  {
    hide TidyHeader, HasExactlyOne, Print, WellFormed, Tame, Tokens, Operations, TotalExtras, ReadsAsOne;
    if Tame(Tokens(doc), 0) {
      AcceptedMeansOne(doc);
    } else {
      ScanIsReading(Print(doc));
    }
  }

  // Whatever the headers hold, a tame document with two operations never gets through.
  lemma ScanNeverAcceptsTwo(doc: Document)
    requires WellFormed(doc) && Tame(Tokens(doc), 0) && HasExactlyOne(Print(doc))
    ensures Operations(doc.definitions) <= 1
  {
    hide HasExactlyOne, Print, WellFormed, Tame, Tokens, Operations, TotalExtras;
    AcceptedMeansOne(doc);
  }

  // A header without a brace group and without the name of an operation keyword.
  predicate PlainHeader(d: Definition) {
    d.Shorthand? || forall i | 0 <= i < |d.header| :: !d.header[i].Braces? && !Keyword(d.header[i])
  }

  // With plain headers the scan of a tame document says exactly whether it has one operation.
  lemma ScanIsExactForPlainHeaders(doc: Document)
    requires WellFormed(doc) && Tame(Tokens(doc), 0)
    requires forall i | 0 <= i < |doc.definitions| :: PlainHeader(doc.definitions[i])
    ensures HasExactlyOne(Print(doc)) <==> Operations(doc.definitions) == 1
  {
    hide HasExactlyOne, Print, WellFormed, Tame, Tokens, Operations, TotalExtras;
    AcceptedMeansOne(doc);
    forall i | 0 <= i < |doc.definitions| ensures TidyHeader(doc.definitions[i]) {
      assert PlainHeader(doc.definitions[i]);
    }
  }

  // --- A document of one definition ---

  predicate FitsAlone(d: Definition) {
    Opens(d) && Fits(TokensOf(ItemsOf(d)), "") && Tame(TokensOf(ItemsOf(d)), 0)
  }

  lemma AloneIsDocument(d: Definition)
    requires Opens(d) && Fits(TokensOf(ItemsOf(d)), "")
    ensures var doc := Document([d], []);
      && WellFormed(doc) && Tokens(doc) == TokensOf(ItemsOf(d))
      && Operations(doc.definitions) == (if d.Fragment? then 0 else 1)
      && TotalExtras(doc.definitions) == HeaderExtras(d)
  {
    hide Fits, TokensOf, HeaderExtras, ItemsOf;
    var doc := Document([d], []);
    assert doc.definitions[1..] == [] && AllItems([]) == [] && Operations([]) == 0 && TotalExtras([]) == 0;
    assert AllItems(doc.definitions) + doc.tail == ItemsOf(d);
  }

  // A tame operation on its own is accepted exactly when its header is tidy, a tame fragment
  // exactly when one thing in its header counts.
  lemma OneDefinitionIsAccepted(d: Definition)
    requires FitsAlone(d)
    ensures var doc := Document([d], []);
      && WellFormed(doc) && Operations(doc.definitions) == (if d.Fragment? then 0 else 1)
      && (HasExactlyOne(Print(doc)) <==> if d.Fragment? then HeaderExtras(d) == 1 else TidyHeader(d))
  {
    hide Opens, WellFormed, Fits, Tame, TokensOf, Tokens, Operations, TotalExtras, Print, HasExactlyOne, HeaderExtras,
      TidyHeader;
    AloneIsDocument(d);
    TidyIsNoExtras(d);
    AcceptedMeansOne(Document([d], []));
  }

  // Brace groups between names that announce nothing count one each.
  function BraceGroups(items: seq<Item>): nat {
    if items == [] then 0 else (if items[0].Braces? then 1 else 0) + BraceGroups(items[1..])
  }

  lemma {:induction false} OneBraceGroup(items: seq<Item>, i: int)
    requires i < |items| && (i >= 0 ==> items[i].Braces?)
    requires forall j | 0 <= j < |items| && j != i :: items[j].Lex?
    ensures BraceGroups(items) == if i >= 0 then 1 else 0
    decreases |items|
  {
    if items != [] {
      OneBraceGroup(items[1..], if i >= 0 then i - 1 else i);
    }
  }

  lemma {:induction false} ExtrasAreBraceGroups(items: seq<Item>)
    requires forall i | 0 <= i < |items| :: !Announces(items[i])
    ensures Extras(items) == BraceGroups(items)
    decreases |items|
  {
    if items != [] {
      ExtrasAreBraceGroups(items[1..]);
    }
  }

  // --- Rows of items that fit one after the other ---

  predicate EasyItem(item: Item) {
    match item
    case Lex(l) => (l.Punct? || l.Name?) && LexemeFits(l, "")
    case Braces(inner) => inner == [] || inner == [Lex(Name("f"))]
  }

  // What may follow a name.
  predicate EndsName(item: Item) {
    item.Braces? || (item.lexeme.Punct? && !NameChar(item.lexeme.c))
  }

  predicate Spaced(items: seq<Item>, rest: string) {
    && (forall i | 0 <= i < |items| :: EasyItem(items[i]))
    && (forall i | 0 <= i < |items| - 1 :: items[i].Lex? && items[i].lexeme.Name? ==> EndsName(items[i + 1]))
    && (rest == "" || !NameChar(rest[0]))
  }

  lemma {:induction false} TokensJoin(a: seq<Item>, b: seq<Item>)
    ensures TokensOf(a + b) == TokensOf(a) + TokensOf(b)
    decreases |a|
  {
    hide TokensIn;
    if a == [] {
      assert a + b == b;
    } else {
      assert (a + b)[0] == a[0] && (a + b)[1..] == a[1..] + b;
      TokensJoin(a[1..], b);
    }
  }

  lemma BodyFits(inner: seq<Item>, rest: string)
    requires inner == [] || inner == [Lex(Name("f"))]
    ensures var row := TokensIn(Braces(inner));
      && Fits(row, rest) && PlainRow(row)
      && PrintTokens(row) == if inner == [] then "{}" else "{f}"
  {
    assert TokensOf([]) == [] && PrintTokens([]) == "" && Fits([], rest);
    assert [Close][1..] == [] && Fits([Close], rest) && PrintTokens([Close]) == "}";
    if inner == [] {
      assert [Open, Close][1..] == [Close];
    } else {
      var f := Lexed(Name("f"));
      assert inner[1..] == [] && TokensOf(inner) == [f];
      assert [f, Close][1..] == [Close] && [Open, f, Close][1..] == [f, Close];
      assert PrintTokens([f, Close]) == "f}" && "}" + rest != "" && ("}" + rest)[0] == '}';
    }
  }

  lemma EasyFits(item: Item, rest: string)
    requires EasyItem(item) && (item.Lex? && item.lexeme.Name? ==> rest == "" || !NameChar(rest[0]))
    ensures Fits(TokensIn(item), rest) && PlainRow(TokensIn(item))
    ensures var s := PrintTokens(TokensIn(item));
      && (forall i | 0 <= i < |s| :: s[i] != '"')
      && s != "" && (EndsName(item) ==> !NameChar(s[0]))
  {
    match item {
      case Lex(l) =>
        assert [Lexed(l)][1..] == [] && PrintTokens([]) == "" && "" + rest == rest;
        assert PrintTokens([Lexed(l)]) == PrintLexeme(l);
      case Braces(inner) => BodyFits(inner, rest);
    }
  }

  lemma {:induction false} SpacedFits(items: seq<Item>, rest: string)
    requires Spaced(items, rest)
    ensures Fits(TokensOf(items), rest) && PlainRow(TokensOf(items))
    ensures var s := PrintTokens(TokensOf(items));
      && (forall i | 0 <= i < |s| :: s[i] != '"')
      && (items != [] ==> s != "" && (EndsName(items[0]) ==> !NameChar(s[0])))
    decreases |items|
  {
    if items != [] {
      hide LexemeFits, NameChar, TokensIn, PrintTokens, Fits;
      var tail := items[1..];
      assert EasyItem(items[0]);
      forall i | 0 <= i < |tail| ensures tail[i] == items[i + 1] {
      }
      SpacedFits(tail, rest);
      EasyFits(items[0], PrintTokens(TokensOf(tail)) + rest);
      FitsJoin(TokensIn(items[0]), TokensOf(tail), rest);
      PrintJoin(TokensIn(items[0]), TokensOf(tail));
    }
  }

  // --- Documents that are misjudged ---

  const BODY := [Lex(Name("f"))]

  // query($x:I={}){f}
  function DefaultOperation(): Definition {
    Operation(
      [], "query",
      [Lex(Punct('(')), Lex(Punct('$')), Lex(Name("x")), Lex(Punct(':')), Lex(Name("I")), Lex(Punct('=')), Braces([]),
       Lex(Punct(')'))],
      BODY)
  }

  const F := Lex(Name("f"))
  const GAP := Lex(Punct(' '))

  function FragmentTarget(): seq<Item> {
    [GAP, F, GAP, Lex(Name("on")), GAP, F]
  }

  function FragmentArgument(): seq<Item> {
    [Lex(Punct('@')), F, Lex(Punct('(')), F, Lex(Punct(':')), Braces([]), Lex(Punct(')'))]
  }

  // fragment f on f@f(f:{}){f}
  function ArgumentFragment(): Definition {
    Fragment([], FragmentTarget() + FragmentArgument(), BODY)
  }

  lemma WordFits(word: string)
    requires ValidName(word)
    ensures EasyItem(Lex(Name(word)))
  {
  }

  lemma SignFits(c: char)
    requires c in "($:=)@ "
    ensures EasyItem(Lex(Punct(c))) && EndsName(Lex(Punct(c)))
  {
  }

  lemma SpacedJoin(a: seq<Item>, b: seq<Item>, rest: string)
    requires Spaced(a, "") && Spaced(b, rest) && b != [] && EndsName(b[0])
    ensures Spaced(a + b, rest)
  {
  }

  lemma HeaderIsSpaced(keyword: string, header: seq<Item>)
    requires ValidName(keyword) && header != [] && Spaced(header, "") && EndsName(header[0])
    ensures Spaced([Lex(Name(keyword))] + header + [Braces(BODY)], "")
  {
    WordFits(keyword);
    BracesAreEasy();
    SpacedJoin([Lex(Name(keyword))], header, "");
    SpacedJoin([Lex(Name(keyword))] + header, [Braces(BODY)], "");
  }

  lemma DefaultIsSpaced()
    ensures Spaced(ItemsOf(DefaultOperation()), "")
  {
    var d := DefaultOperation();
    assert Spaced(d.header, "") && EndsName(d.header[0]) by {
      WordFits("x");
      WordFits("I");
      hide LexemeFits, EasyItem, EndsName, NameChar;
      SignFits('(');
      SignFits('$');
      SignFits(':');
      SignFits('=');
      SignFits(')');
      BracesAreEasy();
    }
    assert ValidName("query") && [] + [Lex(Name("query"))] == [Lex(Name("query"))];
    hide Spaced, ValidName;
    HeaderIsSpaced("query", d.header);
  }

  lemma TargetIsSpaced()
    ensures Spaced(FragmentTarget(), "") && EndsName(FragmentTarget()[0])
  {
    WordFits("f");
    WordFits("on");
    hide LexemeFits, EasyItem, EndsName, NameChar;
    SignFits(' ');
  }

  lemma FragmentArgumentIsSpaced()
    ensures Spaced(FragmentArgument(), "") && EndsName(FragmentArgument()[0])
  {
    WordFits("f");
    hide LexemeFits, EasyItem, EndsName, NameChar;
    SignFits('@');
    SignFits('(');
    SignFits(':');
    SignFits(')');
    BracesAreEasy();
  }

  lemma ArgumentIsSpaced()
    ensures Spaced(ItemsOf(ArgumentFragment()), "")
  {
    var a, b := FragmentTarget(), FragmentArgument();
    TargetIsSpaced();
    FragmentArgumentIsSpaced();
    assert (a + b)[0] == a[0];
    assert ValidName("fragment") && [] + [Lex(Name("fragment"))] == [Lex(Name("fragment"))];
    hide Spaced, ValidName, FragmentTarget, FragmentArgument, EndsName;
    SpacedJoin(a, b, "");
    HeaderIsSpaced("fragment", a + b);
  }

  lemma ArgumentCountsOnce()
    ensures Extras(FragmentTarget() + FragmentArgument()) == 1
  {
    var a, b := FragmentTarget(), FragmentArgument();
    assert forall i | 0 <= i < |a| :: a[i].Lex? && !Announces(a[i]);
    assert forall i | 0 <= i < |b| :: !Announces(b[i]) && (i != 5 ==> b[i].Lex?);
    assert (a + b)[6 + 5] == b[5];
    hide FragmentTarget, FragmentArgument, Announces;
    ExtrasAreBraceGroups(a + b);
    OneBraceGroup(a + b, 11);
  }

  lemma BracesAreEasy()
    ensures EasyItem(Braces([])) && EasyItem(Braces(BODY)) && EndsName(Braces([])) && EndsName(Braces(BODY))
  {
  }

  lemma SpacedAlone(d: Definition)
    requires Opens(d) && Spaced(ItemsOf(d), "")
    ensures FitsAlone(d)
  {
    SpacedFits(ItemsOf(d), "");
    PlainIsTame(TokensOf(ItemsOf(d)), 0);
  }

  lemma DefaultCounts()
    ensures FitsAlone(DefaultOperation()) && !TidyHeader(DefaultOperation())
  {
    var d := DefaultOperation();
    assert Opens(d);
    assert d.header[6] == Braces([]) && d.header[6 + 1..] == [Lex(Punct(')'))];
    assert !Announced([Lex(Punct(')'))]);
    DefaultIsSpaced();
    hide DefaultOperation, Opens, Spaced, ItemsOf;
    SpacedAlone(d);
  }

  // The braces of a default value are taken for the selection set.
  lemma EmptyDefaultIsRefused()
    ensures var doc := Document([DefaultOperation()], []);
      WellFormed(doc) && Operations(doc.definitions) == 1 && !HasExactlyOne(Print(doc))
  {
    var d := DefaultOperation();
    assert d.Operation?;
    DefaultCounts();
    hide DefaultOperation, FitsAlone, WellFormed, HasExactlyOne, Print, Operations, TidyHeader;
    OneDefinitionIsAccepted(d);
  }

  lemma ArgumentCounts()
    ensures FitsAlone(ArgumentFragment()) && HeaderExtras(ArgumentFragment()) == 1
  {
    var d := ArgumentFragment();
    assert Opens(d);
    ArgumentCountsOnce();
    ArgumentIsSpaced();
    hide FragmentTarget, FragmentArgument, Opens, Spaced, ItemsOf, Extras;
    SpacedAlone(d);
  }

  // A fragment alone, without any operation, gets through on the braces of an argument.
  lemma ArgumentFragmentIsAccepted()
    ensures var doc := Document([ArgumentFragment()], []);
      WellFormed(doc) && Operations(doc.definitions) == 0 && HasExactlyOne(Print(doc))
  {
    var d := ArgumentFragment();
    assert d.Fragment?;
    ArgumentCounts();
    hide ArgumentFragment, FitsAlone, WellFormed, HasExactlyOne, Print, Operations, HeaderExtras;
    OneDefinitionIsAccepted(d);
  }
}
