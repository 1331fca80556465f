/**
 GraphQL documents of operations and fragments (October 2021 edition, sections 2.1,
 2.2, 2.3 and 2.8), printed lexeme by lexeme, and what the scan makes of them.
 */
module GraphQLDocument {
  import opened Wrappers
  import opened GraphQLScan

  datatype StringChar = Plain(c: char) | Escaped(c: char)

  // Punct stands for any character the scanner passes over on its own: punctuators
  // other than braces, digits and signs of numbers, white space and commas.
  datatype Lexeme =
    | Punct(c: char)
    | Name(text: string)
    | Quoted(chars: seq<StringChar>)
    | Block(text: string)
    | Comment(text: string)

  datatype Item = Lex(lexeme: Lexeme) | Braces(items: seq<Item>)

  // What a text is made of, with its braces one by one.
  datatype Token = Lexed(lexeme: Lexeme) | Open | Close

  // The header of an operation or fragment is everything up to its selection set.
  datatype Definition =
    | Shorthand(gap: seq<Item>, body: seq<Item>)
    | Operation(gap: seq<Item>, keyword: string, header: seq<Item>, body: seq<Item>)
    | Fragment(gap: seq<Item>, header: seq<Item>, body: seq<Item>)

  datatype Document = Document(definitions: seq<Definition>, tail: seq<Item>)

  // --- Printing ---

  function PrintChars(chars: seq<StringChar>): string {
    if chars == [] then ""
    else
      match chars[0]
      case Plain(c) => [c] + PrintChars(chars[1..])
      case Escaped(c) => ['\\', c] + PrintChars(chars[1..])
  }

  function PrintLexeme(l: Lexeme): string {
    match l
    case Punct(c) => [c]
    case Name(text) => text
    case Quoted(chars) => "\"" + PrintChars(chars) + "\""
    case Block(text) => TRIPLE + text + TRIPLE
    case Comment(text) => "#" + text
  }

  function PrintToken(k: Token): string {
    match k
    case Lexed(lexeme) => PrintLexeme(lexeme)
    case Open => "{"
    case Close => "}"
  }

  function PrintTokens(row: seq<Token>): string {
    if row == [] then "" else PrintToken(row[0]) + PrintTokens(row[1..])
  }

  function TokensIn(item: Item): seq<Token>
    decreases item
  {
    match item
    case Lex(lexeme) => [Lexed(lexeme)]
    case Braces(items) => [Open] + TokensOf(items) + [Close]
  }

  function TokensOf(items: seq<Item>): seq<Token>
    decreases items
  {
    if items == [] then [] else TokensIn(items[0]) + TokensOf(items[1..])
  }

  // A definition is its items in a row.
  function ItemsOf(d: Definition): seq<Item> {
    match d
    case Shorthand(gap, body) => gap + [Braces(body)]
    case Operation(gap, keyword, header, body) => gap + [Lex(Name(keyword))] + header + [Braces(body)]
    case Fragment(gap, header, body) => gap + [Lex(Name("fragment"))] + header + [Braces(body)]
  }

  function AllItems(definitions: seq<Definition>): seq<Item> {
    if definitions == [] then [] else ItemsOf(definitions[0]) + AllItems(definitions[1..])
  }

  function Tokens(doc: Document): seq<Token> {
    TokensOf(AllItems(doc.definitions) + doc.tail)
  }

  function Print(doc: Document): string {
    PrintTokens(Tokens(doc))
  }

  // --- Well-formed text: each lexeme ends where the lexical grammar says ---

  predicate Letter(c: char) {
    'a' <= c <= 'z' || 'A' <= c <= 'Z' || c == '_'
  }

  predicate NameChar(c: char) {
    Letter(c) || c in "0123456789"
  }

  predicate LineTerminator(c: char) {
    c in "\r\n"
  }

  predicate OperationType(keyword: string) {
    keyword in {"query", "mutation", "subscription"}
  }

  predicate ValidName(text: string) {
    text != "" && Letter(text[0]) && forall i | 0 <= i < |text| :: NameChar(text[i])
  }

  predicate ValidChar(s: StringChar) {
    s.Plain? ==> s.c != '"' && s.c != '\\' && !LineTerminator(s.c)
  }

  // A backslash and a triple quote, which stand for a triple quote in a block string.
  predicate EscapedTripleAt(s: string, k: nat) {
    k + 4 <= |s| && s[k] == '\\' && s[k + 1] == '"' && s[k + 2] == '"' && s[k + 3] == '"'
  }

  // Where a block string's closing quotes start.
  function FindClosing(s: string): (r: Option<nat>)
    ensures r.Some? ==> r.value + 3 <= |s|
  {
    if EscapedTripleAt(s, 0) then
      var later := FindClosing(s[4..]);
      if later.Some? then Some(later.value + 4) else None
    else if |s| < 3 then None
    else if s[..3] == TRIPLE then Some(0)
    else
      var later := FindClosing(s[1..]);
      if later.Some? then Some(later.value + 1) else None
  }

  predicate LexemeFits(l: Lexeme, rest: string) {
    match l
    case Punct(c) => c != '#' && c != '"' && c != '{' && c != '}' && !Letter(c)
    case Name(text) => ValidName(text) && (rest == "" || !NameChar(rest[0]))
    case Quoted(chars) =>
      && (forall i | 0 <= i < |chars| :: ValidChar(chars[i]))
      && (chars == [] ==> rest == "" || rest[0] != '"')
    case Block(text) => FindClosing(text + TRIPLE) == Some(|text|)
    case Comment(text) =>
      && (forall i | 0 <= i < |text| :: !LineTerminator(text[i]))
      && (rest == "" || LineTerminator(rest[0]))
  }

  // Each token of a row is followed by what the lexical grammar asks for.
  predicate Fits(row: seq<Token>, rest: string) {
    row == [] || ((row[0].Lexed? ==> LexemeFits(row[0].lexeme, PrintTokens(row[1..]) + rest)) && Fits(row[1..], rest))
  }

  predicate Ignorable(item: Item) {
    item.Lex? && (item.lexeme.Comment? || (item.lexeme.Punct? && item.lexeme.c in " \t\n\r,\U{FEFF}"))
  }

  predicate AllIgnorable(items: seq<Item>) {
    forall i | 0 <= i < |items| :: Ignorable(items[i])
  }

  predicate WellFormed(doc: Document) {
    && Fits(Tokens(doc), "")
    && AllIgnorable(doc.tail)
    && (forall i | 0 <= i < |doc.definitions| :: AllIgnorable(doc.definitions[i].gap))
    && (forall i | 0 <= i < |doc.definitions| ::
          doc.definitions[i].Operation? ==> OperationType(doc.definitions[i].keyword))
  }

  // --- What the scanner reads: the same lexemes, but it does not know the escape ---

  predicate ReadableChar(s: StringChar) {
    s.Plain? ==> s.c != '"' && s.c != '\\'
  }

  predicate LexemeReads(l: Lexeme, rest: string) {
    match l
    case Punct(c) => c != '#' && c != '"' && c != '{' && c != '}' && !NameStart(c)
    case Name(text) =>
      && text != "" && NameStart(text[0]) && (forall i | 0 <= i < |text| :: NameContinue(text[i]))
      && (rest == "" || !NameContinue(rest[0]))
    case Quoted(chars) =>
      && (forall i | 0 <= i < |chars| :: ReadableChar(chars[i]))
      && (chars == [] ==> rest == "" || rest[0] != '"')
    case Block(text) => FindTriple(text + TRIPLE) == Some(|text|)
    case Comment(text) => (forall i | 0 <= i < |text| :: !LineEnd(text[i])) && (rest == "" || LineEnd(rest[0]))
  }

  predicate PlainLexeme(l: Lexeme) {
    l.Block? ==> forall k | 0 <= k < |l.text| :: !EscapedTripleAt(l.text, k)
  }

  // Without escaped triple quotes.
  predicate PlainRow(row: seq<Token>) {
    forall i | 0 <= i < |row| :: row[i].Lexed? ==> PlainLexeme(row[i].lexeme)
  }

  // --- What the scanner counts in a row of items at depth zero ---

  // Names that announce a definition body.
  predicate Keyword(item: Item) {
    item.Lex? && item.lexeme.Name? && OperationType(item.lexeme.text)
  }

  predicate Announces(item: Item) {
    Keyword(item) || (item.Lex? && item.lexeme.Name? && item.lexeme.text == "fragment")
  }

  function CountItem(t: Tally, item: Item): Tally {
    match item
    case Lex(Name(text)) => CountName(t, text)
    case Lex(_) => t
    case Braces(_) => CountBody(t)
  }

  function CountItems(t: Tally, items: seq<Item>): Tally
    decreases items
  {
    if items == [] then t else CountItems(CountItem(t, items[0]), items[1..])
  }

  lemma CountingGrows(t: Tally, items: seq<Item>)
    ensures CountItems(t, items).operations >= t.operations
    decreases items
  {
  }

  lemma {:induction false} CountAppend(t: Tally, a: seq<Item>, b: seq<Item>)
    ensures CountItems(t, a + b) == CountItems(CountItems(t, a), b)
    decreases a
  {
    if a == [] {
      assert a + b == b;
    } else {
      assert (a + b)[1..] == a[1..] + b && (a + b)[0] == a[0];
      CountAppend(CountItem(t, a[0]), a[1..], b);
    }
  }

  // --- The scan of one lexeme ---

  lemma {:induction false} SkipCommentText(text: string, rest: string)
    requires LexemeReads(Comment(text), rest)
    ensures SkipLineComment(text + rest) == rest
  {
    if text == "" {
      assert text + rest == rest;
    } else {
      SkipCommentText(text[1..], rest);
      assert (text + rest)[1..] == text[1..] + rest;
    }
  }

  lemma {:induction false} SkipQuotedChars(chars: seq<StringChar>, rest: string)
    requires forall i | 0 <= i < |chars| :: ReadableChar(chars[i])
    ensures SkipQuoted(PrintChars(chars) + "\"" + rest) == Some(rest)
  {
    var s := PrintChars(chars) + "\"" + rest;
    if chars == [] {
      assert s == "\"" + rest && s[1..] == rest;
    } else {
      SkipQuotedChars(chars[1..], rest);
      var tail := PrintChars(chars[1..]) + "\"" + rest;
      match chars[0] {
        case Plain(c) =>
          assert s == [c] + tail && s[1..] == tail;
        case Escaped(c) =>
          assert s == ['\\', c] + tail && s[2..] == tail;
      }
    }
  }

  lemma {:induction false} FindTripleInFront(text: string, rest: string)
    requires FindTriple(text).Some?
    ensures FindTriple(text + rest) == FindTriple(text)
  {
    assert (text + rest)[..3] == text[..3];
    if text[..3] != TRIPLE {
      FindTripleInFront(text[1..], rest);
      assert (text + rest)[1..] == text[1..] + rest;
    }
  }

  lemma {:induction false} ClosingIsFirstTriple(s: string, n: nat)
    requires FindClosing(s) == Some(n)
    requires forall k | 0 <= k <= n - 4 :: !EscapedTripleAt(s, k)
    ensures FindTriple(s) == Some(n)
    decreases |s|
  {
    if !EscapedTripleAt(s, 0) && s[..3] != TRIPLE {
      forall k | 0 <= k <= n - 1 - 4 ensures !EscapedTripleAt(s[1..], k) {
        assert !EscapedTripleAt(s, k + 1);
      }
      ClosingIsFirstTriple(s[1..], n - 1);
    }
  }

  lemma TripleFirst(s: string)
    requires |s| >= 3
    ensures s[..3] == TRIPLE <==> s[0] == '"' && s[1] == '"' && s[2] == '"'
  {
    assert s[..3] == [s[0], s[1], s[2]];
  }

  // Before the closing quotes, an escape is the only place where the scanner finds others.
  lemma EscapeIsTripleInside(text: string, k: nat)
    requires k < |text| && EscapedTripleAt(text, k)
    ensures FindTriple(text + TRIPLE) != Some(|text|)
  {
    hide FindTriple;
    FirstTripleIsFirst(text, k + 1);
    FindTripleInFront(text, TRIPLE);
  }

  lemma {:induction false} FirstTripleIsFirst(s: string, k: nat)
    requires k + 3 <= |s| && s[k] == '"' && s[k + 1] == '"' && s[k + 2] == '"'
    ensures FindTriple(s).Some? && FindTriple(s).value <= k
  {
    TripleFirst(s);
    if s[..3] != TRIPLE {
      FirstTripleIsFirst(s[1..], k - 1);
    }
  }

  // A lexeme that fits is read as it is exactly when it has no escaped triple quote.
  lemma FitsReads(l: Lexeme, rest: string)
    requires LexemeFits(l, rest)
    ensures LexemeReads(l, rest) <==> PlainLexeme(l)
  {
    if l.Block? {
      var text := l.text;
      hide FindClosing, FindTriple;
      if PlainLexeme(l) {
        forall k | 0 <= k <= |text| - 4 ensures !EscapedTripleAt(text + TRIPLE, k) {
          assert !EscapedTripleAt(text, k);
        }
        ClosingIsFirstTriple(text + TRIPLE, |text|);
      } else {
        var k :| 0 <= k < |text| && EscapedTripleAt(text, k);
        EscapeIsTripleInside(text, k);
      }
    }
  }

  lemma SkipBlock(text: string, rest: string)
    requires LexemeReads(Block(text), rest)
    ensures SkipString(TRIPLE + text + TRIPLE + rest) == Some(rest)
  {
    hide FindTriple;
    var s := TRIPLE + text + TRIPLE + rest;
    FindTripleInFront(text + TRIPLE, rest);
    assert s[..3] == TRIPLE && s[3..] == (text + TRIPLE) + rest;
    assert s[3..][|text| + 3..] == rest;
  }

  lemma QuotedIsNoBlock(chars: seq<StringChar>, rest: string)
    requires LexemeReads(Quoted(chars), rest)
    ensures var s := PrintLexeme(Quoted(chars)) + rest;
      s[1..] == PrintChars(chars) + "\"" + rest && (|s| >= 3 ==> s[..3] != TRIPLE)
  {
    var inside := PrintChars(chars) + "\"" + rest;
    assert PrintLexeme(Quoted(chars)) + rest == "\"" + inside && ("\"" + inside)[1..] == inside;
    if chars == [] {
      assert inside == "\"" + rest;
    } else {
      assert inside[0] == PrintChars(chars)[0] != '"';
    }
    hide PrintChars;
    if |inside| >= 2 {
      TripleFirst("\"" + inside);
    }
  }

  lemma SkipQuotedString(chars: seq<StringChar>, rest: string)
    requires LexemeReads(Quoted(chars), rest)
    ensures SkipString(PrintLexeme(Quoted(chars)) + rest) == Some(rest)
  {
    SkipQuotedChars(chars, rest);
    QuotedIsNoBlock(chars, rest);
    hide PrintChars, SkipQuoted;
  }

  lemma {:induction false} NameEnds(text: string, rest: string)
    requires forall i | 0 <= i < |text| :: NameContinue(text[i])
    requires rest == "" || !NameContinue(rest[0])
    ensures NameLength(text + rest) == |text|
  {
    if text == "" {
      assert text + rest == rest;
    } else {
      NameEnds(text[1..], rest);
      assert (text + rest)[1..] == text[1..] + rest;
    }
  }

  // Inside braces a name is passed over one character at a time.
  lemma {:induction false} ScanNameInside(text: string, rest: string, depth: nat, t: Tally)
    requires depth > 0 && forall i | 0 <= i < |text| :: NameContinue(text[i])
    ensures ScanFrom(text + rest, depth, t) == ScanFrom(rest, depth, t)
  {
    if text == "" {
      assert text + rest == rest;
    } else {
      assert (text + rest)[0] == text[0] && (text + rest)[1..] == text[1..] + rest;
      ScanNameInside(text[1..], rest, depth, t);
    }
  }

  lemma ScanName(text: string, rest: string, depth: nat, t: Tally)
    requires LexemeReads(Name(text), rest) && t.operations <= 1
    ensures ScanFrom(text + rest, depth, t) ==
      (var u := if depth == 0 then CountName(t, text) else t;
       u.operations <= 1 && ScanFrom(rest, depth, u))
  {
    var s := text + rest;
    assert s[0] == text[0];
    hide NameLength, OperationKeyword;
    if depth == 0 {
      NameEnds(text, rest);
      assert s[..|text|] == text && s[|text|..] == rest;
    } else {
      ScanNameInside(text, rest, depth, t);
    }
  }

  lemma ScanPastString(s: string, rest: string, depth: nat, t: Tally)
    requires s != "" && s[0] == '"' && SkipString(s) == Some(rest)
    ensures ScanFrom(s, depth, t) == ScanFrom(rest, depth, t)
  {
    hide SkipString;
  }

  lemma ScanPastOther(c: char, rest: string, depth: nat, t: Tally)
    requires LexemeReads(Punct(c), rest)
    ensures ScanFrom([c] + rest, depth, t) == ScanFrom(rest, depth, t)
  {
    assert ([c] + rest)[1..] == rest;
  }

  lemma ScanPastComment(text: string, rest: string, depth: nat, t: Tally)
    requires LexemeReads(Comment(text), rest)
    ensures ScanFrom("#" + text + rest, depth, t) == ScanFrom(rest, depth, t)
  {
    SkipCommentText(text, rest);
    assert ("#" + text + rest)[1..] == text + rest;
    hide SkipLineComment;
  }

  lemma ScanLexeme(l: Lexeme, rest: string, depth: nat, t: Tally)
    requires LexemeReads(l, rest) && t.operations <= 1
    ensures ScanFrom(PrintLexeme(l) + rest, depth, t) ==
      (var u := if depth == 0 then CountItem(t, Lex(l)) else t;
       u.operations <= 1 && ScanFrom(rest, depth, u))
  {
    hide ScanFrom, LexemeReads, SkipString, PrintChars, CountName;
    var s := PrintLexeme(l) + rest;
    match l {
      case Punct(c) => ScanPastOther(c, rest, depth, t);
      case Name(text) => ScanName(text, rest, depth, t);
      case Quoted(chars) =>
        SkipQuotedString(chars, rest);
        ScanPastString(s, rest, depth, t);
      case Block(text) =>
        SkipBlock(text, rest);
        assert s == TRIPLE + text + TRIPLE + rest;
        ScanPastString(s, rest, depth, t);
      case Comment(text) => ScanPastComment(text, rest, depth, t);
    }
  }
}
