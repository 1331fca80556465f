/**
 How the scanner reads a text, and what its answer says of what it reads:
 internal/service/codex/dynamic_tool.go.
 */
module GraphQLReading {
  import opened Wrappers
  import opened GraphQLScan
  import opened GraphQLDocument

  predicate TokenReads(k: Token, rest: string) {
    k.Lexed? ==> LexemeReads(k.lexeme, rest)
  }

  predicate Reads(row: seq<Token>, rest: string) {
    row == [] || (TokenReads(row[0], PrintTokens(row[1..]) + rest) && Reads(row[1..], rest))
  }

  // --- The reading of a text: one token after the other, unless a string never ends ---

  function QuotedChars(s: string): Option<(seq<StringChar>, string)>
    decreases |s|
  {
    if s == "" then None
    else if s[0] == '"' then Some(([], s[1..]))
    else if s[0] != '\\' then
      var later := QuotedChars(s[1..]);
      if later.Some? then Some(([Plain(s[0])] + later.value.0, later.value.1)) else None
    else if |s| < 2 then None
    else
      var later := QuotedChars(s[2..]);
      if later.Some? then Some(([Escaped(s[1])] + later.value.0, later.value.1)) else None
  }

  function StringToken(s: string): Option<(Token, string)>
    requires s != "" && s[0] == '"'
  {
    if |s| >= 3 && s[..3] == TRIPLE then
      var end := FindTriple(s[3..]);
      if end.Some? then Some((Lexed(Block(s[3..][..end.value])), s[3..][end.value + 3..])) else None
    else
      var chars := QuotedChars(s[1..]);
      if chars.Some? then Some((Lexed(Quoted(chars.value.0)), chars.value.1)) else None
  }

  // The first token and what follows it.
  function FirstToken(s: string): Option<(Token, string)>
    requires s != ""
  {
    if s[0] == '{' then Some((Open, s[1..]))
    else if s[0] == '}' then Some((Close, s[1..]))
    else if s[0] == '"' then StringToken(s)
    else if s[0] == '#' then
      var rest := SkipLineComment(s[1..]);
      Some((Lexed(Comment(s[1..|s| - |rest|])), rest))
    else if NameStart(s[0]) then Some((Lexed(Name(s[..NameLength(s)])), s[NameLength(s)..]))
    else Some((Lexed(Punct(s[0])), s[1..]))
  }

  function ReadingOf(s: string): Option<seq<Token>>
    decreases |s|
  {
    if s == "" then Some([])
    else
      var first := FirstToken(s);
      if first.None? || |first.value.1| >= |s| then None
      else
        var later := ReadingOf(first.value.1);
        if later.Some? then Some([first.value.0] + later.value) else None
  }

  lemma {:induction false} CharsAreRead(s: string)
    ensures match QuotedChars(s)
      case None => SkipQuoted(s) == None
      case Some((chars, rest)) =>
        SkipQuoted(s) == Some(rest) && s == PrintChars(chars) + "\"" + rest &&
        forall i | 0 <= i < |chars| :: ReadableChar(chars[i])
    decreases |s|
  {
    assert PrintChars([]) == "";
    hide PrintChars;
    if s != "" && s[0] == '"' {
      assert s == "\"" + s[1..];
    } else if s != "" && (s[0] != '\\' || |s| >= 2) {
      var width := if s[0] == '\\' then 2 else 1;
      var c := if s[0] == '\\' then Escaped(s[1]) else Plain(s[0]);
      CharsAreRead(s[width..]);
      if QuotedChars(s).Some? {
        var (chars, rest) := QuotedChars(s[width..]).value;
        CharsInFront(c, chars, rest);
        assert s == PrintChars([c]) + s[width..];
      }
    }
  }

  lemma CharsInFront(c: StringChar, chars: seq<StringChar>, rest: string)
    ensures PrintChars([c]) == (if c.Plain? then [c.c] else ['\\', c.c])
    ensures PrintChars([c] + chars) + "\"" + rest == PrintChars([c]) + (PrintChars(chars) + "\"" + rest)
  {
    assert [c][1..] == [] && ([c] + chars)[1..] == chars && PrintChars([]) == "";
  }

  lemma {:induction false} CommentIsRead(s: string)
    ensures var rest := SkipLineComment(s); var n := |s| - |rest|;
      s[n..] == rest && (forall i | 0 <= i < n :: !LineEnd(s[i])) && (rest == "" || LineEnd(rest[0]))
  {
    hide LineEnd;
    if s != "" && !LineEnd(s[0]) {
      CommentIsRead(s[1..]);
      assert s[1..][|s[1..]| - |SkipLineComment(s)|..] == s[|s| - |SkipLineComment(s)|..];
      assert forall i | 0 < i < |s| :: s[i] == s[1..][i - 1];
    }
  }

  lemma {:induction false} FirstTripleSplits(s: string)
    requires FindTriple(s).Some?
    ensures var n := FindTriple(s).value;
      s[n..n + 3] == TRIPLE && FindTriple(s[..n + 3]) == Some(n)
  {
    var n := FindTriple(s).value;
    assert s[..n + 3][..3] == s[..3];
    if n > 0 {
      FirstTripleSplits(s[1..]);
      assert s[1..][n - 1..n + 2] == s[n..n + 3] && s[..n + 3][1..] == s[1..][..n + 2];
    }
  }

  lemma Assoc(a: string, b: string, c: string)
    ensures a + (b + c) == a + b + c
  {
  }

  lemma Regroup(a: string, b: string, c: string, d: string)
    ensures a + (b + c + d) == a + b + c + d
  {
  }

  // The text around the first triple quote in it.
  lemma AroundTriple(text: string)
    requires FindTriple(text).Some?
    ensures var n := FindTriple(text).value;
      text == text[..n] + TRIPLE + text[n + 3..] && FindTriple(text[..n] + TRIPLE) == Some(n)
  {
    var n := FindTriple(text).value;
    FirstTripleSplits(text);
    hide FindTriple;
    Cut(text, n, n + 3);
  }

  lemma Cut(s: string, i: nat, j: nat)
    requires i <= j <= |s|
    ensures s[..j] == s[..i] + s[i..j] && s == s[..i] + s[i..j] + s[j..]
  {
  }

  lemma BlockTokenReads(s: string)
    requires |s| >= 3 && s[..3] == TRIPLE && FindTriple(s[3..]).Some?
    ensures var inside := s[3..]; var n := FindTriple(inside).value;
      s == PrintLexeme(Block(inside[..n])) + inside[n + 3..] && FindTriple(inside[..n] + TRIPLE) == Some(n)
  {
    hide FindTriple;
    var inside := s[3..];
    var n := FindTriple(inside).value;
    AroundTriple(inside);
    Regroup(TRIPLE, inside[..n], TRIPLE, inside[n + 3..]);
    Cut(s, 0, 3);
    assert s[..0] + s[0..3] == s[..3];
  }

  lemma QuotedTokenReads(s: string)
    requires s != "" && s[0] == '"' && !(|s| >= 3 && s[..3] == TRIPLE) && QuotedChars(s[1..]).Some?
    ensures var (chars, rest) := QuotedChars(s[1..]).value;
      s == PrintLexeme(Quoted(chars)) + rest && LexemeReads(Quoted(chars), rest)
  {
    var inside := s[1..];
    var (chars, rest) := QuotedChars(inside).value;
    CharsAreRead(inside);
    assert PrintChars([]) == "";
    hide QuotedChars, PrintChars, SkipQuoted;
    assert s == "\"" + inside;
    assert chars == [] ==> inside == "\"" + rest;
    if |s| >= 3 {
      assert inside[0] == s[1] && inside[1] == s[2];
      TripleFirst(s);
    }
  }

  lemma StringTokenReads(s: string)
    requires s != "" && s[0] == '"'
    ensures match StringToken(s)
      case None => SkipString(s) == None
      case Some((k, rest)) => SkipString(s) == Some(rest) && s == PrintToken(k) + rest && TokenReads(k, rest)
  {
    CharsAreRead(s[1..]);
    if StringToken(s).Some? {
      if |s| >= 3 && s[..3] == TRIPLE {
        hide FindTriple, PrintLexeme;
        BlockTokenReads(s);
      } else {
        hide QuotedChars, PrintLexeme, LexemeReads;
        QuotedTokenReads(s);
      }
    }
  }

  lemma CommentTokenReads(s: string)
    requires s != "" && s[0] == '#'
    ensures var rest := SkipLineComment(s[1..]); var text := s[1..|s| - |rest|];
      s == PrintLexeme(Comment(text)) + rest && LexemeReads(Comment(text), rest)
  {
    hide SkipLineComment, LineEnd;
    CommentIsRead(s[1..]);
    var rest := SkipLineComment(s[1..]);
    var text := s[1..|s| - |rest|];
    assert text == s[1..][..|text|] && rest == s[1..][|text|..];
    assert s == "#" + (text + rest);
  }

  lemma NameTokenReads(s: string)
    requires s != "" && NameStart(s[0])
    ensures var n := NameLength(s); n > 0 && LexemeReads(Name(s[..n]), s[n..])
  {
    assert NameContinue(s[0]);
    assert NameLength(s) > 0;
  }

  lemma UnclosedStringStops(s: string, depth: nat, t: Tally)
    requires s != "" && s[0] == '"' && SkipString(s) == None
    ensures !ScanFrom(s, depth, t)
  {
    hide SkipString;
  }

  lemma FirstTokenReads(s: string)
    requires s != "" && FirstToken(s).Some?
    ensures var (k, rest) := FirstToken(s).value; |rest| < |s| && s == PrintToken(k) + rest && TokenReads(k, rest)
  {
    hide NameLength, SkipLineComment, SkipString, StringToken;
    if s[0] == '"' {
      hide LexemeReads, PrintLexeme;
      StringTokenReads(s);
    } else if s[0] == '#' {
      hide LexemeReads, PrintLexeme;
      CommentTokenReads(s);
    } else if s[0] != '{' && s[0] != '}' && NameStart(s[0]) {
      hide LexemeReads;
      NameTokenReads(s);
    } else {
      assert s == [s[0]] + s[1..];
    }
  }

  // --- Block strings with escaped triple quotes ---

  // Nothing that starts a string or a comment.
  predicate Unmarked(s: string) {
    forall i | 0 <= i < |s| :: s[i] != '"' && s[i] != '#'
  }

  // Nothing that starts a string or a comment, or changes the depth.
  predicate Silent(s: string) {
    Unmarked(s) && forall i | 0 <= i < |s| :: s[i] != '{' && s[i] != '}'
  }

  // Whether the scanner is in a block string after the text, if it was or was not before;
  // none when something but silent text is outside.
  function OpenAfter(text: string, open: bool): Option<bool>
    decreases |text|
  {
    var n := FindTriple(text);
    if open && FindTriple(text + TRIPLE) == Some(|text|) then Some(true)
    else if !open && Silent(text) then Some(false)
    else if n.Some? && (open || Silent(text[..n.value])) then OpenAfter(text[n.value + 3..], !open)
    else None
  }

  // The string's own closing quotes close it for the scanner.
  predicate EvenlyQuoted(text: string) {
    OpenAfter(text, true) == Some(true)
  }

  lemma {:induction false} ScanSilent(s: string, rest: string, depth: nat, t: Tally)
    requires Silent(s) && depth > 0
    ensures ScanFrom(s + rest, depth, t) == ScanFrom(rest, depth, t)
    decreases |s|
  {
    if s == "" {
      assert s + rest == rest;
    } else {
      assert (s + rest)[0] == s[0] && (s + rest)[1..] == s[1..] + rest;
      ScanSilent(s[1..], rest, depth, t);
    }
  }

  lemma ScanPastBlock(text: string, after: string, depth: nat, t: Tally)
    requires FindTriple(text + TRIPLE) == Some(|text|)
    ensures ScanFrom(TRIPLE + text + TRIPLE + after, depth, t) == ScanFrom(after, depth, t)
  {
    SkipBlock(text, after);
    hide ScanFrom, SkipString, FindTriple;
    ScanPastString(TRIPLE + text + TRIPLE + after, after, depth, t);
  }

  // The scanner ends the string at the triple quote it holds.
  lemma ScanHeldTriple(text: string, after: string, depth: nat, t: Tally)
    requires FindTriple(text).Some?
    ensures ScanFrom(TRIPLE + text + after, depth, t) ==
      ScanFrom(text[FindTriple(text).value + 3..] + after, depth, t)
  {
    var n := FindTriple(text).value;
    var front, later := text[..n], text[n + 3..];
    AroundTriple(text);
    hide FindTriple, ScanFrom;
    Regroup(TRIPLE, front, TRIPLE, later);
    assert TRIPLE + text + after == TRIPLE + front + TRIPLE + (later + after);
    ScanPastBlock(front, later + after, depth, t);
  }

  // Inside braces the closing quotes then end a string or open one.
  lemma {:induction false} ScanThrough(text: string, open: bool, after: string, depth: nat, t: Tally)
    requires OpenAfter(text, open).Some? && depth > 0
    ensures ScanFrom((if open then TRIPLE + text else text) + (TRIPLE + after), depth, t) ==
      ScanFrom(if OpenAfter(text, open) == Some(true) then after else TRIPLE + after, depth, t)
    decreases |text|
  {
    hide FindTriple, ScanFrom, Silent;
    if open && FindTriple(text + TRIPLE) == Some(|text|) {
      Assoc(TRIPLE + text, TRIPLE, after);
      ScanPastBlock(text, after, depth, t);
    } else if !open && Silent(text) {
      ScanSilent(text, TRIPLE + after, depth, t);
    } else {
      var n := FindTriple(text).value;
      var front, later := text[..n], text[n + 3..];
      if open {
        ScanHeldTriple(text, TRIPLE + after, depth, t);
      } else {
        AroundTriple(text);
        Regroup(front, TRIPLE, later, TRIPLE + after);
        ScanSilent(front, TRIPLE + later + (TRIPLE + after), depth, t);
      }
      ScanThrough(later, !open, after, depth, t);
    }
  }

  // --- The scan of a row of tokens ---

  function DepthAfter(k: Token, depth: nat): nat {
    match k
    case Lexed(_) => depth
    case Open => depth + 1
    case Close => if depth > 0 then depth - 1 else 0
  }

  // What the row has at depth zero.
  function Top(k: Token, depth: nat): seq<Item> {
    match k
    case Lexed(l) => if depth == 0 then [Lex(l)] else []
    case Open => if depth == 0 then [Braces([])] else []
    case Close => []
  }

  function DepthOf(row: seq<Token>, depth: nat): nat {
    if row == [] then depth else DepthOf(row[1..], DepthAfter(row[0], depth))
  }

  function Tops(row: seq<Token>, depth: nat): seq<Item> {
    if row == [] then [] else Top(row[0], depth) + Tops(row[1..], DepthAfter(row[0], depth))
  }

  // The scan gets to the end of the token: it reads it as it is, or it is inside braces.
  predicate TokenPasses(k: Token, rest: string, depth: nat) {
    TokenReads(k, rest) || (depth > 0 && k.Lexed? && k.lexeme.Block? && EvenlyQuoted(k.lexeme.text))
  }

  predicate Passes(row: seq<Token>, rest: string, depth: nat) {
    row == [] ||
    (TokenPasses(row[0], PrintTokens(row[1..]) + rest, depth) && Passes(row[1..], rest, DepthAfter(row[0], depth)))
  }

  lemma {:induction false} ReadsPasses(row: seq<Token>, rest: string, depth: nat)
    requires Reads(row, rest)
    ensures Passes(row, rest, depth)
    decreases |row|
  {
    if row != [] {
      ReadsPasses(row[1..], rest, DepthAfter(row[0], depth));
    }
  }

  lemma ScanToken(k: Token, rest: string, depth: nat, t: Tally)
    requires TokenPasses(k, rest, depth) && t.operations <= 1
    ensures ScanFrom(PrintToken(k) + rest, depth, t) ==
      (var u := CountItems(t, Top(k, depth)); u.operations <= 1 && ScanFrom(rest, DepthAfter(k, depth), u))
  {
    var s := PrintToken(k) + rest;
    assert Top(k, depth) != [] ==> CountItems(t, Top(k, depth)) == CountItem(t, Top(k, depth)[0]);
    match k {
      case Lexed(l) =>
        hide ScanFrom, CountItems, CountItem;
        if TokenReads(k, rest) {
          ScanLexeme(l, rest, depth, t);
        } else {
          Assoc(TRIPLE + l.text, TRIPLE, rest);
          ScanThrough(l.text, true, rest, depth, t);
        }
      case Open => assert s[0] == '{' && s[1..] == rest;
      case Close => assert s[0] == '}' && s[1..] == rest;
    }
  }

  // Any row of tokens, at any depth: only what it has at depth zero is counted.
  lemma {:induction false} ScanTokens(row: seq<Token>, rest: string, depth: nat, t: Tally)
    requires Passes(row, rest, depth) && t.operations <= 1
    ensures ScanFrom(PrintTokens(row) + rest, depth, t) ==
      (var u := CountItems(t, Tops(row, depth)); u.operations <= 1 && ScanFrom(rest, DepthOf(row, depth), u))
    decreases |row|
  {
    hide ScanFrom, TokenPasses, PrintToken, CountItem;
    if row == [] {
      assert PrintTokens(row) + rest == rest;
    } else {
      var tail := PrintTokens(row[1..]) + rest;
      assert PrintTokens(row) + rest == PrintToken(row[0]) + tail;
      ScanToken(row[0], tail, depth, t);
      var u, inner := CountItems(t, Top(row[0], depth)), DepthAfter(row[0], depth);
      CountAppend(t, Top(row[0], depth), Tops(row[1..], inner));
      if u.operations <= 1 {
        ScanTokens(row[1..], rest, inner, u);
      } else {
        CountingGrows(u, Tops(row[1..], inner));
      }
    }
  }

  // --- Printing and reading undo each other ---

  // A text that has a reading is that reading, printed; the others are all refused.
  lemma {:induction false} ReadingIsText(s: string)
    ensures match ReadingOf(s)
      case None => forall depth: nat, t: Tally | t.operations <= 1 :: !ScanFrom(s, depth, t)
      case Some(row) => Reads(row, "") && PrintTokens(row) == s
    decreases |s|
  {
    if s != "" {
      if FirstToken(s).None? {
        StringTokenReads(s);
        forall depth: nat, t: Tally | t.operations <= 1 ensures !ScanFrom(s, depth, t) {
          UnclosedStringStops(s, depth, t);
        }
      } else {
        FirstTokenReads(s);
        hide ScanFrom, FirstToken, TokenReads, PrintToken;
        var (k, rest) := FirstToken(s).value;
        ReadingIsText(rest);
        if ReadingOf(rest).Some? {
          var later := ReadingOf(rest).value;
          assert ([k] + later)[1..] == later && PrintTokens(later) + "" == rest;
        } else {
          forall depth: nat, t: Tally | t.operations <= 1 ensures !ScanFrom(s, depth, t) {
            ScanToken(k, rest, depth, t);
          }
        }
      }
    }
  }

  lemma {:induction false} QuotedCharsBack(chars: seq<StringChar>, rest: string)
    requires forall i | 0 <= i < |chars| :: ReadableChar(chars[i])
    ensures QuotedChars(PrintChars(chars) + "\"" + rest) == Some((chars, rest))
  {
    assert PrintChars([]) == "";
    hide PrintChars;
    if chars == [] {
      assert ("\"" + rest)[1..] == rest;
    } else {
      var c, later := chars[0], PrintChars(chars[1..]) + "\"" + rest;
      QuotedCharsBack(chars[1..], rest);
      CharsInFront(c, chars[1..], rest);
      assert [c] + chars[1..] == chars;
      var s := PrintChars(chars) + "\"" + rest;
      assert s == PrintChars([c]) + later;
      assert if c.Plain? then s[1..] == later else s[2..] == later;
    }
  }

  lemma BlockReadsBack(text: string, rest: string)
    requires LexemeReads(Block(text), rest)
    ensures StringToken(PrintLexeme(Block(text)) + rest) == Some((Lexed(Block(text)), rest))
  {
    hide FindTriple;
    FindTripleInFront(text + TRIPLE, rest);
    var inside := (text + TRIPLE) + rest;
    assert PrintLexeme(Block(text)) + rest == TRIPLE + inside && (TRIPLE + inside)[3..] == inside;
    assert inside[..|text|] == text && inside[|text| + 3..] == rest;
  }

  lemma QuotedReadsBack(chars: seq<StringChar>, rest: string)
    requires LexemeReads(Quoted(chars), rest)
    ensures StringToken(PrintLexeme(Quoted(chars)) + rest) == Some((Lexed(Quoted(chars)), rest))
  {
    QuotedCharsBack(chars, rest);
    QuotedIsNoBlock(chars, rest);
    hide QuotedChars, PrintChars, FindTriple;
  }

  lemma NameReadsBack(text: string, rest: string)
    requires LexemeReads(Name(text), rest)
    ensures FirstToken(text + rest) == Some((Lexed(Name(text)), rest))
  {
    var s := text + rest;
    NameEnds(text, rest);
    assert s[0] == text[0] && s[..|text|] == text && s[|text|..] == rest;
    hide NameLength;
  }

  lemma CommentReadsBack(text: string, rest: string)
    requires LexemeReads(Comment(text), rest)
    ensures FirstToken("#" + text + rest) == Some((Lexed(Comment(text)), rest))
  {
    var s := "#" + text + rest;
    SkipCommentText(text, rest);
    assert s[1..] == text + rest && s[1..|s| - |rest|] == text;
    hide SkipLineComment, LexemeReads;
  }

  lemma TokenReadsBack(k: Token, rest: string)
    requires TokenReads(k, rest)
    ensures var s := PrintToken(k) + rest;
      s != "" && FirstToken(s) == Some((k, rest)) && |rest| < |s|
  {
    hide StringToken, NameLength, SkipLineComment;
    var s := PrintToken(k) + rest;
    if k.Open? || k.Close? || k.lexeme.Punct? {
      assert s[1..] == rest;
    } else {
      var l := k.lexeme;
      assert PrintLexeme(l) != "" by {
        hide LexemeReads;
      }
      match l {
        case Quoted(chars) => QuotedReadsBack(chars, rest);
        case Block(text) => BlockReadsBack(text, rest);
        case Name(text) => NameReadsBack(text, rest);
        case Comment(text) => CommentReadsBack(text, rest);
      }
    }
  }

  // A row the scanner can read is the reading of its text.
  lemma {:induction false} RowReadsBack(row: seq<Token>)
    requires Reads(row, "")
    ensures ReadingOf(PrintTokens(row)) == Some(row)
    decreases |row|
  {
    if row != [] {
      hide FirstToken, TokenReads, PrintToken;
      var k, later := row[0], row[1..];
      var rest := PrintTokens(later);
      assert row == [k] + later && rest + "" == rest && PrintTokens(row) == PrintToken(k) + rest;
      assert TokenReads(k, rest) && Reads(later, "");
      hide Reads, PrintTokens;
      TokenReadsBack(k, rest);
      RowReadsBack(later);
    }
  }

  // --- Which part of a row opens a definition ---

  // A defining name stands after the last brace group.
  predicate AnnouncedAtEnd(items: seq<Item>) {
    exists k | 0 <= k < |items| :: Announces(items[k]) && forall j | k < j < |items| :: !items[j].Braces?
  }

  // An operation keyword opens one operation, and so does a brace group without a
  // defining name between it and the group before.
  function Openings(items: seq<Item>): nat {
    if items == [] then 0
    else
      var front, last := items[..|items| - 1], items[|items| - 1];
      Openings(front) + if Keyword(last) || (last.Braces? && !AnnouncedAtEnd(front)) then 1 else 0
  }

  lemma AnnouncedToLast(front: seq<Item>, last: Item)
    ensures AnnouncedAtEnd(front + [last]) <==> Announces(last) || (!last.Braces? && AnnouncedAtEnd(front))
  {
    var items := front + [last];
    assert items[|front|] == last;
    if AnnouncedAtEnd(items) && !Announces(last) {
      var k :| 0 <= k < |items| && Announces(items[k]) && forall j | k < j < |items| :: !items[j].Braces?;
      assert front[k] == items[k] && forall j | k < j < |front| :: front[j] == items[j];
    }
    if !last.Braces? && AnnouncedAtEnd(front) {
      var k :| 0 <= k < |front| && Announces(front[k]) && forall j | k < j < |front| :: !front[j].Braces?;
      assert items[k] == front[k] && forall j | k < j < |front| :: items[j] == front[j];
    }
  }

  lemma {:induction false} CountIsOpenings(items: seq<Item>)
    ensures CountItems(Tally(0, false), items) == Tally(Openings(items), AnnouncedAtEnd(items))
    decreases |items|
  {
    if items != [] {
      hide Announces, Keyword;
      var front, last := items[..|items| - 1], items[|items| - 1];
      assert items == front + [last];
      CountIsOpenings(front);
      CountAppend(Tally(0, false), front, [last]);
      AnnouncedToLast(front, last);
    }
  }

  // --- The answer for any text ---

  // The text has a reading, and that opens one operation outside its braces.
  predicate ReadsAsOne(s: string) {
    var row := ReadingOf(s);
    row.Some? && Openings(Tops(row.value, 0)) == 1
  }

  lemma ScanIsReading(s: string)
    ensures HasExactlyOne(s) <==> ReadsAsOne(s)
  {
    ReadingIsText(s);
    if ReadingOf(s).Some? {
      var row := ReadingOf(s).value;
      CountIsOpenings(Tops(row, 0));
      ReadsPasses(row, "", 0);
      ScanTokens(row, "", 0, Tally(0, false));
      assert PrintTokens(row) + "" == s;
    }
  }

  // A comment says nothing: the answer is that for the text from its line end on.
  lemma CommentIsPassed(text: string, rest: string)
    requires '\n' !in text && '\r' !in text
    requires rest == "" || rest[0] == '\n' || rest[0] == '\r'
    ensures HasExactlyOne("#" + text + rest) == HasExactlyOne(rest)
  {
    hide ScanFrom;
    ScanPastComment(text, rest, 0, Tally(0, false));
  }

  // --- Documents ---

  lemma {:induction false} PrintJoin(a: seq<Token>, b: seq<Token>)
    ensures PrintTokens(a + b) == PrintTokens(a) + PrintTokens(b)
    decreases |a|
  {
    hide PrintToken;
    if a == [] {
      assert a + b == b;
    } else {
      assert (a + b)[0] == a[0] && (a + b)[1..] == a[1..] + b;
      PrintJoin(a[1..], b);
    }
  }

  lemma {:induction false} FitsJoin(a: seq<Token>, b: seq<Token>, rest: string)
    ensures Fits(a + b, rest) <==> Fits(a, PrintTokens(b) + rest) && Fits(b, rest)
    decreases |a|
  {
    if a == [] {
      assert a + b == b;
    } else {
      hide LexemeFits, PrintTokens;
      assert (a + b)[0] == a[0] && (a + b)[1..] == a[1..] + b;
      FitsJoin(a[1..], b, rest);
      PrintJoin(a[1..], b);
      assert PrintTokens(a[1..] + b) + rest == PrintTokens(a[1..]) + (PrintTokens(b) + rest);
    }
  }

  // The scanner reads a row that fits as it is exactly when no triple quote is escaped.
  lemma {:induction false} FitsIsRead(row: seq<Token>, rest: string)
    requires Fits(row, rest)
    ensures Reads(row, rest) <==> PlainRow(row)
    decreases |row|
  {
    if row != [] {
      hide LexemeFits, LexemeReads, PlainLexeme, PrintTokens;
      FitsIsRead(row[1..], rest);
      assert PlainRow(row) <==> (row[0].Lexed? ==> PlainLexeme(row[0].lexeme)) && PlainRow(row[1..]) by {
        assert forall i | 0 < i < |row| :: row[i] == row[1..][i - 1];
      }
      if row[0].Lexed? {
        FitsReads(row[0].lexeme, PrintTokens(row[1..]) + rest);
      }
    }
  }

  // What the items of a row are at depth zero.
  function Shallow(items: seq<Item>): seq<Item> {
    if items == [] then []
    else [if items[0].Braces? then Braces([]) else items[0]] + Shallow(items[1..])
  }

  lemma {:induction false} ShallowCounts(t: Tally, items: seq<Item>)
    ensures CountItems(t, Shallow(items)) == CountItems(t, items)
    decreases |items|
  {
    if items != [] {
      ShallowCounts(CountItem(t, items[0]), items[1..]);
    }
  }

  lemma {:induction false} TopsJoin(a: seq<Token>, b: seq<Token>, depth: nat)
    ensures DepthOf(a + b, depth) == DepthOf(b, DepthOf(a, depth))
    ensures Tops(a + b, depth) == Tops(a, depth) + Tops(b, DepthOf(a, depth))
    decreases |a|
  {
    if a == [] {
      assert a + b == b;
    } else {
      assert (a + b)[0] == a[0] && (a + b)[1..] == a[1..] + b;
      TopsJoin(a[1..], b, DepthAfter(a[0], depth));
    }
  }

  // Items leave the depth as it was, and what is in their braces is not at depth zero.
  lemma {:induction false} ItemsAreLevel(items: seq<Item>, depth: nat)
    ensures DepthOf(TokensOf(items), depth) == depth
    ensures Tops(TokensOf(items), depth) == if depth == 0 then Shallow(items) else []
    decreases items, 0
  {
    if items != [] {
      ItemIsLevel(items[0], depth);
      TopsJoin(TokensIn(items[0]), TokensOf(items[1..]), depth);
      ItemsAreLevel(items[1..], depth);
    }
  }

  lemma {:induction false} ItemIsLevel(item: Item, depth: nat)
    ensures DepthOf(TokensIn(item), depth) == depth
    ensures Tops(TokensIn(item), depth) == if depth == 0 then Shallow([item]) else []
    decreases item, 1
  {
    if item.Braces? {
      var inner := TokensOf(item.items);
      ItemsAreLevel(item.items, depth + 1);
      TopsJoin([Open] + inner, [Close], depth);
      TopsJoin([Open], inner, depth);
    }
  }

  // Inside braces nothing is counted and the depth comes back.
  lemma ScanInside(items: seq<Item>, rest: string, depth: nat, t: Tally)
    requires Passes(TokensOf(items), rest, depth) && depth > 0 && t.operations <= 1
    ensures ScanFrom(PrintTokens(TokensOf(items)) + rest, depth, t) == ScanFrom(rest, depth, t)
  {
    hide ScanFrom;
    ScanTokens(TokensOf(items), rest, depth, t);
    ItemsAreLevel(items, depth);
  }

  // A document is read as its own tokens exactly when it has no escaped triple quotes.
  lemma PlainIsRead(doc: Document)
    requires WellFormed(doc)
    ensures PlainRow(Tokens(doc)) <==> ReadingOf(Print(doc)) == Some(Tokens(doc))
  {
    hide Fits, ReadingOf;
    FitsIsRead(Tokens(doc), "");
    ReadingIsText(Print(doc));
    if PlainRow(Tokens(doc)) {
      RowReadsBack(Tokens(doc));
    }
  }

  // Escaped triple quotes only inside braces, and only in pairs.
  predicate Tame(row: seq<Token>, depth: nat) {
    row == [] || (TokenIsTame(row[0], depth) && Tame(row[1..], DepthAfter(row[0], depth)))
  }

  predicate TokenIsTame(k: Token, depth: nat) {
    k.Lexed? ==> PlainLexeme(k.lexeme) || (depth > 0 && EvenlyQuoted(k.lexeme.text))
  }

  lemma {:induction false} PlainIsTame(row: seq<Token>, depth: nat)
    requires PlainRow(row)
    ensures Tame(row, depth)
    decreases |row|
  {
    if row != [] {
      hide PlainLexeme;
      assert forall i | 0 < i < |row| :: row[i] == row[1..][i - 1];
      PlainIsTame(row[1..], DepthAfter(row[0], depth));
    }
  }

  lemma {:induction false} TamePasses(row: seq<Token>, rest: string, depth: nat)
    requires Fits(row, rest) && Tame(row, depth)
    ensures Passes(row, rest, depth)
    decreases |row|
  {
    if row != [] {
      hide LexemeFits, LexemeReads, PlainLexeme, PrintTokens, EvenlyQuoted;
      TamePasses(row[1..], rest, DepthAfter(row[0], depth));
      if row[0].Lexed? {
        FitsReads(row[0].lexeme, PrintTokens(row[1..]) + rest);
      }
    }
  }

  // A tame document is accepted exactly when its items count one.
  lemma TameCounts(doc: Document)
    requires WellFormed(doc) && Tame(Tokens(doc), 0)
    ensures var items := AllItems(doc.definitions) + doc.tail;
      HasExactlyOne(Print(doc)) <==> CountItems(Tally(0, false), items).operations == 1
  {
    var row, items := Tokens(doc), AllItems(doc.definitions) + doc.tail;
    ScanEnds("");
    hide Fits, Tame, Passes, ScanFrom, CountItems;
    TamePasses(row, "", 0);
    ScanTokens(row, "", 0, Tally(0, false));
    assert PrintTokens(row) + "" == PrintTokens(row);
    ItemsAreLevel(items, 0);
    ShallowCounts(Tally(0, false), items);
  }
}
