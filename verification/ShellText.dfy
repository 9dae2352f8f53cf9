/** The shell quoter of the workspace command and the shell tokenizer of the ACP path check. */
module ShellText {

  datatype Scan = Scan(tokens: seq<string>, word: string, quote: char, escaped: bool)

  const NONE: char := '\0'

  const START := Scan([], "", NONE, false)

  function Flush(s: Scan): Scan {
    if s.word == "" then s else s.(tokens := s.tokens + [s.word], word := "")
  }

  predicate IsBlank(c: char) {
    c == ' ' || c == '\t' || c == '\n' || c == '\r'
  }

  predicate IsOperator(c: char) {
    c == ';' || c == '|' || c == '&' || c == '(' || c == ')' || c == '<' || c == '>'
  }

  predicate IsQuote(c: char) {
    c == '\'' || c == '"'
  }

  /** One rune of the loop in shellTokens. */
  function Feed(s: Scan, c: char): Scan {
    if s.escaped then s.(word := s.word + [c], escaped := false)
    else if s.quote != '\'' && c == '\\' then s.(escaped := true)
    else if s.quote != NONE then
      if c == s.quote then s.(quote := NONE) else s.(word := s.word + [c])
    else if IsQuote(c) then s.(quote := c)
    else if IsBlank(c) then Flush(s)
    else if IsOperator(c) then Flush(s).(tokens := Flush(s).tokens + [[c]])
    else s.(word := s.word + [c])
  }

  function FeedAll(s: Scan, text: string): Scan
    decreases text
  {
    if text == "" then s else FeedAll(Feed(s, text[0]), text[1..])
  }

  datatype Tokenized = Unbalanced | Words(tokens: seq<string>)

  function Tokens(text: string): Tokenized {
    var s := FeedAll(START, text);
    if s.escaped || s.quote != NONE then Unbalanced else Words(Flush(s).tokens)
  }

  lemma {:induction false} FeedAllJoins(s: Scan, a: string, b: string)
    ensures FeedAll(s, a + b) == FeedAll(FeedAll(s, a), b)
    decreases a
  {
    if a == "" {
      assert a + b == b;
    } else {
      assert (a + b)[1..] == a[1..] + b;
      FeedAllJoins(Feed(s, a[0]), a[1..], b);
    }
  }

  /** shellTokens: one pass over the runes with a builder, a quote and an escape flag. */
  method ShellTokens(command: string) returns (tokens: seq<string>, ok: bool)
    ensures ok == Tokens(command).Words?
    ensures tokens == if ok then Tokens(command).tokens else []
  {
    var word, quote, escaped := "", NONE, false;
    tokens := [];
    for i := 0 to |command|
      invariant Scan(tokens, word, quote, escaped) == FeedAll(START, command[..i])
    {
      assert command[..i + 1] == command[..i] + [command[i]];
      FeedAllJoins(START, command[..i], [command[i]]);
      var r := command[i];
      if escaped {
        word, escaped := word + [r], false;
      } else if quote != '\'' && r == '\\' {
        escaped := true;
      } else if quote != NONE {
        if r == quote {
          quote := NONE;
        } else {
          word := word + [r];
        }
      } else if IsQuote(r) {
        quote := r;
      } else if IsBlank(r) || IsOperator(r) {
        if word != "" {
          tokens, word := tokens + [word], "";
        }
        if IsOperator(r) {
          tokens := tokens + [[r]];
        }
      } else {
        word := word + [r];
      }
    }
    assert command[..|command|] == command;
    if escaped || quote != NONE {
      return [], false;
    }
    if word != "" {
      tokens := tokens + [word];
    }
    ok := true;
  }

  // ---- Quoting ---------------------------------------------------------------------------

  /** strings.ReplaceAll(value, "'", "'\"'\"'"). */
  function EscapeQuotes(value: string): string {
    if value == "" then ""
    else (if value[0] == '\'' then "'\"'\"'" else [value[0]]) + EscapeQuotes(value[1..])
  }

  function ShellQuote(value: string): string {
    if value == "" then "''" else "'" + EscapeQuotes(value) + "'"
  }

  /** strings.Join(parts, " "). */
  function JoinWords(parts: seq<string>): string {
    if parts == [] then "" else if |parts| == 1 then parts[0] else parts[0] + " " + JoinWords(parts[1..])
  }

  predicate Clean(s: Scan) {
    s.quote == NONE && !s.escaped
  }

  /** Outside quotes, reading `part` adds exactly `word` to the word being built. */
  ghost predicate Spells(part: string, word: string) {
    forall s | Clean(s) :: FeedAll(s, part) == s.(word := s.word + word)
  }

  /** The five characters that stand for a single quote leave the scan inside single quotes. */
  lemma QuoteInsideQuotes(s: Scan)
    requires s.quote == '\'' && !s.escaped
    ensures FeedAll(s, "'\"'\"'") == s.(word := s.word + "'")
  {
    var s1 := s.(quote := NONE);
    var s2 := s.(quote := '"');
    var s3 := s2.(word := s.word + "'");
    assert Feed(s, '\'') == s1 && Feed(s1, '"') == s2 && Feed(s2, '\'') == s3;
    assert Feed(s3, '"') == s3.(quote := NONE) && Feed(s3.(quote := NONE), '\'') == s.(word := s.word + "'");
    var q := "'\"'\"'";
    assert q[1..] == "\"'\"'" && q[1..][1..] == "'\"'" && q[1..][1..][1..] == "\"'" && q[1..][1..][1..][1..] == "'";
    assert q[1..][1..][1..][1..][1..] == "";
    calc {
      FeedAll(s, q);
      FeedAll(s1, q[1..]);
      FeedAll(s2, q[1..][1..]);
      FeedAll(s3, q[1..][1..][1..]);
      FeedAll(s3.(quote := NONE), q[1..][1..][1..][1..]);
      FeedAll(s.(word := s.word + "'"), q[1..][1..][1..][1..][1..]);
    }
  }

  lemma {:induction false} EscapedInsideQuotes(s: Scan, value: string)
    requires s.quote == '\'' && !s.escaped
    ensures FeedAll(s, EscapeQuotes(value)) == s.(word := s.word + value)
    decreases value
  {
    if value == "" {
      assert s.word + value == s.word;
    } else {
      var first := if value[0] == '\'' then "'\"'\"'" else [value[0]];
      var s' := s.(word := s.word + [value[0]]);
      FeedAllJoins(s, first, EscapeQuotes(value[1..]));
      if value[0] == '\'' {
        QuoteInsideQuotes(s);
      } else {
        assert FeedAll(s, first) == FeedAll(Feed(s, value[0]), "");
      }
      EscapedInsideQuotes(s', value[1..]);
      assert s.word + [value[0]] + value[1..] == s.word + value;
    }
  }

  lemma QuotedSpells(value: string)
    ensures Spells(ShellQuote(value), value)
  {
    forall s | Clean(s) ensures FeedAll(s, ShellQuote(value)) == s.(word := s.word + value) {
      var body := EscapeQuotes(value);
      assert ShellQuote(value) == "'" + body + "'";
      FeedAllJoins(s, "'" + body, "'");
      FeedAllJoins(s, "'", body);
      var open := s.(quote := '\'');
      assert FeedAll(s, "'") == FeedAll(Feed(s, '\''), "") == open;
      EscapedInsideQuotes(open, value);
      var filled := open.(word := s.word + value);
      assert FeedAll(filled, "'") == FeedAll(Feed(filled, '\''), "");
    }
  }

  predicate IsPlain(word: string) {
    forall c | c in word :: !IsQuote(c) && !IsBlank(c) && !IsOperator(c) && c != '\\'
  }

  lemma {:induction false} PlainFeeds(s: Scan, word: string)
    requires IsPlain(word) && Clean(s)
    ensures FeedAll(s, word) == s.(word := s.word + word)
    decreases word
  {
    if word == "" {
      assert s.word + word == s.word;
    } else {
      assert word[0] in word;
      PlainFeeds(s.(word := s.word + [word[0]]), word[1..]);
      assert s.word + [word[0]] + word[1..] == s.word + word;
    }
  }

  lemma PlainSpells(word: string)
    requires IsPlain(word)
    ensures Spells(word, word)
  {
    forall s | Clean(s) ensures FeedAll(s, word) == s.(word := s.word + word) {
      PlainFeeds(s, word);
    }
  }

  function NonEmpty(words: seq<string>): seq<string> {
    if words == [] then []
    else (if words[0] == "" then [] else [words[0]]) + NonEmpty(words[1..])
  }

  lemma SpelledPartFeeds(s: Scan, part: string, word: string)
    requires Clean(s) && s.word == "" && Spells(part, word)
    ensures FeedAll(s, part) == s.(word := word)
    ensures FeedAll(s, part + " ") == Flush(s.(word := word))
  {
    var e := s.(word := word);
    assert s.word + word == word;
    FeedAllJoins(s, part, " ");
    assert FeedAll(e, " ") == FeedAll(Feed(e, ' '), "");
  }

  lemma {:induction false} JoinedFeeds(s: Scan, parts: seq<string>, words: seq<string>)
    requires Clean(s) && s.word == "" && |parts| == |words|
    requires forall i | 0 <= i < |parts| :: Spells(parts[i], words[i])
    ensures var e := FeedAll(s, JoinWords(parts));
            Clean(e) && Flush(e).tokens == s.tokens + NonEmpty(words)
    decreases parts
  {
    hide Spells, Feed;
    if parts != [] {
      SpelledPartFeeds(s, parts[0], words[0]);
      if |parts| == 1 {
        assert NonEmpty(words[1..]) == [];
      } else {
        FeedAllJoins(s, parts[0] + " ", JoinWords(parts[1..]));
        JoinedFeeds(Flush(s.(word := words[0])), parts[1..], words[1..]);
      }
    }
  }

  /** Tokenizing any spelling of a list of words gives back its non-empty words. */
  lemma SpelledTokenize(parts: seq<string>, words: seq<string>)
    requires |parts| == |words| && forall i | 0 <= i < |parts| :: Spells(parts[i], words[i])
    ensures Tokens(JoinWords(parts)) == Words(NonEmpty(words))
  {
    JoinedFeeds(START, parts, words);
  }

  function QuoteAll(words: seq<string>): seq<string> {
    seq(|words|, i requires 0 <= i < |words| => ShellQuote(words[i]))
  }

  lemma {:induction false} NonEmptyIsAll(words: seq<string>)
    ensures NonEmpty(words) == words <==> "" !in words
    ensures |NonEmpty(words)| <= |words|
  {
    if words != [] {
      NonEmptyIsAll(words[1..]);
      assert words == [words[0]] + words[1..];
    }
  }

  /** shellTokens after shellQuote, for every list of words: nothing but empty words is lost,
      so the list comes back unchanged exactly when it has no empty word. */
  lemma QuoteThenTokenize(words: seq<string>)
    ensures Tokens(JoinWords(QuoteAll(words))) == Words(NonEmpty(words))
    ensures Tokens(JoinWords(QuoteAll(words))) == Words(words) <==> "" !in words
  {
    forall i | 0 <= i < |words| ensures Spells(QuoteAll(words)[i], words[i]) {
      QuotedSpells(words[i]);
    }
    SpelledTokenize(QuoteAll(words), words);
    NonEmptyIsAll(words);
  }

  function TuiArgs(exe: string, home: string, mode: string): seq<string> {
    [exe] + (if home != "" then ["--home", home] else []) + ["tui", mode]
  }

  lemma FixedWords()
    ensures Spells("--home", "--home") && Spells("tui", "tui")
  {
    hide Spells;
    PlainSpells("--home");
    PlainSpells("tui");
  }

  /** tuiCommand: the command line tokenizes back to its arguments. */
  method TuiCommand(exe: string, home: string, mode: string) returns (command: string)
    requires IsPlain(mode)
    ensures Tokens(command) == Words(NonEmpty(TuiArgs(exe, home, mode)))
    ensures exe != "" && mode != "" ==> Tokens(command) == Words(TuiArgs(exe, home, mode))
  {
    hide Spells, ShellQuote, Tokens, NonEmpty, JoinWords;
    FixedWords();
    QuotedSpells(exe);
    QuotedSpells(home);
    PlainSpells(mode);
    var parts := [ShellQuote(exe)];
    if home != "" {
      parts := parts + ["--home", ShellQuote(home)];
    }
    parts := parts + ["tui", mode];
    ghost var words := TuiArgs(exe, home, mode);
    SpelledTokenize(parts, words);
    NonEmptyIsAll(words);
    command := JoinWords(parts);
  }

  // ---- The words a command line spells ---------------------------------------------------------

  /** A character between double quotes: itself, or any character after a backslash. */
  datatype Inner = Literal(c: char) | Backslashed(c: char)

  /** The smallest pieces of a command line. */
  datatype Piece =
    | Bare(c: char)
    | Escaped(c: char)
    | Single(text: string)
    | Double(inner: seq<Inner>)
    | Gap(c: char)
    | Operator(c: char)

  const BLANKS := {' ', '\t', '\n', '\r'}

  const OPERATORS := {';', '|', '&', '(', ')', '<', '>'}

  predicate InnerOk(i: Inner) {
    i.Literal? ==> i.c != '"' && i.c != '\\'
  }

  predicate InnersOk(inner: seq<Inner>) {
    forall k | 0 <= k < |inner| :: InnerOk(inner[k])
  }

  predicate PieceOk(p: Piece) {
    match p
    case Bare(c) => c !in BLANKS + OPERATORS + {'\'', '"', '\\'}
    case Escaped(_) => true
    case Single(text) => '\'' !in text
    case Double(inner) => InnersOk(inner)
    case Gap(c) => c in BLANKS
    case Operator(c) => c in OPERATORS
  }

  function Written(i: Inner): string {
    if i.Literal? then [i.c] else ['\\', i.c]
  }

  function InnerText(inner: seq<Inner>): string {
    if inner == [] then "" else Written(inner[0]) + InnerText(inner[1..])
  }

  function InnerValue(inner: seq<Inner>): string {
    if inner == [] then "" else [inner[0].c] + InnerValue(inner[1..])
  }

  /** How a piece is written. */
  function PieceText(p: Piece): string {
    match p
    case Bare(c) => [c]
    case Escaped(c) => ['\\', c]
    case Single(text) => "'" + text + "'"
    case Double(inner) => "\"" + InnerText(inner) + "\""
    case Gap(c) => [c]
    case Operator(c) => [c]
  }

  predicate IsWordPiece(p: Piece) {
    !p.Gap? && !p.Operator?
  }

  /** What a piece adds to the word it stands in. */
  function PieceValue(p: Piece): string
    requires IsWordPiece(p)
  {
    match p
    case Bare(c) => [c]
    case Escaped(c) => [c]
    case Single(text) => text
    case Double(inner) => InnerValue(inner)
  }

  function Text(pieces: seq<Piece>): string {
    if pieces == [] then "" else PieceText(pieces[0]) + Text(pieces[1..])
  }

  function AsToken(word: string): seq<string> {
    if word == "" then [] else [word]
  }

  /** The tokens of a command line whose first word has begun with `word`: adjacent word pieces
      make one word, blanks and operators end it, and an operator is a token of its own. */
  function Meaning(word: string, pieces: seq<Piece>): seq<string>
    decreases pieces
  {
    if pieces == [] then AsToken(word)
    else if pieces[0].Gap? then AsToken(word) + Meaning("", pieces[1..])
    else if pieces[0].Operator? then AsToken(word) + [[pieces[0].c]] + Meaning("", pieces[1..])
    else Meaning(word + PieceValue(pieces[0]), pieces[1..])
  }

  predicate PiecesOk(pieces: seq<Piece>) {
    forall p | p in pieces :: PieceOk(p)
  }

  lemma FeedOne(s: Scan, c: char)
    ensures FeedAll(s, [c]) == Feed(s, c)
  {
    assert [c][1..] == "";
  }

  lemma FeedTwo(s: Scan, c: char, d: char)
    ensures FeedAll(s, [c, d]) == Feed(Feed(s, c), d)
  {
    assert [c, d][1..] == [d];
    FeedOne(Feed(s, c), d);
  }

  lemma InnerFeedsOne(s: Scan, i: Inner)
    requires s.quote == '"' && !s.escaped && InnerOk(i)
    ensures FeedAll(s, Written(i)) == s.(word := s.word + [i.c])
  {
    FeedOne(s, i.c);
    FeedTwo(s, '\\', i.c);
  }

  lemma {:induction false} InnerFeeds(s: Scan, inner: seq<Inner>)
    requires s.quote == '"' && !s.escaped && InnersOk(inner)
    ensures FeedAll(s, InnerText(inner)) == s.(word := s.word + InnerValue(inner))
    decreases inner
  {
    hide InnerOk, Written, Feed;
    if inner == [] {
      assert s.word + "" == s.word;
    } else {
      hide FeedAll;
      var s1 := s.(word := s.word + [inner[0].c]);
      FeedAllJoins(s, Written(inner[0]), InnerText(inner[1..]));
      InnerFeedsOne(s, inner[0]);
      InnerFeeds(s1, inner[1..]);
      assert s1.word + InnerValue(inner[1..]) == s.word + InnerValue(inner);
    }
  }

  lemma {:induction false} SingleFeeds(s: Scan, text: string)
    requires s.quote == '\'' && !s.escaped && '\'' !in text
    ensures FeedAll(s, text) == s.(word := s.word + text)
    decreases text
  {
    if text == "" {
      assert s.word + "" == s.word;
    } else {
      SingleFeeds(s.(word := s.word + [text[0]]), text[1..]);
      assert s.word + [text[0]] + text[1..] == s.word + text;
    }
  }

  lemma QuotedFeeds(s: Scan, quote: char, body: string, value: string)
    requires Clean(s) && IsQuote(quote)
    requires FeedAll(s.(quote := quote), body) == s.(quote := quote, word := s.word + value)
    ensures FeedAll(s, [quote] + body + [quote]) == s.(word := s.word + value)
  {
    FeedAllJoins(s, [quote] + body, [quote]);
    FeedAllJoins(s, [quote], body);
    FeedOne(s, quote);
    FeedOne(s.(quote := quote, word := s.word + value), quote);
  }

  /** A word piece adds its value to the word. */
  lemma WordPieceFeeds(s: Scan, p: Piece)
    requires Clean(s) && PieceOk(p) && IsWordPiece(p)
    ensures FeedAll(s, PieceText(p)) == s.(word := s.word + PieceValue(p))
  {
    match p
    case Bare(c) => PlainFeeds(s, [c]);
    case Escaped(c) => FeedTwo(s, '\\', c);
    case Single(text) =>
      SingleFeeds(s.(quote := '\''), text);
      QuotedFeeds(s, '\'', text, text);
    case Double(inner) =>
      InnerFeeds(s.(quote := '"'), inner);
      QuotedFeeds(s, '"', InnerText(inner), InnerValue(inner));
  }

  lemma {:induction false} PiecesFeed(s: Scan, pieces: seq<Piece>)
    requires Clean(s) && PiecesOk(pieces)
    ensures var e := FeedAll(s, Text(pieces)); Clean(e) && Flush(e).tokens == s.tokens + Meaning(s.word, pieces)
    decreases pieces
  {
    hide PieceOk, PieceText, PieceValue, Feed;
    if pieces == [] {
      assert s.tokens + [] == s.tokens;
    } else {
      hide FeedAll;
      var p, rest := pieces[0], Text(pieces[1..]);
      assert PieceOk(p);
      FeedAllJoins(s, PieceText(p), rest);
      if IsWordPiece(p) {
        WordPieceFeeds(s, p);
        PiecesFeed(s.(word := s.word + PieceValue(p)), pieces[1..]);
      } else {
        SeparatorFeeds(s, p);
        var after, mine := FeedAll(s, PieceText(p)), AsToken(s.word) + (if p.Operator? then [[p.c]] else []);
        PiecesFeed(after, pieces[1..]);
        assert Meaning(s.word, pieces) == mine + Meaning("", pieces[1..]);
        assert s.tokens + mine + Meaning("", pieces[1..]) == s.tokens + (mine + Meaning("", pieces[1..]));
      }
    }
  }

  lemma SeparatorFeeds(s: Scan, p: Piece)
    requires Clean(s) && PieceOk(p) && !IsWordPiece(p)
    ensures var e := FeedAll(s, PieceText(p));
            Clean(e) && e.word == "" && e.tokens == s.tokens + AsToken(s.word) + (if p.Operator? then [[p.c]] else [])
  {
    FeedOne(s, p.c);
  }

  /** Every spelling of a command line has its meaning as tokens: bare, escaped, single-quoted and
      double-quoted pieces in any mixture, operators with or without blanks around them. */
  lemma SpelledMeans(pieces: seq<Piece>)
    requires PiecesOk(pieces)
    ensures Tokens(Text(pieces)) == Words(Meaning("", pieces))
  {
    PiecesFeed(START, pieces);
  }

  // ---- And nothing else is balanced ------------------------------------------------------------

  /** What is left when the last piece is not finished: a backslash, or a quote not closed. */
  predicate Dangling(tail: string) {
    || tail == "\\"
    || (tail != "" && tail[0] == '\'' && '\'' !in tail[1..])
    || (tail != "" && tail[0] == '"' && OpenInside(tail[1..]))
  }

  /** Text after an opening double quote that does not close it. */
  predicate OpenInside(text: string)
    decreases text
  {
    if text == "" || text == "\\" then true
    else if text[0] == '\\' then OpenInside(text[2..])
    else text[0] != '"' && OpenInside(text[1..])
  }

  lemma {:induction false} OpenFeeds(s: Scan, text: string)
    requires s.quote == '"' && !s.escaped && OpenInside(text)
    ensures FeedAll(s, text).quote == '"'
    decreases text
  {
    if text == "\\" {
      FeedOne(s, '\\');
    } else if text != "" && text[0] == '\\' {
      assert text == ['\\', text[1]] + text[2..];
      FeedAllJoins(s, ['\\', text[1]], text[2..]);
      FeedTwo(s, '\\', text[1]);
      OpenFeeds(s.(word := s.word + [text[1]]), text[2..]);
    } else if text != "" {
      OpenFeeds(s.(word := s.word + [text[0]]), text[1..]);
    }
  }

  lemma DanglingFeeds(s: Scan, tail: string)
    requires Clean(s) && Dangling(tail)
    ensures !Clean(FeedAll(s, tail))
  {
    if tail == "\\" {
      FeedOne(s, '\\');
    } else if tail[0] == '\'' {
      SingleFeeds(s.(quote := '\''), tail[1..]);
    } else {
      OpenFeeds(s.(quote := '"'), tail[1..]);
    }
  }

  /** The text up to the closing quote, or none. */
  lemma {:induction false} SplitSingle(text: string) returns (n: nat)
    ensures n <= |text| && '\'' !in text[..n] && (n == |text| || text[n] == '\'')
    decreases text
  {
    if text == "" || text[0] == '\'' {
      n := 0;
    } else {
      var m := SplitSingle(text[1..]);
      n := m + 1;
      assert text[..n] == [text[0]] + text[1..][..m];
    }
  }

  lemma {:induction false} SplitDouble(text: string) returns (inner: seq<Inner>, n: nat)
    ensures OpenInside(text) || (n < |text| && text[n] == '"' && text[..n] == InnerText(inner) && InnersOk(inner))
    decreases text
  {
    if text == "" || text == "\\" {
      inner, n := [], 0;
    } else if text[0] == '"' {
      inner, n := [], 0;
    } else {
      var head := if text[0] == '\\' then Backslashed(text[1]) else Literal(text[0]);
      var k := if text[0] == '\\' then 2 else 1;
      var rest, m := SplitDouble(text[k..]);
      inner, n := [head] + rest, k + m;
      if !OpenInside(text[k..]) {
        assert text[..n] == text[..k] + text[k..][..m];
        assert inner[1..] == rest;
      }
    }
  }

  /** Any text is a spelling, followed by something dangling unless it ends there. */
  lemma {:induction false} EveryTextIsRead(text: string) returns (pieces: seq<Piece>, tail: string)
    ensures PiecesOk(pieces) && text == Text(pieces) + tail && (tail == "" || Dangling(tail))
    decreases |text|
  {
    hide Dangling, PieceOk, PieceText;
    if text == "" || Dangling(text) {
      pieces, tail := [], text;
    } else {
      var p := FirstPiece(text);
      var head := PieceText(p);
      assert text == head + text[|head|..];
      var rest;
      rest, tail := EveryTextIsRead(text[|head|..]);
      pieces := [p] + rest;
      assert pieces[1..] == rest;
      assert head + Text(rest) + tail == head + (Text(rest) + tail);
    }
  }

  lemma FirstPiece(text: string) returns (p: Piece)
    requires text != "" && !Dangling(text)
    ensures PieceOk(p) && PieceText(p) <= text && |PieceText(p)| > 0
  {
    var c := text[0];
    if c == '\\' {
      p := Escaped(text[1]);
    } else if c == '\'' {
      var n := SplitSingle(text[1..]);
      p := Single(text[1..][..n]);
      assert text[..n + 2] == "'" + text[1..][..n] + "'";
    } else if c == '"' {
      var inner, n := SplitDouble(text[1..]);
      p := Double(inner);
      assert text[..n + 2] == "\"" + text[1..][..n] + "\"";
    } else {
      p := if IsBlank(c) then Gap(c) else if IsOperator(c) then Operator(c) else Bare(c);
    }
  }

  /** A text is unbalanced iff after complete pieces it ends in a lone backslash or a quote that
      is not closed; every other text is a spelling, and its tokens are what it means. */
  lemma UnbalancedExactly(text: string)
    ensures Tokens(text) == Unbalanced <==> exists pieces, tail :: PiecesOk(pieces) && Dangling(tail) && text == Text(pieces) + tail
    ensures forall words :: Tokens(text) == Words(words) <==>
              exists pieces :: PiecesOk(pieces) && text == Text(pieces) && words == Meaning("", pieces)
  {
    hide PiecesOk, Dangling, Text, Meaning, Tokens;
    var pieces, tail := EveryTextIsRead(text);
    if tail == "" {
      assert text == Text(pieces);
    }
    forall ps, end | PiecesOk(ps) && Dangling(end) && text == Text(ps) + end ensures Tokens(text) == Unbalanced {
      DanglingIsUnbalanced(ps, end);
    }
    forall ps | PiecesOk(ps) && text == Text(ps) ensures Tokens(text) == Words(Meaning("", ps)) {
      SpelledMeans(ps);
    }
  }

  lemma DanglingIsUnbalanced(pieces: seq<Piece>, tail: string)
    requires PiecesOk(pieces) && Dangling(tail)
    ensures Tokens(Text(pieces) + tail) == Unbalanced
  {
    hide PiecesOk, Dangling, Text, Meaning;
    PiecesFeed(START, pieces);
    FeedAllJoins(START, Text(pieces), tail);
    DanglingFeeds(FeedAll(START, Text(pieces)), tail);
  }
}
