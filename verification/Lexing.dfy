/** What the tokenizer computes (src/praxis_sdk/dsl/tokenizer.py:26-201), a printer for token lists,
    and the round trip between them. */
module Lexing {
  import opened DslTypes
  import Sequences

  // ---- One line --------------------------------------------------------------------------------

  /** The loop state of parse_quoted_fields. quoteChar matters inside quotes only. */
  datatype Lexer = Lexer(fields: seq<string>, current: string, inQuotes: bool, escaped: bool, quoteChar: char)

  const START := Lexer([], "", false, false, '"')

  /** if current: fields.append(current); current = [] */
  function Flush(s: Lexer): Lexer {
    if s.current == "" then s else s.(fields := s.fields + [s.current], current := "")
  }

  predicate IsQuote(c: char) {
    c == '"' || c == '\''
  }

  /** One character. The source also tries to skip spaces by moving the loop variable, which the loop
      overwrites; spaces outside quotes flush nothing the second time. */
  function Feed(s: Lexer, c: char): Lexer {
    if s.escaped then s.(current := s.current + [c], escaped := false)
    else if c == '\\' then s.(escaped := true)
    else if IsQuote(c) then
      if s.inQuotes then
        if c == s.quoteChar then Flush(s).(inQuotes := false) else s.(current := s.current + [c])
      else Flush(s).(inQuotes := true, quoteChar := c)
    else if c == ' ' && !s.inQuotes then Flush(s)
    else s.(current := s.current + [c])
  }

  function FeedAll(s: Lexer, line: string): Lexer
    decreases |line|
  {
    if line == "" then s else FeedAll(Feed(s, line[0]), line[1..])
  }

  datatype LexError = EndsWithEscape | UnclosedQuote(quote: char)

  datatype Result<T> = Success(value: T) | Failure(error: LexError, at: int)

  /** parse_quoted_fields */
  function ParseFields(line: string): Result<seq<string>> {
    var s := FeedAll(START, line);
    if s.escaped then Failure(EndsWithEscape, |line| - 1)
    else if s.inQuotes then Failure(UnclosedQuote(s.quoteChar), |line| - 1)
    else Success(Flush(s).fields)
  }

  // ---- A program ---------------------------------------------------------------------------------

  /** content.split("\n") */
  function SplitLines(s: string): (lines: seq<string>)
    ensures lines != []
    ensures forall l :: l in lines ==> '\n' !in l
    decreases |s|
  {
    if s == "" then [""]
    else
      var rest := SplitLines(s[1..]);
      if s[0] == '\n' then [""] + rest else [[s[0]] + rest[0]] + rest[1..]
  }

  function KindOf(command: string): TokenType {
    if command == "|" || command == "&&" || command == "||" || command == ";" then OPERATOR else COMMAND
  }

  /** _create_token_from_fields */
  function TokenOf(fields: seq<string>): Token
    requires fields != []
  {
    Token(KindOf(UpperCase(fields[0])), UpperCase(fields[0]), fields[1..])
  }

  /** A line that holds no command. */
  predicate Skipped(line: string) {
    line == "" || line[0] == '#'
  }

  /** The token of one stripped line, if it has any. */
  function LineToken(line: string): Result<seq<Token>> {
    if Skipped(line) then Success([])
    else
      match ParseFields(line)
      case Failure(e, at) => Failure(e, at)
      case Success(fields) => Success(if fields == [] then [] else [TokenOf(fields)])
  }

  /** A failure carries the number of its line. */
  datatype Tokenized = Tokens(tokens: seq<Token>) | SyntaxErrorAt(error: LexError, line: nat, at: int)

  function TokenizeLines(lines: seq<string>, number: nat): Tokenized
    decreases |lines|
  {
    if lines == [] then Tokens([])
    else
      match LineToken(Strip(lines[0]))
      case Failure(e, at) => SyntaxErrorAt(e, number, at)
      case Success(ts) => PrependTokens(ts, TokenizeLines(lines[1..], number + 1))
  }

  function PrependTokens(ts: seq<Token>, r: Tokenized): Tokenized {
    match r
    case Tokens(rest) => Tokens(ts + rest)
    case SyntaxErrorAt(_, _, _) => r
  }

  /** tokenize */
  function Tokenize(content: string): Tokenized {
    TokenizeLines(SplitLines(content), 1)
  }

  // ---- Printing ----------------------------------------------------------------------------------

  function Escape(field: string): string {
    if field == "" then ""
    else (if field[0] == '"' || field[0] == '\\' then ['\\', field[0]] else [field[0]]) + Escape(field[1..])
  }

  function Quote(field: string): string {
    "\"" + Escape(field) + "\""
  }

  function PrintFields(fields: seq<string>): string {
    if fields == [] then ""
    else if |fields| == 1 then Quote(fields[0])
    else Quote(fields[0]) + " " + PrintFields(fields[1..])
  }

  function PrintToken(t: Token): string {
    PrintFields([t.value] + t.args)
  }

  function PrintLines(ts: seq<Token>): seq<string> {
    if ts == [] then [] else [PrintToken(ts[0])] + PrintLines(ts[1..])
  }

  function PrintProgram(ts: seq<Token>): string {
    Join("\n", PrintLines(ts))
  }

  // ---- Lines round-trip --------------------------------------------------------------------------

  lemma {:induction false} FeedConcat(s: Lexer, a: string, b: string)
    ensures FeedAll(s, a + b) == FeedAll(FeedAll(s, a), b)
    decreases |a|
  {
    if a == "" {
      assert a + b == b;
    } else {
      assert (a + b)[0] == a[0] && (a + b)[1..] == a[1..] + b;
      FeedConcat(Feed(s, a[0]), a[1..], b);
    }
  }

  /** Inside double quotes, feeding an escaped field collects the field. */
  lemma {:induction false} FeedEscaped(s: Lexer, field: string)
    requires s.inQuotes && !s.escaped && s.quoteChar == '"'
    ensures FeedAll(s, Escape(field)) == s.(current := s.current + field)
    decreases |field|
  {
    if field == "" {
      assert s.current + "" == s.current;
    } else {
      var c := field[0];
      var s' := s.(current := s.current + [c]);
      var head := if c == '"' || c == '\\' then ['\\', c] else [c];
      FeedConcat(s, head, Escape(field[1..]));
      FeedHead(s, c);
      FeedEscaped(s', field[1..]);
      assert s.current + [c] + field[1..] == s.current + field;
    }
  }

  lemma FeedHead(s: Lexer, c: char)
    requires s.inQuotes && !s.escaped && s.quoteChar == '"'
    ensures FeedAll(s, if c == '"' || c == '\\' then ['\\', c] else [c]) == s.(current := s.current + [c])
  {
    if c == '"' || c == '\\' {
      var head := ['\\', c];
      assert head[1..] == [c] && [c][1..] == "";
      var s1 := Feed(s, '\\');
      assert FeedAll(s1, [c]) == FeedAll(Feed(s1, c), "");
    } else {
      assert [c][1..] == "";
    }
  }

  /** Between fields, a quoted non-empty field is one more field. */
  lemma FeedQuoted(s: Lexer, field: string)
    requires !s.inQuotes && !s.escaped && s.current == "" && field != ""
    ensures FeedAll(s, Quote(field)) == s.(fields := s.fields + [field], quoteChar := '"')
  {
    var open := s.(inQuotes := true, quoteChar := '"');
    var body := Escape(field);
    assert Quote(field)[0] == '"' && Quote(field)[1..] == body + "\"";
    assert Feed(s, '"') == open;
    FeedConcat(open, body, "\"");
    FeedEscaped(open, field);
    var full := open.(current := field);
    assert open.current + field == field;
    assert FeedAll(full, "\"") == FeedAll(Feed(full, '"'), "");
  }

  ghost predicate NoEmpty(fields: seq<string>) {
    forall f :: f in fields ==> f != ""
  }

  /** Ready for the next field. */
  predicate Between(s: Lexer) {
    !s.inQuotes && !s.escaped && s.current == ""
  }

  lemma FeedSpace(s: Lexer, rest: string)
    requires Between(s)
    ensures FeedAll(s, " " + rest) == FeedAll(s, rest)
  {
    assert (" " + rest)[0] == ' ' && (" " + rest)[1..] == rest;
    assert Feed(s, ' ') == s;
  }

  lemma {:induction false} FeedPrinted(s: Lexer, fields: seq<string>)
    requires Between(s) && NoEmpty(fields)
    ensures var r := FeedAll(s, PrintFields(fields));
            Between(r) && r.fields == s.fields + fields
    decreases |fields|
  {
    if fields != [] {
      assert fields[0] in fields;
      FeedQuoted(s, fields[0]);
      if |fields| > 1 {
        var s1 := s.(fields := s.fields + [fields[0]], quoteChar := '"');
        var rest := PrintFields(fields[1..]);
        Sequences.Assoc(Quote(fields[0]), " ", rest);
        FeedConcat(s, Quote(fields[0]), " " + rest);
        FeedSpace(s1, rest);
        assert forall f :: f in fields[1..] ==> f in fields;
        FeedPrinted(s1, fields[1..]);
        Sequences.Assoc(s.fields, [fields[0]], fields[1..]);
      }
      assert fields == [fields[0]] + fields[1..];
    } else {
      assert s.fields + [] == s.fields;
    }
  }


  lemma {:induction false} FeedFills(s: Lexer, line: string)
    requires NoEmpty(s.fields)
    ensures NoEmpty(FeedAll(s, line).fields)
    decreases |line|
  {
    if line != "" {
      FeedFills(Feed(s, line[0]), line[1..]);
    }
  }

  /** Lexer round trip: a printed list of fields parses to exactly those fields if and only if none is
      empty. */
  lemma FieldsRoundTrip(fields: seq<string>)
    ensures ParseFields(PrintFields(fields)) == Success(fields) <==> NoEmpty(fields)
  {
    FeedFills(START, PrintFields(fields));
    if NoEmpty(fields) {
      FeedPrinted(START, fields);
      assert [] + fields == fields;
    }
  }

  /** Every successful parse yields only non-empty fields, so printing them and parsing again changes
      nothing. */
  lemma ParsedFieldsRoundTrip(line: string)
    ensures ParseFields(line).Success? ==>
      var fields := ParseFields(line).value;
      NoEmpty(fields) && ParseFields(PrintFields(fields)) == Success(fields)
  {
    FeedFills(START, line);
    if ParseFields(line).Success? {
      FieldsRoundTrip(ParseFields(line).value);
    }
  }

  /** A character that stands for itself outside quotes. */
  predicate IsPlain(c: char) {
    c != '\\' && c != '"' && c != '\'' && c != ' '
  }

  ghost predicate PlainWord(w: string) {
    w != "" && forall c :: c in w ==> IsPlain(c)
  }

  lemma {:induction false} FeedPlain(s: Lexer, w: string)
    requires !s.inQuotes && !s.escaped && forall c :: c in w ==> IsPlain(c)
    ensures FeedAll(s, w) == s.(current := s.current + w)
    decreases |w|
  {
    if w == "" {
      assert s.current + "" == s.current;
    } else {
      assert w[0] in w && forall c :: c in w[1..] ==> c in w;
      FeedPlain(s.(current := s.current + [w[0]]), w[1..]);
      assert s.current + [w[0]] + w[1..] == s.current + w;
    }
  }

  lemma {:induction false} FeedWords(s: Lexer, words: seq<string>)
    requires Between(s) && words != [] && forall w :: w in words ==> PlainWord(w)
    ensures var r := FeedAll(s, Join(" ", words));
            !r.inQuotes && !r.escaped && Flush(r).fields == s.fields + words
    decreases |words|
  {
    var w := words[0];
    assert w in words && words == [w] + words[1..];
    FeedPlain(s, w);
    assert "" + w == w;
    if |words| > 1 {
      assert forall v :: v in words[1..] ==> v in words;
      var rest := Join(" ", words[1..]);
      Sequences.Assoc(w, " ", rest);
      FeedConcat(s, w, " " + rest);
      var mid := s.(current := w);
      assert (" " + rest)[0] == ' ' && (" " + rest)[1..] == rest;
      assert FeedAll(mid, " " + rest) == FeedAll(Flush(mid), rest);
      FeedWords(Flush(mid), words[1..]);
      Sequences.Assoc(s.fields, [w], words[1..]);
    }
  }

  /** Words without quotes, backslashes and spaces need no quoting: joined by spaces they come back. */
  lemma PlainWordsParse(words: seq<string>)
    requires words != [] && forall w :: w in words ==> PlainWord(w)
    ensures ParseFields(Join(" ", words)) == Success(words)
  {
    FeedWords(START, words);
    assert [] + words == words;
  }

  /** Two quotes around nothing make no field, and a quote ends the field before it. */
  lemma QuotesSeparate(word: string, field: string)
    requires PlainWord(word) && field != ""
    ensures ParseFields("\"\"") == Success([])
    ensures ParseFields(word + Quote(field)) == Success([word, field])
  {
    assert "\"\""[1..] == "\"" && "\""[1..] == "";
    FeedPlain(START, word);
    assert "" + word == word;
    FeedConcat(START, word, Quote(field));
    var mid := START.(current := word);
    assert Quote(field)[0] == '"';
    assert Feed(mid, '"') == Feed(Flush(mid), '"');
    assert FeedAll(mid, Quote(field)) == FeedAll(Flush(mid), Quote(field));
    FeedQuoted(Flush(mid), field);
    assert [] + [word] + [field] == [word, field];
  }

  // ---- Programs round-trip -----------------------------------------------------------------------

  ghost predicate OnOneLine(fields: seq<string>) {
    forall f :: f in fields ==> '\n' !in f
  }

  /** Tokens a printer can write one to a line: upper-case commands, no empty fields, no line breaks. */
  ghost predicate Printable(t: Token) {
    && UpperCase(t.value) == t.value && t.kind == KindOf(t.value)
    && NoEmpty([t.value] + t.args) && OnOneLine([t.value] + t.args)
  }

  lemma {:induction false} EscapeOnOneLine(field: string)
    requires '\n' !in field
    ensures '\n' !in Escape(field)
  {
    if field != "" {
      assert field == [field[0]] + field[1..];
      EscapeOnOneLine(field[1..]);
    }
  }

  lemma {:induction false} PrintedShape(fields: seq<string>)
    requires fields != [] && OnOneLine(fields)
    ensures var line := PrintFields(fields);
            '\n' !in line && |line| >= 2 && line[0] == '"' && line[|line| - 1] == '"'
    decreases |fields|
  {
    EscapeOnOneLine(fields[0]);
    assert fields[0] in fields;
    if |fields| > 1 {
      assert forall f :: f in fields[1..] ==> f in fields;
      PrintedShape(fields[1..]);
    }
  }

  lemma NothingToStrip(line: string)
    requires line != "" && !IsSpace(line[0]) && !IsSpace(line[|line| - 1])
    ensures Strip(line) == line
  {
  }

  lemma PrintedTokenParses(t: Token)
    requires Printable(t)
    ensures LineToken(Strip(PrintToken(t))) == Success([t])
  {
    var fields := [t.value] + t.args;
    PrintedShape(fields);
    NothingToStrip(PrintToken(t));
    FieldsRoundTrip(fields);
    assert fields[1..] == t.args;
  }

  lemma {:induction false} SplitFirst(line: string, rest: string)
    requires '\n' !in line
    ensures SplitLines(line + "\n" + rest) == [line] + SplitLines(rest)
    ensures SplitLines(line) == [line]
    decreases |line|
  {
    var s := line + "\n" + rest;
    if line == "" {
      assert s[0] == '\n' && s[1..] == rest;
    } else {
      SplitFirst(line[1..], rest);
      assert s[0] == line[0] && s[1..] == line[1..] + "\n" + rest;
      assert [line[0]] + line[1..] == line;
    }
  }

  /** Joining lines and splitting the text gives the lines back. */
  lemma {:induction false} SplitJoin(lines: seq<string>)
    requires lines != [] && forall l :: l in lines ==> '\n' !in l
    ensures SplitLines(Join("\n", lines)) == lines
    decreases |lines|
  {
    assert lines[0] in lines;
    assert lines == [lines[0]] + lines[1..];
    if |lines| == 1 {
      SplitFirst(lines[0], "");
    } else {
      assert forall l :: l in lines[1..] ==> l in lines;
      SplitFirst(lines[0], Join("\n", lines[1..]));
      SplitJoin(lines[1..]);
    }
  }

  lemma {:induction false} PrintedLinesAreLines(ts: seq<Token>)
    requires forall t :: t in ts ==> Printable(t)
    ensures |PrintLines(ts)| == |ts| && forall l :: l in PrintLines(ts) ==> '\n' !in l
    decreases |ts|
  {
    if ts != [] {
      assert ts[0] in ts && forall t :: t in ts[1..] ==> t in ts;
      PrintedShape([ts[0].value] + ts[0].args);
      PrintedLinesAreLines(ts[1..]);
    }
  }

  lemma {:induction false} PrintedLinesParse(ts: seq<Token>, number: nat)
    requires forall t :: t in ts ==> Printable(t)
    ensures TokenizeLines(PrintLines(ts), number) == Tokens(ts)
    decreases |ts|
  {
    if ts != [] {
      assert ts[0] in ts && forall t :: t in ts[1..] ==> t in ts;
      PrintedTokenParses(ts[0]);
      PrintedLinesParse(ts[1..], number + 1);
      FirstLineToken(PrintToken(ts[0]), PrintLines(ts[1..]), ts, number);
    }
  }

  lemma FirstLineToken(line: string, others: seq<string>, ts: seq<Token>, number: nat)
    requires ts != [] && LineToken(Strip(line)) == Success([ts[0]])
    requires TokenizeLines(others, number + 1) == Tokens(ts[1..])
    ensures TokenizeLines([line] + others, number) == Tokens(ts)
  {
    assert ([line] + others)[1..] == others;
    assert ts == [ts[0]] + ts[1..];
  }

  /** Printing a program of printable tokens and tokenizing it gives the tokens back. */
  lemma ProgramRoundTrip(ts: seq<Token>)
    requires forall t :: t in ts ==> Printable(t)
    ensures Tokenize(PrintProgram(ts)) == Tokens(ts)
  {
    if ts == [] {
      assert SplitLines("") == [""] && Strip("") == "" && [""][1..] == [];
    } else {
      PrintedLinesAreLines(ts);
      SplitJoin(PrintLines(ts));
      PrintedLinesParse(ts, 1);
    }
  }

  // ---- Tokenized programs are printable ----------------------------------------------------------

  ghost predicate OneLineLexer(s: Lexer) {
    OnOneLine(s.fields) && '\n' !in s.current
  }

  lemma {:induction false} FeedOnOneLine(s: Lexer, line: string)
    requires OneLineLexer(s) && '\n' !in line
    ensures OneLineLexer(FeedAll(s, line))
    decreases |line|
  {
    if line != "" {
      assert line[0] in line;
      assert forall c :: c in line[1..] ==> c in line;
      FeedOnOneLine(Feed(s, line[0]), line[1..]);
    }
  }

  lemma UpperTwice(s: string)
    ensures UpperCase(UpperCase(s)) == UpperCase(s)
    ensures '\n' !in s ==> '\n' !in UpperCase(s)
  {
    var u := UpperCase(s);
    forall i | 0 <= i < |s| ensures UpperChar(u[i]) == u[i] && (u[i] == '\n' ==> '\n' in s) {
      assert s[i] in s;
    }
  }

  lemma {:induction false} StripKeepsLine(s: string)
    requires '\n' !in s
    ensures '\n' !in StripLeft(s) && '\n' !in StripRight(s)
    decreases |s|
  {
    if s != "" {
      assert forall c :: c in s[1..] ==> c in s;
      assert forall c :: c in s[..|s| - 1] ==> c in s;
      StripKeepsLine(s[1..]);
      StripKeepsLine(s[..|s| - 1]);
    }
  }

  lemma LineTokenPrintable(line: string)
    requires '\n' !in line && LineToken(Strip(line)).Success?
    ensures forall t :: t in LineToken(Strip(line)).value ==> Printable(t)
  {
    var stripped := Strip(line);
    StripKeepsLine(line);
    StripKeepsLine(StripLeft(line));
    if !Skipped(stripped) {
      ParsedFieldsRoundTrip(stripped);
      FeedOnOneLine(START, stripped);
      var fields := ParseFields(stripped).value;
      if fields != [] {
        var t := TokenOf(fields);
        UpperTwice(fields[0]);
        assert fields[0] in fields && forall f :: f in t.args ==> f in fields;
      }
    }
  }

  lemma {:induction false} TokenizedPrintable(lines: seq<string>, number: nat)
    requires (forall l :: l in lines ==> '\n' !in l) && TokenizeLines(lines, number).Tokens?
    ensures forall t :: t in TokenizeLines(lines, number).tokens ==> Printable(t)
    decreases |lines|
  {
    if lines != [] {
      assert lines[0] in lines && forall l :: l in lines[1..] ==> l in lines;
      LineTokenPrintable(lines[0]);
      TokenizedPrintable(lines[1..], number + 1);
    }
  }

  /** Whatever program the tokenizer accepts, printing its tokens and tokenizing again gives the same
      tokens. */
  lemma RetokenizingIsIdentity(content: string)
    ensures Tokenize(content).Tokens? ==> Tokenize(PrintProgram(Tokenize(content).tokens)) == Tokenize(content)
  {
    if Tokenize(content).Tokens? {
      TokenizedPrintable(SplitLines(content), 1);
      ProgramRoundTrip(Tokenize(content).tokens);
    }
  }
}
