/** What the tokenizer makes of quotes, escapes, comments and lower-case commands, character by character
    (src/praxis_sdk/dsl/tokenizer.py:26-201). */
module Quoting {
  import opened DslTypes
  import opened Lexing
  import Sequences

  // ---- Quotes and escapes ----------------------------------------------------------------------------

  lemma {:induction false} FeedInside(s: Lexer, f: string)
    requires s.inQuotes && !s.escaped && forall c :: c in f ==> c != '\\' && c != s.quoteChar
    ensures FeedAll(s, f) == s.(current := s.current + f)
    decreases |f|
  {
    if f == "" {
      assert s.current + "" == s.current;
    } else {
      assert f[0] in f && forall c :: c in f[1..] ==> c in f;
      FeedInside(s.(current := s.current + [f[0]]), f[1..]);
      assert s.current + [f[0]] + f[1..] == s.current + f;
    }
  }

  lemma FeedOne(s: Lexer, c: char)
    ensures FeedAll(s, [c]) == Feed(s, c)
  {
    assert [c][1..] == "";
  }

  /** An opening quote, what is inside, and the same quote again: one field, behind the word before it. */
  lemma FeedEitherQuote(s: Lexer, q: char, f: string)
    requires (q == '"' || q == '\'') && f != "" && !s.inQuotes && !s.escaped
    requires forall c :: c in f ==> c != '\\' && c != q
    ensures FeedAll(s, [q] + f + [q]) == Flush(s).(fields := Flush(s).fields + [f], quoteChar := q)
  {
    var open := Flush(s).(inQuotes := true, quoteChar := q);
    FeedConcat(s, [q] + f, [q]);
    FeedConcat(s, [q], f);
    FeedOne(s, q);
    FeedInside(open, f);
    assert open.current + f == f;
    FeedOne(open.(current := f), q);
  }

  /** Between two quotes of either kind everything but a backslash and that quote stands for itself, spaces
      and the other quote included; the opening quote ends the word before it. */
  lemma EitherQuoteKeeps(q: char, f: string, word: string)
    requires (q == '"' || q == '\'') && f != "" && forall c :: c in f ==> c != '\\' && c != q
    requires word != "" && forall c :: c in word ==> c != '\\' && c != '"' && c != '\'' && c != ' '
    ensures ParseFields([q] + f + [q]) == Success([f])
    ensures ParseFields(word + ([q] + f + [q])) == Success([word, f])
  {
    FeedEitherQuote(START, q, f);
    FeedConcat(START, word, [q] + f + [q]);
    FeedPlain(START, word);
    assert "" + word == word && [] + [f] == [f] && [] + [word] + [f] == [word, f];
    FeedEitherQuote(START.(current := word), q, f);
  }

  /** A backslash makes the next character, a space, a quote or a backslash included, part of the word. */
  lemma EscapeJoins(u: string, c: char, v: string)
    requires forall d :: d in u + v ==> d != '\\' && d != '"' && d != '\'' && d != ' '
    ensures ParseFields(u + ['\\', c] + v) == Success([u + [c] + v])
  {
    assert forall d :: d in u ==> d in u + v;
    assert forall d :: d in v ==> d in u + v;
    FeedConcat(START, u + ['\\', c], v);
    FeedConcat(START, u, ['\\', c]);
    FeedPlain(START, u);
    assert "" + u == u;
    var s := START.(current := u);
    FeedEscape(s, c);
    FeedPlain(s.(current := u + [c]), v);
    assert [] + [u + [c] + v] == [u + [c] + v];
  }

  lemma FeedEscape(s: Lexer, c: char)
    requires !s.escaped
    ensures FeedAll(s, ['\\', c]) == s.(current := s.current + [c])
  {
    assert ['\\', c][1..] == [c];
    FeedOne(Feed(s, '\\'), c);
  }

  /** The same inside quotes. */
  lemma EscapeInQuotes(q: char, u: string, c: char, v: string)
    requires (q == '"' || q == '\'') && forall d :: d in u + v ==> d != '\\' && d != q
    ensures ParseFields([q] + (u + ['\\', c] + v) + [q]) == Success([u + [c] + v])
  {
    assert forall d :: d in u ==> d in u + v;
    assert forall d :: d in v ==> d in u + v;
    var open := START.(inQuotes := true, quoteChar := q);
    FeedConcat(START, [q] + (u + ['\\', c] + v), [q]);
    FeedConcat(START, [q], u + ['\\', c] + v);
    FeedOne(START, q);
    FeedConcat(open, u + ['\\', c], v);
    FeedConcat(open, u, ['\\', c]);
    FeedInside(open, u);
    assert "" + u == u;
    FeedEscape(open.(current := u), c);
    FeedInside(open.(current := u + [c]), v);
    FeedOne(open.(current := u + [c] + v), q);
    assert [] + [u + [c] + v] == [u + [c] + v];
  }

  /** What is refused, and where: a quote that is never closed, a backslash at the end. */
  lemma Unterminated(q: char, f: string, word: string)
    requires (q == '"' || q == '\'') && forall c :: c in f ==> c != '\\' && c != q
    requires forall c :: c in word ==> c != '\\' && c != '"' && c != '\'' && c != ' '
    ensures ParseFields([q] + f) == Failure(UnclosedQuote(q), |f|)
    ensures ParseFields(word + "\\") == Failure(EndsWithEscape, |word|)
  {
    FeedConcat(START, [q], f);
    FeedOne(START, q);
    FeedInside(START.(inQuotes := true, quoteChar := q), f);
    FeedConcat(START, word, "\\");
    FeedPlain(START, word);
    assert "\\" == ['\\'];
    FeedOne(START.(current := "" + word), '\\');
  }

  // ---- Lines -----------------------------------------------------------------------------------------

  function OneLineLater(r: Tokenized): Tokenized {
    match r
    case Tokens(_) => r
    case SyntaxErrorAt(e, line, at) => SyntaxErrorAt(e, line + 1, at)
  }

  lemma {:induction false} NumbersShift(lines: seq<string>, number: nat)
    ensures TokenizeLines(lines, number + 1) == OneLineLater(TokenizeLines(lines, number))
    decreases |lines|
  {
    if lines != [] {
      NumbersShift(lines[1..], number + 1);
    }
  }

  lemma {:induction false} StripBlanks(blanks: string, rest: string)
    requires (forall c :: c in blanks ==> c == ' ' || c == '\t' || c == '\r') && (rest == "" || !IsSpace(rest[0]))
    ensures StripLeft(blanks + rest) == rest
    decreases |blanks|
  {
    if blanks == "" {
      assert blanks + rest == rest;
    } else {
      assert blanks[0] in blanks && forall c :: c in blanks[1..] ==> c in blanks;
      assert (blanks + rest)[0] == blanks[0] && (blanks + rest)[1..] == blanks[1..] + rest;
      StripBlanks(blanks[1..], rest);
    }
  }

  lemma {:induction false} StripKeepsFirst(s: string)
    requires s != "" && !IsSpace(s[0])
    ensures StripRight(s) != "" && StripRight(s)[0] == s[0]
    decreases |s|
  {
    if IsSpace(s[|s| - 1]) {
      StripKeepsFirst(s[..|s| - 1]);
    }
  }

  /** Lines of blanks only, and lines whose first visible character is #, hold no command; they count as
      lines all the same. */
  lemma CommentsAreSkipped(blanks: string, text: string, rest: string)
    requires forall c :: c in blanks ==> c == ' ' || c == '\t' || c == '\r'
    requires '\n' !in text
    ensures Tokenize(blanks + "\n" + rest) == OneLineLater(Tokenize(rest))
    ensures Tokenize(blanks + ("#" + text) + "\n" + rest) == OneLineLater(Tokenize(rest))
  {
    var comment := "#" + text;
    StripBlanks(blanks, "");
    assert blanks + "" == blanks;
    StripBlanks(blanks, comment);
    StripKeepsFirst(comment);
    assert '\n' !in blanks && '\n' !in blanks + comment;
    NothingInLine(blanks, rest);
    NothingInLine(blanks + comment, rest);
  }

  /** A program is tokenized line by line, and an error is reported with the number of its line. */
  lemma LineByLine(line: string, rest: string)
    requires '\n' !in line
    ensures Tokenize(line + "\n" + rest) ==
      match LineToken(Strip(line))
      case Failure(e, at) => SyntaxErrorAt(e, 1, at)
      case Success(ts) => PrependTokens(ts, OneLineLater(Tokenize(rest)))
  {
    SplitFirst(line, rest);
    assert ([line] + SplitLines(rest))[1..] == SplitLines(rest);
    NumbersShift(SplitLines(rest), 1);
  }

  /** For example. */
  lemma ErrorInSecondLine()
    ensures Tokenize("\n'y") == SyntaxErrorAt(UnclosedQuote('\''), 2, 1)
  {
    Unterminated('\'', "y", "");
    assert ['\''] + "y" == "'y" && "" + "\n" + "'y" == "\n'y";
    LineByLine("", "'y");
    assert Strip("'y") == "'y";
    SplitFirst("'y", "");
  }

  lemma NothingInLine(line: string, rest: string)
    requires '\n' !in line && LineToken(Strip(line)) == Success([])
    ensures Tokenize(line + "\n" + rest) == OneLineLater(Tokenize(rest))
  {
    SplitFirst(line, rest);
    assert ([line] + SplitLines(rest))[1..] == SplitLines(rest);
    NumbersShift(SplitLines(rest), 1);
  }

  // ---- Commands --------------------------------------------------------------------------------------

  /** The letters that upper() and lower() change. They change no other ASCII character. */
  lemma UpperAlphabet()
    ensures UpperCase("abcdefghijklm") == "ABCDEFGHIJKLM" && UpperCase("nopqrstuvwxyz") == "NOPQRSTUVWXYZ"
  {
  }

  lemma LowerAlphabet()
    ensures LowerCase("ABCDEFGHIJKLM") == "abcdefghijklm" && LowerCase("NOPQRSTUVWXYZ") == "nopqrstuvwxyz"
  {
  }

  lemma OtherCharacters(c: char)
    ensures !('a' <= c <= 'z') ==> UpperCase([c]) == [c]
    ensures !('A' <= c <= 'Z') ==> LowerCase([c]) == [c]
  {
  }

  /** A word of visible ASCII characters that need no quoting. */
  ghost predicate Visible(w: string) {
    w != "" && forall c :: c in w ==> '!' <= c <= '~' && c != '"' && c != '\'' && c != '\\'
  }

  predicate IsOperator(word: string) {
    word == "|" || word == "&&" || word == "||" || word == ";"
  }

  /** A line of words is one token: the first word in upper case, and the others. */
  lemma LineOfWords(words: seq<string>)
    requires words != [] && (forall w :: w in words ==> Visible(w)) && words[0] != "" && words[0][0] != '#'
    ensures var command := UpperCase(words[0]);
            Tokenize(Join(" ", words)) == Tokens([Token(if IsOperator(command) then OPERATOR else COMMAND, command, words[1..])])
  {
    var line := Join(" ", words);
    assert LineToken(Strip(line)) == Success([TokenOf(words)]) && '\n' !in line by {
      WordsParse(words);
      JoinedEnds(words);
      NothingToStrip(line);
    }
    OneLine(line, TokenOf(words));
    OperatorsAreKinds(UpperCase(words[0]));
    assert TokenOf(words).kind == KindOf(UpperCase(words[0]));
  }

  lemma OneLine(line: string, t: Token)
    requires '\n' !in line && LineToken(Strip(line)) == Success([t])
    ensures Tokenize(line) == Tokens([t])
  {
    SplitFirst(line, "");
    assert [line][1..] == [] && [t] + [] == [t];
    assert TokenizeLines([], 2) == Tokens([]);
    assert TokenizeLines([line], 1) == Tokens([t]);
  }

  lemma OperatorsAreKinds(word: string)
    ensures KindOf(word) == if IsOperator(word) then OPERATOR else COMMAND
  {
    if word == "|" {
    } else if word == "&&" {
    } else if word == "||" {
    } else if word == ";" {
    }
  }

  lemma WordsParse(words: seq<string>)
    requires words != [] && forall w :: w in words ==> Visible(w)
    ensures ParseFields(Join(" ", words)) == Success(words)
  {
    PlainWordsParse(words);
  }

  lemma {:induction false} JoinedEnds(words: seq<string>)
    requires words != [] && forall w :: w in words ==> Visible(w)
    ensures var line := Join(" ", words);
            && line != "" && words[0] != "" && line[0] == words[0][0] && '\n' !in line
            && !IsSpace(line[0]) && !IsSpace(line[|line| - 1])
    decreases |words|
  {
    assert words[0] in words;
    assert words[0][0] in words[0] && words[0][|words[0]| - 1] in words[0];
    if |words| > 1 {
      assert forall w :: w in words[1..] ==> w in words;
      JoinedEnds(words[1..]);
    }
  }

  /** For example a CALL in lower case. */
  lemma LowerCaseCall()
    ensures Tokenize("call x") == Tokens([Token(COMMAND, "CALL", ["x"])])
  {
    var words := ["call", "x"];
    assert words[1..] == ["x"] && Join(" ", words) == "call x";
    assert UpperCase("call") == "CALL";
    LineOfWords(words);
  }

  /** And one with an argument in single quotes. */
  lemma SingleQuotedFile()
    ensures ParseFields("read_file'my notes.txt'") == Success(["read_file", "my notes.txt"])
  {
    assert "read_file'my notes.txt'" == "read_file" + (['\''] + "my notes.txt" + ['\'']);
    EitherQuoteKeeps('\'', "my notes.txt", "read_file");
  }
}
