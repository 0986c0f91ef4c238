/** The tokenizer as the source writes it (src/praxis_sdk/dsl/tokenizer.py): a loop over characters
    with five loop variables, and a loop over lines that keeps the current line number. */
module DslTokenizers {
  import opened DslTypes
  import opened Lexing
  import Sequences

  class DslTokenizer {
    var lineNumber: nat
    var position: int

    constructor ()
      ensures lineNumber == 0 && position == 0
    {
      lineNumber, position := 0, 0;
    }

    method ParseQuotedFields(line: string) returns (r: Result<seq<string>>)
      modifies this`position
      ensures r == ParseFields(line)
      ensures position == if line == "" then old(position) else |line| - 1
    {
      var fields: seq<string>, current, inQuotes, escaped, quoteChar := [], "", false, false, '"';
      for i := 0 to |line|
        invariant FeedAll(START, line) == FeedAll(Lexer(fields, current, inQuotes, escaped, quoteChar), line[i..])
        invariant position == if i == 0 then old(position) else i - 1
      {
        position := i;
        Sequences.Unfold(line, i);
        var c := line[i];
        if escaped {
          current := current + [c];
          escaped := false;
          continue;
        }
        if c == '\\' {
          escaped := true;
          continue;
        }
        if c == '"' || c == '\'' {
          if inQuotes {
            if c == quoteChar {
              if current != "" {
                fields := fields + [current];
                current := "";
              }
              inQuotes := false;
            } else {
              current := current + [c];
            }
          } else {
            if current != "" {
              fields := fields + [current];
              current := "";
            }
            inQuotes := true;
            quoteChar := c;
          }
          continue;
        }
        if c == ' ' && !inQuotes {
          if current != "" {
            fields := fields + [current];
            current := "";
          }
        } else {
          current := current + [c];
        }
      }
      if escaped {
        return Failure(EndsWithEscape, |line| - 1);
      }
      if inQuotes {
        assert line != "";
        return Failure(UnclosedQuote(quoteChar), position);
      }
      if current != "" {
        fields := fields + [current];
      }
      r := Success(fields);
    }

    method Tokenize(content: string) returns (r: Tokenized)
      modifies this
      ensures r == Lexing.Tokenize(content)
      ensures lineNumber == match r case Tokens(_) => |SplitLines(content)| case SyntaxErrorAt(_, line, _) => line
    {
      var tokens := [];
      var lines := SplitLines(content);
      lineNumber := 0;
      Nothing(TokenizeLines(lines, 1));
      for i := 0 to |lines|
        invariant lineNumber == i
        invariant TokenizeLines(lines, 1) == PrependTokens(tokens, TokenizeLines(lines[i..], i + 1))
      {
        Sequences.Unfold(lines, i);
        lineNumber := lineNumber + 1;
        position := 0;
        var line := Strip(lines[i]);
        if line == "" || line[0] == '#' {
          Nothing(TokenizeLines(lines[i + 1..], i + 2));
          continue;
        }
        var fields := ParseQuotedFields(line);
        if fields.Failure? {
          return SyntaxErrorAt(fields.error, lineNumber, fields.at);
        }
        if fields.value != [] {
          PrependTwice(tokens, [TokenOf(fields.value)], TokenizeLines(lines[i + 1..], i + 2));
          tokens := tokens + [TokenOf(fields.value)];
        } else {
          Nothing(TokenizeLines(lines[i + 1..], i + 2));
        }
      }
      assert tokens + [] == tokens;
      r := Tokens(tokens);
    }
  }

  lemma Nothing(r: Tokenized)
    ensures PrependTokens([], r) == r
  {
    if r.Tokens? {
      assert [] + r.tokens == r.tokens;
    }
  }

  lemma PrependTwice(a: seq<Token>, b: seq<Token>, r: Tokenized)
    ensures PrependTokens(a, PrependTokens(b, r)) == PrependTokens(a + b, r)
  {
    if r.Tokens? {
      Sequences.Assoc(a, b, r.tokens);
    }
  }
}
