/** What the text functions make of concrete characters: stripping, numbering, names, and the JSON text of
    arguments (src/praxis_sdk/dsl/ast_builder.py:484-494, src/praxis_sdk/dsl/validator.py:272-308,
    src/praxis_sdk/dsl/types.py:199-208). */
module Texts {
  import opened Wrappers
  import opened DslTypes
  import opened Arguments
  import opened CacheKeys
  import Json
  import JsonOrder

  // ---- Stripping -------------------------------------------------------------------------------------

  ghost predicate Blank(s: string) {
    forall i :: 0 <= i < |s| ==> s[i] == ' ' || s[i] == '\t' || s[i] == '\n' || s[i] == '\r'
  }

  ghost predicate VisibleEnds(s: string) {
    s == "" || ('!' <= s[0] <= '~' && '!' <= s[|s| - 1] <= '~')
  }

  /** strip() removes the blanks on both sides, all of them, and nothing else. */
  lemma {:induction false} StripsBlanks(left: string, text: string, right: string)
    requires Blank(left) && Blank(right) && VisibleEnds(text)
    ensures Strip(left + text + right) == text
  {
    StripsLeft(left, text + right);
    assert left + (text + right) == left + text + right;
    if text == "" {
      assert text + right == right + "";
      StripsLeft(right, "");
      assert StripLeft(left + text + right) == "";
    } else {
      StripsRight(text, right);
    }
  }

  lemma {:induction false} StripsLeft(left: string, rest: string)
    requires Blank(left)
    ensures StripLeft(left + rest) == StripLeft(rest)
  {
    if left == "" {
      assert left + rest == rest;
    } else {
      StripsLeft(left[1..], rest);
      assert (left + rest)[1..] == left[1..] + rest;
    }
  }

  lemma {:induction false} StripsRight(text: string, right: string)
    requires Blank(right)
    ensures StripRight(text + right) == StripRight(text)
    decreases |right|
  {
    if right == "" {
      assert text + right == text;
    } else {
      StripsRight(text, right[..|right| - 1]);
      assert (text + right)[..|text + right| - 1] == text + right[..|right| - 1];
    }
  }

  ghost predicate Quotes(s: string) {
    forall i :: 0 <= i < |s| ==> s[i] == '"' || s[i] == '\''
  }

  ghost predicate QuoteFree(s: string) {
    s != "" && s[0] != '"' && s[0] != '\'' && s[|s| - 1] != '"' && s[|s| - 1] != '\''
  }

  /** And strip("\"'") the quotes of either kind. */
  lemma {:induction false} StripsQuotes(left: string, text: string, right: string)
    requires Quotes(left) && Quotes(right) && QuoteFree(text)
    ensures StripQuotes(left + text + right) == text
    decreases |left| + |right|
  {
    var all := left + text + right;
    if left != "" {
      StripsQuotes(left[1..], text, right);
      assert all[1..] == left[1..] + text + right;
    } else if right != "" {
      StripsQuotes(left, text, right[..|right| - 1]);
      assert all[..|all| - 1] == left + text + right[..|right| - 1];
      assert all[0] == text[0];
    } else {
      assert all == text;
    }
  }

  // ---- Numbers ---------------------------------------------------------------------------------------

  function DecimalValue(s: string): int {
    if s == "" then 0 else 10 * DecimalValue(s[..|s| - 1]) + (s[|s| - 1] as int - '0' as int)
  }

  /** str(n) is the decimal numeral of n without leading zeros. */
  lemma {:induction false} DigitsValue(n: nat)
    ensures DecimalValue(Digits(n)) == n
    ensures if n == 0 then Digits(n) == "0" else Digits(n)[0] != '0'
  {
    var s := Digits(n);
    if n < 10 {
      assert s[..0] == "";
    } else {
      DigitsValue(n / 10);
      assert s[..|s| - 1] == Digits(n / 10);
    }
  }

  // ---- Names -----------------------------------------------------------------------------------------

  /** The letters and digits of a name, */
  lemma NameAlphabet()
    ensures MatchesName("abcdefghijklm") && MatchesName("nopqrstuvwxyz")
    ensures MatchesName("ABCDEFGHIJKLM") && MatchesName("NOPQRSTUVWXYZ") && MatchesName("_0123456789")
    ensures !MatchesName("") && !MatchesName("0") && MatchesName("a\n") && !MatchesName("a\n\n") && !MatchesName("\n")
  {
    assert "a\n"[..1] == "a" && "a\n\n"[..2] == "a\n" && "\n"[..0] == "";
    assert "a\n"[1] == '\n';
  }

  /** which can be put together in any way that does not begin with a digit, */
  lemma NamesJoin(s: string, t: string)
    requires MatchesName(s) && '\n' !in s && MatchesName("_" + t) && '\n' !in t
    ensures MatchesName(s + t)
  {
    var u := "_" + t;
    assert IsName(s) && IsName(u);
    forall i | 0 < i < |s + t| ensures IsLetter((s + t)[i]) || '0' <= (s + t)[i] <= '9' {
      if i >= |s| {
        assert u[1 + i - |s|] == t[i - |s|] == (s + t)[i];
      }
    }
    assert (s + t)[0] == s[0];
  }

  predicate NameCharacter(c: char) {
    'a' <= c <= 'z' || 'A' <= c <= 'Z' || c == '_' || '0' <= c <= '9'
  }

  /** and nothing else: a single newline is let through at the end. */
  lemma NoOtherNames(s: string, i: nat)
    requires i < |s| && (if i == 0 then '0' <= s[0] <= '9' || !NameCharacter(s[0]) else !NameCharacter(s[i]))
    requires s[i] == '\n' ==> i + 1 < |s| || i == 0
    ensures !MatchesName(s)
  {
    if s[|s| - 1] == '\n' && i < |s| - 1 {
      assert s[..|s| - 1][i] == s[i];
    }
  }

  // ---- JSON ------------------------------------------------------------------------------------------

  lemma JsonAtoms()
    ensures Json.PrintValue(Null) == "null" && Json.PrintValue(Bool(true)) == "true" && Json.PrintValue(Bool(false)) == "false"
    ensures Json.PrintValue(Int(0)) == "0" && Json.PrintValue(Int(305)) == "305" && Json.PrintValue(Int(-12)) == "-12"
  {
    assert Digits(30) == "30" && Digits(1) == "1";
  }

  /** Double quotes around, and a backslash before what needs one. */
  lemma JsonText(s: string)
    requires forall i :: 0 <= i < |s| ==> ' ' <= s[i] <= '~' && s[i] != '"' && s[i] != '\\'
    ensures Json.PrintValue(Text(s)) == "\"" + s + "\""
  {
    PlainEscape(s);
  }

  lemma {:induction false} PlainEscape(s: string)
    requires forall i :: 0 <= i < |s| ==> ' ' <= s[i] <= '~' && s[i] != '"' && s[i] != '\\'
    ensures Json.Escape(s) == s
  {
    if s != "" {
      PlainEscape(s[1..]);
      assert s == [s[0]] + s[1..];
    }
  }

  lemma JsonEscapes()
    ensures Json.EscapeChar('"') == "\\\"" && Json.EscapeChar('\\') == "\\\\" && Json.EscapeChar('\'') == "'"
    ensures Json.EscapeChar('\n') == "\\n" && Json.EscapeChar('\r') == "\\r" && Json.EscapeChar('\t') == "\\t"
    ensures Json.EscapeChar('\U{8}') == "\\b" && Json.EscapeChar('\U{c}') == "\\f"
  {
  }

  /** Everything else outside printable ASCII becomes \\u and four digits, or two such groups. */
  lemma JsonUnicode()
    ensures Json.EscapeChar('\U{1f}') == "\\u001f" && Json.EscapeChar('\U{e9}') == "\\u00e9"
    ensures Json.EscapeChar('\U{1F600}') == "\\ud83d\\ude00"
  {
    assert Json.UnicodeEscape(0x1f) == "\\u001f";
    assert Json.UnicodeEscape(0xe9) == "\\u00e9";
    assert Json.HighSurrogate(0x1F600) == 0xd83d && Json.LowSurrogate(0x1F600) == 0xde00;
    assert Json.UnicodeEscape(0xd83d) == "\\ud83d";
    assert Json.UnicodeEscape(0xde00) == "\\ude00";
  }

  /** Lists in their order, dictionaries in the order of their keys. */
  lemma {:induction false} JsonList(a: Value, b: Value)
    ensures Json.PrintValue(List([])) == "[]"
    ensures Json.PrintValue(List([a, b])) == "[" + Json.PrintValue(a) + ", " + Json.PrintValue(b) + "]"
  {
    var v := List([a, b]);
    assert Json.PrintItems(v, 1) == Json.PrintValue(b) + "";
    assert Json.PrintItems(v, 0) == Json.PrintValue(a) + (", " + Json.PrintItems(v, 1));
    assert "[" + (Json.PrintValue(a) + (", " + Json.PrintValue(b))) + "]" == "[" + Json.PrintValue(a) + ", " + Json.PrintValue(b) + "]";
  }

  lemma OnlyKey(k: string)
    ensures Json.FirstKey({k}) == k
  {
  }

  lemma {:induction false} JsonPair(k: string, a: Value)
    requires forall i :: 0 <= i < |k| ==> ' ' <= k[i] <= '~' && k[i] != '"' && k[i] != '\\'
    ensures Json.PrintValue(Dict(map[])) == "{}"
    ensures Json.PrintValue(Dict(map[k := a])) == "{\"" + k + "\": " + Json.PrintValue(a) + "}"
  {
    var v := Dict(map[k := a]);
    OnlyKey(k);
    PlainEscape(k);
    assert v.fields.Keys == {k} && {k} - {k} == {};
    assert Json.PrintFields(v, {k}) == "\"" + k + "\"" + ": " + Json.PrintValue(a) + "";
    assert "{" + ("\"" + k + "\"" + ": " + Json.PrintValue(a)) + "}" == "{\"" + k + "\": " + Json.PrintValue(a) + "}";
  }

  lemma FirstOfTwo(k: string, l: string)
    requires Json.Before(k, l) && k != l
    ensures Json.FirstKey({l, k}) == k
  {
    var first := Json.FirstKey({l, k});
    assert Json.Before(first, k);
    if Json.Before(l, k) {
      JsonOrder.BeforeIsAntisymmetric(k, l);
    }
  }

  lemma {:induction false} FieldThenOthers(v: Value, keys: set<string>, k: string)
    requires v.Dict? && keys <= v.fields.Keys && keys != {} && Json.FirstKey(keys) == k && keys != {k}
    ensures Json.PrintFields(v, keys)
         == Json.Quoted(k) + ": " + Json.PrintValue(v.fields[k]) + (", " + Json.PrintFields(v, keys - {k}))
  {
    assert keys - {k} != {};
  }

  /** Of two fields the one with the smaller key comes first. */
  lemma {:induction false} JsonPairs(k: string, a: Value, l: string, b: Value)
    requires Json.Before(k, l) && k != l
    ensures Json.PrintValue(Dict(map[l := b, k := a]))
         == "{" + Json.Quoted(k) + ": " + Json.PrintValue(a) + ", " + Json.Quoted(l) + ": " + Json.PrintValue(b) + "}"
  {
    var v, keys := Dict(map[l := b, k := a]), {l, k};
    var text, last := Json.PrintFields(v, keys), Json.PrintFields(v, {l});
    assert Json.PrintValue(v) == "{" + text + "}" by {
      assert v.fields.Keys == keys;
    }
    FirstOfTwo(k, l);
    assert last == Json.Quoted(l) + ": " + Json.PrintValue(b) + "" by {
      OnlyKey(l);
      assert {l} - {l} == {};
    }
    hide Json.PrintFields, Json.PrintValue, Json.Quoted, Json.Before;
    assert keys - {k} == {l};
    FieldThenOthers(v, keys, k);
    Braces(Json.Quoted(k), Json.PrintValue(a), Json.Quoted(l), Json.PrintValue(b));
  }

  lemma Braces(k: string, a: string, l: string, b: string)
    ensures "{" + (k + ": " + a + (", " + (l + ": " + b + ""))) + "}" == "{" + k + ": " + a + ", " + l + ": " + b + "}"
  {
  }

  /** Keys are ordered by their first different characters, and a key goes before its continuations. */
  lemma KeyOrder(s: string, c: char, d: char, t: string, u: string)
    ensures c < d ==> Json.Before(s + [c] + t, s + [d] + u)
    ensures Json.Before(s, s + t)
  {
    if s != "" {
      KeyOrder(s[1..], c, d, t, u);
      assert (s + [c] + t)[1..] == s[1..] + [c] + t && (s + [d] + u)[1..] == s[1..] + [d] + u;
      assert (s + t)[1..] == s[1..] + t;
    } else {
      assert (s + [c] + t)[0] == c && (s + [d] + u)[0] == d;
    }
  }

  /** The key of a call: its tool, a colon, and the text of its arguments, or the tool alone. A user id that
      is asked for and not empty goes in front. */
  lemma KeyText(dump: Dump, tool: string, args: Args, user: string)
    ensures Key(dump, tool, args) == if dump(args).None? then tool else tool + ":" + dump(args).value
    ensures Key(Json.JsonDump(), tool, args) == tool + ":" + Json.PrintValue(Dict(args))
    ensures BuildKey(dump, tool, args, true, Some(user)) == (if user == "" then "" else "user:" + user + ":") + Key(dump, tool, args)
    ensures BuildKey(dump, tool, args, true, None) == BuildKey(dump, tool, args, false, Some(user)) == Key(dump, tool, args)
  {
    assert "" + Key(dump, tool, args) == Key(dump, tool, args);
  }
}
