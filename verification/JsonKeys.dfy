/** Cache keys made with the JSON printer separate all calls, whatever the tool is called: no dump of a
    dictionary is the end, behind a colon, of another one. */
module JsonKeys {
  import opened Wrappers
  import opened DslTypes
  import opened CacheKeys
  import opened Json
  import Sequences

  // ---- Strings inside a JSON text ----------------------------------------------------------------

  /** Where a scan of a JSON text stands. */
  datatype Scanner = Outside | Inside | Escaped

  function ScanChar(q: Scanner, c: char): Scanner {
    match q
    case Outside => if c == '"' then Inside else Outside
    case Inside => if c == '"' then Outside else if c == '\\' then Escaped else Inside
    case Escaped => Inside
  }

  function Scan(q: Scanner, s: string): Scanner
    decreases |s|
  {
    if s == "" then q else Scan(ScanChar(q, s[0]), s[1..])
  }

  /** Outside strings there is no backslash, and a colon is followed by a space. */
  predicate Tidy(q: Scanner, s: string)
    decreases |s|
  {
    s == "" || (TidyHead(q, s) && Tidy(ScanChar(q, s[0]), s[1..]))
  }

  predicate TidyHead(q: Scanner, s: string)
    requires s != ""
  {
    q == Outside ==> s[0] != '\\' && (s[0] == ':' ==> |s| > 1 && s[1] == ' ')
  }

  predicate Closed(s: string) {
    Tidy(Outside, s) && Scan(Outside, s) == Outside
  }

  lemma {:induction false} ScanConcat(q: Scanner, a: string, b: string)
    ensures Scan(q, a + b) == Scan(Scan(q, a), b)
    ensures Tidy(q, a) && Tidy(Scan(q, a), b) ==> Tidy(q, a + b)
    ensures Tidy(q, a + b) ==> Tidy(Scan(q, a), b)
    decreases |a|
  {
    if a == "" {
      assert a + b == b;
    } else {
      assert (a + b)[0] == a[0] && (a + b)[1..] == a[1..] + b;
      ScanConcat(ScanChar(q, a[0]), a[1..], b);
    }
  }

  lemma ClosedConcat(a: string, b: string)
    requires Closed(a) && Closed(b)
    ensures Closed(a + b)
  {
    ScanConcat(Outside, a, b);
  }

  lemma {:induction false} PlainIsClosed(s: string)
    requires forall c :: c in s ==> c !in {'"', ':', '\\'}
    ensures Closed(s)
  {
    if s != "" {
      assert s[0] in s && forall c :: c in s[1..] ==> c in s;
      PlainIsClosed(s[1..]);
    }
  }

  lemma {:induction false} PlainStaysInside(s: string)
    requires forall c :: c in s ==> c != '"' && c != '\\'
    ensures Scan(Inside, s) == Inside && Tidy(Inside, s)
  {
    if s != "" {
      assert s[0] in s && forall c :: c in s[1..] ==> c in s;
      PlainStaysInside(s[1..]);
    }
  }

  lemma UnicodeStaysInside(n: nat)
    requires n < 0x10000
    ensures Scan(Inside, UnicodeEscape(n)) == Inside && Tidy(Inside, UnicodeEscape(n))
  {
    var s := UnicodeEscape(n);
    assert s[1..][0] == 'u' && s[1..][1..] == s[2..];
    PlainStaysInside(s[2..]);
  }

  lemma EscapedCharStaysInside(c: char)
    ensures Scan(Inside, EscapeChar(c)) == Inside && Tidy(Inside, EscapeChar(c))
  {
    var head := EscapeChar(c);
    if EscapeCode(c).Some? {
      assert head[0] == '\\' && head[1..] == [EscapeCode(c).value] && head[1..][1..] == "";
      assert Scan(Inside, head) == Scan(Escaped, head[1..]) == Scan(Inside, "");
      assert Tidy(Escaped, head[1..]);
    } else if ' ' <= c <= '~' {
      PlainStaysInside(head);
    } else if c as int < 0x10000 {
      UnicodeStaysInside(c as int);
    } else {
      UnicodeStaysInside(HighSurrogate(c as int));
      UnicodeStaysInside(LowSurrogate(c as int));
      ScanConcat(Inside, UnicodeEscape(HighSurrogate(c as int)), UnicodeEscape(LowSurrogate(c as int)));
    }
  }

  lemma {:induction false} EscapeStaysInside(s: string)
    ensures Scan(Inside, Escape(s)) == Inside && Tidy(Inside, Escape(s))
  {
    if s != "" {
      var head := EscapeChar(s[0]);
      EscapeStaysInside(s[1..]);
      EscapedCharStaysInside(s[0]);
      ScanConcat(Inside, head, Escape(s[1..]));
    }
  }

  lemma QuotedIsClosed(s: string)
    ensures Closed(Quoted(s))
  {
    EscapeStaysInside(s);
    ScanConcat(Inside, Escape(s), "\"");
    var body := Escape(s) + "\"";
    assert Quoted(s)[0] == '"' && Quoted(s)[1..] == body;
    assert "\""[1..] == "";
  }

  lemma {:induction false} ValueIsClosed(v: Value)
    ensures Closed(PrintValue(v))
    decreases v, true
  {
    match v {
      case Null => PlainIsClosed("null");
      case Bool(b) => PlainIsClosed(PrintValue(v));
      case Text(s) => QuotedIsClosed(s);
      case List(items) =>
        ItemsAreClosed(v, 0);
        Enclosed("[", PrintItems(v, 0), "]");
      case Dict(fields) =>
        FieldsAreClosed(v, fields.Keys);
        Enclosed("{", PrintFields(v, fields.Keys), "}");
      case _ =>
        NumberShape(v);
        PlainIsClosed(PrintValue(v));
    }
  }

  lemma Enclosed(open: string, body: string, close: string)
    requires open in {"[", "{"} && close in {"]", "}"} && Closed(body)
    ensures Closed(open + body + close)
  {
    PlainIsClosed(open);
    PlainIsClosed(close);
    ClosedConcat(open, body);
    ClosedConcat(open + body, close);
  }

  lemma {:induction false} ItemsAreClosed(v: Value, i: nat)
    requires v.List? && i <= |v.items|
    ensures Closed(PrintItems(v, i))
    decreases v, false, |v.items| - i
  {
    if i < |v.items| {
      ValueIsClosed(v.items[i]);
      if i + 1 < |v.items| {
        ItemsAreClosed(v, i + 1);
        AnotherFollows(PrintValue(v.items[i]), PrintItems(v, i + 1));
      } else {
        assert PrintValue(v.items[i]) + "" == PrintValue(v.items[i]);
      }
    }
  }

  lemma AnotherFollows(first: string, rest: string)
    requires Closed(first) && Closed(rest)
    ensures Closed(first + (", " + rest))
  {
    PlainIsClosed(", ");
    ClosedConcat(", ", rest);
    ClosedConcat(first, ", " + rest);
  }

  lemma {:induction false} FieldsAreClosed(v: Value, keys: set<string>)
    requires v.Dict? && keys <= v.fields.Keys
    ensures Closed(PrintFields(v, keys))
    decreases v, false, |keys|
  {
    if keys != {} {
      var k := FirstKey(keys);
      var first := Quoted(k) + ": " + PrintValue(v.fields[k]);
      QuotedIsClosed(k);
      assert ": "[1..] == " " && " "[1..] == "";
      assert Closed(": ");
      ClosedConcat(Quoted(k), ": ");
      ValueIsClosed(v.fields[k]);
      ClosedConcat(Quoted(k) + ": ", PrintValue(v.fields[k]));
      if keys - {k} != {} {
        FieldsAreClosed(v, keys - {k});
        AnotherFollows(first, PrintFields(v, keys - {k}));
      } else {
        assert first + "" == first;
      }
    }
  }

  // ---- No dump is the end of another -------------------------------------------------------------

  predicate Opposite(p: Scanner, q: Scanner) {
    (p == Outside && q == Inside) || (p == Inside && q == Outside)
  }

  /** A text that is tidy from both sides of a quote ends on opposite sides. */
  lemma {:induction false} StaysOpposite(p: Scanner, q: Scanner, s: string)
    requires Opposite(p, q) && Tidy(p, s) && Tidy(q, s)
    ensures Opposite(Scan(p, s), Scan(q, s))
    decreases |s|
  {
    if s != "" {
      StaysOpposite(ScanChar(p, s[0]), ScanChar(q, s[0]), s[1..]);
    }
  }

  lemma {:induction false} BehindColon(q: Scanner, head: string, tail: string)
    requires Tidy(q, head + ":" + tail) && (tail == "" || tail[0] != ' ')
    ensures Scan(q, head + ":") == Inside
    decreases |head|
  {
    var s := head + ":" + tail;
    if head == "" {
      assert s[0] == ':' && s[1..] == tail && (head + ":")[1..] == "";
    } else {
      assert s[0] == head[0] && s[1..] == head[1..] + ":" + tail;
      assert (head + ":")[0] == head[0] && (head + ":")[1..] == head[1..] + ":";
      BehindColon(ScanChar(q, head[0]), head[1..], tail);
    }
  }

  /** The dump of a dictionary is not the end, behind a colon, of the dump of any value. */
  lemma NoDumpEndsAnother(v: Value, head: string, args: Args)
    ensures PrintValue(v) != head + ":" + PrintValue(Dict(args))
  {
    var tail := PrintValue(Dict(args));
    if PrintValue(v) == head + ":" + tail {
      ValueIsClosed(v);
      ValueIsClosed(Dict(args));
      BehindColon(Outside, head, tail);
      ScanConcat(Outside, head + ":", tail);
      StaysOpposite(Inside, Outside, tail);
      assert false;
    }
  }

  lemma LongerTool(tool: string, args: Args, tool': string, args': Args)
    requires |tool| < |tool'|
    ensures Key(JsonDump(), tool, args) != Key(JsonDump(), tool', args')
  {
    var json, json' := PrintValue(Dict(args)), PrintValue(Dict(args'));
    var k, k' := tool + ":" + json, tool' + ":" + json';
    if k == k' {
      var head := json[..|tool'| - |tool| - 1];
      assert k[|tool| + 1..] == json;
      assert k'[|tool| + 1..] == tool'[|tool| + 1..] + ":" + json';
      assert head == tool'[|tool| + 1..];
      NoDumpEndsAnother(Dict(args), head, args');
      assert false;
    }
  }

  /** With the JSON printer the key determines tool and arguments: for all tools, with or without colons. */
  lemma JsonKeysSeparate(tool: string, args: Args, tool': string, args': Args)
    ensures Key(JsonDump(), tool, args) == Key(JsonDump(), tool', args') <==> tool == tool' && args == args'
  {
    var json, json' := PrintValue(Dict(args)), PrintValue(Dict(args'));
    var k, k' := tool + ":" + json, tool' + ":" + json';
    if |tool| < |tool'| {
      LongerTool(tool, args, tool', args');
    } else if |tool'| < |tool| {
      LongerTool(tool', args', tool, args);
    } else if k == k' {
      assert tool == k[..|tool|] && tool' == k'[..|tool|];
      assert json == k[|tool| + 1..] && json' == k'[|tool| + 1..];
      JsonDumpLosesNothing();
      assert JsonDump()(args) == JsonDump()(args');
    }
  }

  // ---- Keys of users -----------------------------------------------------------------------------

  /** The user whose prefix build_key puts in front of a key, if any. */
  function PrefixUser(includeUser: bool, userId: Option<string>): Option<string> {
    if includeUser && userId != Some("") then userId else None
  }

  /** What stands in front of the arguments in a key: the tool, behind the user's prefix if there is one. */
  function Scoped(user: Option<string>, tool: string): string {
    match user
    case Some(u) => "user:" + u + ":" + tool
    case None => tool
  }

  /** Two keys of build_key are equal exactly when user and tool spell the same text and the arguments are
      equal: of any users, with and without a user prefix, and for all tools. */
  lemma JsonUserKeysMeet(tool: string, args: Args, includeUser: bool, userId: Option<string>,
                         tool': string, args': Args, includeUser': bool, userId': Option<string>)
    ensures BuildKey(JsonDump(), tool, args, includeUser, userId) == BuildKey(JsonDump(), tool', args', includeUser', userId')
       <==> Scoped(PrefixUser(includeUser, userId), tool) == Scoped(PrefixUser(includeUser', userId'), tool') && args == args'
  {
    var user, user' := PrefixUser(includeUser, userId), PrefixUser(includeUser', userId');
    KeyIsScoped(tool, args, includeUser, userId);
    KeyIsScoped(tool', args', includeUser', userId');
    JsonKeysSeparate(Scoped(user, tool), args, Scoped(user', tool'), args');
  }

  lemma KeyIsScoped(tool: string, args: Args, includeUser: bool, userId: Option<string>)
    ensures BuildKey(JsonDump(), tool, args, includeUser, userId)
         == Key(JsonDump(), Scoped(PrefixUser(includeUser, userId), tool), args)
  {
    if PrefixUser(includeUser, userId).Some? {
      Sequences.Assoc("user:" + userId.value + ":", tool, ":" + PrintValue(Dict(args)));
      assert "user:" + userId.value + ":" + (tool + ":" + PrintValue(Dict(args)))
          == ("user:" + userId.value + ":" + tool) + ":" + PrintValue(Dict(args));
    }
  }

  /** For tools without a colon the key determines user, tool and arguments, whatever the user ids, and no
      key with a user prefix is one without. */
  lemma JsonUserKeysSeparate(tool: string, args: Args, includeUser: bool, userId: Option<string>,
                             tool': string, args': Args, includeUser': bool, userId': Option<string>)
    requires ':' !in tool && ':' !in tool'
    ensures BuildKey(JsonDump(), tool, args, includeUser, userId) == BuildKey(JsonDump(), tool', args', includeUser', userId')
       <==> PrefixUser(includeUser, userId) == PrefixUser(includeUser', userId') && tool == tool' && args == args'
  {
    JsonUserKeysMeet(tool, args, includeUser, userId, tool', args', includeUser', userId');
    ScopeUnique(PrefixUser(includeUser, userId), tool, PrefixUser(includeUser', userId'), tool');
  }

  lemma ScopeUnique(user: Option<string>, tool: string, user': Option<string>, tool': string)
    requires ':' !in tool && ':' !in tool'
    ensures Scoped(user, tool) == Scoped(user', tool') <==> user == user' && tool == tool'
  {
    match (user, user') {
      case (Some(u), Some(u')) =>
        if Scoped(user, tool) == Scoped(user', tool') {
          LastColon("user:" + u, tool, "user:" + u', tool');
          assert ("user:" + u)[5..] == u && ("user:" + u')[5..] == u';
        }
      case (Some(u), None) => assert Scoped(user, tool)[4] == ':';
      case (None, Some(u')) => assert Scoped(user', tool')[4] == ':';
      case (None, None) =>
    }
  }

  lemma LastColon(head: string, tail: string, head': string, tail': string)
    requires ':' !in tail && ':' !in tail' && head + ":" + tail == head' + ":" + tail'
    ensures head == head' && tail == tail'
  {
    var s, s' := head + ":" + tail, head' + ":" + tail';
    assert s[|head|] == ':' && s'[|head'|] == ':';
    assert |head| == |head'|;
    assert head == s[..|head|] && head' == s'[..|head|];
    assert tail == s[|head| + 1..] && tail' == s'[|head| + 1..];
  }

  // ---- The tool behind a key ---------------------------------------------------------------------

  /** The second of the pieces between the key's colons is the word "user". */
  predicate SecondPieceIsUser(k: string) {
    ColonAt(k) < |k| && "user:" <= k[ColonAt(k) + 1..]
  }

  lemma {:induction false} EscapeKeepsColons(s: string)
    ensures ':' in Escape(s) <==> ':' in s
  {
    if s != "" {
      EscapeKeepsColons(s[1..]);
      assert s == [s[0]] + s[1..];
      EscapedColon(s[0]);
    }
  }

  lemma EscapedColon(c: char)
    ensures ':' in EscapeChar(c) <==> c == ':'
  {
  }

  lemma {:induction false} EscapeConcat(a: string, b: string)
    ensures Escape(a + b) == Escape(a) + Escape(b)
  {
    if a == "" {
      assert a + b == b;
      assert Escape(a) + Escape(b) == Escape(b);
    } else {
      assert (a + b)[0] == a[0] && (a + b)[1..] == a[1..] + b;
      EscapeConcat(a[1..], b);
      Sequences.Assoc(EscapeChar(a[0]), Escape(a[1..]), Escape(b));
    }
  }

  lemma EscapeUser(s: string)
    ensures Escape(s) == "user" <==> s == "user"
  {
    assert Escape("user") == "user" by {
      assert "user"[1..] == "ser" && "ser"[1..] == "er" && "er"[1..] == "r" && "r"[1..] == "";
      assert Escape("r") == "r" && Escape("er") == "er" && Escape("ser") == "ser";
    }
    if Escape(s) == "user" {
      QuotedUnique(s, "user", "", "");
    }
  }

  lemma SecondPieceBehind(head: string, tail: string)
    requires ':' !in head
    ensures ':' in head + ":" + tail && SecondPiece(head + ":" + tail) == tail[..ColonAt(tail)]
  {
    var s := head + ":" + tail;
    ColonAfter(head, tail);
    assert s[|head|] == ':' && s[|head| + 1..] == tail;
  }

  /** The text of a dictionary, from its first key, escaped, on. */
  function FromKey(key: string, rest: string): string {
    key + "\": " + rest
  }

  /** A dictionary's text is its least key, a colon and a space, and what follows. */
  lemma DictStartsWithFirstKey(args: Args) returns (rest: string)
    requires args != map[]
    ensures PrintValue(Dict(args)) == "{\"" + FromKey(Escape(FirstKey(args.Keys)), rest)
  {
    var k := FirstKey(args.Keys);
    var more := if args.Keys - {k} == {} then "" else ", " + PrintFields(Dict(args), args.Keys - {k});
    rest := PrintValue(args[k]) + more + "}";
    assert PrintFields(Dict(args), args.Keys) == Quoted(k) + ": " + PrintValue(args[k]) + more;
    FirstField(Escape(k), PrintValue(args[k]), more);
  }

  lemma FirstField(k: string, value: string, more: string)
    ensures "{" + ("\"" + k + "\"" + ": " + value + more) + "}" == "{\"" + FromKey(k, value + more + "}")
  {
  }

  /** Around the first colon of a key, escaped or not. */
  lemma SplitEscaped(k: string) returns (a: string, b: string)
    requires ':' in k
    ensures ColonAt(k) < |k| && a == k[..ColonAt(k)] && b == k[ColonAt(k) + 1..]
    ensures ':' !in a && ':' !in Escape(a) && k == a + ":" + b && Escape(k) == Escape(a) + ":" + Escape(b)
  {
    FirstColon(k);
    a, b := k[..ColonAt(k)], k[ColonAt(k) + 1..];
    EscapeKeepsColons(a);
    EscapeConcat(a + ":", b);
    EscapeConcat(a, ":");
    assert Escape(":") == ":" by { assert ":"[1..] == ""; }
  }

  /** What is read from here up to the next colon. */
  function NextPiece(s: string): string {
    s[..ColonAt(s)]
  }

  lemma WholeKey(key: string, rest: string)
    requires ':' !in key
    ensures FromKey(key, rest) == (key + "\"") + ":" + (" " + rest)
    ensures NextPiece(FromKey(key, rest)) == key + "\"" != "user"
  {
    assert "\": " == "\"" + ":" + " ";
    ColonAfter(key + "\"", " " + rest);
    assert (key + "\"")[|key|] == '"';
  }

  lemma PartOfKey(a: string, b: string, rest: string)
    requires ':' !in a
    ensures FromKey(a + ":" + b, rest) == a + ":" + FromKey(b, rest)
    ensures NextPiece(FromKey(a + ":" + b, rest)) == a
  {
    ColonAfter(a, FromKey(b, rest));
  }

  lemma BehindBrace(a: string, tail: string)
    requires ':' !in a
    ensures var json := "{\"" + (a + ":" + tail); ':' in json && SecondPiece(json) == NextPiece(tail)
  {
    assert "{\"" + (a + ":" + tail) == ("{\"" + a) + ":" + tail;
    SecondPieceBehind("{\"" + a, tail);
  }

  lemma SpaceIsNoUser(rest: string)
    ensures NextPiece(" " + rest) != "user"
  {
    assert " " <= " " + rest;
  }

  lemma SecondPieceOfFirstKey(k: string, key: string, rest: string)
    requires key == Escape(k)
    ensures var json := "{\"" + FromKey(key, rest);
            ':' in json && (SecondPiece(json) == "user" <==> SecondPieceIsUser(k))
  {
    if ':' in k {
      var a, b := SplitEscaped(k);
      PartOfKey(Escape(a), Escape(b), rest);
      BehindBrace(Escape(a), FromKey(Escape(b), rest));
      NextPieceOfKey(b, Escape(b), rest);
    } else {
      EscapeKeepsColons(k);
      WholeKey(key, rest);
      BehindBrace(key + "\"", " " + rest);
      SpaceIsNoUser(rest);
    }
  }

  /** The piece before the next colon: of the key if it has one, and otherwise up to the closing quote. */
  lemma NextPieceOfKey(b: string, key: string, rest: string)
    requires key == Escape(b)
    ensures NextPiece(FromKey(key, rest)) == "user" <==> "user:" <= b
  {
    if ':' in b {
      var c, d := SplitEscaped(b);
      PartOfKey(Escape(c), Escape(d), rest);
      EscapeUser(c);
      StartsWithUser(b, c, d);
    } else {
      EscapeKeepsColons(b);
      WholeKey(key, rest);
      assert "user:"[4] == ':';
    }
  }

  lemma StartsWithUser(b: string, c: string, d: string)
    requires ':' !in c && b == c + ":" + d
    ensures c == "user" <==> "user:" <= b
  {
    if "user:" <= b {
      assert b == "user" + ":" + b[5..];
      SplitUnique(c, d, "user", b[5..]);
    }
  }

  /** Extraction undoes build_key on plain keys exactly when the tool has no colon and, if it is called
      "user", there are no arguments or the second piece of the least key is "user" again. */
  lemma ExtractFromJsonKey(tool: string, args: Args)
    ensures ExtractTool(Key(JsonDump(), tool, args)) == tool
       <==> ':' !in tool && (tool != "user" || args == map[] || SecondPieceIsUser(FirstKey(args.Keys)))
  {
    ExtractFromPlainKey(JsonDump(), tool, args);
    if args == map[] {
      assert PrintValue(Dict(args)) == "{}";
    } else {
      var rest := DictStartsWithFirstKey(args);
      SecondPieceOfFirstKey(FirstKey(args.Keys), Escape(FirstKey(args.Keys)), rest);
    }
  }

  /** So a tool called "user" is recovered from no arguments only, if no key has a colon. */
  lemma ExtractFromUserToolKey(args: Args)
    requires forall k :: k in args ==> ':' !in k
    ensures ExtractTool(Key(JsonDump(), "user", args)) == "user" <==> args == map[]
  {
    ExtractFromJsonKey("user", args);
  }

  lemma OneArgument()
    ensures PrintValue(Dict(map["n" := Int(1)])) == "{\"n\"" + ":" + " 1}"
  {
    var args: Args := map["n" := Int(1)];
    assert args.Keys == {"n"} && FirstKey(args.Keys) == "n" && args.Keys - {"n"} == {};
    assert Escape("n") == "n" by { assert "n"[1..] == ""; }
    assert PrintFields(Dict(args), args.Keys) == "\"n\": 1";
  }

  /** For example user(n=1). */
  lemma ExtractLosesUserTool()
    ensures ExtractTool(Key(JsonDump(), "user", map["n" := Int(1)])) == " 1}" != "user"
  {
    OneArgument();
    SecondPieceBehind("{\"n\"", " 1}");
    ColonAfter(" 1}", "");
    ExtractFromUserTool("{\"n\"" + ":" + " 1}");
    assert |" 1}"| != |"user"|;
  }
}
