/** json.dumps(args, sort_keys=True), which makes cache keys of arguments
    (src/praxis_sdk/dsl/types.py:199-208): a printer, and why the keys it makes lose nothing. */
module Json {
  import opened Wrappers
  import opened DslTypes
  import opened CacheKeys
  import Sequences

  // ---- The printer -------------------------------------------------------------------------------

  /** The letter that stands for c behind a backslash. */
  function EscapeCode(c: char): Option<char> {
    if c == '"' || c == '\\' then Some(c)
    else if c == '\n' then Some('n')
    else if c == '\r' then Some('r')
    else if c == '\t' then Some('t')
    else if c == '\U{8}' then Some('b')
    else if c == '\U{c}' then Some('f')
    else None
  }

  function Escape(s: string): string {
    if s == "" then "" else EscapeChar(s[0]) + Escape(s[1..])
  }

  function EscapeChar(c: char): string {
    if EscapeCode(c).Some? then ['\\', EscapeCode(c).value]
    else if ' ' <= c <= '~' then [c]
    else if c as int < 0x10000 then UnicodeEscape(c as int)
    else UnicodeEscape(HighSurrogate(c as int)) + UnicodeEscape(LowSurrogate(c as int))
  }

  function UnicodeEscape(n: nat): string
    requires n < 0x10000
  {
    ['\\', 'u', HexDigit(n / 4096), HexDigit(n / 256 % 16), HexDigit(n / 16 % 16), HexDigit(n % 16)]
  }

  function HexDigit(d: nat): char
    requires d < 16
  {
    if d < 10 then '0' + d as char else 'a' + (d - 10) as char
  }

  function HighSurrogate(n: nat): (h: nat)
    requires 0x10000 <= n < 0x110000
    ensures 0xD800 <= h < 0xDC00
  {
    0xD800 + (n - 0x10000) / 0x400
  }

  function LowSurrogate(n: nat): (l: nat)
    requires 0x10000 <= n < 0x110000
    ensures 0xDC00 <= l < 0xE000
  {
    0xDC00 + (n - 0x10000) % 0x400
  }

  function Quoted(s: string): string {
    "\"" + Escape(s) + "\""
  }

  function PrintInt(n: int): string {
    if n < 0 then "-" + Digits(-n) else Digits(n)
  }

  /** Python's order of strings. */
  predicate Before(a: string, b: string) {
    a == "" || (b != "" && (a[0] < b[0] || (a[0] == b[0] && Before(a[1..], b[1..]))))
  }

  lemma {:induction false} BeforeIsTotal(a: string, b: string)
    ensures Before(a, b) || Before(b, a)
  {
    if a != "" && b != "" {
      BeforeIsTotal(a[1..], b[1..]);
    }
  }

  lemma {:induction false} BeforeIsTransitive(a: string, b: string, c: string)
    requires Before(a, b) && Before(b, c)
    ensures Before(a, c)
  {
    if a != "" && a[0] == b[0] == c[0] {
      BeforeIsTransitive(a[1..], b[1..], c[1..]);
    }
  }

  ghost predicate IsFirst(keys: set<string>, k: string) {
    k in keys && forall l :: l in keys ==> Before(k, l)
  }

  lemma {:induction false} SomeKeyIsFirst(keys: set<string>)
    requires keys != {}
    ensures exists k :: IsFirst(keys, k)
    decreases |keys|
  {
    var k :| k in keys;
    var others := keys - {k};
    BeforeIsTotal(k, k);
    if others == {} {
      assert keys == {k};
      assert IsFirst(keys, k);
    } else {
      SomeKeyIsFirst(others);
      var l :| IsFirst(others, l);
      BeforeIsTotal(k, l);
      if Before(k, l) {
        forall m | m in others ensures Before(k, m) {
          BeforeIsTransitive(k, l, m);
        }
        assert IsFirst(keys, k);
      } else {
        assert IsFirst(keys, l);
      }
    }
  }

  ghost function FirstKey(keys: set<string>): (k: string)
    requires keys != {}
    ensures IsFirst(keys, k)
  {
    SomeKeyIsFirst(keys);
    var k :| IsFirst(keys, k);
    k
  }

  ghost function PrintValue(v: Value): string
    decreases v, true
  {
    match v
    case Null => "null"
    case Bool(b) => if b then "true" else "false"
    case Int(n) => PrintInt(n)
    case Float(text) => text
    case Text(s) => Quoted(s)
    case List(items) => "[" + PrintItems(v, 0) + "]"
    case Dict(fields) => "{" + PrintFields(v, fields.Keys) + "}"
  }

  ghost function PrintItems(v: Value, i: nat): string
    requires v.List? && i <= |v.items|
    decreases v, false, |v.items| - i
  {
    if i == |v.items| then ""
    else PrintValue(v.items[i]) + if i + 1 == |v.items| then "" else ", " + PrintItems(v, i + 1)
  }

  /** The fields under these keys, in the order of the keys. */
  ghost function PrintFields(v: Value, keys: set<string>): string
    requires v.Dict? && keys <= v.fields.Keys
    decreases v, false, |keys|
  {
    if keys == {} then ""
    else
      var k := FirstKey(keys);
      var others := keys - {k};
      Quoted(k) + ": " + PrintValue(v.fields[k]) + if others == {} then "" else ", " + PrintFields(v, others)
  }

  ghost function JsonDump(): Dump {
    args => Some(PrintValue(Dict(args)))
  }

  // ---- Texts that end by themselves, or at a delimiter -------------------------------------------

  /** What can follow a value. */
  predicate Delimited(s: string) {
    s == "" || s[0] in {',', ']', '}'}
  }

  predicate NumberChar(c: char) {
    '0' <= c <= '9' || c in {'-', '+', '.', 'e', 'N', 'a', 'I', 'n', 'f', 'i', 't', 'y'}
  }

  /** An escaped text ends at the first bare quote. */
  lemma {:induction false} QuotedUnique(a: string, b: string, s: string, t: string)
    requires Escape(a) + ("\"" + s) == Escape(b) + ("\"" + t)
    ensures a == b && s == t
  {
    var x, y := Escape(a) + ("\"" + s), Escape(b) + ("\"" + t);
    EscapeStep(a, s);
    EscapeStep(b, t);
    if a == "" && b == "" {
      assert x[1..] == s && y[1..] == t;
    } else if a != "" && b != "" {
      EscapeCharUnique(a[0], b[0], x, y);
      Sequences.Drop(EscapeChar(a[0]), Escape(a[1..]) + ("\"" + s));
      Sequences.Drop(EscapeChar(b[0]), Escape(b[1..]) + ("\"" + t));
      QuotedUnique(a[1..], b[1..], s, t);
      assert a == [a[0]] + a[1..] && b == [b[0]] + b[1..];
    }
  }

  lemma EscapeStep(a: string, s: string)
    ensures var x := Escape(a) + ("\"" + s);
            && (x[0] == '"' <==> a == "")
            && (a != "" ==> EscapeChar(a[0]) <= x && x == EscapeChar(a[0]) + (Escape(a[1..]) + ("\"" + s)))
  {
    if a == "" {
      assert Escape(a) + ("\"" + s) == "\"" + s;
    } else {
      Sequences.Assoc(EscapeChar(a[0]), Escape(a[1..]), "\"" + s);
    }
  }

  lemma EscapeCharUnique(c: char, d: char, x: string, y: string)
    requires EscapeChar(c) <= x && EscapeChar(d) <= y && x == y
    ensures c == d
  {
    var a, b := EscapeChar(c), EscapeChar(d);
    assert x[0] == a[0] && y[0] == b[0];
    if a[0] == '\\' {
      assert x[1] == a[1] && y[1] == b[1];
      if a[1] == 'u' {
        UnicodeUnique(c, d, x);
      }
    }
  }

  predicate IsUnicodeEscaped(c: char) {
    EscapeCode(c).None? && !(' ' <= c <= '~')
  }

  function FirstUnit(c: char): (n: nat)
    ensures n < 0x10000
  {
    if c as int < 0x10000 then c as int else HighSurrogate(c as int)
  }

  lemma UnicodeUnique(c: char, d: char, x: string)
    requires IsUnicodeEscaped(c) && IsUnicodeEscaped(d) && EscapeChar(c) <= x && EscapeChar(d) <= x
    ensures c == d
  {
    FirstUnits(c, x);
    FirstUnits(d, x);
    UnitUnique(FirstUnit(c), FirstUnit(d), x[..6]);
    if c as int >= 0x10000 && d as int >= 0x10000 {
      UnitUnique(LowSurrogate(c as int), LowSurrogate(d as int), x[6..12]);
      SurrogatesUnique(c as int, d as int);
    }
  }

  lemma FirstUnits(c: char, x: string)
    requires IsUnicodeEscaped(c) && EscapeChar(c) <= x
    ensures |x| >= 6 && x[..6] == UnicodeEscape(FirstUnit(c))
    ensures c as int >= 0x10000 ==> |x| >= 12 && x[6..12] == UnicodeEscape(LowSurrogate(c as int))
    ensures 0xD800 <= FirstUnit(c) < 0xDC00 <==> c as int >= 0x10000
  {
    var a := EscapeChar(c);
    assert a == x[..|a|];
    if c as int >= 0x10000 {
      assert a[..6] == x[..6] && a[6..] == x[6..12];
    }
  }

  lemma UnitUnique(m: nat, n: nat, x: string)
    requires m < 0x10000 && n < 0x10000 && UnicodeEscape(m) == x && UnicodeEscape(n) == x
    ensures m == n
  {
    var a, b := UnicodeEscape(m), UnicodeEscape(n);
    assert a[2] == b[2] && a[3] == b[3] && a[4] == b[4] && a[5] == b[5];
    HexUnique(m / 4096, n / 4096);
    HexUnique(m / 256 % 16, n / 256 % 16);
    HexUnique(m / 16 % 16, n / 16 % 16);
    HexUnique(m % 16, n % 16);
    FromHex(m);
    FromHex(n);
  }

  lemma HexUnique(d: nat, e: nat)
    requires d < 16 && e < 16 && HexDigit(d) == HexDigit(e)
    ensures d == e
  {
  }

  lemma FromHex(n: nat)
    requires n < 0x10000
    ensures n == 16 * (16 * (16 * (n / 4096) + n / 256 % 16) + n / 16 % 16) + n % 16
  {
    assert n / 256 == (n / 16) / 16 && n / 4096 == (n / 256) / 16;
  }

  lemma SurrogatesUnique(m: nat, n: nat)
    requires 0x10000 <= m < 0x110000 && 0x10000 <= n < 0x110000
    requires HighSurrogate(m) == HighSurrogate(n) && LowSurrogate(m) == LowSurrogate(n)
    ensures m == n
  {
  }

  /** A number ends where its characters end. */
  lemma {:induction false} NumberUnique(a: string, b: string, s: string, t: string)
    requires (forall c :: c in a ==> NumberChar(c)) && (forall c :: c in b ==> NumberChar(c))
    requires Delimited(s) && Delimited(t) && a + s == b + t
    ensures a == b && s == t
  {
    assert a == (a + s)[..|a|] && b == (b + t)[..|b|];
    assert s == (a + s)[|a|..] && t == (b + t)[|b|..];
    assert forall i :: 0 <= i < |a| ==> a[i] in a;
    assert forall i :: 0 <= i < |b| ==> b[i] in b;
    assert |a| < |a + s| ==> (a + s)[|a|] == s[0];
    assert |b| < |b + t| ==> (b + t)[|b|] == t[0];
  }

  lemma {:induction false} DigitsUnique(m: nat, n: nat)
    requires Digits(m) == Digits(n)
    ensures m == n
  {
    LastDigit(m);
    LastDigit(n);
    if m >= 10 && n >= 10 {
      DigitsUnique(m / 10, n / 10);
    }
  }

  lemma LastDigit(n: nat)
    ensures var s := Digits(n);
            && s[|s| - 1] == '0' + (n % 10) as char
            && (n < 10 <==> |s| == 1)
            && (n >= 10 ==> s[..|s| - 1] == Digits(n / 10))
  {
  }

  lemma IntsUnique(m: int, n: int)
    requires PrintInt(m) == PrintInt(n)
    ensures m == n
  {
    var a, b := PrintInt(m), PrintInt(n);
    Sign(m);
    Sign(n);
    if m < 0 && n < 0 {
      assert a[1..] == Digits(-m) && b[1..] == Digits(-n);
      DigitsUnique(-m, -n);
    } else if m >= 0 && n >= 0 {
      DigitsUnique(m, n);
    }
  }

  lemma Sign(n: int)
    ensures PrintInt(n)[0] == '-' <==> n < 0
  {
  }

  predicate IsNumber(v: Value) {
    v.Int? || v.Float?
  }

  lemma NumberShape(v: Value)
    requires IsNumber(v)
    ensures var s := PrintValue(v);
            && s != "" && (forall c :: c in s ==> NumberChar(c))
            && s[0] !in {'n', 't', 'f', '"', '[', '{'}
            && (v.Float? <==> exists c :: c in s && c in {'.', 'e', 'N', 'I'})
  {
    match v {
      case Int(n) =>
        assert forall c :: c in PrintInt(n) ==> c == '-' || '0' <= c <= '9';
      case Float(text) =>
        if text == "NaN" {
          assert text == ['N', 'a', 'N'] && text[0] in text;
        } else if text == "Infinity" {
          assert text == ['I', 'n', 'f', 'i', 'n', 'i', 't', 'y'] && text[0] in text;
        } else if text == "-Infinity" {
          assert text == ['-', 'I', 'n', 'f', 'i', 'n', 'i', 't', 'y'] && text[1] in text;
        } else {
          assert text[0] in text;
        }
    }
  }

  // ---- The printer loses nothing -----------------------------------------------------------------

  /** The first character tells the kinds of values apart. */
  lemma FirstChar(v: Value)
    ensures var s := PrintValue(v);
            && s != ""
            && (s[0] == 'n' <==> v == Null) && (s[0] == 't' <==> v == Bool(true)) && (s[0] == 'f' <==> v == Bool(false))
            && (s[0] == '"' <==> v.Text?) && (s[0] == '[' <==> v.List?) && (s[0] == '{' <==> v.Dict?)
            && s[0] !in {',', ']', '}', ' '}
  {
    if IsNumber(v) {
      NumberShape(v);
      assert PrintValue(v)[0] in PrintValue(v);
    }
  }

  /** Two values, each followed by a delimiter or nothing, in the same text are the same. */
  lemma {:induction false} ValuesUnique(v: Value, w: Value, s: string, t: string)
    requires PrintValue(v) + s == PrintValue(w) + t && Delimited(s) && Delimited(t)
    ensures v == w && s == t
    decreases v, true
  {
    var a, b := PrintValue(v), PrintValue(w);
    FirstChar(v);
    FirstChar(w);
    assert (a + s)[0] == a[0] && (b + t)[0] == b[0];
    if IsNumber(v) {
      NumberShape(v);
      NumberShape(w);
      NumberUnique(a, b, s, t);
      if v.Int? {
        IntsUnique(v.n, w.n);
      }
    } else if v.Text? {
      Unquote(v.s, s);
      Unquote(w.s, t);
      QuotedUnique(v.s, w.s, s, t);
    } else if v.List? {
      Unbracket("[", PrintItems(v, 0), "]", s);
      Unbracket("[", PrintItems(w, 0), "]", t);
      ItemsUnique(v, 0, w, 0, s, t);
      assert v.items[0..] == v.items && w.items[0..] == w.items;
    } else if v.Dict? {
      Unbracket("{", PrintFields(v, v.fields.Keys), "}", s);
      Unbracket("{", PrintFields(w, w.fields.Keys), "}", t);
      FieldsUnique(v, v.fields.Keys, w, w.fields.Keys, s, t);
      assert v.fields == w.fields;
    } else {
      assert v == w && a == b;
      assert (a + s)[|a|..] == s && (b + t)[|b|..] == t;
    }
  }

  lemma Unquote(a: string, s: string)
    ensures (Quoted(a) + s)[1..] == Escape(a) + ("\"" + s)
  {
  }

  lemma Unbracket(open: string, body: string, close: string, s: string)
    requires |open| == 1
    ensures (open + body + close + s)[1..] == body + (close + s)
  {
  }

  lemma {:induction false} ItemsUnique(v: Value, i: nat, w: Value, j: nat, s: string, t: string)
    requires v.List? && i <= |v.items| && w.List? && j <= |w.items|
    requires PrintItems(v, i) + ("]" + s) == PrintItems(w, j) + ("]" + t)
    ensures v.items[i..] == w.items[j..] && s == t
    decreases v, false, |v.items| - i
  {
    var x, y := "]" + s, "]" + t;
    ItemsEnd(v, i, s);
    ItemsEnd(w, j, t);
    if i == |v.items| && j == |w.items| {
      assert "" + x == x && "" + y == y;
      assert x[1..] == s && y[1..] == t;
    } else if i < |v.items| && j < |w.items| {
      var a := ItemsStep(v, i, s);
      var b := ItemsStep(w, j, t);
      ValuesUnique(v.items[i], w.items[j], a, b);
      if i + 1 < |v.items| {
        ItemsUnique(v, i + 1, w, j + 1, s, t);
      }
      Sequences.Unfold(v.items, i);
      Sequences.Unfold(w.items, j);
    }
  }

  /** The first item, and what follows it. */
  lemma ItemsStep(v: Value, i: nat, s: string) returns (after: string)
    requires v.List? && i < |v.items|
    ensures PrintItems(v, i) + ("]" + s) == PrintValue(v.items[i]) + after
    ensures |after| >= 1 && after[0] == (if i + 1 == |v.items| then ']' else ',')
    ensures i + 1 == |v.items| ==> after[1..] == s
    ensures i + 1 < |v.items| ==> |after| >= 2 && after[2..] == PrintItems(v, i + 1) + ("]" + s)
  {
    var more := if i + 1 == |v.items| then "" else ", " + PrintItems(v, i + 1);
    after := more + ("]" + s);
    Sequences.Assoc(PrintValue(v.items[i]), more, "]" + s);
    if i + 1 < |v.items| {
      Sequences.Assoc(", ", PrintItems(v, i + 1), "]" + s);
      Sequences.Drop(", ", PrintItems(v, i + 1) + ("]" + s));
    } else {
      assert after == "]" + s;
    }
  }

  lemma ItemsEnd(v: Value, i: nat, s: string)
    requires v.List? && i <= |v.items|
    ensures (PrintItems(v, i) + ("]" + s))[0] == ']' <==> i == |v.items|
  {
    if i < |v.items| {
      var after := ItemsStep(v, i, s);
      FirstChar(v.items[i]);
      assert (PrintValue(v.items[i]) + after)[0] == PrintValue(v.items[i])[0];
    } else {
      assert "" + ("]" + s) == "]" + s;
    }
  }

  lemma {:induction false} FieldsUnique(v: Value, ks: set<string>, w: Value, ls: set<string>, s: string, t: string)
    requires v.Dict? && ks <= v.fields.Keys && w.Dict? && ls <= w.fields.Keys
    requires PrintFields(v, ks) + ("}" + s) == PrintFields(w, ls) + ("}" + t)
    ensures SameFields(v, ks, w, ls) && s == t
    decreases v, false, |ks|
  {
    var x, y := "}" + s, "}" + t;
    FieldsEnd(v, ks, s);
    FieldsEnd(w, ls, t);
    if ks == {} && ls == {} {
      assert "" + x == x && "" + y == y;
      assert x[1..] == s && y[1..] == t;
    } else if ks != {} && ls != {} {
      var k, a := FieldsStep(v, ks, s);
      var l, b := FieldsStep(w, ls, t);
      FieldUnique(k, PrintValue(v.fields[k]) + a, l, PrintValue(w.fields[l]) + b);
      ValuesUnique(v.fields[k], w.fields[l], a, b);
      if ks - {k} != {} {
        FieldsUnique(v, ks - {k}, w, ls - {l}, s, t);
      }
      OneMoreField(v, ks, w, ls, k);
    }
  }

  ghost predicate SameFields(v: Value, ks: set<string>, w: Value, ls: set<string>)
    requires v.Dict? && ks <= v.fields.Keys && w.Dict? && ls <= w.fields.Keys
  {
    ks == ls && forall k :: k in ks ==> v.fields[k] == w.fields[k]
  }

  lemma OneMoreField(v: Value, ks: set<string>, w: Value, ls: set<string>, k: string)
    requires v.Dict? && ks <= v.fields.Keys && w.Dict? && ls <= w.fields.Keys
    requires k in ks && k in ls && v.fields[k] == w.fields[k] && SameFields(v, ks - {k}, w, ls - {k})
    ensures SameFields(v, ks, w, ls)
  {
    assert ks == (ks - {k}) + {k} && ls == (ls - {k}) + {k};
  }

  lemma FieldUnique(k: string, x: string, l: string, y: string)
    requires Quoted(k) + (": " + x) == Quoted(l) + (": " + y)
    ensures k == l && x == y
  {
    Unquote(k, ": " + x);
    Unquote(l, ": " + y);
    QuotedUnique(k, l, ": " + x, ": " + y);
    Sequences.Drop(": ", x);
    Sequences.Drop(": ", y);
  }

  /** The first field, and what follows it. */
  lemma FieldsStep(v: Value, ks: set<string>, s: string) returns (k: string, after: string)
    requires v.Dict? && ks <= v.fields.Keys && ks != {}
    ensures k in ks
    ensures PrintFields(v, ks) + ("}" + s) == Quoted(k) + (": " + (PrintValue(v.fields[k]) + after))
    ensures |after| >= 1 && after[0] == (if ks - {k} == {} then '}' else ',')
    ensures ks - {k} == {} ==> after[1..] == s
    ensures ks - {k} != {} ==> |after| >= 2 && after[2..] == PrintFields(v, ks - {k}) + ("}" + s)
  {
    k := FirstKey(ks);
    var others := ks - {k};
    var more := if others == {} then "" else ", " + PrintFields(v, others);
    after := more + ("}" + s);
    if others != {} {
      Sequences.Assoc(", ", PrintFields(v, others), "}" + s);
      Sequences.Drop(", ", PrintFields(v, others) + ("}" + s));
    } else {
      assert after == "}" + s;
    }
    FieldsConcat(Quoted(k), PrintValue(v.fields[k]), more, "}" + s);
  }

  lemma FieldsConcat(k: string, value: string, more: string, s: string)
    ensures k + ": " + value + more + s == k + (": " + (value + (more + s)))
  {
  }

  lemma FieldsEnd(v: Value, ks: set<string>, s: string)
    requires v.Dict? && ks <= v.fields.Keys
    ensures (PrintFields(v, ks) + ("}" + s))[0] == '}' <==> ks == {}
  {
    if ks != {} {
      var k, after := FieldsStep(v, ks, s);
      assert Quoted(k)[0] == '"';
    } else {
      assert "" + ("}" + s) == "}" + s;
    }
  }

  /** The dump loses nothing, and every dictionary has one. */
  lemma JsonDumpLosesNothing()
    ensures Injective(JsonDump()) && forall args :: JsonDump()(args).Some?
  {
    forall a, b | JsonDump()(a).Some? && JsonDump()(a) == JsonDump()(b) ensures a == b {
      assert PrintValue(Dict(a)) + "" == PrintValue(Dict(b)) + "";
      ValuesUnique(Dict(a), Dict(b), "", "");
    }
  }
}
