/** Data structures shared by the DSL engine (src/praxis_sdk/dsl/types.py). */
module DslTypes {

  /** The text json.dumps writes for a float: it has a point or an exponent, or is one of three words. */
  predicate IsFloatText(s: string) {
    || s == "NaN" || s == "Infinity" || s == "-Infinity"
    || ((forall c :: c in s ==> '0' <= c <= '9' || c in {'-', '+', '.', 'e'}) && ('.' in s || 'e' in s))
  }

  type FloatText = s: string | IsFloatText(s) witness "0.0"

  /** A Python value as it flows through the engine: an argument value or a tool result. A float is
      represented by its text. */
  datatype Value =
    | Null
    | Bool(b: bool)
    | Int(n: int)
    | Float(text: FloatText)
    | Text(s: string)
    | List(items: seq<Value>)
    | Dict(fields: map<string, Value>)

  /** An argument dictionary. Two dictionaries are equal whatever their insertion order. */
  type Args = map<string, Value>

  datatype TokenType = COMMAND | OPERATOR | VALUE

  datatype Token = Token(kind: TokenType, value: string, args: seq<string>)

  /** An AST node. The dictionary of a CONDITIONAL node is spelled out as its two known keys. */
  datatype Node =
    | Call(tool: string, args: Args)
    | Parallel(children: seq<Node>)
    | Sequence(children: seq<Node>)
    | Conditional(condition: string, children: seq<Node>, elseChildren: seq<Node>)
    | Workflow(args: Args)
    | Task(args: Args)
    | Agent(agentId: string)
    | Command(word: string, args: Args)

  /** Python's str.upper, on ASCII letters. */
  function UpperCase(s: string): (u: string)
    ensures |u| == |s|
  {
    seq(|s|, i requires 0 <= i < |s| => UpperChar(s[i]))
  }

  function UpperChar(c: char): char {
    if 'a' <= c <= 'z' then c - 32 as char else c
  }

  /** Python's str.lower, on ASCII letters. */
  function LowerCase(s: string): (l: string)
    ensures |l| == |s|
  {
    seq(|s|, i requires 0 <= i < |s| => LowerChar(s[i]))
  }

  function LowerChar(c: char): char {
    if 'A' <= c <= 'Z' then c + 32 as char else c
  }

  /** The characters Python's str.strip removes. */
  predicate IsSpace(c: char) {
    || '\t' <= c <= '\r'
    || '\U{1c}' <= c <= ' '
    || c in {'\U{85}', '\U{a0}', '\U{1680}', '\U{2028}', '\U{2029}', '\U{202f}', '\U{205f}', '\U{3000}'}
    || '\U{2000}' <= c <= '\U{200a}'
  }

  /** Python's str.strip(). */
  function Strip(s: string): string {
    StripRight(StripLeft(s))
  }

  function StripLeft(s: string): string {
    if s != "" && IsSpace(s[0]) then StripLeft(s[1..]) else s
  }

  function StripRight(s: string): string {
    if s != "" && IsSpace(s[|s| - 1]) then StripRight(s[..|s| - 1]) else s
  }

  /** Python's sep.join(parts). */
  function Join(sep: string, parts: seq<string>): string {
    if parts == [] then ""
    else if |parts| == 1 then parts[0]
    else parts[0] + sep + Join(sep, parts[1..])
  }

  /** Python's str(n) for a natural number. */
  function Digits(n: nat): (s: string)
    ensures |s| > 0 && forall i :: 0 <= i < |s| ==> '0' <= s[i] <= '9'
  {
    var digit := ['0' + (n % 10) as char];
    if n < 10 then digit else Digits(n / 10) + digit
  }

  /** Python's s.startswith(prefix) */
  predicate StartsWith(s: string, prefix: string) {
    prefix <= s
  }
}
