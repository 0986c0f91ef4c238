/** Argument lists. The AST builder, the token validator and the tokenizer each walk the same list with
    their own loop (src/praxis_sdk/dsl/ast_builder.py:149-192, validator.py:299-326,
    tokenizer.py:238-262); this is the walk they share and the dictionary the builder makes of it. */
module Arguments {
  import opened Wrappers
  import opened DslTypes
  import Sequences

  /** One step of the walk. */
  datatype Item = Flag(key: string) | Pair(key: string, value: string) | Positional(value: string)

  predicate IsOption(arg: string) {
    StartsWith(arg, "--")
  }

  function Walk(args: seq<string>): seq<Item> {
    if args == [] then []
    else if IsOption(args[0]) then
      if |args| > 1 && !IsOption(args[1]) then [Pair(args[0][2..], args[1])] + Walk(args[2..])
      else [Flag(args[0][2..])] + Walk(args[1..])
    else [Positional(args[0])] + Walk(args[1..])
  }

  // ---- Keys ------------------------------------------------------------------------------------

  predicate IsLetter(c: char) {
    'a' <= c <= 'z' || 'A' <= c <= 'Z' || c == '_'
  }

  predicate IsName(s: string) {
    s != "" && IsLetter(s[0]) && forall i :: 0 < i < |s| ==> IsLetter(s[i]) || '0' <= s[i] <= '9'
  }

  /** re.match(r"^[a-zA-Z_][a-zA-Z0-9_]*$", s). The dollar sign also matches before a final newline. */
  predicate MatchesName(s: string) {
    IsName(s) || (s != "" && s[|s| - 1] == '\n' && IsName(s[..|s| - 1]))
  }

  /** Tool names that pass validation have no colon, as the cache keys need. */
  lemma NamesHaveNoColon(s: string)
    requires MatchesName(s)
    ensures ':' !in s
  {
    var core := if IsName(s) then s else s[..|s| - 1];
    assert s == core || s == core + "\n";
    assert forall i :: 0 <= i < |core| ==> core[i] != ':';
  }

  function KeyOf(item: Item): Option<string> {
    match item
    case Flag(k) => Some(k)
    case Pair(k, _) => Some(k)
    case Positional(_) => None
  }

  /** The items whose key is malformed, in order: what the walks of the validators look for. */
  function BadKeys(items: seq<Item>): seq<string> {
    if items == [] then []
    else
      var key := KeyOf(items[0]);
      (if key.Some? && !MatchesName(key.value) then [key.value] else []) + BadKeys(items[1..])
  }

  // ---- The dictionary the builder makes ----------------------------------------------------------

  /** TOOL_PARAMETER_MAPPING (src/praxis_sdk/dsl/types.py:229-254). */
  const TOOL_PARAMETERS: map<string, seq<string>> := map[
    "read_file" := ["filename", "encoding"],
    "write_file" := ["filename", "content", "encoding"],
    "delete_file" := ["filename"],
    "list_files" := ["directory", "pattern", "recursive"],
    "list_directory" := ["directory", "pattern", "recursive"],
    "create_directory" := ["directory", "recursive"],
    "move_file" := ["source", "destination"],
    "copy_file" := ["source", "destination"],
    "search_files" := ["pattern", "directory", "recursive"]
  ]

  /** _get_positional_param_name */
  function ParameterName(tool: string, position: nat): Option<string> {
    if tool in TOOL_PARAMETERS && position < |TOOL_PARAMETERS[tool]| then Some(TOOL_PARAMETERS[tool][position])
    else None
  }

  /** The key a positional argument gets. */
  function PositionalKey(tool: string, position: nat): string {
    match ParameterName(tool, position)
    case Some(name) => name
    case None => "arg" + Digits(position)
  }

  /** The argument that takes in the rest of the line. */
  predicate TakesRest(tool: string, position: nat) {
    tool == "write_file" && ParameterName(tool, position) == Some("content")
  }

  /** content.strip("\"'") */
  function StripQuotes(s: string): string {
    if s != "" && s[0] in {'"', '\''} then StripQuotes(s[1..])
    else if s != "" && s[|s| - 1] in {'"', '\''} then StripQuotes(s[..|s| - 1])
    else s
  }

  /** Type detection, applied to one argument. What it detects is not part of this model. */
  type ValueParser = string -> Value

  function ParseValue(parse: ValueParser, s: string): Value {
    parse(s)
  }

  /** _parse_tool_arguments, from the argument at the head of the list on. */
  function ToolArguments(parse: ValueParser, tool: string, args: seq<string>, position: nat, found: Args): Args
    decreases |args|
  {
    if args == [] then found
    else if IsOption(args[0]) then
      if |args| > 1 && !IsOption(args[1]) then
        ToolArguments(parse, tool, args[2..], position, found[args[0][2..] := ParseValue(parse, args[1])])
      else
        ToolArguments(parse, tool, args[1..], position, found[args[0][2..] := Bool(true)])
    else if TakesRest(tool, position) then
      found["content" := Text(StripQuotes(Join(" ", args)))]
    else
      ToolArguments(parse, tool, args[1..], position + 1, found[PositionalKey(tool, position) := ParseValue(parse, args[0])])
  }

  /** The dictionary of a walk: options under their own key, positionals under the tool's names. */
  function Bind(parse: ValueParser, tool: string, items: seq<Item>, position: nat, found: Args): Args
    decreases |items|
  {
    if items == [] then found
    else
      match items[0]
      case Flag(k) => Bind(parse, tool, items[1..], position, found[k := Bool(true)])
      case Pair(k, v) => Bind(parse, tool, items[1..], position, found[k := ParseValue(parse, v)])
      case Positional(v) =>
        Bind(parse, tool, items[1..], position + 1, found[PositionalKey(tool, position) := ParseValue(parse, v)])
  }

  function Positionals(items: seq<Item>): nat {
    if items == [] then 0 else (if items[0].Positional? then 1 else 0) + Positionals(items[1..])
  }

  /** How many arguments stand before the one that takes in the rest of the line; all, if none does. */
  function RestAt(tool: string, args: seq<string>, position: nat): (n: nat)
    ensures n <= |args|
    decreases |args|
  {
    if args == [] then 0
    else if IsOption(args[0]) then
      if |args| > 1 && !IsOption(args[1]) then 2 + RestAt(tool, args[2..], position)
      else 1 + RestAt(tool, args[1..], position)
    else if TakesRest(tool, position) then 0
    else 1 + RestAt(tool, args[1..], position + 1)
  }

  /** Only write_file has such an argument: its second positional one. */
  lemma {:induction false} RestStarts(tool: string, args: seq<string>, position: nat)
    ensures var n := RestAt(tool, args, position);
            && (n < |args| <==> tool == "write_file" && position <= 1 && position + Positionals(Walk(args)) >= 2)
            && (n < |args| ==> !IsOption(args[n]))
    decreases |args|
  {
    if args != [] {
      OnlyTheSecond(tool, position);
      if IsOption(args[0]) {
        var step := if |args| > 1 && !IsOption(args[1]) then 2 else 1;
        RestStarts(tool, args[step..], position);
        OptionIsNoPositional(args, step);
      } else {
        WalkOne(args, args[1..]);
        if !TakesRest(tool, position) {
          RestStarts(tool, args[1..], position + 1);
        }
      }
    }
  }

  lemma OptionIsNoPositional(args: seq<string>, step: nat)
    requires args != [] && IsOption(args[0]) && step == (if |args| > 1 && !IsOption(args[1]) then 2 else 1)
    ensures Positionals(Walk(args)) == Positionals(Walk(args[step..]))
  {
    if step == 2 {
      WalkPair(args, args[2..]);
    } else {
      WalkOne(args, args[1..]);
    }
  }

  lemma OnlyTheSecond(tool: string, position: nat)
    ensures TakesRest(tool, position) <==> tool == "write_file" && position == 1
  {
    var names := TOOL_PARAMETERS["write_file"];
    assert names[0] == "filename" && names[1] == "content" && names[2] == "encoding";
    assert "filename"[0] != "content"[0] && "encoding"[0] != "content"[0];
  }

  /** The dictionary of a walk over some arguments, and of a rest that is joined, stripped of quotes and
      stored unparsed under content. */
  function BindWithRest(parse: ValueParser, tool: string, args: seq<string>, rest: seq<string>, position: nat, found: Args): Args {
    var d := Bind(parse, tool, Walk(args), position, found);
    if rest == [] then d else d["content" := Text(StripQuotes(Join(" ", rest)))]
  }

  /** The first argument, with its value if it has one, does the same in the builder's loop and in the walk. */
  lemma FirstArgument(parse: ValueParser, tool: string, args: seq<string>, n: nat, position: nat, found: Args)
    returns (step: nat, position': nat, found': Args)
    requires args != [] && (IsOption(args[0]) || !TakesRest(tool, position)) && n == RestAt(tool, args, position)
    ensures 1 <= step <= n && n - step == RestAt(tool, args[step..], position')
    ensures ToolArguments(parse, tool, args, position, found) == ToolArguments(parse, tool, args[step..], position', found')
    ensures Bind(parse, tool, Walk(args[..n]), position, found) == Bind(parse, tool, Walk(args[step..n]), position', found')
  {
    if !IsOption(args[0]) {
      step, position', found' := 1, position + 1, found[PositionalKey(tool, position) := ParseValue(parse, args[0])];
      WalkOne(args[..n], args[1..n]);
    } else if |args| > 1 && !IsOption(args[1]) {
      step, position', found' := 2, position, found[args[0][2..] := ParseValue(parse, args[1])];
      WalkPair(args[..n], args[2..n]);
    } else {
      step, position', found' := 1, position, found[args[0][2..] := Bool(true)];
      WalkOne(args[..n], args[1..n]);
    }
  }

  /** The builder's dictionary is that of the walk the validators share, for every tool and argument list:
      up to the argument that takes in the rest of the line, if there is one. */
  lemma {:induction false} BuilderFollowsWalk(parse: ValueParser, tool: string, args: seq<string>, position: nat, found: Args)
    ensures var n := RestAt(tool, args, position);
            ToolArguments(parse, tool, args, position, found) == BindWithRest(parse, tool, args[..n], args[n..], position, found)
    decreases |args|
  {
    var n := RestAt(tool, args, position);
    if args != [] && (IsOption(args[0]) || !TakesRest(tool, position)) {
      var step, position', found' := FirstArgument(parse, tool, args, n, position, found);
      BuilderFollowsWalk(parse, tool, args[step..], position', found');
      assert args[step..][..n - step] == args[step..n] && args[step..][n - step..] == args[n..];
    }
  }

  lemma WalkPair(args: seq<string>, later: seq<string>)
    requires |args| >= 2 && args[2..] == later && IsOption(args[0]) && !IsOption(args[1])
    ensures Walk(args) != [] && Walk(args)[0] == Pair(args[0][2..], args[1]) && Walk(args)[1..] == Walk(later)
  {
  }

  lemma WalkOne(args: seq<string>, later: seq<string>)
    requires args != [] && args[1..] == later
    requires IsOption(args[0]) ==> later == [] || IsOption(later[0])
    ensures Walk(args) != [] && Walk(args)[1..] == Walk(later)
    ensures Walk(args)[0] == if IsOption(args[0]) then Flag(args[0][2..]) else Positional(args[0])
  {
  }

  /** The second positional argument of write_file swallows the rest of the line, unparsed. */
  lemma WriteFileTakesRest(parse: ValueParser, args: seq<string>, found: Args)
    requires args != [] && !IsOption(args[0])
    ensures ToolArguments(parse, "write_file", args, 1, found) == found["content" := Text(StripQuotes(Join(" ", args)))]
  {
    OnlyTheSecond("write_file", 1);
  }

  /** Keys can be checked without walking: an argument that looks like an option is one, wherever it
      stands, because it is never taken for a value. */
  lemma {:induction false} KeysAreLocal(args: seq<string>)
    ensures BadKeys(Walk(args)) == [] <==> forall a :: a in args && IsOption(a) ==> MatchesName(a[2..])
    decreases |args|
  {
    if args != [] {
      if IsOption(args[0]) && |args| > 1 && !IsOption(args[1]) {
        KeysAreLocal(args[2..]);
        WalkPair(args, args[2..]);
        assert forall a :: a in args <==> a == args[0] || a == args[1] || a in args[2..];
      } else {
        KeysAreLocal(args[1..]);
        WalkOne(args, args[1..]);
        assert forall a :: a in args <==> a == args[0] || a in args[1..];
      }
    }
  }

  // ---- Printing a dictionary and parsing it back -------------------------------------------------

  /** --k v for every entry */
  function Print(entries: seq<(string, string)>): seq<string> {
    if entries == [] then [] else ["--" + entries[0].0, entries[0].1] + Print(entries[1..])
  }

  ghost predicate Printable(entries: seq<(string, string)>) {
    && (forall i :: 0 <= i < |entries| ==> !IsOption(entries[i].1))
    && (forall i, j :: 0 <= i < j < |entries| ==> entries[i].0 != entries[j].0)
  }

  lemma {:induction false} WalkOfPrinted(entries: seq<(string, string)>)
    requires forall i :: 0 <= i < |entries| ==> !IsOption(entries[i].1)
    ensures |Walk(Print(entries))| == |entries|
    ensures forall i :: 0 <= i < |entries| ==> Walk(Print(entries))[i] == Pair(entries[i].0, entries[i].1)
  {
    if entries != [] {
      var (k, v) := entries[0];
      var rest := Print(entries[1..]);
      assert Print(entries) == ["--" + k, v] + rest;
      assert Print(entries)[2..] == rest && Print(entries)[1] == v;
      assert IsOption("--" + k) && ("--" + k)[2..] == k;
      WalkOfPrinted(entries[1..]);
    }
  }

  lemma {:induction false} BindPairs(parse: ValueParser, tool: string, entries: seq<(string, string)>, items: seq<Item>, position: nat, found: Args)
    requires |items| == |entries| && forall i :: 0 <= i < |entries| ==> items[i] == Pair(entries[i].0, entries[i].1)
    requires forall i, j :: 0 <= i < j < |entries| ==> entries[i].0 != entries[j].0
    ensures var d := Bind(parse, tool, items, position, found);
            && (forall i :: 0 <= i < |entries| ==> entries[i].0 in d && d[entries[i].0] == ParseValue(parse, entries[i].1))
            && (forall k :: k in found && (forall i :: 0 <= i < |entries| ==> entries[i].0 != k) ==> k in d && d[k] == found[k])
            && (forall k :: k in d ==> k in found || exists i :: 0 <= i < |entries| && entries[i].0 == k)
    decreases |entries|
  {
    if entries != [] {
      var (k, v) := entries[0];
      var found' := found[k := ParseValue(parse, v)];
      var d := Bind(parse, tool, items, position, found);
      BindPairs(parse, tool, entries[1..], items[1..], position, found');
      assert d == Bind(parse, tool, items[1..], position, found');
      forall i | 0 <= i < |entries| ensures entries[i].0 in d && d[entries[i].0] == ParseValue(parse, entries[i].1) {
        if i == 0 {
          assert forall j :: 0 <= j < |entries[1..]| ==> entries[1..][j].0 == entries[j + 1].0;
        } else {
          assert entries[i] == entries[1..][i - 1];
        }
      }
      forall key | key in found && forall i :: 0 <= i < |entries| ==> entries[i].0 != key
        ensures key in d && d[key] == found[key]
      {
        assert entries[0].0 != key;
        assert forall j :: 0 <= j < |entries[1..]| ==> entries[1..][j] == entries[j + 1];
      }
      forall key | key in d && key !in found ensures exists i :: 0 <= i < |entries| && entries[i].0 == key {
        if key != k {
          var j :| 0 <= j < |entries[1..]| && entries[1..][j].0 == key;
          assert entries[j + 1].0 == key;
        } else {
          assert entries[0].0 == key;
        }
      }
    }
  }

  /** Printing a dictionary as --k v and parsing it gives the dictionary back, with each value passed
      through the value parser: for every tool, write_file included. */
  lemma PrintedArgumentsComeBack(parse: ValueParser, tool: string, entries: seq<(string, string)>)
    requires Printable(entries)
    ensures var d := ToolArguments(parse, tool, Print(entries), 0, map[]);
            && (forall i :: 0 <= i < |entries| ==> entries[i].0 in d && d[entries[i].0] == ParseValue(parse, entries[i].1))
            && (forall k :: k in d ==> exists i :: 0 <= i < |entries| && entries[i].0 == k)
  {
    PrintedFollowsWalk(parse, tool, entries, map[]);
    WalkOfPrinted(entries);
    BindPairs(parse, tool, entries, Walk(Print(entries)), 0, map[]);
  }

  lemma {:induction false} PrintedFollowsWalk(parse: ValueParser, tool: string, entries: seq<(string, string)>, found: Args)
    requires forall i :: 0 <= i < |entries| ==> !IsOption(entries[i].1)
    ensures ToolArguments(parse, tool, Print(entries), 0, found) == Bind(parse, tool, Walk(Print(entries)), 0, found)
    decreases |entries|
  {
    if entries != [] {
      var (k, v) := entries[0];
      var rest := Print(entries[1..]);
      assert Print(entries) == ["--" + k, v] + rest;
      assert Print(entries)[2..] == rest && Print(entries)[1] == v;
      assert IsOption("--" + k) && ("--" + k)[2..] == k;
      PrintedFollowsWalk(parse, tool, entries[1..], found[k := ParseValue(parse, v)]);
      assert Walk(Print(entries))[1..] == Walk(rest);
    }
  }
}
