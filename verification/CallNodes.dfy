/** What a single command becomes as a program of its own, argument by argument
    (src/praxis_sdk/dsl/ast_builder.py:106-192, 330-508, src/praxis_sdk/dsl/types.py:229-254). TokenNodes
    has it that a command becomes the same node anywhere. */
module CallNodes {
  import opened Wrappers
  import opened DslTypes
  import opened Arguments
  import opened Parsing
  import opened TokenNodes
  import Texts

  // ---- Programs of one token -------------------------------------------------------------------------

  /** The one node of a program of one leaf token. */
  lemma {:induction false} LeafAlone(parse: ValueParser, t: Token)
    requires !OpensBlock(KeywordOf(t)) && LeafNode(parse, t).Some?
    requires LeafNode(parse, t).value.Call? ==> LeafNode(parse, t).value.tool != ""
    ensures BuildAst(parse, [t]) == Built([LeafNode(parse, t).value])
  {
    var ts, node := [t], LeafNode(parse, t).value;
    assert !node.Parallel? && !node.Sequence? && !node.Conditional?;
    assert ParseAll(parse, ts, 1) == Ok([], 1);
    assert ParseNode(parse, ts, 0) == Ok(node, 1);
    assert [node] + [] == [node] && [node][1..] == [];
    assert AllValid([]) && ValidNode(node);
  }

  lemma {:induction false} CallLeaf(parse: ValueParser, t: Token, tool: string, args: seq<string>)
    requires UpperCase(t.value) == "CALL" && t.args == [tool] + args && tool != ""
    ensures BuildAst(parse, [t]) == Built([Call(tool, ToolArguments(parse, tool, args, 0, map[]))])
  {
    assert t.args[0] == tool && t.args[1..] == args;
    assert LeafNode(parse, t) == Some(Call(tool, ToolArguments(parse, tool, args, 0, map[])));
    LeafAlone(parse, t);
  }

  // ---- CALL with named arguments ---------------------------------------------------------------------

  /** The dictionary holds these entries, values passed through the value parser, and nothing else. */
  ghost predicate Holds(d: Args, entries: seq<(string, string)>, parse: ValueParser) {
    && (forall i :: 0 <= i < |entries| ==> entries[i].0 in d && d[entries[i].0] == parse(entries[i].1))
    && (forall k :: k in d ==> exists i :: 0 <= i < |entries| && entries[i].0 == k)
  }

  /** CALL tool --k v ... becomes a call of that tool with exactly those arguments. */
  lemma {:induction false} CallKeepsEntries(parse: ValueParser, t: Token, tool: string, entries: seq<(string, string)>)
    requires UpperCase(t.value) == "CALL" && t.args == [tool] + Print(entries) && tool != ""
    requires forall i :: 0 <= i < |entries| ==> !("--" <= entries[i].1)
    requires forall i, j :: 0 <= i < j < |entries| ==> entries[i].0 != entries[j].0
    ensures var b := BuildAst(parse, [t]);
            && b.Built? && |b.nodes| == 1 && b.nodes[0].Call? && b.nodes[0].tool == tool
            && Holds(b.nodes[0].args, entries, parse)
  {
    CallLeaf(parse, t, tool, Print(entries));
    PrintedArgumentsComeBack(parse, tool, entries);
    forall i | 0 <= i < |entries| ensures ParseValue(parse, entries[i].1) == parse(entries[i].1) {
    }
  }

  /** The same holds of such a CALL anywhere in a program, inside any blocks. */
  lemma {:induction false} CallKeepsEntriesAnywhere(parse: ValueParser, ts: seq<Token>, i: nat, tool: string, entries: seq<(string, string)>)
    requires BuildAst(parse, ts).Built? && i < |ts|
    requires UpperCase(ts[i].value) == "CALL" && ts[i].args == [tool] + Print(entries) && tool != ""
    requires forall i :: 0 <= i < |entries| ==> !("--" <= entries[i].1)
    requires forall i, j :: 0 <= i < j < |entries| ==> entries[i].0 != entries[j].0
    ensures var nodes, rank := PreOrderAll(BuildAst(parse, ts).nodes), Rank(Keywords(ts), i);
            && rank < |nodes| && nodes[rank].Call? && nodes[rank].tool == tool
            && Holds(nodes[rank].args, entries, parse)
  {
    CallKeepsEntries(parse, ts[i], tool, entries);
    var node := BuildAst(parse, [ts[i]]).nodes[0];
    assert BuildAst(parse, [ts[i]]).nodes == [node];
    LeafIsTheSame(parse, ts, i, node);
  }

  /** A lone flag is true. */
  lemma {:induction false} CallKeepsFlag(parse: ValueParser, t: Token, tool: string, flag: string)
    requires UpperCase(t.value) == "CALL" && t.args == [tool, "--" + flag] && tool != ""
    ensures BuildAst(parse, [t]) == Built([Call(tool, map[flag := Bool(true)])])
  {
    var args := ["--" + flag];
    assert t.args == [tool] + args && args[1..] == [];
    assert IsOption(args[0]) && args[0][2..] == flag;
    CallLeaf(parse, t, tool, args);
    assert ToolArguments(parse, tool, [], 0, map[flag := Bool(true)]) == map[flag := Bool(true)];
  }

  /** A CALL without a tool is a syntax error, and one with an empty tool fails validation. */
  lemma {:induction false} CallNeedsTool(parse: ValueParser, t: Token)
    requires UpperCase(t.value) == "CALL"
    ensures t.args == [] ==> BuildAst(parse, [t]) == DSLSyntaxError
    ensures t.args != [] && t.args[0] == "" ==> BuildAst(parse, [t]) == DSLValidationError
  {
    var ts := [t];
    if t.args == [] {
      assert ParseNode(parse, ts, 0) == SyntaxError;
    } else if t.args[0] == "" {
      var node := Call("", ToolArguments(parse, "", t.args[1..], 0, map[]));
      assert ParseAll(parse, ts, 1) == Ok([], 1);
      assert ParseNode(parse, ts, 0) == Ok(node, 1);
      assert [node] + [] == [node];
      assert !ValidNode(node);
    }
  }

  // ---- CALL with positional arguments ----------------------------------------------------------------

  lemma {:induction false} OnePositional(parse: ValueParser, tool: string, v: string, rest: seq<string>, position: nat, found: Args)
    requires !("--" <= v) && !TakesRest(tool, position)
    ensures ToolArguments(parse, tool, [v] + rest, position, found)
         == ToolArguments(parse, tool, rest, position + 1, found[PositionalKey(tool, position) := parse(v)])
  {
    assert ([v] + rest)[1..] == rest;
  }

  /** The program CALL tool v ... */
  function CallOf(parse: ValueParser, tool: string, values: seq<string>): BuildResult {
    BuildAst(parse, [Word("CALL", [tool] + values)])
  }

  lemma {:induction false} CallWord(parse: ValueParser, tool: string, values: seq<string>)
    requires tool != ""
    ensures CallOf(parse, tool, values) == Built([Call(tool, ToolArguments(parse, tool, values, 0, map[]))])
  {
    assert UpperCase("CALL") == "CALL";
    CallLeaf(parse, Word("CALL", [tool] + values), tool, values);
  }

  lemma {:induction false} TwoPositionals(parse: ValueParser, tool: string, a: string, b: string)
    requires !("--" <= a) && !("--" <= b) && tool != "write_file" && tool != ""
    ensures CallOf(parse, tool, [a]) == Built([Call(tool, map[PositionalKey(tool, 0) := parse(a)])])
    ensures CallOf(parse, tool, [a, b])
         == Built([Call(tool, map[PositionalKey(tool, 0) := parse(a), PositionalKey(tool, 1) := parse(b)])])
  {
    CallWord(parse, tool, [a]);
    CallWord(parse, tool, [a, b]);
    assert [a] == [a] + [] && [a, b] == [a] + [b] && [b] == [b] + [];
    OnePositional(parse, tool, a, [], 0, map[]);
    OnePositional(parse, tool, a, [b], 0, map[]);
    OnePositional(parse, tool, b, [], 1, map[PositionalKey(tool, 0) := parse(a)]);
  }

  lemma {:induction false} ThreePositionals(parse: ValueParser, tool: string, a: string, b: string, c: string)
    requires !("--" <= a) && !("--" <= b) && !("--" <= c) && tool != "write_file" && tool != ""
    ensures CallOf(parse, tool, [a, b, c])
         == Built([Call(tool, map[PositionalKey(tool, 0) := parse(a), PositionalKey(tool, 1) := parse(b), PositionalKey(tool, 2) := parse(c)])])
  {
    CallWord(parse, tool, [a, b, c]);
    assert [a, b, c] == [a] + [b, c] && [b, c] == [b] + [c] && [c] == [c] + [];
    OnePositional(parse, tool, a, [b, c], 0, map[]);
    OnePositional(parse, tool, b, [c], 1, map[PositionalKey(tool, 0) := parse(a)]);
    OnePositional(parse, tool, c, [], 2, map[PositionalKey(tool, 0) := parse(a)][PositionalKey(tool, 1) := parse(b)]);
  }

  /** The positional arguments of the file tools get these names. */
  lemma {:induction false} FileCalls(parse: ValueParser, a: string, b: string)
    requires !("--" <= a) && !("--" <= b)
    ensures CallOf(parse, "read_file", [a]) == Built([Call("read_file", map["filename" := parse(a)])])
    ensures CallOf(parse, "read_file", [a, b]) == Built([Call("read_file", map["filename" := parse(a), "encoding" := parse(b)])])
    ensures CallOf(parse, "delete_file", [a]) == Built([Call("delete_file", map["filename" := parse(a)])])
    ensures CallOf(parse, "move_file", [a, b]) == Built([Call("move_file", map["source" := parse(a), "destination" := parse(b)])])
    ensures CallOf(parse, "copy_file", [a, b]) == Built([Call("copy_file", map["source" := parse(a), "destination" := parse(b)])])
  {
    FileParameters();
    TwoPositionals(parse, "read_file", a, b);
    TwoPositionals(parse, "delete_file", a, b);
    TwoPositionals(parse, "move_file", a, b);
    TwoPositionals(parse, "copy_file", a, b);
  }

  lemma {:induction false} FileParameters()
    ensures PositionalKey("read_file", 0) == "filename" && PositionalKey("read_file", 1) == "encoding"
    ensures PositionalKey("delete_file", 0) == "filename"
    ensures PositionalKey("move_file", 0) == "source" && PositionalKey("move_file", 1) == "destination"
    ensures PositionalKey("copy_file", 0) == "source" && PositionalKey("copy_file", 1) == "destination"
  {
  }

  /** And those of the directory tools. */
  lemma {:induction false} DirectoryCalls(parse: ValueParser, a: string, b: string, c: string)
    requires !("--" <= a) && !("--" <= b) && !("--" <= c)
    ensures CallOf(parse, "create_directory", [a, b])
         == Built([Call("create_directory", map["directory" := parse(a), "recursive" := parse(b)])])
    ensures CallOf(parse, "list_files", [a, b, c])
         == Built([Call("list_files", map["directory" := parse(a), "pattern" := parse(b), "recursive" := parse(c)])])
    ensures CallOf(parse, "list_directory", [a, b, c])
         == Built([Call("list_directory", map["directory" := parse(a), "pattern" := parse(b), "recursive" := parse(c)])])
    ensures CallOf(parse, "search_files", [a, b, c])
         == Built([Call("search_files", map["pattern" := parse(a), "directory" := parse(b), "recursive" := parse(c)])])
  {
    DirectoryParameters();
    TwoPositionals(parse, "create_directory", a, b);
    ThreePositionals(parse, "list_files", a, b, c);
    ThreePositionals(parse, "list_directory", a, b, c);
    ThreePositionals(parse, "search_files", a, b, c);
  }

  lemma {:induction false} DirectoryParameters()
    ensures PositionalKey("create_directory", 0) == "directory" && PositionalKey("create_directory", 1) == "recursive"
    ensures PositionalKey("list_files", 0) == "directory" && PositionalKey("list_files", 1) == "pattern"
    ensures PositionalKey("list_files", 2) == "recursive"
    ensures PositionalKey("list_directory", 0) == "directory" && PositionalKey("list_directory", 1) == "pattern"
    ensures PositionalKey("list_directory", 2) == "recursive"
    ensures PositionalKey("search_files", 0) == "pattern" && PositionalKey("search_files", 1) == "directory"
    ensures PositionalKey("search_files", 2) == "recursive"
  {
  }

  /** Positional arguments without a name are numbered. */
  lemma {:induction false} NumberedCalls(parse: ValueParser, tool: string, a: string, b: string, c: string)
    requires !("--" <= a) && !("--" <= b) && !("--" <= c) && tool != "" && tool !in TOOL_PARAMETERS
    ensures CallOf(parse, tool, [a, b]) == Built([Call(tool, map["arg0" := parse(a), "arg1" := parse(b)])])
    ensures CallOf(parse, "move_file", [a, b, c])
         == Built([Call("move_file", map["source" := parse(a), "destination" := parse(b), "arg2" := parse(c)])])
  {
    FileParameters();
    assert tool != "write_file";
    assert PositionalKey(tool, 0) == "arg0" && PositionalKey(tool, 1) == "arg1" && PositionalKey("move_file", 2) == "arg2";
    TwoPositionals(parse, tool, a, b);
    ThreePositionals(parse, "move_file", a, b, c);
  }

  /** Options do not count as positions. */
  lemma {:induction false} OptionsDoNotCount(parse: ValueParser, tool: string, k: string, v: string, a: string)
    requires !("--" <= v) && !("--" <= a) && tool != "write_file" && tool != ""
    ensures CallOf(parse, tool, ["--" + k, v, a]) == Built([Call(tool, map[k := parse(v)][PositionalKey(tool, 0) := parse(a)])])
    ensures CallOf(parse, tool, [a, "--" + k]) == Built([Call(tool, map[PositionalKey(tool, 0) := parse(a)][k := Bool(true)])])
  {
    var key := "--" + k;
    assert IsOption(key) && key[2..] == k;
    CallWord(parse, tool, [key, v, a]);
    CallWord(parse, tool, [a, key]);
    assert [key, v, a][2..] == [a] && [a] == [a] + [] && [a, key] == [a] + [key] && [key][1..] == [];
    OnePositional(parse, tool, a, [], 0, map[k := parse(v)]);
    OnePositional(parse, tool, a, [key], 0, map[]);
  }

  /** write_file takes what follows the file name as its content: joined by spaces, and never parsed. */
  lemma {:induction false} WriteFileCall(parse: ValueParser, file: string, words: seq<string>)
    requires !("--" <= file) && words != [] && !("--" <= words[0]) && Texts.QuoteFree(Join(" ", words))
    ensures CallOf(parse, "write_file", [file] + words)
         == Built([Call("write_file", map["filename" := parse(file), "content" := Text(Join(" ", words))])])
  {
    CallWord(parse, "write_file", [file] + words);
    OnlyTheSecond("write_file", 0);
    OnlyTheSecond("write_file", 1);
    assert PositionalKey("write_file", 0) == "filename";
    OnePositional(parse, "write_file", file, words, 0, map[]);
    WriteFileTakesRest(parse, words, map["filename" := parse(file)]);
    Texts.StripsQuotes("", Join(" ", words), "");
    assert "" + Join(" ", words) + "" == Join(" ", words);
  }

  // ---- The other commands ----------------------------------------------------------------------------

  lemma {:induction false} LeafOf(parse: ValueParser, t: Token, node: Node)
    requires KeywordOf(t) !in {CALL, PARALLEL, SEQUENCE, IF} && LeafNode(parse, t) == Some(node) && !node.Call?
    ensures BuildAst(parse, [t]) == Built([node])
  {
    LeafAlone(parse, t);
  }

  /** AGENT keeps its first argument, and nothing stands for none. */
  lemma {:induction false} AgentAlone(parse: ValueParser, t: Token)
    requires UpperCase(t.value) == "AGENT"
    ensures BuildAst(parse, [t]) == Built([Agent(if t.args == [] then "" else t.args[0])])
  {
    LeafOf(parse, t, Agent(FirstOr(t.args, "")));
  }

  /** TASK and WORKFLOW keep their name and the values behind their keys; a last key without a value is
      dropped. */
  lemma {:induction false} NamedAlone(parse: ValueParser, t: Token, name: string, entries: seq<(string, string)>, tail: seq<string>)
      returns (d: Args)
    requires t.args == [name] + Print(entries) + tail && |tail| <= 1
    requires forall i :: 0 <= i < |entries| ==> entries[i].0 != "name" && (entries[i].0 == "" || entries[i].0[0] != '-')
    requires forall i, j :: 0 <= i < j < |entries| ==> entries[i].0 != entries[j].0
    ensures UpperCase(t.value) == "TASK" ==> BuildAst(parse, [t]) == Built([Task(d)])
    ensures UpperCase(t.value) == "WORKFLOW" ==> BuildAst(parse, [t]) == Built([Workflow(d)])
    ensures Holds(d - {"name"}, entries, parse) && "name" in d && d["name"] == Text(name)
  {
    d := BlockArgs(parse, t);
    var rest := Print(entries) + tail;
    assert t.args == [name] + rest && ([name] + rest)[1..] == rest;
    assert d == NamedArgs(parse, rest, map["name" := Text(name)]);
    NamedLeaf(parse, t);
    NamedPairs(parse, entries, tail, map["name" := Text(name)]);
    hide *;
    HoldsBesideName(parse, d, name, entries);
  }

  lemma HoldsBesideName(parse: ValueParser, d: Args, name: string, entries: seq<(string, string)>)
    requires forall i :: 0 <= i < |entries| ==> entries[i].0 != "name"
    requires forall i :: 0 <= i < |entries| ==> entries[i].0 in d && d[entries[i].0] == parse(entries[i].1)
    requires var found := map["name" := Text(name)];
      && (forall k :: k in found && (forall i :: 0 <= i < |entries| ==> entries[i].0 != k) ==> k in d && d[k] == found[k])
      && (forall k :: k in d ==> k in found || exists i :: 0 <= i < |entries| && entries[i].0 == k)
    ensures Holds(d - {"name"}, entries, parse) && "name" in d && d["name"] == Text(name)
  {
    assert "name" in map["name" := Text(name)];
  }

  lemma {:induction false} NamedLeaf(parse: ValueParser, t: Token)
    ensures UpperCase(t.value) == "TASK" ==> BuildAst(parse, [t]) == Built([Task(BlockArgs(parse, t))])
    ensures UpperCase(t.value) == "WORKFLOW" ==> BuildAst(parse, [t]) == Built([Workflow(BlockArgs(parse, t))])
  {
    hide BlockArgs;
    if UpperCase(t.value) == "TASK" {
      LeafOf(parse, t, Task(BlockArgs(parse, t)));
    }
    if UpperCase(t.value) == "WORKFLOW" {
      LeafOf(parse, t, Workflow(BlockArgs(parse, t)));
    }
  }

  lemma {:induction false} NamedPairs(parse: ValueParser, entries: seq<(string, string)>, tail: seq<string>, found: Args)
    requires |tail| <= 1
    requires forall i :: 0 <= i < |entries| ==> entries[i].0 == "" || entries[i].0[0] != '-'
    requires forall i, j :: 0 <= i < j < |entries| ==> entries[i].0 != entries[j].0
    ensures var d := NamedArgs(parse, Print(entries) + tail, found);
            && (forall i :: 0 <= i < |entries| ==> entries[i].0 in d && d[entries[i].0] == parse(entries[i].1))
            && (forall k :: k in found && (forall i :: 0 <= i < |entries| ==> entries[i].0 != k) ==> k in d && d[k] == found[k])
            && (forall k :: k in d ==> k in found || exists i :: 0 <= i < |entries| && entries[i].0 == k)
    decreases |entries|
  {
    if entries == [] {
      assert Print(entries) + tail == tail;
    } else {
      var (k, v) := entries[0];
      var rest, dashed := Print(entries[1..]), "--" + k;
      var found' := found[k := parse(v)];
      assert dashed[1..] == "-" + k && ("-" + k)[1..] == k;
      assert DropDashes(dashed) == DropDashes("-" + k) == DropDashes(k) == k;
      var args := [dashed, v] + (rest + tail);
      assert Print(entries) + tail == args && args[2..] == rest + tail;
      var d := NamedArgs(parse, rest + tail, found');
      assert NamedArgs(parse, Print(entries) + tail, found) == d;
      hide *;
      NamedPairs(parse, entries[1..], tail, found');
      OneMorePair(parse, entries, found, d);
    }
  }

  lemma OneMorePair(parse: ValueParser, entries: seq<(string, string)>, found: Args, d: Args)
    requires entries != [] && forall i, j :: 0 <= i < j < |entries| ==> entries[i].0 != entries[j].0
    requires var rest, found' := entries[1..], found[entries[0].0 := parse(entries[0].1)];
             && (forall i :: 0 <= i < |rest| ==> rest[i].0 in d && d[rest[i].0] == parse(rest[i].1))
             && (forall k :: k in found' && (forall i :: 0 <= i < |rest| ==> rest[i].0 != k) ==> k in d && d[k] == found'[k])
             && (forall k :: k in d ==> k in found' || exists i :: 0 <= i < |rest| && rest[i].0 == k)
    ensures forall i :: 0 <= i < |entries| ==> entries[i].0 in d && d[entries[i].0] == parse(entries[i].1)
    ensures forall k :: k in found && (forall i :: 0 <= i < |entries| ==> entries[i].0 != k) ==> k in d && d[k] == found[k]
    ensures forall k :: k in d ==> k in found || exists i :: 0 <= i < |entries| && entries[i].0 == k
  {
    var rest := entries[1..];
    assert forall j :: 0 <= j < |rest| ==> rest[j] == entries[j + 1];
    forall i | 0 <= i < |entries| ensures entries[i].0 in d && d[entries[i].0] == parse(entries[i].1) {
      if i > 0 {
        assert entries[i] == rest[i - 1];
      }
    }
    forall k | k in found && forall i :: 0 <= i < |entries| ==> entries[i].0 != k ensures k in d && d[k] == found[k] {
      assert entries[0].0 != k;
    }
    forall k | k in d && k !in found ensures exists i :: 0 <= i < |entries| && entries[i].0 == k {
      if k == entries[0].0 {
        assert entries[0].0 == k;
      } else {
        var j :| 0 <= j < |rest| && rest[j].0 == k;
        assert entries[j + 1].0 == k;
      }
    }
  }

  /** No word of the language; the terminators and ELSE, which only a block understands, are among these. */
  predicate IsPlain(word: string) {
    && word != "CALL" && word != "PARALLEL" && word != "SEQUENCE" && word != "WORKFLOW"
    && word != "TASK" && word != "AGENT" && word != "IF"
  }

  /** Any other word is a plain command whose arguments are numbered from 0. */
  lemma {:induction false} CommandAlone(parse: ValueParser, t: Token) returns (d: Args)
    requires IsPlain(UpperCase(t.value))
    ensures BuildAst(parse, [t]) == Built([Command(t.value, d)])
    ensures forall i: nat :: i < |t.args| ==> ArgKey(i) in d && d[ArgKey(i)] == parse(t.args[i])
    ensures forall k :: k in d ==> exists i: nat :: i < |t.args| && k == ArgKey(i)
  {
    hide *;
    d := NumberedArgs(parse, t.args, 0, map[]);
    CommandLeaf(parse, t);
    Numbered(parse, t.args, 0, map[]);
  }

  lemma {:induction false} CommandLeaf(parse: ValueParser, t: Token)
    requires IsPlain(UpperCase(t.value))
    ensures BuildAst(parse, [t]) == Built([Command(t.value, NumberedArgs(parse, t.args, 0, map[]))])
  {
    assert KeywordOf(t) !in {CALL, PARALLEL, SEQUENCE, WORKFLOW, TASK, AGENT, IF};
    hide NumberedArgs, KeywordOf;
    LeafOf(parse, t, Command(t.value, NumberedArgs(parse, t.args, 0, map[])));
  }

  function ArgKey(i: nat): string {
    "arg" + Digits(i)
  }

  /** No two positions have one key. */
  lemma ArgKeysDiffer(m: nat, n: nat)
    requires ArgKey(m) == ArgKey(n)
    ensures m == n
  {
    assert ArgKey(m)[3..] == Digits(m) && ArgKey(n)[3..] == Digits(n);
    Texts.DigitsValue(m);
    Texts.DigitsValue(n);
  }

  lemma {:induction false} NumberedStep(parse: ValueParser, args: seq<string>, position: nat, found: Args)
    ensures NumberedArgs(parse, args, position, found) ==
      if args == [] then found else NumberedArgs(parse, args[1..], position + 1, found[ArgKey(position) := parse(args[0])])
  {
  }

  lemma {:induction false} Numbered(parse: ValueParser, args: seq<string>, position: nat, found: Args)
    requires forall i: nat :: position <= i ==> ArgKey(i) !in found
    ensures var d := NumberedArgs(parse, args, position, found);
            && (forall i: nat :: position <= i < position + |args| ==> ArgKey(i) in d && d[ArgKey(i)] == parse(args[i - position]))
            && (forall k :: k in found ==> k in d && d[k] == found[k])
            && (forall k :: k in d ==> k in found || exists i: nat :: position <= i < position + |args| && k == ArgKey(i))
    decreases |args|
  {
    hide *;
    NumberedStep(parse, args, position, found);
    if args != [] {
      var found' := found[ArgKey(position) := parse(args[0])];
      StillFree(found, position, parse(args[0]));
      Numbered(parse, args[1..], position + 1, found');
      assert ArgKey(position) in found';
    }
  }

  lemma StillFree(found: Args, position: nat, v: Value)
    requires forall i: nat :: position <= i ==> ArgKey(i) !in found
    ensures forall i: nat :: position + 1 <= i ==> ArgKey(i) !in found[ArgKey(position) := v]
  {
    hide ArgKey;
    forall i: nat | position + 1 <= i ensures ArgKey(i) !in found[ArgKey(position) := v] {
      if ArgKey(i) == ArgKey(position) {
        ArgKeysDiffer(i, position);
      }
    }
  }

  /** IF joins its arguments to a condition; none is true. */
  lemma {:induction false} IfAlone(parse: ValueParser, t: Token)
    requires UpperCase(t.value) == "IF"
    ensures BuildAst(parse, [t]) == Built([Conditional(if t.args == [] then "true" else Join(" ", t.args), [], [])])
  {
    var ts := [t];
    var node := Conditional(ConditionOf(t), [], []);
    assert ParseBranches(parse, ts, 1, false) == Ok(Branches([], []), 1);
    assert ParseAll(parse, ts, 1) == Ok([], 1);
    assert ParseNode(parse, ts, 0) == Ok(node, 1);
    assert [node] + [] == [node] && [node][1..] == [];
    assert AllValid([]) && ValidNode(node);
  }
}
