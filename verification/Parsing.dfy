/** What the AST builder computes from a token list (src/praxis_sdk/dsl/ast_builder.py): recursive
    descent over positions, then recursive validation. */
module Parsing {
  import opened Wrappers
  import opened DslTypes
  import opened Arguments

  /** The commands the builder and the validator tell apart. */
  datatype Keyword =
    | CALL | PARALLEL | SEQUENCE | WORKFLOW | TASK | AGENT
    | IF | ELSE | ENDIF | END_IF | END_PARALLEL | END_SEQUENCE
    | OTHER

  function Classify(word: string): Keyword {
    if word == "CALL" then CALL
    else if word == "PARALLEL" then PARALLEL
    else if word == "SEQUENCE" then SEQUENCE
    else if word == "WORKFLOW" then WORKFLOW
    else if word == "TASK" then TASK
    else if word == "AGENT" then AGENT
    else if word == "IF" then IF
    else if word == "ELSE" then ELSE
    else if word == "ENDIF" then ENDIF
    else if word == "END_IF" then END_IF
    else if word == "END_PARALLEL" then END_PARALLEL
    else if word == "END_SEQUENCE" then END_SEQUENCE
    else OTHER
  }

  /** token.value.upper() */
  function KeywordOf(t: Token): Keyword {
    Classify(UpperCase(t.value))
  }

  function Keywords(ts: seq<Token>): (ks: seq<Keyword>)
    ensures |ks| == |ts|
  {
    seq(|ts|, i requires 0 <= i < |ts| => KeywordOf(ts[i]))
  }

  /** The token of a command line. */
  function Word(word: string, args: seq<string>): Token {
    Token(COMMAND, word, args)
  }

  // ---- Nodes made from one token -----------------------------------------------------------------

  /** token.args[0] if there is one, else the given default */
  function FirstOr(args: seq<string>, default: string): string {
    if args == [] then default else args[0]
  }

  /** s.lstrip("-") */
  function DropDashes(s: string): string {
    if s != "" && s[0] == '-' then DropDashes(s[1..]) else s
  }

  /** The key-value pairs after the name of a WORKFLOW or TASK; a last key without value is dropped. */
  function NamedArgs(parse: ValueParser, args: seq<string>, found: Args): Args
    decreases |args|
  {
    if |args| < 2 then found
    else NamedArgs(parse, args[2..], found[DropDashes(args[0]) := ParseValue(parse, args[1])])
  }

  function BlockArgs(parse: ValueParser, t: Token): Args {
    NamedArgs(parse, if t.args == [] then [] else t.args[1..], map["name" := Text(FirstOr(t.args, ""))])
  }

  /** arg0, arg1, ... of a plain command */
  function NumberedArgs(parse: ValueParser, args: seq<string>, position: nat, found: Args): Args
    decreases |args|
  {
    if args == [] then found
    else NumberedArgs(parse, args[1..], position + 1, found["arg" + Digits(position) := ParseValue(parse, args[0])])
  }

  function ConditionOf(t: Token): string {
    if t.args == [] then "true" else Join(" ", t.args)
  }

  /** The node of a token that opens no block; a CALL without arguments is a syntax error. */
  function LeafNode(parse: ValueParser, t: Token): Option<Node> {
    match KeywordOf(t)
    case CALL =>
      if t.args == [] then None
      else Some(Call(t.args[0], ToolArguments(parse, t.args[0], t.args[1..], 0, map[])))
    case WORKFLOW => Some(Workflow(BlockArgs(parse, t)))
    case TASK => Some(Task(BlockArgs(parse, t)))
    case AGENT => Some(Agent(FirstOr(t.args, "")))
    case _ => Some(Command(t.value, NumberedArgs(parse, t.args, 0, map[])))
  }

  predicate OpensBlock(k: Keyword) {
    k == PARALLEL || k == SEQUENCE || k == IF
  }

  /** Where the children loop of a PARALLEL (or else of a SEQUENCE) stops. */
  predicate EndsBlock(parallel: bool, k: Keyword) {
    if parallel then k == END_PARALLEL || k == SEQUENCE || k == WORKFLOW || k == IF
    else k == END_SEQUENCE || k == PARALLEL || k == WORKFLOW || k == IF
  }

  /** Where an IF stops without consuming the token. */
  predicate LeavesIf(k: Keyword) {
    k == IF || k == PARALLEL || k == SEQUENCE || k == WORKFLOW
  }

  /** A token that starts a child of an open IF. */
  predicate BranchChild(k: Keyword) {
    !LeavesIf(k) && k != ELSE && k != ENDIF && k != END_IF
  }

  // ---- Recursive descent -------------------------------------------------------------------------

  /** The outcome of parsing from some position: a syntax error, or a value and the next position. */
  datatype Parsed<T> = SyntaxError | Ok(value: T, next: nat)

  datatype Branches = Branches(thenPart: seq<Node>, elsePart: seq<Node>)

  /** _parse_node */
  function ParseNode(parse: ValueParser, ts: seq<Token>, i: nat): (r: Parsed<Node>)
    requires i < |ts|
    ensures r.Ok? ==> i < r.next <= |ts|
    decreases |ts| - i, 0
  {
    match KeywordOf(ts[i])
    case PARALLEL =>
      (match ParseBlock(parse, ts, i + 1, true)
       case SyntaxError => SyntaxError
       case Ok(children, j) => Ok(Parallel(children), j))
    case SEQUENCE =>
      (match ParseBlock(parse, ts, i + 1, false)
       case SyntaxError => SyntaxError
       case Ok(children, j) => Ok(Sequence(children), j))
    case IF =>
      (match ParseBranches(parse, ts, i + 1, false)
       case SyntaxError => SyntaxError
       case Ok(b, j) => Ok(Conditional(ConditionOf(ts[i]), b.thenPart, b.elsePart), j))
    case _ =>
      (match LeafNode(parse, ts[i])
       case None => SyntaxError
       case Some(node) => Ok(node, i + 1))
  }

  /** The children loop of a PARALLEL or SEQUENCE. */
  function ParseBlock(parse: ValueParser, ts: seq<Token>, i: nat, parallel: bool): (r: Parsed<seq<Node>>)
    requires i <= |ts|
    ensures r.Ok? ==> i <= r.next <= |ts|
    decreases |ts| - i, 1
  {
    if i == |ts| || EndsBlock(parallel, KeywordOf(ts[i])) then Ok([], i)
    else
      match ParseNode(parse, ts, i)
      case SyntaxError => SyntaxError
      case Ok(node, j) => Prepend([node], ParseBlock(parse, ts, j, parallel))
  }

  /** The loop of an IF; inElse says which branch is being filled. */
  function ParseBranches(parse: ValueParser, ts: seq<Token>, i: nat, inElse: bool): (r: Parsed<Branches>)
    requires i <= |ts|
    ensures r.Ok? ==> i <= r.next <= |ts|
    decreases |ts| - i, 1
  {
    if i == |ts| then Ok(Branches([], []), i)
    else
      var k := KeywordOf(ts[i]);
      if k == ELSE then ParseBranches(parse, ts, i + 1, true)
      else if k == ENDIF || k == END_IF then Ok(Branches([], []), i + 1)
      else if LeavesIf(k) then Ok(Branches([], []), i)
      else
        match ParseNode(parse, ts, i)
        case SyntaxError => SyntaxError
        case Ok(node, j) =>
          PrependBranches(if inElse then Branches([], [node]) else Branches([node], []), ParseBranches(parse, ts, j, inElse))
  }

  function Prepend(nodes: seq<Node>, r: Parsed<seq<Node>>): Parsed<seq<Node>> {
    match r
    case SyntaxError => SyntaxError
    case Ok(rest, j) => Ok(nodes + rest, j)
  }

  function PrependBranches(b: Branches, r: Parsed<Branches>): Parsed<Branches> {
    match r
    case SyntaxError => SyntaxError
    case Ok(rest, j) => Ok(Branches(b.thenPart + rest.thenPart, b.elsePart + rest.elsePart), j)
  }

  /** The top-level loop of build_ast. */
  function ParseAll(parse: ValueParser, ts: seq<Token>, i: nat): (r: Parsed<seq<Node>>)
    requires i <= |ts|
    ensures r.Ok? ==> r.next == |ts|
    decreases |ts| - i
  {
    if i == |ts| then Ok([], i)
    else
      match ParseNode(parse, ts, i)
      case SyntaxError => SyntaxError
      case Ok(node, j) => Prepend([node], ParseAll(parse, ts, j))
  }

  // ---- Validation --------------------------------------------------------------------------------

  /** _validate_node raises nothing. It recurses into children only, never into else_children. */
  predicate ValidNode(node: Node)
    decreases node, 1
  {
    match node
    case Call(tool, _) => tool != ""
    case Parallel(children) => children != [] && AllValid(children)
    case Sequence(children) => children != [] && AllValid(children)
    case Conditional(_, children, _) => AllValid(children)
    case _ => true
  }

  predicate AllValid(nodes: seq<Node>)
    decreases nodes, 0
  {
    nodes == [] || (ValidNode(nodes[0]) && AllValid(nodes[1..]))
  }

  datatype BuildResult = Built(nodes: seq<Node>) | DSLSyntaxError | DSLValidationError

  /** build_ast */
  function BuildAst(parse: ValueParser, ts: seq<Token>): BuildResult {
    match ParseAll(parse, ts, 0)
    case SyntaxError => DSLSyntaxError
    case Ok(nodes, _) => if AllValid(nodes) then Built(nodes) else DSLValidationError
  }
}
