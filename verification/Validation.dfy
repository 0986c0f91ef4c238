/** What token validation reports (src/praxis_sdk/dsl/validator.py:147-412), and the grammar of
    balanced blocks. Messages are represented by what they say. */
module Validation {
  import opened DslTypes
  import opened Arguments
  import opened Parsing
  import Sequences

  datatype Level = ERROR | WARNING | INFO

  datatype Problem =
    | EmptyTokenSequence
    | EmptyTokenValue
    | ReservedKeywordAsValue(word: string)
    | MissingToolName
    | InvalidToolName(name: string)
    | InvalidArgumentKey(key: string)
    | UnexpectedTerminator(found: Keyword)
    | MismatchedTerminator(found: Keyword, opening: Keyword, openedAt: nat)
    | ElseWithoutIf
    | UnclosedBlock(opening: Keyword)
    | ElseFollowedByIf
    | ConsecutiveBlocks(kind: Keyword)

  /** An issue about the token at some index. */
  datatype Issue = Issue(level: Level, problem: Problem, at: nat)

  function CountLevel(issues: seq<Issue>, level: Level): nat {
    if issues == [] then 0
    else CountLevel(issues[..|issues| - 1], level) + if issues[|issues| - 1].level == level then 1 else 0
  }

  predicate NoErrors(issues: seq<Issue>) {
    issues == [] || (issues[|issues| - 1].level != ERROR && NoErrors(issues[..|issues| - 1]))
  }

  /** The validity flag, the error count and the list say the same. */
  lemma {:induction false} NoErrorsCounted(issues: seq<Issue>)
    ensures NoErrors(issues) <==> CountLevel(issues, ERROR) == 0
    ensures NoErrors(issues) <==> forall x :: x in issues ==> x.level != ERROR
  {
    if issues != [] {
      var init, last := issues[..|issues| - 1], issues[|issues| - 1];
      NoErrorsCounted(init);
      assert issues == init + [last];
    }
  }

  lemma {:induction false} NoErrorsConcat(a: seq<Issue>, b: seq<Issue>)
    ensures NoErrors(a + b) <==> NoErrors(a) && NoErrors(b)
  {
    if b == [] {
      assert a + b == a;
    } else {
      NoErrorsConcat(a, b[..|b| - 1]);
      assert (a + b)[..|a + b| - 1] == a + b[..|b| - 1];
    }
  }

  lemma {:induction false} FirstIsError(issues: seq<Issue>)
    requires issues != [] && issues[0].level == ERROR
    ensures !NoErrors(issues)
  {
    if |issues| > 1 {
      FirstIsError(issues[..|issues| - 1]);
    }
  }

  // ---- Balanced blocks: the stack machine --------------------------------------------------------

  datatype Open = Open(kind: Keyword, at: nat)

  predicate Opens(k: Keyword) {
    k == PARALLEL || k == SEQUENCE || k == IF
  }

  predicate Closes(k: Keyword) {
    k == END_PARALLEL || k == END_SEQUENCE || k == ENDIF || k == END_IF
  }

  /** _get_expected_block_end */
  function ExpectedEnd(k: Keyword): seq<Keyword> {
    if k == PARALLEL then [END_PARALLEL]
    else if k == SEQUENCE then [END_SEQUENCE]
    else if k == IF then [ENDIF, END_IF]
    else []
  }

  /** The errors for blocks still open at the end, outermost first. */
  function Unclosed(stack: seq<Open>): seq<Issue> {
    if stack == [] then []
    else [Issue(ERROR, UnclosedBlock(stack[0].kind), stack[0].at)] + Unclosed(stack[1..])
  }

  /** The error for one token, given the open blocks. */
  function BlockIssue(k: Keyword, i: nat, stack: seq<Open>): seq<Issue> {
    if Closes(k) then
      if stack == [] then [Issue(ERROR, UnexpectedTerminator(k), i)]
      else
        var top := stack[|stack| - 1];
        if k in ExpectedEnd(top.kind) then [] else [Issue(ERROR, MismatchedTerminator(k, top.kind, top.at), i)]
    else if k == ELSE && (stack == [] || stack[|stack| - 1].kind != IF) then [Issue(ERROR, ElseWithoutIf, i)]
    else []
  }

  /** The open blocks after one token. A terminator that does not match leaves them alone. */
  function BlockStack(k: Keyword, i: nat, stack: seq<Open>): seq<Open> {
    if Opens(k) then stack + [Open(k, i)]
    else if Closes(k) && stack != [] && k in ExpectedEnd(stack[|stack| - 1].kind) then stack[..|stack| - 1]
    else stack
  }

  /** _validate_balanced_blocks, from the token at i on. */
  function BlockIssues(ts: seq<Token>, i: nat, stack: seq<Open>): seq<Issue>
    requires i <= |ts|
    decreases |ts| - i
  {
    if i == |ts| then Unclosed(stack)
    else
      var k := KeywordOf(ts[i]);
      BlockIssue(k, i, stack) + BlockIssues(ts, i + 1, BlockStack(k, i, stack))
  }

  // ---- Balanced blocks: the grammar --------------------------------------------------------------

  /** Body ::= (plain | ELSE, directly inside an IF only | PARALLEL Body END_PARALLEL
      | SEQUENCE Body END_SEQUENCE | IF Body (ENDIF or END_IF))*, where plain is any other keyword */
  datatype Block =
    | Plain(word: Keyword)
    | ElseMark
    | Enclosed(opener: Keyword, body: seq<Block>, closer: Keyword)

  predicate Derives(b: Block, inIf: bool)
    decreases b, 1
  {
    match b
    case Plain(k) => k == CALL || k == TASK || k == AGENT || k == WORKFLOW || k == OTHER
    case ElseMark => inIf
    case Enclosed(opener, body, closer) =>
      && (match opener
          case PARALLEL => closer == END_PARALLEL
          case SEQUENCE => closer == END_SEQUENCE
          case IF => closer == ENDIF || closer == END_IF
          case _ => false)
      && DerivesAll(body, opener == IF)
  }

  predicate DerivesAll(bs: seq<Block>, inIf: bool)
    decreases bs, 0
  {
    bs == [] || (Derives(bs[0], inIf) && DerivesAll(bs[1..], inIf))
  }

  function Yield(b: Block): seq<Keyword>
    decreases b, 1
  {
    match b
    case Plain(k) => [k]
    case ElseMark => [ELSE]
    case Enclosed(opener, body, closer) => [opener] + YieldAll(body) + [closer]
  }

  function YieldAll(bs: seq<Block>): seq<Keyword>
    decreases bs, 0
  {
    if bs == [] then [] else Yield(bs[0]) + YieldAll(bs[1..])
  }

  /** The keywords derive from the grammar. */
  ghost predicate Balanced(ks: seq<Keyword>) {
    exists bs: seq<Block> :: DerivesAll(bs, false) && YieldAll(bs) == ks
  }

  // ---- The stack machine recognises the grammar --------------------------------------------------

  /** The stack machine finds nothing wrong with these keywords while the given blocks are open. */
  predicate Clean(ks: seq<Keyword>, stack: seq<Keyword>) {
    if ks == [] then stack == []
    else
      var k := ks[0];
      if Opens(k) then Clean(ks[1..], stack + [k])
      else if Closes(k) then
        stack != [] && k in ExpectedEnd(stack[|stack| - 1]) && Clean(ks[1..], stack[..|stack| - 1])
      else if k == ELSE then stack != [] && stack[|stack| - 1] == IF && Clean(ks[1..], stack)
      else Clean(ks[1..], stack)
  }

  function Kinds(stack: seq<Open>): (ks: seq<Keyword>)
    ensures |ks| == |stack|
  {
    seq(|stack|, i requires 0 <= i < |stack| => stack[i].kind)
  }

  lemma KindsStep(k: Keyword, i: nat, stack: seq<Open>)
    ensures var kinds, kinds' := Kinds(stack), Kinds(BlockStack(k, i, stack));
            && (stack != [] ==> kinds[|stack| - 1] == stack[|stack| - 1].kind)
            && (Opens(k) ==> kinds' == kinds + [k])
            && (Closes(k) && BlockIssue(k, i, stack) == [] ==> stack != [] && kinds' == kinds[..|stack| - 1])
            && (!Opens(k) && !Closes(k) ==> kinds' == kinds)
  {
  }

  lemma {:induction false} NoIssuesMeansClean(ts: seq<Token>, i: nat, stack: seq<Open>)
    requires i <= |ts|
    ensures BlockIssues(ts, i, stack) == [] <==> Clean(Keywords(ts)[i..], Kinds(stack))
    decreases |ts| - i
  {
    if i < |ts| {
      var ks, k := Keywords(ts), KeywordOf(ts[i]);
      var stack' := BlockStack(k, i, stack);
      NoIssuesMeansClean(ts, i + 1, stack');
      assert ks[i..][0] == k && ks[i..][1..] == ks[i + 1..];
      CleanStep(k, i, stack, ks[i..], BlockIssues(ts, i + 1, stack'));
    }
  }

  lemma CleanStep(k: Keyword, i: nat, stack: seq<Open>, ks: seq<Keyword>, later: seq<Issue>)
    requires ks != [] && ks[0] == k
    requires later == [] <==> Clean(ks[1..], Kinds(BlockStack(k, i, stack)))
    ensures BlockIssue(k, i, stack) + later == [] <==> Clean(ks, Kinds(stack))
  {
    KindsStep(k, i, stack);
  }

  ghost predicate TopIsIf(stack: seq<Keyword>) {
    stack != [] && stack[|stack| - 1] == IF
  }

  lemma {:induction false} YieldIsClean(b: Block, stack: seq<Keyword>, rest: seq<Keyword>)
    requires Derives(b, TopIsIf(stack))
    ensures Clean(Yield(b) + rest, stack) == Clean(rest, stack)
    decreases b, 1
  {
    match b {
      case Enclosed(opener, body, closer) =>
        YieldAllIsClean(body, stack + [opener], [closer] + rest);
        EnclosedIsClean(opener, YieldAll(body), closer, stack, rest);
      case _ =>
        assert (Yield(b) + rest)[1..] == rest;
    }
  }

  lemma EnclosedIsClean(opener: Keyword, body: seq<Keyword>, closer: Keyword, stack: seq<Keyword>, rest: seq<Keyword>)
    requires Opens(opener) && closer in ExpectedEnd(opener)
    requires Clean(body + ([closer] + rest), stack + [opener]) == Clean([closer] + rest, stack + [opener])
    ensures Clean([opener] + body + [closer] + rest, stack) == Clean(rest, stack)
  {
    var ks, inner, within := [opener] + body + [closer] + rest, [closer] + rest, stack + [opener];
    assert Clean(ks, stack) == Clean(body + inner, within) by {
      assert ks[0] == opener && ks[1..] == body + inner;
    }
    assert Clean(inner, within) == Clean(rest, stack) by {
      assert inner[0] == closer && inner[1..] == rest;
      assert within[..|stack|] == stack && within[|within| - 1] == opener;
    }
  }

  lemma {:induction false} YieldAllIsClean(bs: seq<Block>, stack: seq<Keyword>, rest: seq<Keyword>)
    requires DerivesAll(bs, TopIsIf(stack))
    ensures Clean(YieldAll(bs) + rest, stack) == Clean(rest, stack)
    decreases bs, 0
  {
    if bs == [] {
      assert YieldAll(bs) + rest == rest;
    } else {
      YieldIsClean(bs[0], stack, YieldAll(bs[1..]) + rest);
      YieldAllIsClean(bs[1..], stack, rest);
      assert YieldAll(bs) + rest == Yield(bs[0]) + (YieldAll(bs[1..]) + rest);
    }
  }

  /** A derivation of what is left of the input while some blocks are open: the rest of the innermost
      body, its terminator, and so on outwards. */
  datatype Rest = Last(body: seq<Block>) | Inner(body: seq<Block>, closer: Keyword, outer: Rest)

  predicate Fits(r: Rest, stack: seq<Keyword>) {
    match r
    case Last(body) => stack == [] && DerivesAll(body, false)
    case Inner(body, closer, outer) =>
      && stack != []
      && DerivesAll(body, stack[|stack| - 1] == IF)
      && closer in ExpectedEnd(stack[|stack| - 1])
      && Fits(outer, stack[..|stack| - 1])
  }

  function YieldRest(r: Rest): seq<Keyword> {
    match r
    case Last(body) => YieldAll(body)
    case Inner(body, closer, outer) => YieldAll(body) + [closer] + YieldRest(outer)
  }

  function Push(b: Block, r: Rest): Rest {
    match r
    case Last(body) => Last([b] + body)
    case Inner(body, closer, outer) => Inner([b] + body, closer, outer)
  }

  lemma PushFits(b: Block, r: Rest, stack: seq<Keyword>)
    requires Fits(r, stack) && Derives(b, TopIsIf(stack))
    ensures Fits(Push(b, r), stack) && YieldRest(Push(b, r)) == Yield(b) + YieldRest(r)
  {
    assert ([b] + r.body)[1..] == r.body;
    assert DerivesAll([b] + r.body, TopIsIf(stack));
    Sequences.Assoc(Yield(b), YieldAll(r.body), if r.Last? then [] else [r.closer] + YieldRest(r.outer));
  }

  /** The innermost body, its terminator found, becomes one block of the enclosing body. */
  lemma EncloseFits(opener: Keyword, within: Rest, stack: seq<Keyword>)
    requires Opens(opener) && Fits(within, stack + [opener])
    ensures within.Inner?
    ensures var r := Push(Enclosed(opener, within.body, within.closer), within.outer);
            Fits(r, stack) && YieldRest(r) == [opener] + YieldRest(within)
  {
    assert (stack + [opener])[..|stack|] == stack;
    var block := Enclosed(opener, within.body, within.closer);
    PushFits(block, within.outer, stack);
    Sequences.Assoc([opener], YieldAll(within.body) + [within.closer], YieldRest(within.outer));
    Sequences.Assoc([opener], YieldAll(within.body), [within.closer]);
  }

  /** Every clean input has a derivation. */
  lemma {:induction false} CleanDerives(ks: seq<Keyword>, stack: seq<Keyword>) returns (r: Rest)
    requires Clean(ks, stack)
    ensures Fits(r, stack) && YieldRest(r) == ks
    decreases |ks|
  {
    if ks == [] {
      r := Last([]);
    } else {
      var k := ks[0];
      assert ks == [k] + ks[1..];
      if Opens(k) {
        var within := CleanDerives(ks[1..], stack + [k]);
        EncloseFits(k, within, stack);
        r := Push(Enclosed(k, within.body, within.closer), within.outer);
      } else if Closes(k) {
        var outer := CleanDerives(ks[1..], stack[..|stack| - 1]);
        r := Inner([], k, outer);
      } else {
        var later := CleanDerives(ks[1..], stack);
        r := Push(if k == ELSE then ElseMark else Plain(k), later);
        PushFits(if k == ELSE then ElseMark else Plain(k), later, stack);
      }
    }
  }

  /** The stack machine adds no error exactly when the tokens derive from the grammar of balanced blocks. */
  lemma NoIssuesMeansBalanced(ts: seq<Token>)
    ensures BlockIssues(ts, 0, []) == [] <==> Balanced(Keywords(ts))
  {
    var ks := Keywords(ts);
    NoIssuesMeansClean(ts, 0, []);
    assert ks[0..] == ks && Kinds([]) == [];
    if Clean(ks, []) {
      var r := CleanDerives(ks, []);
      assert DerivesAll(r.body, false) && YieldAll(r.body) == ks;
    }
    if Balanced(ks) {
      var bs: seq<Block> :| DerivesAll(bs, false) && YieldAll(bs) == ks;
      YieldAllIsClean(bs, [], []);
      assert YieldAll(bs) + [] == ks;
    }
  }

  // ---- CALL tokens -------------------------------------------------------------------------------

  function KeyIssues(keys: seq<string>, i: nat): seq<Issue> {
    if keys == [] then [] else [Issue(ERROR, InvalidArgumentKey(keys[0]), i)] + KeyIssues(keys[1..], i)
  }

  /** _validate_call_token */
  function CallIssues(args: seq<string>, i: nat): seq<Issue> {
    if args == [] then [Issue(ERROR, MissingToolName, i)]
    else
      (if MatchesName(args[0]) then [] else [Issue(ERROR, InvalidToolName(args[0]), i)])
      + KeyIssues(BadKeys(Walk(args[1..])), i)
  }

  /** The tokenizer's _validate_call_args, which walks the same arguments and stops at the first fault. */
  predicate CallArgsValid(args: seq<string>) {
    args != [] && MatchesName(args[0]) && BadKeys(Walk(args[1..])) == []
  }

  /** The validator and the tokenizer accept the same CALLs: those whose tool and whose every argument
      that looks like an option have proper names. Such a tool is one that cache keys can carry. */
  lemma WalksAgree(args: seq<string>, i: nat)
    ensures CallIssues(args, i) == [] <==> CallArgsValid(args)
    ensures CallArgsValid(args) <==>
      && args != [] && MatchesName(args[0])
      && forall a :: a in args[1..] && IsOption(a) ==> MatchesName(a[2..])
    ensures CallArgsValid(args) ==> ':' !in args[0]
  {
    if args != [] {
      KeysAreLocal(args[1..]);
    }
    if CallArgsValid(args) {
      NamesHaveNoColon(args[0]);
    }
  }

  // ---- All of token validation -------------------------------------------------------------------

  /** The words a DSLValidator sets up as reserved_keywords. Validation is stated for any such set. */
  const RESERVED_KEYWORDS: set<string> := {
    "CALL", "PARALLEL", "SEQUENCE", "WORKFLOW", "TASK", "AGENT", "IF", "ELSE", "ENDIF", "WHILE", "FOR", "RETURN",
    "BREAK", "CONTINUE", "TRY", "CATCH", "FINALLY", "TRUE", "FALSE", "NULL", "NONE"
  }

  /** A value token that spells a reserved keyword. */
  predicate IsReserved(reserved: set<string>, t: Token) {
    UpperCase(t.value) in reserved && t.kind == VALUE
  }

  /** _validate_token_structure for one token */
  function TokenIssues(reserved: set<string>, t: Token, i: nat): seq<Issue> {
    Joined([EmptyIssue(t, i), ReservedIssue(reserved, t, i), CallTokenIssues(t, i)])
  }

  function Joined(parts: seq<seq<Issue>>): seq<Issue> {
    if parts == [] then [] else parts[0] + Joined(parts[1..])
  }

  lemma JoinThree(a: seq<Issue>, b: seq<Issue>, c: seq<Issue>)
    ensures Joined([a, b, c]) == a + b + c
  {
    assert [a, b, c][1..] == [b, c] && [b, c][1..] == [c] && [c][1..] == [];
    assert Joined([c]) == c;
    assert Joined([b, c]) == b + c;
  }

  function EmptyIssue(t: Token, i: nat): seq<Issue> {
    if t.value == "" then [Issue(ERROR, EmptyTokenValue, i)] else []
  }

  function ReservedIssue(reserved: set<string>, t: Token, i: nat): seq<Issue> {
    if IsReserved(reserved, t) then [Issue(WARNING, ReservedKeywordAsValue(t.value), i)] else []
  }

  function CallTokenIssues(t: Token, i: nat): seq<Issue> {
    if KeywordOf(t) == CALL then CallIssues(t.args, i) else []
  }

  function StructureIssues(reserved: set<string>, ts: seq<Token>, i: nat): seq<Issue>
    requires i <= |ts|
    decreases |ts| - i
  {
    if i == |ts| then [] else TokenIssues(reserved, ts[i], i) + StructureIssues(reserved, ts, i + 1)
  }

  /** _validate_command_sequences for the pair at i */
  function PairIssues(ts: seq<Token>, i: nat): seq<Issue>
    requires i + 1 < |ts|
  {
    var current, next := KeywordOf(ts[i]), KeywordOf(ts[i + 1]);
    (if current == ELSE && next == IF then [Issue(WARNING, ElseFollowedByIf, i)] else [])
    + (if current == next && (current == PARALLEL || current == SEQUENCE) then [Issue(WARNING, ConsecutiveBlocks(current), i)] else [])
  }

  function SequenceIssues(ts: seq<Token>, i: nat): seq<Issue>
    decreases |ts| - i
  {
    if i + 1 < |ts| then PairIssues(ts, i) + SequenceIssues(ts, i + 1) else []
  }

  /** validate_tokens */
  function TokenSequenceIssues(reserved: set<string>, ts: seq<Token>): seq<Issue> {
    if ts == [] then [Issue(WARNING, EmptyTokenSequence, 0)]
    else StructureIssues(reserved, ts, 0) + BlockIssues(ts, 0, []) + SequenceIssues(ts, 0)
  }

  /** The token has a value, and if it is a CALL, its arguments are well formed. */
  predicate TokenFine(t: Token) {
    t.value != "" && (KeywordOf(t) == CALL ==> CallArgsValid(t.args))
  }

  predicate AllFine(ts: seq<Token>, i: nat)
    requires i <= |ts|
    decreases |ts| - i
  {
    i == |ts| || (TokenFine(ts[i]) && AllFine(ts, i + 1))
  }

  lemma {:induction false} AllFineMeansEach(ts: seq<Token>, i: nat)
    requires i <= |ts|
    ensures AllFine(ts, i) <==> forall t :: t in ts[i..] ==> TokenFine(t)
    decreases |ts| - i
  {
    if i < |ts| {
      AllFineMeansEach(ts, i + 1);
      assert ts[i..] == [ts[i]] + ts[i + 1..];
    }
  }

  lemma {:induction false} StructureErrors(reserved: set<string>, ts: seq<Token>, i: nat)
    requires i <= |ts|
    ensures NoErrors(StructureIssues(reserved, ts, i)) <==> AllFine(ts, i)
    decreases |ts| - i
  {
    if i < |ts| {
      StructureErrors(reserved, ts, i + 1);
      FirstTokenErrors(reserved, ts, i, StructureIssues(reserved, ts, i + 1), AllFine(ts, i + 1));
    }
  }

  lemma FirstTokenErrors(reserved: set<string>, ts: seq<Token>, i: nat, later: seq<Issue>, laterFine: bool)
    requires i < |ts| && (NoErrors(later) <==> laterFine)
    ensures NoErrors(TokenIssues(reserved, ts[i], i) + later) <==> TokenFine(ts[i]) && laterFine
  {
    OneTokenErrors(reserved, ts[i], i);
    BothFine(TokenIssues(reserved, ts[i], i), later, TokenFine(ts[i]), laterFine);
  }

  lemma BothFine(first: seq<Issue>, later: seq<Issue>, firstFine: bool, laterFine: bool)
    requires NoErrors(first) <==> firstFine
    requires NoErrors(later) <==> laterFine
    ensures NoErrors(first + later) <==> firstFine && laterFine
  {
    NoErrorsConcat(first, later);
  }

  lemma OneTokenErrors(reserved: set<string>, t: Token, i: nat)
    ensures NoErrors(TokenIssues(reserved, t, i)) <==> TokenFine(t)
  {
    WalksAgree(t.args, i);
    CallIssuesAreErrors(t.args, i);
    JoinThree(EmptyIssue(t, i), ReservedIssue(reserved, t, i), CallTokenIssues(t, i));
    NoErrorsConcat(EmptyIssue(t, i) + ReservedIssue(reserved, t, i), CallTokenIssues(t, i));
    NoErrorsConcat(EmptyIssue(t, i), ReservedIssue(reserved, t, i));
  }

  lemma CallIssuesAreErrors(args: seq<string>, i: nat)
    ensures NoErrors(CallIssues(args, i)) <==> CallIssues(args, i) == []
  {
    var issues := CallIssues(args, i);
    if args != [] {
      KeyIssuesAreErrors(BadKeys(Walk(args[1..])), i);
    }
    if issues != [] {
      FirstIsError(issues);
    }
  }

  lemma {:induction false} KeyIssuesAreErrors(keys: seq<string>, i: nat)
    ensures keys != [] ==> KeyIssues(keys, i) != [] && KeyIssues(keys, i)[0].level == ERROR
  {
  }

  lemma {:induction false} BlockIssuesAreErrors(ts: seq<Token>, i: nat, stack: seq<Open>)
    requires i <= |ts|
    ensures NoErrors(BlockIssues(ts, i, stack)) <==> BlockIssues(ts, i, stack) == []
    decreases |ts| - i
  {
    if i < |ts| {
      var k := KeywordOf(ts[i]);
      BlockIssuesAreErrors(ts, i + 1, BlockStack(k, i, stack));
      NoErrorsConcat(BlockIssue(k, i, stack), BlockIssues(ts, i + 1, BlockStack(k, i, stack)));
    } else if stack != [] {
      FirstIsError(Unclosed(stack));
    }
  }

  lemma {:induction false} SequenceIssuesAreWarnings(ts: seq<Token>, i: nat)
    ensures NoErrors(SequenceIssues(ts, i))
    decreases |ts| - i
  {
    if i + 1 < |ts| {
      SequenceIssuesAreWarnings(ts, i + 1);
      NoErrorsConcat(PairIssues(ts, i), SequenceIssues(ts, i + 1));
    }
  }

  /** Token validation finds no error exactly when every token has a value, every CALL is well formed, and
      the blocks are balanced. */
  lemma TokensValid(reserved: set<string>, ts: seq<Token>)
    ensures NoErrors(TokenSequenceIssues(reserved, ts)) <==>
      && (forall t :: t in ts ==> TokenFine(t))
      && Balanced(Keywords(ts))
  {
    NoIssuesMeansBalanced(ts);
    if ts != [] {
      StructureErrors(reserved, ts, 0);
      AllFineMeansEach(ts, 0);
      assert ts[0..] == ts;
      BlockIssuesAreErrors(ts, 0, []);
      SequenceIssuesAreWarnings(ts, 0);
      NoErrorsConcat(StructureIssues(reserved, ts, 0) + BlockIssues(ts, 0, []), SequenceIssues(ts, 0));
      NoErrorsConcat(StructureIssues(reserved, ts, 0), BlockIssues(ts, 0, []));
    }
  }
}
