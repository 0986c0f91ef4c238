/** Which issues token validation reports, one by one (src/praxis_sdk/dsl/validator.py:220-412). */
module IssueLaws {
  import opened Wrappers
  import opened DslTypes
  import opened Arguments
  import opened Parsing
  import opened Validation

  // ---- Single tokens ---------------------------------------------------------------------------------

  /** The malformed keys of the arguments that look like options, in order. */
  function BadOptions(args: seq<string>): seq<string> {
    if args == [] then []
    else (if "--" <= args[0] && !MatchesName(args[0][2..]) then [args[0][2..]] else []) + BadOptions(args[1..])
  }

  /** The stepping walk over flags, pairs and positionals finds just these, each once and in order. */
  lemma {:induction false} BadKeysAreLocal(args: seq<string>)
    ensures BadKeys(Walk(args)) == BadOptions(args)
    decreases |args|
  {
    hide MatchesName;
    if args != [] {
      if IsOption(args[0]) && |args| > 1 && !IsOption(args[1]) {
        BadKeysAreLocal(args[2..]);
        WalkPair(args, args[2..]);
        assert args[1..][1..] == args[2..];
        assert BadOptions(args[1..]) == BadOptions(args[2..]);
      } else {
        BadKeysAreLocal(args[1..]);
        WalkOne(args, args[1..]);
      }
    }
  }

  lemma {:induction false} BadOptionsExactly(args: seq<string>, k: string)
    ensures k in BadOptions(args) <==> "--" + k in args && !MatchesName(k)
  {
    hide MatchesName;
    if args != [] {
      BadOptionsExactly(args[1..], k);
      assert args == [args[0]] + args[1..];
      assert ("--" + k)[2..] == k;
      assert "--" <= args[0] ==> args[0] == "--" + args[0][2..];
    }
  }

  lemma {:induction false} KeyIssuesExactly(keys: seq<string>, i: nat, x: Issue)
    ensures x in KeyIssues(keys, i) <==> x.level == ERROR && x.at == i && x.problem.InvalidArgumentKey? && x.problem.key in keys
  {
    if keys != [] {
      KeyIssuesExactly(keys[1..], i, x);
      assert keys == [keys[0]] + keys[1..];
    }
  }

  /** What there is to say about one token. */
  ghost predicate Says(reserved: set<string>, t: Token, level: Level, problem: Problem) {
    match problem
    case EmptyTokenValue => level == ERROR && t.value == ""
    case ReservedKeywordAsValue(word) => level == WARNING && word == t.value && t.kind == VALUE && UpperCase(word) in reserved
    case MissingToolName => level == ERROR && UpperCase(t.value) == "CALL" && t.args == []
    case InvalidToolName(name) =>
      level == ERROR && UpperCase(t.value) == "CALL" && t.args != [] && name == t.args[0] && !MatchesName(name)
    case InvalidArgumentKey(key) =>
      level == ERROR && UpperCase(t.value) == "CALL" && t.args != [] && "--" + key in t.args[1..] && !MatchesName(key)
    case _ => false
  }

  lemma TokenIssuesExactly(reserved: set<string>, t: Token, i: nat, x: Issue)
    ensures x in TokenIssues(reserved, t, i) <==> x.at == i && Says(reserved, t, x.level, x.problem)
  {
    JoinThree(EmptyIssue(t, i), ReservedIssue(reserved, t, i), CallTokenIssues(t, i));
    CallSays(t, i, x);
    hide KeywordOf, MatchesName, CallTokenIssues, CallIssues, UpperCase, Joined;
  }

  lemma CallSays(t: Token, i: nat, x: Issue)
    ensures x in CallTokenIssues(t, i) <==>
      && x.at == i && (x.problem.MissingToolName? || x.problem.InvalidToolName? || x.problem.InvalidArgumentKey?)
      && Says({}, t, x.level, x.problem)
  {
    assert KeywordOf(t) == CALL <==> UpperCase(t.value) == "CALL";
    hide KeywordOf, MatchesName, Walk, BadKeys, KeyIssues, BadOptions, UpperCase;
    if t.args != [] {
      BadKeysAreLocal(t.args[1..]);
      KeyIssuesExactly(BadOptions(t.args[1..]), i, x);
      if x.problem.InvalidArgumentKey? {
        BadOptionsExactly(t.args[1..], x.problem.key);
      }
    }
  }

  lemma {:induction false} StructureFrom(reserved: set<string>, ts: seq<Token>, i: nat, x: Issue)
    requires i <= |ts|
    ensures x in StructureIssues(reserved, ts, i) <==> i <= x.at < |ts| && Says(reserved, ts[x.at], x.level, x.problem)
    decreases |ts| - i
  {
    hide TokenIssues, Says;
    if i < |ts| {
      StructureFrom(reserved, ts, i + 1, x);
      TokenIssuesExactly(reserved, ts[i], i, x);
    }
  }

  /** The pass over single tokens reports, for every token, exactly what there is to say about it. */
  lemma StructureExactly(reserved: set<string>, ts: seq<Token>, x: Issue)
    ensures x in StructureIssues(reserved, ts, 0) <==> x.at < |ts| && Says(reserved, ts[x.at], x.level, x.problem)
  {
    StructureFrom(reserved, ts, 0, x);
  }

  // ---- Neighbours ------------------------------------------------------------------------------------

  /** ELSE with IF behind it, and a PARALLEL or SEQUENCE with its like behind it. */
  ghost predicate Neighbours(current: string, next: string, problem: Problem) {
    match problem
    case ElseFollowedByIf => current == "ELSE" && next == "IF"
    case ConsecutiveBlocks(PARALLEL) => current == "PARALLEL" && next == "PARALLEL"
    case ConsecutiveBlocks(SEQUENCE) => current == "SEQUENCE" && next == "SEQUENCE"
    case _ => false
  }

  lemma WordsOfNeighbours(t: Token)
    ensures var word, k := UpperCase(t.value), KeywordOf(t);
            && (k == ELSE <==> word == "ELSE") && (k == IF <==> word == "IF")
            && (k == PARALLEL <==> word == "PARALLEL") && (k == SEQUENCE <==> word == "SEQUENCE")
  {
  }

  lemma PairExactly(ts: seq<Token>, i: nat, x: Issue)
    requires i + 1 < |ts|
    ensures x in PairIssues(ts, i) <==>
      x.at == i && x.level == WARNING && Neighbours(UpperCase(ts[i].value), UpperCase(ts[i + 1].value), x.problem)
  {
    WordsOfNeighbours(ts[i]);
    WordsOfNeighbours(ts[i + 1]);
    hide KeywordOf;
  }

  lemma {:induction false} NeighboursFrom(ts: seq<Token>, i: nat, x: Issue)
    ensures x in SequenceIssues(ts, i) <==>
      && i <= x.at && x.at + 1 < |ts| && x.level == WARNING
      && Neighbours(UpperCase(ts[x.at].value), UpperCase(ts[x.at + 1].value), x.problem)
    decreases |ts| - i
  {
    hide PairIssues, Neighbours;
    if i + 1 < |ts| {
      NeighboursFrom(ts, i + 1, x);
      PairExactly(ts, i, x);
    }
  }

  /** The pass over neighbours warns of exactly these. */
  lemma NeighboursExactly(ts: seq<Token>, x: Issue)
    ensures x in SequenceIssues(ts, 0) <==>
      && x.at + 1 < |ts| && x.level == WARNING
      && Neighbours(UpperCase(ts[x.at].value), UpperCase(ts[x.at + 1].value), x.problem)
  {
    NeighboursFrom(ts, 0, x);
  }

  // ---- All of it -------------------------------------------------------------------------------------

  /** Without tokens there is one warning; otherwise the three passes report, in this order. */
  lemma AllIssues(reserved: set<string>, ts: seq<Token>)
    ensures TokenSequenceIssues(reserved, []) == [Issue(WARNING, EmptyTokenSequence, 0)]
    ensures ts != [] ==>
      TokenSequenceIssues(reserved, ts) == StructureIssues(reserved, ts, 0) + BlockIssues(ts, 0, []) + SequenceIssues(ts, 0)
  {
    hide StructureIssues, BlockIssues, SequenceIssues;
  }

  // ---- Blocks ----------------------------------------------------------------------------------------

  ghost predicate InIf(stack: seq<Open>) {
    stack != [] && stack[|stack| - 1].kind == IF
  }

  /** From position i on, the keywords are these. */
  ghost predicate Reads(ts: seq<Token>, i: nat, ks: seq<Keyword>) {
    i + |ks| <= |ts| && Keywords(ts)[i..i + |ks|] == ks
  }

  lemma ReadsParts(ts: seq<Token>, i: nat, a: seq<Keyword>, b: seq<Keyword>)
    requires Reads(ts, i, a + b)
    ensures Reads(ts, i, a) && Reads(ts, i + |a|, b)
  {
    var ks := Keywords(ts);
    assert ks[i..i + |a|] == ks[i..i + |a + b|][..|a|];
    assert ks[i + |a|..i + |a + b|] == ks[i..i + |a + b|][|a|..];
  }

  lemma ReadsAround(ts: seq<Token>, i: nat, k: Keyword, a: seq<Keyword>, l: Keyword)
    requires Reads(ts, i, [k] + a + [l])
    ensures Reads(ts, i, [k]) && Reads(ts, i + 1, a) && Reads(ts, i + 1 + |a|, [l])
  {
    hide *;
    ReadsParts(ts, i, [k] + a, [l]);
    ReadsParts(ts, i, [k], a);
  }

  lemma ReadsBetween(ts: seq<Token>, a: seq<Keyword>, k: Keyword, b: seq<Keyword>)
    requires Reads(ts, 0, a + [k] + b)
    ensures Reads(ts, 0, a) && Reads(ts, |a|, [k]) && Reads(ts, |a| + 1, b)
  {
    hide *;
    ReadsParts(ts, 0, a + [k], b);
    ReadsParts(ts, 0, a, [k]);
  }

  lemma ReadsFits(ts: seq<Token>, i: nat, ks: seq<Keyword>)
    requires Reads(ts, i, ks)
    ensures i + |ks| <= |ts|
  {
  }

  lemma {:induction false} IssuesEnd(ts: seq<Token>, stack: seq<Open>)
    ensures BlockIssues(ts, |ts|, stack) == Unclosed(stack)
  {
  }

  lemma ReadsOne(ts: seq<Token>, i: nat, k: Keyword)
    requires Reads(ts, i, [k])
    ensures i < |ts| && KeywordOf(ts[i]) == k
  {
    assert Keywords(ts)[i..i + 1][0] == Keywords(ts)[i];
  }

  lemma {:induction false} IssuesStep(ts: seq<Token>, i: nat, k: Keyword, stack: seq<Open>)
    requires Reads(ts, i, [k])
    ensures i < |ts| && BlockIssues(ts, i, stack) == BlockIssue(k, i, stack) + BlockIssues(ts, i + 1, BlockStack(k, i, stack))
  {
    ReadsOne(ts, i, k);
  }

  lemma {:induction false} SilentStep(ts: seq<Token>, i: nat, k: Keyword, stack: seq<Open>, after: seq<Open>)
    requires Reads(ts, i, [k]) && BlockIssue(k, i, stack) == [] && BlockStack(k, i, stack) == after
    ensures i < |ts| && BlockIssues(ts, i, stack) == BlockIssues(ts, i + 1, after)
  {
    IssuesStep(ts, i, k, stack);
    hide *;
  }

  /** A derivable block changes nothing and says nothing, wherever it stands. */
  lemma {:induction false} BlockIsSilent(ts: seq<Token>, i: nat, b: Block, stack: seq<Open>)
    requires Reads(ts, i, Yield(b)) && Derives(b, InIf(stack))
    ensures i + |Yield(b)| <= |ts| && BlockIssues(ts, i, stack) == BlockIssues(ts, i + |Yield(b)|, stack)
    decreases b, 1
  {
    hide KeywordOf, Reads, BlockIssues;
    ReadsFits(ts, i, Yield(b));
    match b {
      case Plain(k) => IssuesStep(ts, i, k, stack);
      case ElseMark => IssuesStep(ts, i, ELSE, stack);
      case Enclosed(opener, body, closer) => EnclosedIsSilent(ts, i, opener, body, closer, stack);
    }
  }

  lemma {:induction false} EnclosedIsSilent(ts: seq<Token>, i: nat, opener: Keyword, body: seq<Block>, closer: Keyword, stack: seq<Open>)
    requires Reads(ts, i, [opener] + YieldAll(body) + [closer]) && Derives(Enclosed(opener, body, closer), InIf(stack))
    ensures var n := i + |YieldAll(body)| + 2; n <= |ts| && BlockIssues(ts, i, stack) == BlockIssues(ts, n, stack)
    decreases body, 1
  {
    hide *;
    var within, n := stack + [Open(opener, i)], i + 1 + |YieldAll(body)|;
    PairIsSilent(opener, body, closer, i, n, stack);
    ReadsAround(ts, i, opener, YieldAll(body), closer);
    SilentStep(ts, i, opener, stack, within);
    AllIsSilent(ts, i + 1, body, within);
    SilentStep(ts, n, closer, within, stack);
  }

  lemma {:induction false} PairIsSilent(opener: Keyword, body: seq<Block>, closer: Keyword, i: nat, n: nat, stack: seq<Open>)
    requires Derives(Enclosed(opener, body, closer), InIf(stack))
    ensures var within := stack + [Open(opener, i)];
            && DerivesAll(body, InIf(within))
            && BlockIssue(opener, i, stack) == [] && BlockStack(opener, i, stack) == within
            && BlockIssue(closer, n, within) == [] && BlockStack(closer, n, within) == stack
  {
    var within := stack + [Open(opener, i)];
    assert within[..|stack|] == stack;
  }

  lemma {:induction false} AllIsSilent(ts: seq<Token>, i: nat, bs: seq<Block>, stack: seq<Open>)
    requires Reads(ts, i, YieldAll(bs)) && DerivesAll(bs, InIf(stack))
    ensures i + |YieldAll(bs)| <= |ts| && BlockIssues(ts, i, stack) == BlockIssues(ts, i + |YieldAll(bs)|, stack)
    decreases bs, 0
  {
    hide KeywordOf, Reads, BlockIssues, Derives, Yield;
    ReadsFits(ts, i, YieldAll(bs));
    if bs != [] {
      var first, rest := Yield(bs[0]), YieldAll(bs[1..]);
      assert YieldAll(bs) == first + rest;
      ReadsParts(ts, i, first, rest);
      BlockIsSilent(ts, i, bs[0], stack);
      AllIsSilent(ts, i + |first|, bs[1..], stack);
    }
  }

  /** After balanced tokens, a terminator that closes nothing is the first error. */
  lemma {:induction false} StrayTerminator(ts: seq<Token>, a: seq<Block>, k: Keyword)
    requires DerivesAll(a, false) && Reads(ts, 0, YieldAll(a) + [k])
    requires k == END_PARALLEL || k == END_SEQUENCE || k == ENDIF || k == END_IF
    ensures var issues := BlockIssues(ts, 0, []);
            issues != [] && issues[0] == Issue(ERROR, UnexpectedTerminator(k), |YieldAll(a)|)
  {
    hide KeywordOf, Reads, BlockIssues, YieldAll, DerivesAll;
    ReadsParts(ts, 0, YieldAll(a), [k]);
    AllIsSilent(ts, 0, a, []);
    IssuesStep(ts, |YieldAll(a)|, k, []);
  }

  /** And so is an ELSE outside of any IF. */
  lemma {:induction false} StrayElse(ts: seq<Token>, a: seq<Block>)
    requires DerivesAll(a, false) && Reads(ts, 0, YieldAll(a) + [ELSE])
    ensures var issues := BlockIssues(ts, 0, []);
            issues != [] && issues[0] == Issue(ERROR, ElseWithoutIf, |YieldAll(a)|)
  {
    hide KeywordOf, Reads, BlockIssues, YieldAll, DerivesAll;
    ReadsParts(ts, 0, YieldAll(a), [ELSE]);
    AllIsSilent(ts, 0, a, []);
    IssuesStep(ts, |YieldAll(a)|, ELSE, []);
  }

  predicate Mismatch(opener: Keyword, k: Keyword) {
    match opener
    case PARALLEL => k == END_SEQUENCE || k == ENDIF || k == END_IF
    case SEQUENCE => k == END_PARALLEL || k == ENDIF || k == END_IF
    case IF => k == END_PARALLEL || k == END_SEQUENCE
    case _ => false
  }

  lemma MismatchOpens(opener: Keyword, k: Keyword)
    requires Mismatch(opener, k)
    ensures IsOpener(opener)
  {
  }

  lemma {:induction false} MismatchAtEnd(ts: seq<Token>, n: nat, k: Keyword, opener: Keyword, at: nat)
    requires Reads(ts, n, [k]) && n + 1 == |ts| && Mismatch(opener, k)
    ensures BlockIssues(ts, n, [Open(opener, at)]) ==
            [Issue(ERROR, MismatchedTerminator(k, opener, at), n), Issue(ERROR, UnclosedBlock(opener), at)]
  {
    hide KeywordOf, Reads, BlockIssues;
    var stack := [Open(opener, at)];
    IssuesStep(ts, n, k, stack);
    IssuesEnd(ts, stack);
    assert BlockStack(k, n, stack) == stack && stack[1..] == [];
    assert Unclosed(stack) == [Issue(ERROR, UnclosedBlock(opener), at)];
  }

  /** The terminator of another block is an error at that terminator, which leaves the block open. */
  lemma {:induction false} WrongTerminator(ts: seq<Token>, a: seq<Block>, opener: Keyword, b: seq<Block>, k: Keyword)
    requires DerivesAll(a, false) && DerivesAll(b, opener == IF) && Mismatch(opener, k)
    requires Keywords(ts) == YieldAll(a) + [opener] + YieldAll(b) + [k]
    ensures var at := |YieldAll(a)|;
            BlockIssues(ts, 0, []) ==
            [Issue(ERROR, MismatchedTerminator(k, opener, at), |ts| - 1), Issue(ERROR, UnclosedBlock(opener), at)]
  {
    hide *;
    MismatchOpens(opener, k);
    var before := YieldAll(a) + [opener] + YieldAll(b);
    LastOne(ts, before, k);
    OpenedAt(ts, a, opener, b);
    MismatchAtEnd(ts, |before|, k, opener, |YieldAll(a)|);
  }

  lemma LastOne(ts: seq<Token>, before: seq<Keyword>, k: Keyword)
    requires Keywords(ts) == before + [k]
    ensures Reads(ts, 0, before) && Reads(ts, |before|, [k]) && |before| + 1 == |ts|
  {
    assert Keywords(ts)[0..|ts|] == Keywords(ts);
    ReadsParts(ts, 0, before, [k]);
  }

  lemma {:induction false} OpenedAt(ts: seq<Token>, a: seq<Block>, opener: Keyword, b: seq<Block>)
    requires DerivesAll(a, false) && DerivesAll(b, opener == IF) && Reads(ts, 0, YieldAll(a) + [opener] + YieldAll(b))
    requires IsOpener(opener)
    ensures var at, n := |YieldAll(a)|, |YieldAll(a)| + 1 + |YieldAll(b)|;
            n <= |ts| && BlockIssues(ts, 0, []) == BlockIssues(ts, n, [Open(opener, at)])
  {
    hide KeywordOf, Reads, BlockIssues;
    var at := |YieldAll(a)|;
    ReadsBetween(ts, YieldAll(a), opener, YieldAll(b));
    AllIsSilent(ts, 0, a, []);
    IssuesStep(ts, at, opener, []);
    assert [] + [Open(opener, at)] == [Open(opener, at)];
    AllIsSilent(ts, at + 1, b, [Open(opener, at)]);
  }

  lemma {:induction false} OpenedAtEnd(ts: seq<Token>, n: nat, inner: Keyword, outer: Keyword, at: nat)
    requires Reads(ts, n, [inner]) && n + 1 == |ts| && IsOpener(inner)
    ensures BlockIssues(ts, n, [Open(outer, at)]) == [Issue(ERROR, UnclosedBlock(outer), at), Issue(ERROR, UnclosedBlock(inner), n)]
  {
    hide KeywordOf, Reads, BlockIssues;
    var stack, last := [Open(outer, at)], [Open(inner, n)];
    IssuesStep(ts, n, inner, stack);
    var both := stack + last;
    IssuesEnd(ts, both);
    assert both[1..] == last && last[1..] == [];
    assert Unclosed(last) == [Issue(ERROR, UnclosedBlock(inner), n)];
  }

  predicate IsOpener(k: Keyword) {
    k == PARALLEL || k == SEQUENCE || k == IF
  }

  /** Blocks open at the end are reported where they open, the outermost first. */
  lemma {:induction false} UnclosedBlocks(ts: seq<Token>, a: seq<Block>, outer: Keyword, b: seq<Block>, inner: Keyword)
    requires DerivesAll(a, false) && DerivesAll(b, outer == IF) && IsOpener(outer) && IsOpener(inner)
    requires Keywords(ts) == YieldAll(a) + [outer] + YieldAll(b) + [inner]
    ensures BlockIssues(ts, 0, []) ==
            [Issue(ERROR, UnclosedBlock(outer), |YieldAll(a)|), Issue(ERROR, UnclosedBlock(inner), |ts| - 1)]
  {
    hide *;
    var before := YieldAll(a) + [outer] + YieldAll(b);
    LastOne(ts, before, inner);
    OpenedAt(ts, a, outer, b);
    OpenedAtEnd(ts, |before|, inner, outer, |YieldAll(a)|);
  }
}
