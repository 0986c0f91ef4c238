/** The token validator as the source writes it (src/praxis_sdk/dsl/validator.py): methods that append
    to a shared result object, push and pop a block stack, and step through argument lists. */
module DslValidators {
  import opened Wrappers
  import opened DslTypes
  import opened Arguments
  import opened Parsing
  import opened Validation
  import Sequences

  class ValidationResult {
    var issues: seq<Issue>
    var isValid: bool
    var errors: nat
    var warnings: nat
    var info: nat

    /** The flag and the summary say what the list of issues says. */
    ghost predicate Valid()
      reads this
    {
      && isValid == NoErrors(issues)
      && errors == CountLevel(issues, ERROR)
      && warnings == CountLevel(issues, WARNING)
    }

    constructor ()
      ensures Valid() && issues == []
    {
      issues, isValid, errors, warnings, info := [], true, 0, 0, 0;
    }

    /** add_issue. The summary has no key for level INFO, so adding one raises a KeyError after the issue
        has been appended; every other level keeps list, flag and summary in step. */
    method AddIssue(issue: Issue) returns (ok: bool)
      requires Valid()
      modifies this
      ensures ok <==> issue.level != INFO
      ensures Valid() && issues == old(issues) + [issue]
    {
      ghost var before := issues;
      issues := issues + [issue];
      assert issues[..|before|] == before;
      match issue.level {
        case ERROR => errors := errors + 1;
        case WARNING => warnings := warnings + 1;
        case INFO => return false;
      }
      if issue.level == ERROR {
        isValid := false;
      }
      ok := true;
    }
  }

  class DslValidator {
    const reservedKeywords: set<string>

    constructor (reservedKeywords: set<string> := RESERVED_KEYWORDS)
      ensures this.reservedKeywords == reservedKeywords
    {
      this.reservedKeywords := reservedKeywords;
    }

    method ValidateTokens(tokens: seq<Token>) returns (result: ValidationResult)
      ensures fresh(result) && result.Valid()
      ensures result.issues == TokenSequenceIssues(reservedKeywords, tokens)
    {
      result := new ValidationResult();
      if tokens == [] {
        var _ := result.AddIssue(Issue(WARNING, EmptyTokenSequence, 0));
        return;
      }
      ghost var structure := StructureIssues(reservedKeywords, tokens, 0);
      ValidateTokenStructure(tokens, result);
      assert result.issues == structure by {
        Sequences.NothingFirst(structure);
      }
      ValidateBalancedBlocks(tokens, result);
      assert result.issues == structure + BlockIssues(tokens, 0, []);
      ValidateCommandSequences(tokens, result);
    }

    method ValidateTokenStructure(tokens: seq<Token>, result: ValidationResult)
      requires result.Valid()
      modifies result
      ensures result.Valid() && result.issues == old(result.issues) + StructureIssues(reservedKeywords, tokens, 0)
    {
      ghost var whole := result.issues + StructureIssues(reservedKeywords, tokens, 0);
      for i := 0 to |tokens|
        invariant result.Valid() && whole == result.issues + StructureIssues(reservedKeywords, tokens, i)
      {
        ghost var before := result.issues;
        ValidateToken(tokens[i], i, result);
        Sequences.Assoc(before, TokenIssues(reservedKeywords, tokens[i], i), StructureIssues(reservedKeywords, tokens, i + 1));
      }
    }

    method ValidateToken(token: Token, i: nat, result: ValidationResult)
      requires result.Valid()
      modifies result
      ensures result.Valid() && result.issues == old(result.issues) + TokenIssues(reservedKeywords, token, i)
    {
      if token.value == "" {
        var _ := result.AddIssue(Issue(ERROR, EmptyTokenValue, i));
      }
      assert result.issues == old(result.issues) + EmptyIssue(token, i);
      if IsReserved(reservedKeywords, token) {
        var _ := result.AddIssue(Issue(WARNING, ReservedKeywordAsValue(token.value), i));
      }
      assert result.issues == old(result.issues) + EmptyIssue(token, i) + ReservedIssue(reservedKeywords, token, i);
      JoinThree(EmptyIssue(token, i), ReservedIssue(reservedKeywords, token, i), CallTokenIssues(token, i));
      Sequences.Assoc(old(result.issues), EmptyIssue(token, i), ReservedIssue(reservedKeywords, token, i));
      Sequences.Assoc(old(result.issues), EmptyIssue(token, i) + ReservedIssue(reservedKeywords, token, i), CallTokenIssues(token, i));
      if KeywordOf(token) == CALL {
        ValidateCallToken(token, i, result);
      }
    }

    method ValidateCallToken(token: Token, i: nat, result: ValidationResult)
      requires result.Valid()
      modifies result
      ensures result.Valid() && result.issues == old(result.issues) + CallIssues(token.args, i)
    {
      if token.args == [] {
        var _ := result.AddIssue(Issue(ERROR, MissingToolName, i));
        return;
      }
      if !MatchesName(token.args[0]) {
        var _ := result.AddIssue(Issue(ERROR, InvalidToolName(token.args[0]), i));
      }
      ghost var before := result.issues;
      ValidateArgumentStructure(token.args[1..], i, result);
      Sequences.Assoc(old(result.issues), before[|old(result.issues)|..], KeyIssues(BadKeys(Walk(token.args[1..])), i));
    }

    method ValidateArgumentStructure(args: seq<string>, at: nat, result: ValidationResult)
      requires result.Valid()
      modifies result
      ensures result.Valid() && result.issues == old(result.issues) + KeyIssues(BadKeys(Walk(args)), at)
    {
      ghost var whole := result.issues + IssuesFrom(args, 0, at);
      assert args[0..] == args;
      var i := 0;
      while i < |args|
        invariant i <= |args| && result.Valid()
        invariant whole == result.issues + IssuesFrom(args, i, at)
      {
        WalkStep(args, i, at);
        ghost var before, now := result.issues, i;
        if StartsWith(args[i], "--") {
          var key := args[i][2..];
          if !MatchesName(key) {
            var _ := result.AddIssue(Issue(ERROR, InvalidArgumentKey(key), at));
          }
          if i + 1 < |args| && !StartsWith(args[i + 1], "--") {
            i := i + 2;
          } else {
            i := i + 1;
          }
        } else {
          i := i + 1;
        }
        assert result.issues == before + OptionIssue(args[now], at);
        assert i == Skip(args, now);
        Sequences.Assoc(before, OptionIssue(args[now], at), IssuesFrom(args, i, at));
      }
    }

    method ValidateBalancedBlocks(tokens: seq<Token>, result: ValidationResult)
      requires result.Valid()
      modifies result
      ensures result.Valid() && result.issues == old(result.issues) + BlockIssues(tokens, 0, [])
    {
      var blockStack: seq<Open> := [];
      ghost var whole := result.issues + BlockIssues(tokens, 0, []);
      for i := 0 to |tokens|
        invariant result.Valid() && whole == result.issues + BlockIssues(tokens, i, blockStack)
      {
        ghost var before, stack := result.issues, blockStack;
        var command := KeywordOf(tokens[i]);
        blockStack := CheckBlock(command, i, blockStack, result);
        Sequences.Assoc(before, BlockIssue(command, i, stack), BlockIssues(tokens, i + 1, blockStack));
      }
      ReportUnclosed(blockStack, result);
    }

    /** One turn of that loop. */
    method CheckBlock(command: Keyword, i: nat, stack: seq<Open>, result: ValidationResult) returns (blockStack: seq<Open>)
      requires result.Valid()
      modifies result
      ensures result.Valid() && result.issues == old(result.issues) + BlockIssue(command, i, stack)
      ensures blockStack == BlockStack(command, i, stack)
    {
      blockStack := stack;
      if Opens(command) {
        blockStack := blockStack + [Open(command, i)];
      } else if Closes(command) {
        if blockStack == [] {
          var _ := result.AddIssue(Issue(ERROR, UnexpectedTerminator(command), i));
        } else {
          var top := blockStack[|blockStack| - 1];
          if command !in ExpectedEnd(top.kind) {
            var _ := result.AddIssue(Issue(ERROR, MismatchedTerminator(command, top.kind, top.at), i));
          } else {
            blockStack := blockStack[..|blockStack| - 1];
          }
        }
      } else if command == ELSE {
        if blockStack == [] || blockStack[|blockStack| - 1].kind != IF {
          var _ := result.AddIssue(Issue(ERROR, ElseWithoutIf, i));
        }
      }
    }

    method ReportUnclosed(stack: seq<Open>, result: ValidationResult)
      requires result.Valid()
      modifies result
      ensures result.Valid() && result.issues == old(result.issues) + Unclosed(stack)
    {
      ghost var whole := result.issues + Unclosed(stack);
      for i := 0 to |stack|
        invariant result.Valid() && whole == result.issues + Unclosed(stack[i..])
      {
        Sequences.Unfold(stack, i);
        ghost var before := result.issues;
        var issue := Issue(ERROR, UnclosedBlock(stack[i].kind), stack[i].at);
        var _ := result.AddIssue(issue);
        Sequences.Assoc(before, [issue], Unclosed(stack[i + 1..]));
      }
    }

    method ValidateCommandSequences(tokens: seq<Token>, result: ValidationResult)
      requires result.Valid()
      modifies result
      ensures result.Valid() && result.issues == old(result.issues) + SequenceIssues(tokens, 0)
    {
      ghost var whole := result.issues + SequenceIssues(tokens, 0);
      var i := 0;
      while i < |tokens| - 1
        invariant 0 <= i && result.Valid() && whole == result.issues + SequenceIssues(tokens, i)
      {
        ghost var before := result.issues;
        ValidatePair(tokens, i, result);
        Sequences.Assoc(before, PairIssues(tokens, i), SequenceIssues(tokens, i + 1));
        i := i + 1;
      }
    }

    method ValidatePair(tokens: seq<Token>, i: nat, result: ValidationResult)
      requires result.Valid() && i + 1 < |tokens|
      modifies result
      ensures result.Valid() && result.issues == old(result.issues) + PairIssues(tokens, i)
    {
      var current, nextCmd := KeywordOf(tokens[i]), KeywordOf(tokens[i + 1]);
      if current == ELSE && nextCmd == IF {
        var _ := result.AddIssue(Issue(WARNING, ElseFollowedByIf, i));
      }
      if current == nextCmd && (current == PARALLEL || current == SEQUENCE) {
        var _ := result.AddIssue(Issue(WARNING, ConsecutiveBlocks(current), i));
      }
    }
  }

  /** What is left to report from the argument at i on. */
  function IssuesFrom(args: seq<string>, i: nat, at: nat): seq<Issue>
    requires i <= |args|
  {
    KeyIssues(BadKeys(Walk(args[i..])), at)
  }

  function OptionIssue(arg: string, at: nat): seq<Issue> {
    if IsOption(arg) && !MatchesName(arg[2..]) then [Issue(ERROR, InvalidArgumentKey(arg[2..]), at)] else []
  }

  /** One step of the walk. */
  lemma WalkStep(args: seq<string>, i: nat, at: nat)
    requires i < |args|
    ensures IssuesFrom(args, i, at) == OptionIssue(args[i], at) + IssuesFrom(args, Skip(args, i), at)
  {
    var rest := args[i..];
    assert rest[0] == args[i] && rest[1..] == args[i + 1..];
    assert i + 1 < |args| ==> rest[1] == args[i + 1] && rest[2..] == args[i + 2..];
    var items := Walk(rest);
    assert items[1..] == Walk(args[Skip(args, i)..]);
    assert IsOption(args[i]) ==> KeyOf(items[0]) == Some(args[i][2..]);
    assert !IsOption(args[i]) ==> KeyOf(items[0]) == None;
    assert [] + BadKeys(items[1..]) == BadKeys(items[1..]);
    if IsOption(args[i]) {
      assert ([args[i][2..]] + BadKeys(items[1..]))[1..] == BadKeys(items[1..]);
    }
  }

  function Skip(args: seq<string>, i: nat): (j: nat)
    requires i < |args|
    ensures i < j <= |args|
  {
    if IsOption(args[i]) && i + 1 < |args| && !IsOption(args[i + 1]) then i + 2 else i + 1
  }

  /** The tokenizer's own check of CALL arguments: its loop stops at the first fault. */
  method ValidateCallArgs(args: seq<string>) returns (ok: bool)
    ensures ok <==> CallArgsValid(args)
  {
    if args == [] {
      return false;
    }
    if args[0] == "" || !MatchesName(args[0]) {
      return false;
    }
    var remaining := args[1..];
    var i := 0;
    while i < |remaining|
      invariant i <= |remaining|
      invariant BadKeys(Walk(remaining)) == BadKeys(Walk(remaining[i..]))
    {
      KeyStep(remaining, i);
      if StartsWith(remaining[i], "--") {
        var key := remaining[i][2..];
        if key == "" || !MatchesName(key) {
          return false;
        }
        if i + 1 < |remaining| && !StartsWith(remaining[i + 1], "--") {
          i := i + 2;
        } else {
          i := i + 1;
        }
      } else {
        i := i + 1;
      }
    }
    ok := true;
  }

  lemma KeyStep(args: seq<string>, i: nat)
    requires i < |args|
    ensures var now := BadKeys(Walk(args[i..]));
            if IsOption(args[i]) && !MatchesName(args[i][2..]) then now != []
            else now == BadKeys(Walk(args[Skip(args, i)..]))
  {
    var rest := args[i..];
    assert rest[0] == args[i] && rest[1..] == args[i + 1..];
    assert i + 1 < |args| ==> rest[1] == args[i + 1] && rest[2..] == args[i + 2..];
    var items := Walk(rest);
    assert items[1..] == Walk(args[Skip(args, i)..]);
    assert IsOption(args[i]) ==> KeyOf(items[0]) == Some(args[i][2..]);
    assert [] + BadKeys(items[1..]) == BadKeys(items[1..]);
  }
}
