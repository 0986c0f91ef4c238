/** Which token lists build_ast accepts (src/praxis_sdk/dsl/ast_builder.py:33-135, 510-567). */
module Acceptance {
  import opened DslTypes
  import opened Arguments
  import opened Parsing
  import opened LinearScan

  // ---- Acceptance ----------------------------------------------------------------------------------

  /** Every CALL from i up to j names a tool. */
  ghost predicate CallsHaveArgs(ts: seq<Token>, i: nat, j: nat)
    requires i <= j <= |ts|
  {
    forall k :: i <= k < j && KeywordOf(ts[k]) == CALL ==> ts[k].args != []
  }

  /** Parsing fails exactly on a CALL without arguments, wherever it stands. */
  lemma {:induction false} NodeSyntax(parse: ValueParser, ts: seq<Token>, i: nat)
    requires i < |ts|
    ensures var r := ParseNode(parse, ts, i);
            if r.Ok? then CallsHaveArgs(ts, i, r.next) else !CallsHaveArgs(ts, i, |ts|)
    decreases |ts| - i, 0
  {
    match KeywordOf(ts[i]) {
      case PARALLEL => BlockSyntax(parse, ts, i + 1, true);
      case SEQUENCE => BlockSyntax(parse, ts, i + 1, false);
      case IF => BranchSyntax(parse, ts, i + 1, false);
      case _ => LeafSyntax(parse, ts, i);
    }
  }

  lemma LeafSyntax(parse: ValueParser, ts: seq<Token>, i: nat)
    requires i < |ts| && !OpensBlock(KeywordOf(ts[i]))
    ensures var r := ParseNode(parse, ts, i);
            if r.Ok? then r.next == i + 1 && CallsHaveArgs(ts, i, i + 1) else !CallsHaveArgs(ts, i, |ts|)
  {
    var leaf := LeafNode(parse, ts[i]);
    NoLeafWithoutTool(parse, ts[i]);
    assert ParseNode(parse, ts, i) == if leaf.None? then SyntaxError else Ok(leaf.value, i + 1);
  }

  lemma NoLeafWithoutTool(parse: ValueParser, t: Token)
    ensures LeafNode(parse, t).None? <==> KeywordOf(t) == CALL && t.args == []
  {
  }

  lemma {:induction false} BlockSyntax(parse: ValueParser, ts: seq<Token>, i: nat, parallel: bool)
    requires i <= |ts|
    ensures var r := ParseBlock(parse, ts, i, parallel);
            if r.Ok? then CallsHaveArgs(ts, i, r.next) else !CallsHaveArgs(ts, i, |ts|)
    decreases |ts| - i, 1
  {
    if i < |ts| && !EndsBlock(parallel, KeywordOf(ts[i])) {
      NodeSyntax(parse, ts, i);
      var r := ParseNode(parse, ts, i);
      if r.Ok? {
        BlockSyntax(parse, ts, r.next, parallel);
      }
    }
  }

  lemma {:induction false} BranchSyntax(parse: ValueParser, ts: seq<Token>, i: nat, inElse: bool)
    requires i <= |ts|
    ensures var r := ParseBranches(parse, ts, i, inElse);
            if r.Ok? then CallsHaveArgs(ts, i, r.next) else !CallsHaveArgs(ts, i, |ts|)
    decreases |ts| - i, 1
  {
    if i < |ts| {
      var k := KeywordOf(ts[i]);
      if k == ELSE {
        BranchSyntax(parse, ts, i + 1, true);
      } else if !LeavesIf(k) && k != ENDIF && k != END_IF {
        BranchChildSyntax(parse, ts, i, inElse);
      }
    }
  }

  lemma {:induction false} BranchChildSyntax(parse: ValueParser, ts: seq<Token>, i: nat, inElse: bool)
    requires i < |ts| && BranchChild(KeywordOf(ts[i]))
    ensures var r := ParseBranches(parse, ts, i, inElse);
            if r.Ok? then CallsHaveArgs(ts, i, r.next) else !CallsHaveArgs(ts, i, |ts|)
    decreases |ts| - i, 0
  {
    LeafSyntax(parse, ts, i);
    if ParseNode(parse, ts, i).Ok? {
      BranchSyntax(parse, ts, i + 1, inElse);
    }
  }

  lemma {:induction false} AllSyntax(parse: ValueParser, ts: seq<Token>, i: nat)
    requires i <= |ts|
    ensures ParseAll(parse, ts, i).Ok? <==> CallsHaveArgs(ts, i, |ts|)
    decreases |ts| - i
  {
    if i < |ts| {
      NodeSyntax(parse, ts, i);
      var r := ParseNode(parse, ts, i);
      if r.Ok? {
        AllSyntax(parse, ts, r.next);
      }
    }
  }

  /** What recursive validation will ask of the token at i: a child right behind a PARALLEL or SEQUENCE,
      a non-empty tool name for a CALL that is not in an else branch. */
  predicate Acceptable(ts: seq<Token>, i: nat, m: Mode)
    requires i < |ts|
  {
    match KeywordOf(ts[i])
    case PARALLEL => i + 1 < |ts| && !EndsBlock(true, KeywordOf(ts[i + 1]))
    case SEQUENCE => i + 1 < |ts| && !EndsBlock(false, KeywordOf(ts[i + 1]))
    case CALL => m == InIf(true) || (ts[i].args != [] && ts[i].args[0] != "")
    case _ => true
  }

  predicate ScanAccepts(ts: seq<Token>, i: nat, m: Mode)
    requires i <= |ts|
    decreases |ts| - i
  {
    i == |ts| || (Acceptable(ts, i, m) && ScanAccepts(ts, i + 1, After(m, KeywordOf(ts[i]))))
  }

  lemma StopAccepts(ts: seq<Token>, i: nat, m: Mode)
    requires i <= |ts|
    requires i == |ts| || (ReadIn(m, KeywordOf(ts[i])) == Top && KeywordOf(ts[i]) != CALL)
    ensures ScanAccepts(ts, i, m) == ScanAccepts(ts, i, Top)
  {
  }

  lemma {:induction false} BlockAccepts(parse: ValueParser, ts: seq<Token>, i: nat, parallel: bool, depth: nat)
    requires i <= |ts| && ParseBlock(parse, ts, i, parallel).Ok?
    ensures var Ok(children, j) := ParseBlock(parse, ts, i, parallel);
            && (j == |ts| || EndsBlock(parallel, KeywordOf(ts[j])))
            && (children == [] <==> i == |ts| || EndsBlock(parallel, KeywordOf(ts[i])))
            && (ScanAccepts(ts, i, BlockMode(parallel, depth)) <==> AllValid(children) && ScanAccepts(ts, j, Top))
    decreases |ts| - i, 1
  {
    if i == |ts| || EndsBlock(parallel, KeywordOf(ts[i])) {
      StopAccepts(ts, i, BlockMode(parallel, depth));
    } else {
      var Ok(node, j) := ParseNode(parse, ts, i);
      BlockAccepts(parse, ts, j, parallel, depth);
      InnerAccepts(parse, ts, i, parallel, depth);
      var rest := ParseBlock(parse, ts, j, parallel).value;
      assert ([node] + rest)[1..] == rest;
    }
  }

  /** One child of a block: the scan goes on behind it, in the same mode or at the top. */
  lemma {:induction false} InnerAccepts(parse: ValueParser, ts: seq<Token>, i: nat, parallel: bool, depth: nat)
    requires i < |ts| && !EndsBlock(parallel, KeywordOf(ts[i])) && ParseNode(parse, ts, i).Ok?
    ensures var Ok(node, j) := ParseNode(parse, ts, i);
            && (OpensBlock(KeywordOf(ts[i])) ==> j == |ts| || EndsBlock(parallel, KeywordOf(ts[j])))
            && (ScanAccepts(ts, i, BlockMode(parallel, depth))
                <==> ValidNode(node) && ScanAccepts(ts, j, if OpensBlock(KeywordOf(ts[i])) then Top else BlockMode(parallel, depth)))
    decreases |ts| - i, 0
  {
    var m, k := BlockMode(parallel, depth), KeywordOf(ts[i]);
    assert ReadIn(m, k) == m;
    assert After(m, k) == BlockMode(parallel, if OpensBlock(k) then depth + 1 else depth);
    if OpensBlock(k) {
      BlockAccepts(parse, ts, i + 1, parallel, depth + 1);
      assert k == if parallel then PARALLEL else SEQUENCE;
    }
  }

  lemma LeafAccepts(parse: ValueParser, ts: seq<Token>, i: nat, m: Mode)
    requires i < |ts| && !OpensBlock(KeywordOf(ts[i])) && ParseNode(parse, ts, i).Ok?
    ensures var Ok(node, j) := ParseNode(parse, ts, i);
            j == i + 1 && (Acceptable(ts, i, m) <==> m == InIf(true) || ValidNode(node))
  {
  }

  lemma AbsorbedAccepts(ts: seq<Token>, i: nat, inElse: bool)
    requires i < |ts| && KeywordOf(ts[i]) in {ELSE, ENDIF, END_IF}
    ensures ScanAccepts(ts, i, InIf(inElse)) == ScanAccepts(ts, i + 1, if KeywordOf(ts[i]) == ELSE then InIf(true) else Top)
  {
  }

  lemma {:induction false} BranchAccepts(parse: ValueParser, ts: seq<Token>, i: nat, inElse: bool)
    requires i <= |ts| && ParseBranches(parse, ts, i, inElse).Ok?
    ensures var Ok(b, j) := ParseBranches(parse, ts, i, inElse);
            && (inElse ==> b.thenPart == [])
            && (ScanAccepts(ts, i, InIf(inElse)) <==> AllValid(b.thenPart) && ScanAccepts(ts, j, Top))
    decreases |ts| - i, 1
  {
    if i < |ts| {
      var k := KeywordOf(ts[i]);
      if k == ELSE {
        AbsorbedAccepts(ts, i, inElse);
        BranchAccepts(parse, ts, i + 1, true);
      } else if k == ENDIF || k == END_IF {
        AbsorbedAccepts(ts, i, inElse);
      } else if LeavesIf(k) {
        StopAccepts(ts, i, InIf(inElse));
      } else {
        ChildAccepts(parse, ts, i, inElse);
      }
    }
  }

  lemma {:induction false} ChildAccepts(parse: ValueParser, ts: seq<Token>, i: nat, inElse: bool)
    requires i < |ts| && ParseBranches(parse, ts, i, inElse).Ok?
    requires BranchChild(KeywordOf(ts[i]))
    ensures var Ok(b, j) := ParseBranches(parse, ts, i, inElse);
            && (inElse ==> b.thenPart == [])
            && (ScanAccepts(ts, i, InIf(inElse)) <==> AllValid(b.thenPart) && ScanAccepts(ts, j, Top))
    decreases |ts| - i, 0
  {
    LeafAccepts(parse, ts, i, InIf(inElse));
    var Ok(node, j) := ParseNode(parse, ts, i);
    BranchAccepts(parse, ts, j, inElse);
    var Ok(rest, l) := ParseBranches(parse, ts, j, inElse);
    assert After(InIf(inElse), KeywordOf(ts[i])) == InIf(inElse);
    assert ScanAccepts(ts, i, InIf(inElse)) <==> Acceptable(ts, i, InIf(inElse)) && ScanAccepts(ts, j, InIf(inElse));
    if inElse {
      assert ParseBranches(parse, ts, i, inElse).value.thenPart == [] + rest.thenPart;
    } else {
      assert ParseBranches(parse, ts, i, inElse).value.thenPart == [node] + rest.thenPart;
      assert ([node] + rest.thenPart)[1..] == rest.thenPart;
    }
  }

  lemma TopAccepts(parse: ValueParser, ts: seq<Token>, i: nat)
    requires i < |ts| && ParseNode(parse, ts, i).Ok?
    ensures var Ok(node, j) := ParseNode(parse, ts, i);
            ScanAccepts(ts, i, Top) <==> ValidNode(node) && ScanAccepts(ts, j, Top)
  {
    match KeywordOf(ts[i]) {
      case PARALLEL => BlockAccepts(parse, ts, i + 1, true, 1);
      case SEQUENCE => BlockAccepts(parse, ts, i + 1, false, 1);
      case IF => BranchAccepts(parse, ts, i + 1, false);
      case _ => LeafAccepts(parse, ts, i, Top);
    }
  }

  lemma {:induction false} AllAccepts(parse: ValueParser, ts: seq<Token>, i: nat)
    requires i <= |ts| && ParseAll(parse, ts, i).Ok?
    ensures ScanAccepts(ts, i, Top) <==> AllValid(ParseAll(parse, ts, i).value)
    decreases |ts| - i
  {
    if i < |ts| {
      var Ok(node, j) := ParseNode(parse, ts, i);
      TopAccepts(parse, ts, i);
      AllAccepts(parse, ts, j);
      var rest := ParseAll(parse, ts, j).value;
      assert ([node] + rest)[1..] == rest;
    }
  }

  /** build_ast, whose outcome recursive descent and recursive validation decide, is decided by one scan,
      for every token list: a syntax error exactly for a CALL without arguments, and otherwise an AST
      exactly when the scan accepts. */
  lemma ScanDecidesTheOutcome(parse: ValueParser, ts: seq<Token>)
    ensures BuildAst(parse, ts) == DSLSyntaxError <==> !CallsHaveArgs(ts, 0, |ts|)
    ensures BuildAst(parse, ts).Built? <==> CallsHaveArgs(ts, 0, |ts|) && ScanAccepts(ts, 0, Top)
  {
    AllSyntax(parse, ts, 0);
    if ParseAll(parse, ts, 0).Ok? {
      AllAccepts(parse, ts, 0);
    }
  }

  /** The same as a condition on each token and its neighbour alone. */
  predicate LocallyFine(ts: seq<Token>, i: nat)
    requires i < |ts|
  {
    match KeywordOf(ts[i])
    case PARALLEL => i + 1 < |ts| && KeywordOf(ts[i + 1]) !in {END_PARALLEL, SEQUENCE, WORKFLOW, IF}
    case SEQUENCE => i + 1 < |ts| && KeywordOf(ts[i + 1]) !in {END_SEQUENCE, PARALLEL, WORKFLOW, IF}
    case CALL => ts[i].args != []
    case _ => true
  }

  predicate LocallyFineFrom(ts: seq<Token>, i: nat)
    requires i <= |ts|
    decreases |ts| - i
  {
    i == |ts| || (LocallyFine(ts, i) && LocallyFineFrom(ts, i + 1))
  }

  lemma {:induction false} FineAt(ts: seq<Token>, i: nat, k: nat)
    requires i <= k < |ts| && LocallyFineFrom(ts, i)
    ensures LocallyFine(ts, k)
    decreases k - i
  {
    if i < k {
      FineAt(ts, i + 1, k);
    }
  }

  lemma {:induction false} NotFineAt(ts: seq<Token>, i: nat) returns (k: nat)
    requires i <= |ts| && !LocallyFineFrom(ts, i)
    ensures k < |ts| && !LocallyFine(ts, k)
    decreases |ts| - i
  {
    k := i;
    if LocallyFine(ts, i) {
      k := NotFineAt(ts, i + 1);
    }
  }

  lemma LocallyFineEach(ts: seq<Token>)
    ensures LocallyFineFrom(ts, 0) <==> forall k :: 0 <= k < |ts| ==> LocallyFine(ts, k)
  {
    if LocallyFineFrom(ts, 0) {
      forall k | 0 <= k < |ts| ensures LocallyFine(ts, k) {
        FineAt(ts, 0, k);
      }
    } else {
      var k := NotFineAt(ts, 0);
    }
  }

  predicate NoEmptyField(t: Token) {
    forall a :: a in t.args ==> a != ""
  }

  predicate FieldsNotEmpty(ts: seq<Token>) {
    forall t :: t in ts ==> NoEmptyField(t)
  }

  lemma AcceptableIsLocal(ts: seq<Token>, i: nat, m: Mode)
    requires i < |ts| && FieldsNotEmpty(ts) && CallsHaveArgs(ts, 0, |ts|)
    ensures Acceptable(ts, i, m) <==> LocallyFine(ts, i)
  {
    assert NoEmptyField(ts[i]);
    assert KeywordOf(ts[i]) == CALL ==> ts[i].args[0] in ts[i].args;
  }

  /** If the scan asks of each token what is asked of it locally, whatever the mode. */
  lemma {:induction false} AcceptsLocally(ts: seq<Token>, i: nat, m: Mode)
    requires i <= |ts|
    requires forall k, m' :: 0 <= k < |ts| ==> (Acceptable(ts, k, m') <==> LocallyFine(ts, k))
    ensures ScanAccepts(ts, i, m) <==> LocallyFineFrom(ts, i)
    decreases |ts| - i
  {
    if i < |ts| {
      var m' := After(m, KeywordOf(ts[i]));
      AcceptsLocally(ts, i + 1, m');
    }
  }

  /** On tokens with non-empty fields, which is all the tokenizer makes, acceptance is a local check: no
      CALL lacks arguments, no PARALLEL is last or directly followed by END_PARALLEL, SEQUENCE, WORKFLOW
      or IF, and no SEQUENCE is last or directly followed by END_SEQUENCE, PARALLEL, WORKFLOW or IF. */
  lemma AcceptanceIsLocal(parse: ValueParser, ts: seq<Token>)
    requires FieldsNotEmpty(ts)
    ensures BuildAst(parse, ts).Built? <==> forall k :: 0 <= k < |ts| ==> LocallyFine(ts, k)
  {
    ScanDecidesTheOutcome(parse, ts);
    if CallsHaveArgs(ts, 0, |ts|) {
      forall k, m | 0 <= k < |ts| ensures Acceptable(ts, k, m) <==> LocallyFine(ts, k) {
        AcceptableIsLocal(ts, k, m);
      }
      AcceptsLocally(ts, 0, Top);
      LocallyFineEach(ts);
    } else {
      var k :| 0 <= k < |ts| && KeywordOf(ts[k]) == CALL && ts[k].args == [];
      assert !LocallyFine(ts, k);
    }
  }
}
