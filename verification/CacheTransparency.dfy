/** Executing with the cache means what executing without it means. */
module CacheTransparency {
  import opened Wrappers
  import opened DslTypes
  import opened CacheModel
  import opened CacheKeys
  import opened Execution

  datatype CallSite = CallSite(tool: string, args: Args)

  function KeyOf(dump: Dump, c: CallSite): string {
    Key(dump, c.tool, c.args)
  }

  /** No two different calls of S share a cache key. */
  ghost predicate KeysSeparate(dump: Dump, S: iset<CallSite>) {
    forall c, d :: c in S && d in S && KeyOf(dump, c) == KeyOf(dump, d) ==> c == d
  }

  /** Whatever the cache holds for a call of S is what the tool would return. */
  ghost predicate TrueFor(env: Runtime, S: iset<CallSite>, c: Cache) {
    forall site :: site in S && KeyOf(env.dump, site) in c.table ==>
      RunTool(env.agent, site.tool, site.args).outcome == Executed(c.table[KeyOf(env.dump, site)].value)
  }

  /** Every CALL below the node, in either branch of a CONDITIONAL, is in S. */
  ghost predicate CallsWithin(node: Node, S: iset<CallSite>)
    decreases node, 1
  {
    match node
    case Call(tool, args) => CallSite(tool, args) in S
    case Parallel(children) => AllCallsWithin(children, S)
    case Sequence(children) => AllCallsWithin(children, S)
    case Conditional(_, children, elseChildren) => AllCallsWithin(children, S) && AllCallsWithin(elseChildren, S)
    case _ => true
  }

  ghost predicate AllCallsWithin(nodes: seq<Node>, S: iset<CallSite>)
    decreases nodes, 0
  {
    nodes == [] || (CallsWithin(nodes[0], S) && AllCallsWithin(nodes[1..], S))
  }

  /** With the cache in use, S has separate keys and the cache is true of it. */
  ghost predicate Sound(env: Runtime, S: iset<CallSite>, w: World) {
    Ready(w) && (env.useCache ==> KeysSeparate(env.dump, S) && TrueFor(env, S, w.cache))
  }

  /** All calls whose tool name has no colon (the validator accepts no other) and whose arguments
      serialise: whatever the program, their keys are separate. */
  ghost function Keyed(dump: Dump): iset<CallSite> {
    iset c: CallSite | ':' !in c.tool && dump(c.args).Some?
  }

  lemma KeyedSeparate(dump: Dump)
    requires Injective(dump)
    ensures KeysSeparate(dump, Keyed(dump))
  {
    forall c, d | c in Keyed(dump) && d in Keyed(dump) && KeyOf(dump, c) == KeyOf(dump, d) ensures c == d {
      KeysCollide(dump, c.tool, c.args, d.tool, d.args);
    }
  }

  // ---- One call --------------------------------------------------------------------------------

  lemma LookupSound(env: Runtime, S: iset<CallSite>, tool: string, args: Args, w: World)
    requires Sound(env, S, w) && CallSite(tool, args) in S
    ensures var (found, w1) := Lookup(env, tool, args, w);
            Sound(env, S, w1) && (found.Some? ==> Erase(found.value) == Erase(RunTool(env.agent, tool, args)))
  {
  }

  lemma RecordSound(env: Runtime, S: iset<CallSite>, tool: string, args: Args, w: World)
    requires Sound(env, S, w) && CallSite(tool, args) in S
    ensures Sound(env, S, Record(env, RunTool(env.agent, tool, args), w))
  {
    var r := RunTool(env.agent, tool, args);
    if env.useCache && r.outcome.Executed? {
      var key := Key(env.dump, tool, args);
      var c := Set(env.clock, w.cache, key, r.outcome.value, None);
      forall site | site in S && KeyOf(env.dump, site) in c.table
        ensures RunTool(env.agent, site.tool, site.args).outcome == Executed(c.table[KeyOf(env.dump, site)].value)
      {
        if KeyOf(env.dump, site) == key {
          assert site == CallSite(tool, args) by {
            assert KeyOf(env.dump, CallSite(tool, args)) == key;
          }
        } else {
          assert KeyOf(env.dump, site) in w.cache.table;
        }
      }
    }
  }

  lemma CallTransparent(env: Runtime, S: iset<CallSite>, tool: string, args: Args, w: World)
    requires Sound(env, S, w) && CallSite(tool, args) in S
    ensures var (r, w') := ExecCall(env, tool, args, w);
            Erase(r) == Meaning(env.agent, Call(tool, args)) && Sound(env, S, w')
  {
    LookupSound(env, S, tool, args, w);
    RecordSound(env, S, tool, args, Lookup(env, tool, args, w).1);
  }

  /** A hit counts as a hit; a result that was executed and stored counts as a miss; nothing else counts. */
  lemma CallCounts(env: Runtime, tool: string, args: Args, w: World)
    requires Ready(w)
    ensures var (r, w') := ExecCall(env, tool, args, w);
            && w'.cacheHits == w.cacheHits + (if r.cacheHit then 1 else 0)
            && w'.cacheMisses == w.cacheMisses + (if env.useCache && r.outcome.Executed? && !r.cacheHit then 1 else 0)
            && (r.cacheHit ==> env.useCache && r.outcome.Executed? && r.executedBy == None)
  {
  }

  /** Memoisation: once a call has executed, its value is in the cache, and the same call right after it is
      answered from there exactly when that value is not None and has not expired. It is stored for the default
      TTL. */
  lemma CallIsMemoised(env: Runtime, tool: string, args: Args, w: World)
    requires Ready(w) && env.useCache && ExecCall(env, tool, args, w).0.outcome.Executed?
    ensures var key, (r, w') := Key(env.dump, tool, args), ExecCall(env, tool, args, w);
            && key in w'.cache.table && w'.cache.table[key].value == r.outcome.value
            && (ExecCall(env, tool, args, w').0.cacheHit <==>
                  r.outcome.value != Null && !Expired(w'.cache.table[key], Reading(env.clock, w'.cache.ticks)))
            && (ExecCall(env, tool, args, w').0.cacheHit ==> ExecCall(env, tool, args, w').0 == Hit(tool, args, r.outcome.value))
            && (!r.cacheHit ==> w'.cache.table[key].ttl == w.cache.defaultTtl)
  {
  }

  // ---- Whole programs --------------------------------------------------------------------------

  lemma {:induction false} EraseKeepsSuccess(r: NodeResult)
    ensures Success(Erase(r)) == Success(r)
  {
  }

  lemma {:induction false} EraseAllAt(rs: seq<NodeResult>, i: nat)
    requires i < |rs|
    ensures EraseAll(rs)[i] == Erase(rs[i])
  {
    if i > 0 {
      EraseAllAt(rs[1..], i - 1);
    }
  }

  lemma {:induction false} EraseAllInit(rs: seq<NodeResult>)
    requires rs != []
    ensures EraseAll(rs)[..|rs| - 1] == EraseAll(rs[..|rs| - 1])
    ensures EraseAll(rs)[|rs| - 1] == Erase(rs[|rs| - 1])
  {
    var n := |rs| - 1;
    EraseAllAt(rs, n);
    forall i | 0 <= i < n ensures EraseAll(rs)[i] == EraseAll(rs[..n])[i] {
      EraseAllAt(rs, i);
      EraseAllAt(rs[..n], i);
    }
  }

  lemma {:induction false} CountErased(rs: seq<NodeResult>)
    ensures CountSuccess(EraseAll(rs)) == CountSuccess(rs)
    decreases |rs|
  {
    if rs != [] {
      EraseAllInit(rs);
      CountErased(rs[..|rs| - 1]);
      EraseKeepsSuccess(rs[|rs| - 1]);
    }
  }

  lemma EraseCombined(rs: seq<NodeResult>)
    ensures Erase(ParallelOf(rs)) == ParallelOf(EraseAll(rs))
    ensures Erase(SequenceOf(rs)) == SequenceOf(EraseAll(rs))
  {
    CountErased(rs);
    if rs != [] {
      EraseAllInit(rs);
      EraseKeepsSuccess(rs[|rs| - 1]);
    }
  }

  /** Cache transparency: for every AST, tool oracle, clock, TTL and eviction history, and every
      starting cache that is true of the program's calls, execution yields the program's meaning,
      and the cache it leaves is true again. */
  lemma {:induction false} Transparent(env: Runtime, S: iset<CallSite>, node: Node, w: World)
    requires Sound(env, S, w) && CallsWithin(node, S)
    ensures var (r, w') := Exec(env, node, w);
            Erase(r) == Meaning(env.agent, node) && Sound(env, S, w')
    decreases node, 1
  {
    match node {
      case Call(tool, args) =>
        CallTransparent(env, S, tool, args, w);
      case Parallel(children) =>
        TransparentAll(env, S, children, w);
        EraseCombined(ExecAll(env, children, w).0);
      case Sequence(children) =>
        TransparentUntilFailure(env, S, children, w);
        EraseCombined(ExecUntilFailure(env, children, w).0);
      case Conditional(c, children, elseChildren) =>
        TransparentAll(env, S, if EvaluateCondition(c) then children else elseChildren, w);
      case _ =>
    }
  }

  lemma {:induction false} TransparentAll(env: Runtime, S: iset<CallSite>, nodes: seq<Node>, w: World)
    requires Sound(env, S, w) && AllCallsWithin(nodes, S)
    ensures var (rs, w') := ExecAll(env, nodes, w);
            EraseAll(rs) == MeaningAll(env.agent, nodes) && Sound(env, S, w')
    decreases nodes, 0
  {
    if nodes != [] {
      Transparent(env, S, nodes[0], w);
      TransparentAll(env, S, nodes[1..], Exec(env, nodes[0], w).1);
    }
  }

  lemma {:induction false} TransparentUntilFailure(env: Runtime, S: iset<CallSite>, nodes: seq<Node>, w: World)
    requires Sound(env, S, w) && AllCallsWithin(nodes, S)
    ensures var (rs, w') := ExecUntilFailure(env, nodes, w);
            EraseAll(rs) == MeaningUntilFailure(env.agent, nodes) && Sound(env, S, w')
    decreases nodes, 0
  {
    if nodes != [] {
      Transparent(env, S, nodes[0], w);
      var (r, w1) := Exec(env, nodes[0], w);
      EraseKeepsSuccess(r);
      if Success(r) {
        TransparentUntilFailure(env, S, nodes[1..], w1);
      }
    }
  }

  lemma {:induction false} TransparentTop(env: Runtime, S: iset<CallSite>, nodes: seq<Node>, w: World)
    requires Sound(env, S, w) && AllCallsWithin(nodes, S)
    ensures var (rs, w') := ExecTop(env, nodes, w);
            EraseAll(rs) == MeaningTop(env.agent, nodes) && Sound(env, S, w')
    decreases nodes
  {
    if nodes != [] {
      Transparent(env, S, nodes[0], w);
      var (r, w1) := Exec(env, nodes[0], w);
      EraseKeepsSuccess(r);
      if Success(r) || nodes[0].Parallel? {
        TransparentTop(env, S, nodes[1..], w1);
      }
    }
  }

  /** The same program with and without the cache, over whatever caches. */
  lemma CachedEqualsUncached(env: Runtime, S: iset<CallSite>, nodes: seq<Node>, w: World, plain: World)
    requires Sound(env, S, w) && AllCallsWithin(nodes, S) && Ready(plain)
    ensures EraseAll(ExecTop(env, nodes, w).0) == EraseAll(ExecTop(env.(useCache := false), nodes, plain).0)
  {
    TransparentTop(env, S, nodes, w);
    TransparentTop(env.(useCache := false), S, nodes, plain);
  }

  // ---- The condition on keys is needed ---------------------------------------------------------

  /** Running two calls one after the other over a fresh cache gives their meanings, whatever the
      tools and the clock do. */
  ghost predicate PairTransparent(dump: Dump, ttl: nat, c: CallSite, d: CallSite) {
    forall agent: AgentInterface, clock: Clock ::
      PairFaithful(Runtime(Some(agent), clock, dump, true), ttl, c, d)
  }

  ghost predicate PairFaithful(env: Runtime, ttl: nat, c: CallSite, d: CallSite) {
    var w0 := World(Empty(1000, ttl), 0, 0);
    var (r, w1) := ExecCall(env, c.tool, c.args, w0);
    Erase(r) == Meaning(env.agent, Call(c.tool, c.args)) &&
    Erase(ExecCall(env, d.tool, d.args, w1).0) == Meaning(env.agent, Call(d.tool, d.args))
  }

  /** A tool that tells call c from every other call. */
  function Telltale(c: CallSite): AgentInterface {
    AgentInterface(
      t => Returned(true),
      (t, a) => Returned(Bool(t == c.tool && a == c.args)),
      t => Returned(None),
      (p, t, a) => Returned(Null))
  }

  /** Two calls are safe to run over one cache exactly when they do not share a key, or are the same
      call. By KeysCollide the exceptions are calls of one tool whose arguments do not serialise. */
  lemma SeparateKeysExact(dump: Dump, ttl: nat, c: CallSite, d: CallSite)
    ensures PairTransparent(dump, ttl, c, d) <==> (KeyOf(dump, c) == KeyOf(dump, d) ==> c == d)
  {
    if KeyOf(dump, c) == KeyOf(dump, d) ==> c == d {
      forall agent: AgentInterface, clock: Clock ensures PairFaithful(Runtime(Some(agent), clock, dump, true), ttl, c, d) {
        SeparateIsFaithful(Runtime(Some(agent), clock, dump, true), ttl, c, d);
      }
    } else {
      SharedIsNotFaithful(dump, ttl, c, d);
    }
  }

  lemma SeparateIsFaithful(env: Runtime, ttl: nat, c: CallSite, d: CallSite)
    requires env.useCache && (KeyOf(env.dump, c) == KeyOf(env.dump, d) ==> c == d)
    ensures PairFaithful(env, ttl, c, d)
  {
    var S := iset{c, d};
    var w0 := World(Empty(1000, ttl), 0, 0);
    CallTransparent(env, S, c.tool, c.args, w0);
    CallTransparent(env, S, d.tool, d.args, ExecCall(env, c.tool, c.args, w0).1);
  }

  lemma SharedIsNotFaithful(dump: CacheKeys.Dump, ttl: nat, c: CallSite, d: CallSite)
    requires KeyOf(dump, c) == KeyOf(dump, d) && c != d
    ensures !PairFaithful(Runtime(Some(Telltale(c)), i => 0, dump, true), ttl, c, d)
  {
    var env := Runtime(Some(Telltale(c)), i => 0, dump, true);
    var key := KeyOf(dump, c);
    var w1 := ExecCall(env, c.tool, c.args, World(Empty(1000, ttl), 0, 0)).1;
    assert key in w1.cache.table && w1.cache.table[key].value == Bool(true);
    assert !Expired(w1.cache.table[key], Reading(env.clock, w1.cache.ticks));
    assert ExecCall(env, d.tool, d.args, w1).0 == Hit(d.tool, d.args, Bool(true));
  }
}
