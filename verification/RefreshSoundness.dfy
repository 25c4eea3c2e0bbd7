/** The guard against the runs: which programs it is sound for, and why. */
module RefreshSoundness {
  import opened Common
  import opened RefreshSyntax
  import opened RefreshGuard
  import opened RefreshRuns

  /** Names whose recorded state can be relied on. */
  type Trust = iset<string>

  /** Every trusted name that may hold a stale select is recorded as one. */
  ghost predicate Covers(env: Env, st: Store, known: Trust) {
    forall x :: x in known && Look(st, x) == Stale ==> Get(env, x) == Select
  }

  predicate Switches(m: string, kws: seq<Ast>) {
    m == "execution_options" && exists kw :: kw in kws && SetsPopulateExisting(kw)
  }

  /** `execution_options` with an option whose effect on the refresh is not in the text. */
  predicate Obscures(m: string, kws: seq<Ast>) {
    && m == "execution_options" && (exists kw :: kw in kws && MentionsPopulateExisting(kw))
    && !exists kw :: kw in kws && SetsPopulateExisting(kw)
  }

  predicate IsRefreshCall(e: Ast) {
    e.Call? && (e.func == Name(REFRESH) || (e.func.Attribute? && e.func.attr == REFRESH_METHOD))
  }

  /** Some store makes the expression a select statement. */
  predicate MayBeQuery(e: Ast, lib: Library) {
    match e
    case Name(_) => true
    case Attribute(v, _) => lib.attributes && MayBeQuery(v, lib)
    case Call(f, args, _, _) =>
      if IsRefreshCall(e) then args != [] && MayBeQuery(args[0], lib)
      else if f.Attribute? then ReturnsQuery(f.attr, lib) && MayBeQuery(f.value, lib)
      else f == Name("select")
    case _ => false
  }

  /** Some store makes the expression a refreshed select statement. */
  predicate MayBeFresh(e: Ast, lib: Library) {
    match e
    case Name(_) => true
    case Attribute(v, _) => lib.attributes && MayBeFresh(v, lib)
    case Call(f, args, kws, _) =>
      if IsRefreshCall(e) then args != [] && MayBeQuery(args[0], lib)
      else
        && f.Attribute? && ReturnsQuery(f.attr, lib)
        && if Switches(f.attr, kws) || Obscures(f.attr, kws) then MayBeQuery(f.value, lib) else MayBeFresh(f.value, lib)
    case _ => false
  }

  /** Some store makes the expression a stale select statement. */
  predicate MayBeStale(e: Ast, lib: Library) {
    match e
    case Name(_) => true
    case Attribute(v, _) => lib.attributes && MayBeStale(v, lib)
    case Call(f, _, kws, _) =>
      if IsRefreshCall(e) then false
      else if f.Attribute? then
        && ReturnsQuery(f.attr, lib) && !Switches(f.attr, kws)
        && if Obscures(f.attr, kws) then MayBeQuery(f.value, lib) else MayBeStale(f.value, lib)
      else f == Name("select")
    case _ => false
  }

  /** The one name an expression's state hangs on, if any, is trusted, no option on the
      way may undo a refresh unseen, and no method outside the guard's table carries a
      stale select on. */
  ghost predicate Trusted(e: Ast, known: Trust, lib: Library) {
    match e
    case Name(x) => x in known
    case Attribute(v, _) => lib.attributes ==> Trusted(v, known, lib)
    case Call(Attribute(v, m), _, kws, _) =>
      || m == REFRESH_METHOD
      || Switches(m, kws)
      || if m in SELECT_CHAIN_METHODS then
           Trusted(v, known, lib) && (Obscures(m, kws) && MayBeFresh(v, lib) ==> Classify(v, map[]) == Select)
         else
           m in lib.moreMethods ==> !MayBeStale(v, lib)
    case _ => true
  }

  lemma {:induction false} MayBeSound(e: Ast, st: Store)
    ensures Fresh in Values(e, st) ==> MayBeFresh(e, st.lib)
    ensures Stale in Values(e, st) ==> MayBeStale(e, st.lib)
    ensures Fresh in Values(e, st) || Stale in Values(e, st) ==> MayBeQuery(e, st.lib)
  {
    match e
    case Attribute(v, _) => MayBeSound(v, st);
    case Call(f, args, kws, _) =>
      if IsRefreshCall(e) {
        if args != [] { MayBeSound(args[0], st); }
      } else if f.Attribute? {
        MayBeSound(f.value, st);
        forall v, w | v in Values(f.value, st) && w in ChainValues(f.attr, kws, v, st.lib)
          ensures w != Plain ==> v != Plain && ReturnsQuery(f.attr, st.lib)
          ensures w == Fresh && v == Stale ==> Switches(f.attr, kws) || Obscures(f.attr, kws)
          ensures w == Stale ==> !Switches(f.attr, kws) && (v == Stale || Obscures(f.attr, kws))
        {}
      }
    case _ =>
  }

  lemma {:induction false} SelectAnywhere(e: Ast, env: Env)
    requires Classify(e, map[]) == Select
    ensures Classify(e, env) == Select
  {
    match e
    case Attribute(v, _) => SelectAnywhere(v, env);
    case Call(Attribute(v, m), _, _, _) => if m != REFRESH_METHOD { SelectAnywhere(v, env); }
    case _ =>
  }

  lemma {:induction false} ClassifyCovers(e: Ast, env: Env, st: Store, known: Trust)
    requires Covers(env, st, known) && Trusted(e, known, st.lib) && Stale in Values(e, st)
    ensures Classify(e, env) == Select
  {
    match e
    case Attribute(v, _) => ClassifyCovers(v, env, st, known);
    case Call(Attribute(b, m), _, kws, _) =>
      if m != REFRESH_METHOD {
        var v :| v in Values(b, st) && Stale in ChainValues(m, kws, v, st.lib);
        MayBeSound(b, st);
        if v == Stale {
          ClassifyCovers(b, env, st, known);
        } else {
          SelectAnywhere(b, env);
        }
      }
    case _ =>
  }

  // ----- trust is the weakest such condition on an expression -----

  /** The one name the value of an expression hangs on, if any. */
  function Root(e: Ast): Option<string> {
    match e
    case Name(x) => Some(x)
    case Attribute(v, _) => Root(v)
    case Call(f, args, _, _) =>
      if IsRefreshCall(e) then (if args == [] then None else Root(args[0]))
      else if f.Attribute? then Root(f.value)
      else None
    case _ => None
  }

  function RootStore(e: Ast, v: Value, lib: Library): Store {
    if Root(e).Some? then Set(Start(lib), Root(e).value, v) else Start(lib)
  }

  lemma {:induction false} MayBeWitness(e: Ast, st: Store)
    requires Root(e).Some? ==> Look(st, Root(e).value) != Plain
    ensures MayBeQuery(e, st.lib) ==> Fresh in Values(e, st) || Stale in Values(e, st)
    ensures (Root(e).Some? ==> Look(st, Root(e).value) == Fresh) && MayBeFresh(e, st.lib) ==> Fresh in Values(e, st)
    ensures (Root(e).Some? ==> Look(st, Root(e).value) == Stale) && MayBeStale(e, st.lib) ==> Stale in Values(e, st)
  {
    match e
    case Attribute(v, _) => MayBeWitness(v, st);
    case Call(f, args, kws, _) =>
      if IsRefreshCall(e) {
        if args != [] { MayBeWitness(args[0], st); }
      } else if f.Attribute? {
        MayBeWitness(f.value, st);
        ChainWitness(e, st);
      }
    case _ =>
  }

  /** What a chained method makes of a query. */
  lemma ChainWitness(e: Ast, st: Store)
    requires e.Call? && e.func.Attribute? && !IsRefreshCall(e)
    ensures var m, kws, vs := e.func.attr, e.keywords, Values(e.func.value, st);
            ReturnsQuery(m, st.lib) ==>
              && (Stale in vs || Fresh in vs ==> Fresh in Values(e, st) || Stale in Values(e, st))
              && ((Switches(m, kws) || Obscures(m, kws)) && (Stale in vs || Fresh in vs) ==> Fresh in Values(e, st))
              && (Obscures(m, kws) && (Stale in vs || Fresh in vs) ==> Stale in Values(e, st))
              && (!Switches(m, kws) && !Obscures(m, kws) ==> forall v :: v in vs ==> v in Values(e, st))
  {
    var b, m, kws := e.func.value, e.func.attr, e.keywords;
    if ReturnsQuery(m, st.lib) {
      forall v | v in Values(b, st) ensures ChainValues(m, kws, v, st.lib) <= Values(e, st) {}
      if Switches(m, kws) {
        assert forall v :: v != Plain ==> ChainValues(m, kws, v, st.lib) == {Fresh};
      } else if Obscures(m, kws) {
        assert forall v :: v != Plain ==> ChainValues(m, kws, v, st.lib) == {Stale, Fresh};
      } else {
        assert forall v :: v in ChainValues(m, kws, v, st.lib);
      }
    }
  }

  lemma {:induction false} UntrustedFails(e: Ast, known: Trust, lib: Library) returns (env: Env, st: Store)
    requires !Trusted(e, known, lib)
    ensures st.lib == lib && Covers(env, st, known) && Stale in Values(e, st) && Classify(e, env) != Select
  {
    match e
    case Name(x) => env, st := map[], Set(Start(lib), x, Stale);
    case Attribute(v, _) => env, st := UntrustedFails(v, known, lib);
    case Call(Attribute(v, m), _, kws, _) =>
      if m !in SELECT_CHAIN_METHODS {
        st := RootStore(v, Stale, lib);
        env := if Root(v).Some? then map[Root(v).value := Select] else map[];
        MayBeWitness(v, st);
        ChainWitness(e, st);
      } else if !Trusted(v, known, lib) {
        env, st := UntrustedFails(v, known, lib);
        ChainWitness(e, st);
      } else {
        env, st := map[], RootStore(v, Fresh, lib);
        MayBeWitness(v, st);
        ChainWitness(e, st);
      }
  }

  /** An expression is trusted exactly when the guard sees it as a select in every
      covered situation in which it may be a stale one, whatever the library. */
  lemma TrustedIsExact(e: Ast, known: Trust, lib: Library)
    ensures Trusted(e, known, lib) <==>
            forall env, st: Store :: st.lib == lib && Covers(env, st, known) && Stale in Values(e, st) ==> Classify(e, env) == Select
  {
    if Trusted(e, known, lib) {
      forall env, st: Store | st.lib == lib && Covers(env, st, known) && Stale in Values(e, st)
        ensures Classify(e, env) == Select
      {
        ClassifyCovers(e, env, st, known);
      }
    } else {
      var env, st := UntrustedFails(e, known, lib);
    }
  }

  // ----- the programs -----

  ghost function TrustIf(ok: bool, known: Trust, names: set<string>): Trust {
    if ok then iset x | x in known || x in names else iset x | x in known && x !in names
  }

  ghost function Everything(): Trust {
    iset x: string | |x| >= 0
  }

  ghost function Without(known: Trust, names: set<string>): Trust {
    iset x | x in known && x !in names
  }

  /** A name recorded as a select is covered whatever the store holds. */
  ghost function Sure(env: Env, known: Trust): Trust {
    iset x | x in known || Get(env, x) == Select
  }

  ghost function TrustAfter(s: Ast, env: Env, known: Trust, lib: Library): Trust {
    match s
    case Assign(ts, e) =>
      Without(TrustIf(Trusted(e, Sure(env, known), lib), known, PlainTargets(ts)), UnpackedTargets(ts))
    case AnnAssign(Name(x), _, init) => TrustIf(init.Some? && Trusted(init.value, Sure(env, known), lib), known, {x})
    case AugAssign(Name(x), _) => TrustIf(true, known, {x})
    case _ => Without(known, Assigned(s))
  }

  ghost predicate TrustedCalls(ns: seq<Ast>, env: Env, known: Trust, lib: Library) {
    forall c :: c in Walk(ns) && IsExecute(c) ==> Trusted(c.args[0], Sure(env, known), lib)
  }

  ghost predicate NoExecute(ns: seq<Ast>) {
    forall c :: c in Walk(ns) ==> !IsExecute(c)
  }

  ghost predicate GuardedAll(body: seq<Ast>, env: Env, known: Trust, lib: Library)
    decreases SizeAll(body), 4, 0
  {
    body != [] ==>
      && Guarded(body[0], env, known, lib)
      && GuardedAll(body[1..], Record(body[0], env), TrustAfter(body[0], env, known, lib), lib)
  }

  /** The programs the guard is sound for.  Each `execute` argument hangs on a name that
      the guard has recorded as a select there, or that was assigned in the same block or
      before the enclosing blocks and that no enclosing block rebinds out of the guard's
      sight.  Nothing is asked of names that never reach an `execute`. */
  ghost predicate Guarded(s: Ast, env: Env, known: Trust, lib: Library)
    decreases Size(s), 3, 0
  {
    match s
    case If(t, b, o) =>
      SizeOfNested(s, 0); SizeOfNested(s, 1);
      TrustedCalls([t], env, known, lib) && GuardedAll(b, env, known, lib) && GuardedAll(o, env, known, lib)
    case For(_, i, _, _) =>
      TrustedCalls([i], env, known, lib) && LoopGuarded(s, env, Without(known, Assigned(s)), lib)
    case While(_, _, _) => LoopGuarded(s, env, Without(known, Assigned(s)), lib)
    case With(items, b) =>
      SizeOfNested(s, 0);
      TrustedCalls(items, env, Without(known, AssignedAll(items)), lib) && GuardedAll(b, env, Without(known, AssignedAll(items)), lib)
    case Try(b, _, _, _) =>
      SizeOfNested(s, 0);
      GuardedAll(b, env, known, lib) && AfterTryGuarded(s, env, Without(known, AssignedAll(b)), lib)
    case Match(sub, cs) =>
      && TrustedCalls([sub], env, known, lib)
      && forall k: nat :: k < |cs| ==> CaseGuarded(s, k, env, Without(known, Captures(cs)), lib)
    case FunctionDef(_, _, b, _) =>
      SizeOfScope(s);
      NoExecute(ScopeHeader(s)) && GuardedAll(b, env, iset{}, lib)
    case ClassDef(_, _, b, _) =>
      SizeOfScope(s);
      NoExecute(ScopeHeader(s)) && GuardedAll(b, env, known, lib)
    case _ => TrustedCalls([s], env, known, lib)
  }

  ghost predicate LoopGuarded(s: Ast, env: Env, inside: Trust, lib: Library)
    requires IsLoop(s)
    decreases Size(s), 1, 0
  {
    SizeOfNested(s, 0); SizeOfNested(s, 1);
    && TrustedCalls([LoopTest(s)], env, inside, lib)
    && GuardedAll(s.body, env, inside, lib) && GuardedAll(s.orelse, env, inside, lib)
  }

  ghost predicate AfterTryGuarded(s: Ast, env: Env, after: Trust, lib: Library)
    requires s.Try?
    decreases Size(s), 1, 1
  {
    SizeOfNested(s, 1); SizeOfNested(s, 2);
    && GuardedAll(s.orelse, env, after, lib)
    && (forall k: nat :: k < |s.handlers| ==> HandlerGuarded(s, k, env, after, lib))
    && GuardedAll(s.finalbody, env, Without(after, AssignedAll(s.handlers) + AssignedAll(s.orelse)), lib)
  }

  ghost predicate HandlerGuarded(s: Ast, k: nat, env: Env, after: Trust, lib: Library)
    requires s.Try? && k < |s.handlers|
    decreases Size(s), 1, 0
  {
    SizeOfHandler(s, k);
    && TrustedCalls(ClauseHeader(s.handlers[k]), env, after, lib)
    && GuardedAll(BodyOf(s.handlers[k]), env, Without(after, Alias(s.handlers[k])), lib)
  }

  ghost predicate CaseGuarded(s: Ast, k: nat, env: Env, inside: Trust, lib: Library)
    requires s.Match? && k < |s.cases|
    decreases Size(s), 1, 0
  {
    SizeOfCase(s, k);
    TrustedCalls(ClauseHeader(s.cases[k]), env, inside, lib) && GuardedAll(BodyOf(s.cases[k]), env, inside, lib)
  }

  // ----- a run changes only the names the statement assigns -----

  lemma {:induction false} EndsFrame(s: Ast, st: Store, x: Exit, st': Store)
    requires Ends(s, st, x, st')
    ensures Same(st, st', Assigned(s))
    decreases Size(s), 3, 0
  {
    if !(x == Abrupt && st' == st) {
      match s
      case If(_, b, o) =>
        SizeOfNested(s, 0); SizeOfNested(s, 1);
        if EndsAll(b, st, x, st') { EndsAllFrame(b, st, x, st'); } else { EndsAllFrame(o, st, x, st'); }
      case For(_, _, _, _) => LoopFrame(s, st, x, st');
      case While(_, _, _) => LoopFrame(s, st, x, st');
      case With(items, b) =>
        SizeOfNested(s, 0);
        var m, y :| Same(st, m, AssignedAll(items)) && EndsAll(b, m, y, st') && (x == y || x == Normal);
        EndsAllFrame(b, m, y, st');
      case Try(b, h, o, f) =>
        SizeOfNested(s, 0); SizeOfNested(s, 2);
        var y, m, z, m', w :| EndsAll(b, st, y, m) && Handled(s, y, m, z, m') && EndsAll(f, m', w, st')
                              && x == if w == Abrupt then Abrupt else z;
        EndsAllFrame(b, st, y, m);
        HandledFrame(s, y, m, z, m');
        EndsAllFrame(f, m', w, st');
      case Match(_, cs) => MatchFrame(s, st, x, st');
      case _ =>
    }
  }

  lemma {:induction false} MatchFrame(s: Ast, st: Store, x: Exit, st': Store)
    requires s.Match? && Ends(s, st, x, st')
    ensures Same(st, st', Assigned(s))
    decreases Size(s), 2, 0
  {
    var cs := s.cases;
    if !(x == Abrupt && st' == st) {
      var m :| Same(st, m, Captures(cs)) && (
        || (x == Normal && st' == m)
        || exists k :: 0 <= k < |cs| && EndsAll(BodyOf(cs[k]), m, x, st'));
      if !(x == Normal && st' == m) {
        var k :| 0 <= k < |cs| && EndsAll(BodyOf(cs[k]), m, x, st');
        SizeOfNested(s, k);
        EndsAllFrame(BodyOf(cs[k]), m, x, st');
        AssignedMember(cs, k);
        assert AssignedAll(BodyOf(cs[k])) <= Assigned(cs[k]);
      }
    }
  }

  lemma HandlerAssigns(h: Ast)
    ensures Alias(h) + AssignedAll(BodyOf(h)) <= Assigned(h)
  {
  }

  lemma {:induction false} HandledFrame(s: Ast, y: Exit, m: Store, z: Exit, m': Store)
    requires s.Try? && Handled(s, y, m, z, m')
    ensures Same(m, m', AssignedAll(s.handlers) + AssignedAll(s.orelse))
    decreases Size(s), 1, 0
  {
    SizeOfNested(s, 1);
    if y == Normal {
      EndsAllFrame(s.orelse, m, z, m');
    } else if !(z == Abrupt && m' == m) {
      var k, a :| 0 <= k < |s.handlers| && Same(m, a, Alias(s.handlers[k])) && EndsAll(BodyOf(s.handlers[k]), a, z, m');
      SizeOfNested(s, 3 + k);
      EndsAllFrame(BodyOf(s.handlers[k]), a, z, m');
      AssignedMember(s.handlers, k);
      HandlerAssigns(s.handlers[k]);
    }
  }

  lemma {:induction false} LoopFrame(s: Ast, st: Store, x: Exit, st': Store)
    requires IsLoop(s) && Ends(s, st, x, st')
    ensures Same(st, st', Assigned(s))
    decreases Size(s), 2, 0
  {
    if !(x == Abrupt && st' == st) {
      var n: nat, m :| LoopHead(s, n, st, m) && (st' == m || EndsAll(s.orelse, m, x, st'));
      LoopHeadFrame(s, n, st, m);
      if st' != m {
        SizeOfNested(s, 1);
        EndsAllFrame(s.orelse, m, x, st');
      }
    }
  }

  lemma {:induction false} LoopHeadFrame(s: Ast, n: nat, st: Store, m: Store)
    requires IsLoop(s) && LoopHead(s, n, st, m)
    ensures Same(st, m, Assigned(s))
    decreases Size(s), 1, n
  {
    if n > 0 {
      var h, a, y :| LoopHead(s, n - 1, st, h) && Same(h, a, LoopNames(s)) && EndsAll(s.body, a, y, m);
      LoopHeadFrame(s, n - 1, st, h);
      TurnFrame(s, h, a, y, m);
    }
  }

  lemma {:induction false} TurnFrame(s: Ast, h: Store, a: Store, y: Exit, m: Store)
    requires IsLoop(s) && Same(h, a, LoopNames(s)) && EndsAll(s.body, a, y, m)
    ensures Same(h, m, Assigned(s))
    decreases Size(s), 0, 0
  {
    SizeOfNested(s, 0);
    EndsAllFrame(s.body, a, y, m);
  }

  lemma {:induction false} EndsAllFrame(body: seq<Ast>, st: Store, x: Exit, st': Store)
    requires EndsAll(body, st, x, st')
    ensures Same(st, st', AssignedAll(body))
    decreases SizeAll(body), 4, 0
  {
    if body != [] {
      if x == Abrupt && Ends(body[0], st, Abrupt, st') {
        EndsFrame(body[0], st, Abrupt, st');
      } else {
        var m :| Ends(body[0], st, Normal, m) && EndsAll(body[1..], m, x, st');
        EndsFrame(body[0], st, Normal, m);
        EndsAllFrame(body[1..], m, x, st');
      }
    }
  }

  lemma CoversAfterChange(env: Env, st: Store, st': Store, known: Trust, changed: set<string>)
    requires Covers(env, st, known) && Same(st, st', changed)
    ensures Covers(env, st', Without(known, changed))
  {
  }

  // ----- recording keeps the cover -----

  lemma {:induction false} BindNamesGet(ts: seq<Ast>, state: QueryState, env: Env, x: string)
    ensures Get(BindNames(ts, state, env), x) == if x in PlainTargets(ts) then state else Get(env, x)
  {
    if ts != [] {
      BindNamesGet(ts[1..], state, if ts[0].Name? then env[ts[0].id := state] else env, x);
    }
  }

  lemma {:induction false} TargetsSplit(ts: seq<Ast>)
    ensures TargetsNames(ts) == PlainTargets(ts) + UnpackedTargets(ts)
  {
    if ts != [] { TargetsSplit(ts[1..]); }
  }

  /** One statement, ended normally: the environment the guard carries on with still
      covers the store, for the names that stay trusted. */
  lemma {:induction false} RecordCovers(s: Ast, env: Env, st: Store, known: Trust, st': Store)
    requires Covers(env, st, known) && Ends(s, st, Normal, st')
    ensures st'.lib == st.lib && Covers(Record(s, env), st', TrustAfter(s, env, known, st.lib))
  {
    EndsFrame(s, st, Normal, st');
    match s
    case Assign(ts, e) =>
      var v :| v in Values(e, st) && Stored(ts, v, st, st');
      TargetsSplit(ts);
      if Trusted(e, Sure(env, known), st.lib) && v == Stale { ClassifyCovers(e, env, st, Sure(env, known)); }
      forall x | x in TrustAfter(s, env, known, st.lib) && Look(st', x) == Stale ensures Get(Record(s, env), x) == Select {
        BindNamesGet(ts, Classify(e, env), env, x);
      }
    case AnnAssign(Name(y), _, Some(e)) =>
      if Trusted(e, Sure(env, known), st.lib) && Look(st', y) == Stale { ClassifyCovers(e, env, st, Sure(env, known)); }
    case _ =>
  }

  // ----- soundness -----

  ghost predicate StaleAt(c: Ast, at: Store) {
    IsExecute(c) && Stale in Values(c.args[0], at)
  }

  /** A stale execute in an expression examined with a covering environment. */
  lemma HeaderSound(s: Ast, part: seq<Ast>, env: Env, at: Store, known: Trust, c: Ast)
    requires !IsScope(s) && Covers(env, at, known) && TrustedCalls(part, env, known, at.lib)
    requires StaleAt(c, at) && InSome(c, part) && InTree(c, s)
    ensures Entry(c) in StmtReport(s, env)
  {
    WalkFindsExactlyTheCalls(part, c);
    ClassifyCovers(c.args[0], env, at, Sure(env, known));
    StmtCallReported(s, env, c);
  }

  lemma NestedSound(s: Ast, k: nat, env: Env, v: Violation)
    requires !IsScope(s) && k < |NestedBodies(s)| && v in Report(NestedBodies(s)[k], env)
    ensures v in StmtReport(s, env)
  {
    assert Record(s, env) == env;
    NestedReported(s, 0, k, env, v);
  }

  lemma {:induction false} BodySound(body: seq<Ast>, env: Env, st: Store, known: Trust, c: Ast, at: Store)
    requires GuardedAll(body, env, known, st.lib) && Covers(env, st, known)
    requires ExecutesAll(body, st, c, at) && StaleAt(c, at)
    ensures Entry(c) in Report(body, env)
    decreases SizeAll(body), 4, 0
  {
    if Executes(body[0], st, c, at) {
      StmtSound(body[0], env, st, known, c, at);
    } else {
      var m :| Ends(body[0], st, Normal, m) && ExecutesAll(body[1..], m, c, at);
      RecordCovers(body[0], env, st, known, m);
      BodySound(body[1..], Record(body[0], env), m, TrustAfter(body[0], env, known, st.lib), c, at);
    }
  }

  lemma {:induction false} StmtSound(s: Ast, env: Env, st: Store, known: Trust, c: Ast, at: Store)
    requires Guarded(s, env, known, st.lib) && Covers(env, st, known)
    requires Executes(s, st, c, at) && StaleAt(c, at)
    ensures Entry(c) in StmtReport(s, env)
    decreases Size(s), 3, 0
  {
    if s.If? { IfSound(s, env, st, known, c, at); }
    else if IsLoop(s) { LoopSound(s, env, st, known, c, at); }
    else if s.With? { WithSound(s, env, st, known, c, at); }
    else if s.Try? { TrySound(s, env, st, known, c, at); }
    else if s.Match? { MatchSound(s, env, st, known, c, at); }
    else if IsScope(s) { ScopeSound(s, env, st, known, c, at); }
    else {
      assert InTree(c, [s][0]);
      HeaderSound(s, [s], env, st, known, c);
    }
  }

  lemma {:induction false} IfSound(s: Ast, env: Env, st: Store, known: Trust, c: Ast, at: Store)
    requires s.If? && Guarded(s, env, known, st.lib) && Covers(env, st, known)
    requires Executes(s, st, c, at) && StaleAt(c, at)
    ensures Entry(c) in StmtReport(s, env)
    decreases Size(s), 2, 0
  {
    SizeOfNested(s, 0); SizeOfNested(s, 1);
    if ExecutesAll(s.body, st, c, at) {
      BodySound(s.body, env, st, known, c, at);
      NestedSound(s, 0, env, Entry(c));
    } else if ExecutesAll(s.orelse, st, c, at) {
      BodySound(s.orelse, env, st, known, c, at);
      NestedSound(s, 1, env, Entry(c));
    } else {
      assert InTree(c, [s.test][0]);
      assert Children(s)[0] == s.test;
      ChildInTree(c, s, 0);
      HeaderSound(s, [s.test], env, st, known, c);
    }
  }

  lemma {:induction false} LoopSound(s: Ast, env: Env, st: Store, known: Trust, c: Ast, at: Store)
    requires IsLoop(s) && Guarded(s, env, known, st.lib) && Covers(env, st, known)
    requires Executes(s, st, c, at) && StaleAt(c, at)
    ensures Entry(c) in StmtReport(s, env)
    decreases Size(s), 2, 0
  {
    if s.For? && InTree(c, s.iter) && at == st {
      assert InTree(c, [s.iter][0]);
      assert Children(s)[1] == s.iter;
      ChildInTree(c, s, 1);
      HeaderSound(s, [s.iter], env, st, known, c);
    } else {
      var n: nat, m :| LoopHead(s, n, st, m) && LoopExecutes(s, m, c, at);
      LoopHeadFrame(s, n, st, m);
      CoversAfterChange(env, st, m, known, Assigned(s));
      IterationSound(s, env, m, Without(known, Assigned(s)), c, at);
    }
  }

  /** One iteration, from a store at the head of the loop. */
  lemma {:induction false} IterationSound(s: Ast, env: Env, m: Store, inside: Trust, c: Ast, at: Store)
    requires IsLoop(s) && Covers(env, m, inside) && StaleAt(c, at) && LoopExecutes(s, m, c, at)
    requires LoopGuarded(s, env, inside, m.lib)
    requires forall x :: x in LoopNames(s) ==> x !in inside
    ensures Entry(c) in StmtReport(s, env)
    decreases Size(s), 1, 0
  {
    SizeOfNested(s, 0); SizeOfNested(s, 1);
    if InTree(c, LoopTest(s)) && at == m {
      InSomeOne(c, LoopTest(s));
      assert Children(s)[0] == LoopTest(s);
      ChildInTree(c, s, 0);
      HeaderSound(s, [LoopTest(s)], env, m, inside, c);
    } else if ExecutesAll(s.orelse, m, c, at) {
      BodySound(s.orelse, env, m, inside, c, at);
      NestedSound(s, 1, env, Entry(c));
    } else {
      var a :| Same(m, a, LoopNames(s)) && ExecutesAll(s.body, a, c, at);
      assert Covers(env, a, inside);
      BodySound(s.body, env, a, inside, c, at);
      NestedSound(s, 0, env, Entry(c));
    }
  }

  lemma {:induction false} WithSound(s: Ast, env: Env, st: Store, known: Trust, c: Ast, at: Store)
    requires s.With? && Guarded(s, env, known, st.lib) && Covers(env, st, known)
    requires Executes(s, st, c, at) && StaleAt(c, at)
    ensures Entry(c) in StmtReport(s, env)
    decreases Size(s), 2, 0
  {
    var m :| Same(st, m, AssignedAll(s.items)) && ((InSome(c, s.items) && at == m) || ExecutesAll(s.body, m, c, at));
    var inside := Without(known, AssignedAll(s.items));
    CoversAfterChange(env, st, m, known, AssignedAll(s.items));
    if ExecutesAll(s.body, m, c, at) {
      SizeOfNested(s, 0);
      BodySound(s.body, env, m, inside, c, at);
      NestedSound(s, 0, env, Entry(c));
    } else {
      var k :| 0 <= k < |s.items| && InTree(c, s.items[k]);
      assert Children(s)[k] == s.items[k];
      ChildInTree(c, s, k);
      HeaderSound(s, s.items, env, m, inside, c);
    }
  }

  lemma {:induction false} TrySound(s: Ast, env: Env, st: Store, known: Trust, c: Ast, at: Store)
    requires s.Try? && Guarded(s, env, known, st.lib) && Covers(env, st, known)
    requires Executes(s, st, c, at) && StaleAt(c, at)
    ensures Entry(c) in StmtReport(s, env)
    decreases Size(s), 2, 0
  {
    SizeOfNested(s, 0);
    if ExecutesAll(s.body, st, c, at) {
      BodySound(s.body, env, st, known, c, at);
      NestedSound(s, 0, env, Entry(c));
    } else {
      var y, m :| EndsAll(s.body, st, y, m) && AfterTryExecutes(s, y, m, c, at);
      EndsAllFrame(s.body, st, y, m);
      CoversAfterChange(env, st, m, known, AssignedAll(s.body));
      AfterTrySound(s, env, y, m, Without(known, AssignedAll(s.body)), c, at);
    }
  }

  lemma {:induction false} AfterTrySound(s: Ast, env: Env, y: Exit, m: Store, after: Trust, c: Ast, at: Store)
    requires s.Try? && AfterTryGuarded(s, env, after, m.lib) && Covers(env, m, after)
    requires AfterTryExecutes(s, y, m, c, at) && StaleAt(c, at)
    ensures Entry(c) in StmtReport(s, env)
    decreases Size(s), 1, 1
  {
    SizeOfNested(s, 1); SizeOfNested(s, 2);
    if ExecutesAll(s.orelse, m, c, at) {
      BodySound(s.orelse, env, m, after, c, at);
      NestedSound(s, 1, env, Entry(c));
    } else if z, m' :| Handled(s, y, m, z, m') && ExecutesAll(s.finalbody, m', c, at) {
      HandledFrame(s, y, m, z, m');
      var changed := AssignedAll(s.handlers) + AssignedAll(s.orelse);
      CoversAfterChange(env, m, m', after, changed);
      BodySound(s.finalbody, env, m', Without(after, changed), c, at);
      NestedSound(s, 2, env, Entry(c));
    } else {
      var k, a :| 0 <= k < |s.handlers| && Same(m, a, Alias(s.handlers[k]))
        && ((InSome(c, ClauseHeader(s.handlers[k])) && at == m) || ExecutesAll(BodyOf(s.handlers[k]), a, c, at));
      HandlerSound(s, k, env, m, a, after, c, at);
    }
  }

  lemma {:induction false} HandlerSound(s: Ast, k: nat, env: Env, m: Store, a: Store, after: Trust, c: Ast, at: Store)
    requires s.Try? && k < |s.handlers| && Covers(env, m, after) && StaleAt(c, at)
    requires HandlerGuarded(s, k, env, after, m.lib)
    requires Same(m, a, Alias(s.handlers[k]))
    requires (InSome(c, ClauseHeader(s.handlers[k])) && at == m) || ExecutesAll(BodyOf(s.handlers[k]), a, c, at)
    ensures Entry(c) in StmtReport(s, env)
    decreases Size(s), 1, 0
  {
    var h := s.handlers[k];
    if InSome(c, ClauseHeader(h)) && at == m {
      assert Children(s)[|s.body| + k] == h;
      ClauseInTree(c, h, s, |s.body| + k);
      HeaderSound(s, ClauseHeader(h), env, m, after, c);
    } else {
      CoversAfterChange(env, m, a, after, Alias(h));
      SizeOfNested(s, 3 + k);
      BodySound(BodyOf(h), env, a, Without(after, Alias(h)), c, at);
      assert NestedBodies(s)[3 + k] == BodyOf(h);
      NestedSound(s, 3 + k, env, Entry(c));
    }
  }

  lemma {:induction false} MatchSound(s: Ast, env: Env, st: Store, known: Trust, c: Ast, at: Store)
    requires s.Match? && Guarded(s, env, known, st.lib) && Covers(env, st, known)
    requires Executes(s, st, c, at) && StaleAt(c, at)
    ensures Entry(c) in StmtReport(s, env)
    decreases Size(s), 2, 0
  {
    var cs := s.cases;
    if InTree(c, s.subject) && at == st {
      assert InTree(c, [s.subject][0]);
      assert Children(s)[0] == s.subject;
      ChildInTree(c, s, 0);
      HeaderSound(s, [s.subject], env, st, known, c);
    } else {
      var m, k :| Same(st, m, Captures(cs)) && 0 <= k < |cs|
           && ((InSome(c, ClauseHeader(cs[k])) && at == m) || ExecutesAll(BodyOf(cs[k]), m, c, at));
      CoversAfterChange(env, st, m, known, Captures(cs));
      CaseSound(s, k, env, m, Without(known, Captures(cs)), c, at);
    }
  }

  lemma {:induction false} CaseSound(s: Ast, k: nat, env: Env, m: Store, inside: Trust, c: Ast, at: Store)
    requires s.Match? && k < |s.cases| && Covers(env, m, inside) && StaleAt(c, at)
    requires CaseGuarded(s, k, env, inside, m.lib)
    requires (InSome(c, ClauseHeader(s.cases[k])) && at == m) || ExecutesAll(BodyOf(s.cases[k]), m, c, at)
    ensures Entry(c) in StmtReport(s, env)
    decreases Size(s), 1, 0
  {
    var n := s.cases[k];
    if InSome(c, ClauseHeader(n)) && at == m {
      assert Children(s)[1 + k] == n;
      ClauseInTree(c, n, s, 1 + k);
      HeaderSound(s, ClauseHeader(n), env, m, inside, c);
    } else {
      SizeOfNested(s, k);
      BodySound(BodyOf(n), env, m, inside, c, at);
      NestedSound(s, k, env, Entry(c));
    }
  }

  lemma {:induction false} ScopeSound(s: Ast, env: Env, st: Store, known: Trust, c: Ast, at: Store)
    requires IsScope(s) && Guarded(s, env, known, st.lib) && Covers(env, st, known)
    requires Executes(s, st, c, at) && StaleAt(c, at)
    ensures Entry(c) in StmtReport(s, env)
    decreases Size(s), 2, 0
  {
    SizeOfScope(s);
    WalkFindsExactlyTheCalls(ScopeHeader(s), c);
    if s.FunctionDef? {
      var st0: Store :| st0.lib == st.lib && ExecutesAll(s.body, st0, c, at);
      BodySound(s.body, env, st0, iset{}, c, at);
    } else {
      BodySound(s.body, env, st, known, c, at);
    }
  }

  /** Soundness of the guard over every run of a module: whatever the library, whatever
      branches are taken, however often loops turn and wherever execution breaks off, a
      select handed to `execute` unrefreshed is in the report. */
  lemma GuardIsSound(program: seq<Ast>, lib: Library, c: Ast)
    requires GuardedAll(program, map[], Everything(), lib)
    requires ExecutesStale(program, Start(lib), c)
    ensures Entry(c) in Report(program, map[])
  {
    var at :| ExecutesAll(program, Start(lib), c, at) && Stale in Values(c.args[0], at);
    BodySound(program, map[], Start(lib), Everything(), c, at);
  }
}
