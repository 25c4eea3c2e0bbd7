/** How exact the guard is: in straight-line code a report has a run behind it, except
    for an attribute of a query, and the programs that show why the conditions of
    `Guarded` are there. */
module RefreshExactness {
  import opened Common
  import opened RefreshSyntax
  import opened RefreshGuard
  import opened RefreshRuns
  import opened RefreshSoundness

  /** No nested statement lists. */
  predicate Straight(s: Ast) {
    !IsScope(s) && !IsLoop(s) && !s.If? && !s.With? && !s.Try? && !s.Match?
  }

  predicate StraightLine(body: seq<Ast>) {
    forall k :: 0 <= k < |body| ==> Straight(body[k])
  }

  /** What the environment calls a select is one. */
  ghost predicate Witnesses(st: Store, env: Env) {
    forall x :: Get(env, x) == Select ==> Look(st, x) == Stale
  }

  /** What the expression is chained onto is no bare attribute of a recorded select. */
  predicate NoSelectAttribute(e: Ast, env: Env) {
    match e
    case Attribute(v, _) => Classify(v, env) != Select
    case Call(Attribute(b, _), _, _, _) => NoSelectAttribute(b, env)
    case _ => true
  }

  lemma {:induction false} SelectIsStale(e: Ast, env: Env, st: Store)
    requires Witnesses(st, env) && Classify(e, env) == Select
    requires st.lib.attributes || NoSelectAttribute(e, env)
    ensures Stale in Values(e, st)
  {
    match e
    case Attribute(v, _) => SelectIsStale(v, env, st);
    case Call(Attribute(b, m), _, kws, _) =>
      SelectIsStale(b, env, st);
      assert Stale in ChainValues(m, kws, Stale, st.lib);
    case _ =>
  }

  lemma {:induction false} SomeValue(e: Ast, st: Store) returns (v: Value)
    ensures v in Values(e, st)
  {
    match e
    case Name(x) => v := Look(st, x);
    case Call(Name(f), args, _, _) =>
      if f == REFRESH && args != [] {
        v := SomeValue(args[0], st);
        v := if v == Plain then Plain else Fresh;
      } else {
        v := if f == "select" then Stale else Plain;
      }
    case Call(Attribute(b, m), args, kws, _) =>
      if m == REFRESH_METHOD {
        if args == [] { v := Plain; } else {
          v := SomeValue(args[0], st);
          v := if v == Plain then Plain else Fresh;
        }
      } else {
        var u := SomeValue(b, st);
        v :| v in ChainValues(m, kws, u, st.lib);
      }
    case _ => v := Plain;
  }

  function BindStore(names: set<string>, v: Value, st: Store): Store {
    st.(vars := st.vars + map x | x in names :: v)
  }

  /** No right-hand side the guard records is an attribute of a recorded select. */
  predicate NoSelectRecorded(s: Ast, env: Env) {
    && (s.Assign? ==> NoSelectAttribute(s.rhs, env))
    && (s.AnnAssign? && s.init.Some? ==> NoSelectAttribute(s.init.value, env))
  }

  /** Nor is one handed to `execute`, in the whole body. */
  ghost predicate NoSelectAttributes(body: seq<Ast>, env: Env) {
    body != [] ==>
      && NoSelectRecorded(body[0], env)
      && (forall c :: c in Walk([body[0]]) && IsExecute(c) ==> NoSelectAttribute(c.args[0], env))
      && NoSelectAttributes(body[1..], Record(body[0], env))
  }

  /** Every straight statement has a run that keeps the environment's selects real. */
  lemma {:induction false} WitnessStep(s: Ast, env: Env, st: Store) returns (st': Store)
    requires Straight(s) && Witnesses(st, env) && (st.lib.attributes || NoSelectRecorded(s, env))
    ensures Ends(s, st, Normal, st') && Witnesses(st', Record(s, env)) && st'.lib == st.lib
  {
    if s.Assign? {
      var v := SomeValue(s.rhs, st);
      if Classify(s.rhs, env) == Select {
        SelectIsStale(s.rhs, env, st);
        v := Stale;
      }
      st' := BindStore(PlainTargets(s.targets), v, st);
      TargetsSplit(s.targets);
      assert Stored(s.targets, v, st, st');
      forall x | Get(Record(s, env), x) == Select ensures Look(st', x) == Stale {
        BindNamesGet(s.targets, Classify(s.rhs, env), env, x);
      }
      assert Ends(s, st, Normal, st');
      assert Witnesses(st', Record(s, env));
    } else if s.AnnAssign? && s.target.Name? && s.init.Some? {
      var v := SomeValue(s.init.value, st);
      if Classify(s.init.value, env) == Select {
        SelectIsStale(s.init.value, env, st);
        v := Stale;
      }
      st' := Set(st, s.target.id, v);
      assert Ends(s, st, Normal, st');
      assert Witnesses(st', Record(s, env));
    } else if s.AugAssign? && s.target.Name? {
      st' := Set(st, s.target.id, Plain);
      assert Same(st, st', {s.target.id}) && Look(st', s.target.id) == Plain;
      assert Ends(s, st, Normal, st');
      assert Witnesses(st', Record(s, env));
    } else {
      st' := st;
      assert Ends(s, st, Normal, st');
      assert Witnesses(st', Record(s, env));
    }
  }

  lemma {:induction false} StraightReportIsReal(body: seq<Ast>, env: Env, st: Store, v: Violation)
    returns (c: Ast, at: Store)
    requires StraightLine(body) && Witnesses(st, env) && v in Report(body, env)
    requires st.lib.attributes || NoSelectAttributes(body, env)
    ensures ExecutesAll(body, st, c, at) && StaleAt(c, at) && v == Entry(c)
  {
    var s := body[0];
    assert NestedReport(s, 0, Record(s, env)) == [];
    if v in StmtReport(s, env) {
      c := CallReportOnly(Walk([s]), env, v);
      at := st;
      WalkFindsExactlyTheCalls([s], c);
      SelectIsStale(c.args[0], env, st);
      assert Executes(s, st, c, at);
    } else {
      var m := WitnessStep(s, env, st);
      c, at := StraightReportIsReal(body[1..], Record(s, env), m, v);
    }
  }

  /** In guarded straight-line code the report is exactly the set of stale executes, if an
      attribute of a query may be a query or none is recorded or executed. */
  lemma StraightLineExact(body: seq<Ast>, lib: Library, v: Violation)
    requires StraightLine(body) && GuardedAll(body, map[], Everything(), lib)
    requires lib.attributes || NoSelectAttributes(body, map[])
    ensures v in Report(body, map[]) <==> exists c :: ExecutesStale(body, Start(lib), c) && v == Entry(c)
  {
    if v in Report(body, map[]) {
      var c, at := StraightReportIsReal(body, map[], Start(lib), v);
      assert ExecutesStale(body, Start(lib), c);
    }
    if c :| ExecutesStale(body, Start(lib), c) && v == Entry(c) {
      GuardIsSound(body, lib, c);
    }
  }

  // ----- why the conditions are needed -----

  function SelectCall(line: nat): Ast { Call(Name("select"), [], [], line) }

  function ExecuteOf(arg: Ast, line: nat): Ast { Call(Attribute(Name("session"), "execute"), [arg], [], line) }

  /** A branch replaces a refreshed statement by a bare select.  The guard drops what
      the branch assigned, so the execute after it goes unreported. */
  function EscapingBranch(q: string, flag: string, line: nat): seq<Ast> {
    [Assign([Name(q)], Call(Name(REFRESH), [SelectCall(line)], [], line)),
     If(Name(flag), [Assign([Name(q)], SelectCall(line))], []),
     ExecuteOf(Name(q), line)]
  }

  lemma RebindsTo(q: string, e: Ast, st: Store, v: Value)
    requires v in Values(e, st)
    ensures Ends(Assign([Name(q)], e), st, Normal, Set(st, q, v))
  {
    var none: seq<Ast> := [];
    assert [Name(q)][1..] == none;
    assert TargetsNames([Name(q)]) == TargetNames(Name(q)) + TargetsNames(none) == {q};
    assert PlainTargets([Name(q)]) == {q} + PlainTargets(none) == {q};
    assert Stored([Name(q)], v, st, Set(st, q, v));
  }

  lemma ThenBranchEnds(s: Ast, st: Store, st': Store)
    requires s.If? && |s.body| == 1 && Ends(s.body[0], st, Normal, st')
    ensures Ends(s, st, Normal, st')
  {
    assert EndsAll(s.body[1..], st', Normal, st');
    assert EndsAll(s.body, st, Normal, st');
  }

  lemma ThirdStatementRuns(p: seq<Ast>, st: Store, st1: Store, st2: Store, c: Ast)
    requires |p| == 3 && p[2] == c && IsExecute(c)
    requires Ends(p[0], st, Normal, st1) && Ends(p[1], st1, Normal, st2)
    ensures ExecutesAll(p, st, c, st2)
  {
    assert Executes(c, st2, c, st2);
    assert ExecutesAll(p[1..][1..], st2, c, st2);
    assert ExecutesAll(p[1..], st1, c, st2);
  }

  lemma QuietBody(body: seq<Ast>, env: Env)
    requires |body| == 1 && Straight(body[0]) && Quiet(body[0], env)
    ensures Report(body, env) == []
  {
    QuietStatement(body[0], env);
    assert Report(body[1..], Record(body[0], env)) == [];
    assert NestedReport(body[0], 0, Record(body[0], env)) == [];
  }

  lemma QuietRebinding(q: string, line: nat, env: Env)
    ensures Quiet(Assign([Name(q)], SelectCall(line)), env)
    ensures Quiet(Assign([Name(q)], Call(Name(REFRESH), [SelectCall(line)], [], line)), env)
  {
    var sel := SelectCall(line);
    var wrap := Call(Name(REFRESH), [sel], [], line);
    assert Children(sel) == [Name("select")];
    assert Quiet(sel, env);
    assert Children(wrap) == [Name(REFRESH), sel];
    assert Quiet(wrap, env);
    assert Children(Assign([Name(q)], sel)) == [Name(q), sel];
    assert Children(Assign([Name(q)], wrap)) == [Name(q), wrap];
  }

  lemma QuietBranch(q: string, flag: string, line: nat, env: Env)
    ensures StmtReport(EscapingBranch(q, flag, line)[1], env) == []
  {
    var s := EscapingBranch(q, flag, line)[1];
    QuietRebinding(q, line, env);
    assert Children(s) == [Name(flag), s.body[0]];
    assert Quiet(s, env);
    QuietStatement(s, env);
    QuietBody(s.body, env);
    assert NestedReport(s, 1, env) == [];
  }

  lemma QuietExecute(q: string, line: nat, env: Env)
    requires Get(env, q) == Wrapped
    ensures Report([ExecuteOf(Name(q), line)], env) == []
  {
    var s := ExecuteOf(Name(q), line);
    assert Children(s) == [s.func, Name(q)] && Children(s.func) == [Name("session")];
    assert Quiet(s, env);
    QuietBody([s], env);
  }

  lemma RecordsWrapped(q: string, line: nat)
    ensures Record(Assign([Name(q)], Call(Name(REFRESH), [SelectCall(line)], [], line)), map[]) == map[q := Wrapped]
  {
    var none: Env := map[];
    assert Classify(SelectCall(line), none) == Select;
    assert BindNames([Name(q)][1..], Wrapped, none[q := Wrapped]) == none[q := Wrapped];
  }

  lemma EscapeIsQuiet(q: string, flag: string, line: nat)
    ensures Report(EscapingBranch(q, flag, line), map[]) == []
  {
    var p := EscapingBranch(q, flag, line);
    QuietRebinding(q, line, map[]);
    QuietStatement(p[0], map[]);
    assert NestedReport(p[0], 0, Record(p[0], map[])) == [];
    assert StmtReport(p[0], map[]) == [];
    RecordsWrapped(q, line);
    QuietBranch(q, flag, line, map[q := Wrapped]);
    QuietExecute(q, line, map[q := Wrapped]);
    assert p[1..][1..] == [p[2]];
    assert Report(p[1..], map[q := Wrapped]) == [];
  }

  /** The guard misses a stale execute: the law fails for this whole family. */
  lemma BranchAssignmentEscapes(q: string, flag: string, line: nat, lib: Library)
    ensures ExecutesStale(EscapingBranch(q, flag, line), Start(lib), ExecuteOf(Name(q), line))
    ensures Report(EscapingBranch(q, flag, line), map[]) == []
  {
    var p, c := EscapingBranch(q, flag, line), ExecuteOf(Name(q), line);
    var st1 := Set(Start(lib), q, Fresh);
    RebindsTo(q, p[0].rhs, Start(lib), Fresh);
    RebindsTo(q, SelectCall(line), st1, Stale);
    ThenBranchEnds(p[1], st1, Set(st1, q, Stale));
    ThirdStatementRuns(p, Start(lib), st1, Set(st1, q, Stale), c);
    EscapeIsQuiet(q, flag, line);
  }

  /** A bare annotation between the select and its execute: it does nothing at run time,
      but the guard forgets the name. */
  function BareAnnotation(q: string, line: nat): seq<Ast> {
    [Assign([Name(q)], SelectCall(line)), AnnAssign(Name(q), Name("Select"), None), ExecuteOf(Name(q), line)]
  }

  lemma QuietOther(q: string, line: nat, env: Env)
    requires Get(env, q) == Other
    ensures Report([ExecuteOf(Name(q), line)], env) == []
  {
    var s := ExecuteOf(Name(q), line);
    assert Children(s) == [s.func, Name(q)] && Children(s.func) == [Name("session")];
    assert Quiet(s, env);
    QuietBody([s], env);
  }

  lemma AnnotationIsQuiet(q: string, line: nat)
    ensures Report(BareAnnotation(q, line), map[]) == []
  {
    var p := BareAnnotation(q, line);
    var env := Record(p[0], map[]);
    QuietRebinding(q, line, map[]);
    QuietStatement(p[0], map[]);
    assert NestedReport(p[0], 0, env) == [];
    assert StmtReport(p[0], map[]) == [];
    assert Children(p[1]) == [Name(q), Name("Select")];
    assert Quiet(p[1], env);
    QuietStatement(p[1], env);
    assert NestedReport(p[1], 0, Record(p[1], env)) == [];
    assert StmtReport(p[1], env) == [];
    QuietOther(q, line, Record(p[1], env));
    assert p[1..][1..] == [p[2]];
    assert Report(p[1..], env) == [];
  }

  /** The guard misses a stale execute behind a bare annotation: another whole family. */
  lemma BareAnnotationHides(q: string, line: nat, lib: Library)
    ensures ExecutesStale(BareAnnotation(q, line), Start(lib), ExecuteOf(Name(q), line))
    ensures Report(BareAnnotation(q, line), map[]) == []
  {
    var p, c := BareAnnotation(q, line), ExecuteOf(Name(q), line);
    var st1 := Set(Start(lib), q, Stale);
    RebindsTo(q, SelectCall(line), Start(lib), Stale);
    assert Ends(p[1], st1, Normal, st1);
    ThirdStatementRuns(p, Start(lib), st1, st1, c);
    AnnotationIsQuiet(q, line);
  }

  // ----- a method the guard's table does not have -----

  /** `session.execute(select(...).m())`. */
  function Unlisted(m: string, line: nat): Ast {
    ExecuteOf(Call(Attribute(SelectCall(line), m), [], [], line), line)
  }

  lemma ChainIsQuiet(m: string, line: nat, env: Env)
    ensures Quiet(Call(Attribute(SelectCall(line), m), [], [], line), env)
  {
    var sel, arg := SelectCall(line), Call(Attribute(SelectCall(line), m), [], [], line);
    assert Children(sel) == [Name("select")] && Quiet(sel, env);
    assert Children(arg.func) == [sel] && Quiet(arg.func, env);
    assert Children(arg) == [arg.func] && !IsExecute(arg);
  }

  lemma UnlistedIsQuiet(m: string, line: nat)
    requires !Listed(m)
    ensures Report([Unlisted(m, line)], map[]) == []
  {
    TableIsListed(m);
    var c := Unlisted(m, line);
    var none: Env := map[];
    ChainIsQuiet(m, line, none);
    assert Children(c.func) == [Name("session")] && Children(c) == [c.func, c.args[0]];
    assert Classify(c.args[0], none) == Other;
    assert Quiet(c, none);
    QuietBody([c], none);
  }

  /** A select chained with a query method outside the table, such as `with_for_update`,
      is executed stale and goes unreported: a third family, for every such method. */
  lemma UnlistedMethodEscapes(m: string, line: nat, lib: Library)
    requires m in lib.moreMethods && !Listed(m) && m != "_refresh_statement"
    ensures ExecutesStale([Unlisted(m, line)], Start(lib), Unlisted(m, line))
    ensures Report([Unlisted(m, line)], map[]) == []
  {
    var c, st := Unlisted(m, line), Start(lib);
    assert Values(SelectCall(line), st) == {Stale} && Stale in ChainValues(m, [], Stale, lib);
    assert Stale in Values(c.args[0], st);
    assert Executes(c, st, c, st);
    assert ExecutesAll([c], st, c, st);
    UnlistedIsQuiet(m, line);
  }

  // ----- a name made stale in one turn of a loop and executed in the next -----

  lemma PairEnds(a: Ast, b: Ast, st: Store, m: Store, x: Exit, st': Store)
    requires Ends(a, st, Normal, m) && Ends(b, m, x, st')
    ensures EndsAll([a, b], st, x, st')
  {
    assert [a, b][1..] == [b];
    assert EndsAll([b], m, x, st') by {
      assert [b][1..] == [];
      if x == Normal { assert EndsAll([b][1..], st', Normal, st'); }
    }
  }

  lemma QuietPair(a: Ast, b: Ast, env: Env)
    requires Straight(a) && Straight(b) && Quiet(a, env) && Quiet(b, Record(a, env))
    ensures Report([a, b], env) == []
  {
    assert [a, b][1..] == [b];
    QuietStatement(a, env);
    assert NestedReport(a, 0, Record(a, env)) == [];
    QuietBody([b], Record(a, env));
  }

  lemma ExecuteIsQuiet(q: string, line: nat, env: Env)
    requires Get(env, q) != Select
    ensures Quiet(ExecuteOf(Name(q), line), env)
  {
    var c := ExecuteOf(Name(q), line);
    assert Children(c) == [c.func, Name(q)] && Children(c.func) == [Name("session")];
  }

  lemma SecondTurnRuns(s: Ast, st: Store, st': Store, c: Ast)
    requires IsLoop(s) && EndsAll(s.body, st, Normal, st') && ExecutesAll(s.body, st', c, st')
    ensures Executes(s, st, c, st')
  {
    assert LoopHead(s, 0, st, st) && Same(st, st, LoopNames(s));
    assert LoopHead(s, 1, st, st') && Same(st', st', LoopNames(s));
    assert LoopExecutes(s, st', c, st');
  }

  /** `q = refresh(select(...))`, then a loop that executes `q` and rebinds it to a select. */
  function CarriedAround(q: string, flag: string, line: nat): seq<Ast> {
    [Assign([Name(q)], Call(Name(REFRESH), [SelectCall(line)], [], line)),
     While(Name(flag), [ExecuteOf(Name(q), line), Assign([Name(q)], SelectCall(line))], [])]
  }

  lemma TurnIsQuiet(q: string, flag: string, line: nat, env: Env)
    requires Get(env, q) == Wrapped
    ensures StmtReport(CarriedAround(q, flag, line)[1], env) == []
  {
    var s := CarriedAround(q, flag, line)[1];
    ExecuteIsQuiet(q, line, env);
    QuietRebinding(q, line, env);
    assert Children(s) == [Name(flag), s.body[0], s.body[1]];
    assert Quiet(s, env);
    QuietStatement(s, env);
    QuietPair(s.body[0], s.body[1], env);
    assert NestedReport(s, 1, env) == [];
  }

  lemma CarriedIsQuiet(q: string, flag: string, line: nat)
    ensures Report(CarriedAround(q, flag, line), map[]) == []
  {
    var p := CarriedAround(q, flag, line);
    QuietRebinding(q, line, map[]);
    QuietStatement(p[0], map[]);
    assert NestedReport(p[0], 0, Record(p[0], map[])) == [];
    RecordsWrapped(q, line);
    TurnIsQuiet(q, flag, line, map[q := Wrapped]);
    assert p[1..] == [p[1]] && p[1..][1..] == [];
    assert Report(p[1..][1..], Record(p[1], map[q := Wrapped])) == [];
  }

  lemma TurnRunsStale(q: string, flag: string, line: nat, st: Store)
    ensures Executes(CarriedAround(q, flag, line)[1], st, ExecuteOf(Name(q), line), Set(st, q, Stale))
  {
    var s, c, st' := CarriedAround(q, flag, line)[1], ExecuteOf(Name(q), line), Set(st, q, Stale);
    RebindsTo(q, SelectCall(line), st, Stale);
    PairEnds(s.body[0], s.body[1], st, st, Normal, st');
    assert Executes(c, st', c, st');
    SecondTurnRuns(s, st, st', c);
  }

  /** The second turn of the loop executes the select of the first, and the guard, which
      looks at the body once, misses it: a fourth family. */
  lemma LoopCarriedEscapes(q: string, flag: string, line: nat, lib: Library)
    ensures ExecutesStale(CarriedAround(q, flag, line), Start(lib), ExecuteOf(Name(q), line))
    ensures Report(CarriedAround(q, flag, line), map[]) == []
  {
    var p, st1 := CarriedAround(q, flag, line), Set(Start(lib), q, Fresh);
    RebindsTo(q, p[0].rhs, Start(lib), Fresh);
    TurnRunsStale(q, flag, line, st1);
    SecondStatementRuns(p, Start(lib), st1, ExecuteOf(Name(q), line), Set(st1, q, Stale));
    CarriedIsQuiet(q, flag, line);
  }

  lemma SecondStatementRuns(p: seq<Ast>, st: Store, m: Store, c: Ast, at: Store)
    requires |p| == 2 && Ends(p[0], st, Normal, m) && Executes(p[1], m, c, at)
    ensures ExecutesAll(p, st, c, at)
  {
    assert p[1..][0] == p[1];
    assert ExecutesAll(p[1..], m, c, at);
  }

  // ----- a name bound in a try body and executed in its handler -----

  /** `try: q = select(...); f()` and `except: session.execute(q)`. */
  function BoundInTry(q: string, line: nat): Ast {
    Try([Assign([Name(q)], SelectCall(line)), Node([])], [Handler(None, None, [ExecuteOf(Name(q), line)])], [], [])
  }

  lemma HandlerRuns(s: Ast, st: Store, m: Store, c: Ast)
    requires s.Try? && |s.handlers| == 1 && EndsAll(s.body, st, Abrupt, m) && ExecutesAll(BodyOf(s.handlers[0]), m, c, m)
    ensures Executes(s, st, c, m)
  {
    assert Same(m, m, Alias(s.handlers[0]));
    assert AfterTryExecutes(s, Abrupt, m, c, m);
  }

  /** The handler runs with what the body bound, and the guard scans it without: a fifth
      family. */
  lemma HandlerEscapes(q: string, line: nat, lib: Library)
    ensures ExecutesStale([BoundInTry(q, line)], Start(lib), ExecuteOf(Name(q), line))
    ensures Report([BoundInTry(q, line)], map[]) == []
  {
    var s, c, st1 := BoundInTry(q, line), ExecuteOf(Name(q), line), Set(Start(lib), q, Stale);
    BodyBreaksOff(q, line, Start(lib));
    assert Executes(c, st1, c, st1);
    FirstStatementRuns(c, st1, c, st1);
    HandlerRuns(s, Start(lib), st1, c);
    FirstStatementRuns(s, Start(lib), c, st1);
    HandlerIsQuiet(q, line);
  }

  lemma BodyBreaksOff(q: string, line: nat, st: Store)
    ensures EndsAll(BoundInTry(q, line).body, st, Abrupt, Set(st, q, Stale))
  {
    var s := BoundInTry(q, line);
    RebindsTo(q, SelectCall(line), st, Stale);
    PairEnds(s.body[0], s.body[1], st, Set(st, q, Stale), Abrupt, Set(st, q, Stale));
  }

  lemma FirstStatementRuns(s: Ast, st: Store, c: Ast, at: Store)
    requires Executes(s, st, c, at)
    ensures ExecutesAll([s], st, c, at)
  {
  }

  lemma TreeIsQuiet(q: string, line: nat)
    ensures Quiet(BoundInTry(q, line), map[])
  {
    var s, none := BoundInTry(q, line), map[];
    var h := s.handlers[0];
    QuietRebinding(q, line, none);
    ExecuteIsQuiet(q, line, none);
    assert Quiet(s.body[1], none);
    assert Children(h) == [ExecuteOf(Name(q), line)] && Quiet(h, none);
    assert Children(s) == [s.body[0], s.body[1], h];
  }

  lemma OneStatement(s: Ast, env: Env)
    ensures Report([s], env) == StmtReport(s, env)
  {
    assert [s][1..] == [];
    assert Report([], Record(s, env)) == [];
  }

  lemma BodyIsQuiet(q: string, line: nat)
    ensures Report(BoundInTry(q, line).body, map[]) == []
  {
    var s := BoundInTry(q, line);
    QuietRebinding(q, line, map[]);
    assert Quiet(s.body[1], Record(s.body[0], map[]));
    QuietPair(s.body[0], s.body[1], map[]);
  }

  lemma ClauseIsQuiet(q: string, line: nat)
    ensures ClauseReports(BoundInTry(q, line).handlers, map[]) == []
  {
    var hs := BoundInTry(q, line).handlers;
    ExecuteIsQuiet(q, line, map[]);
    QuietBody([ExecuteOf(Name(q), line)], map[]);
    assert hs[1..] == [];
  }

  lemma HandlerIsQuiet(q: string, line: nat)
    ensures Report([BoundInTry(q, line)], map[]) == []
  {
    var s := BoundInTry(q, line);
    TreeIsQuiet(q, line);
    QuietStatement(s, map[]);
    BodyIsQuiet(q, line);
    ClauseIsQuiet(q, line);
    TryReport(s, map[]);
    OneStatement(s, map[]);
  }

  // ----- an attribute of a query -----

  /** `q = select(...)` and then `session.execute(q.c)`, for any name and attribute. */
  function AttributeExecuted(q: string, attr: string, line: nat): seq<Ast> {
    [Assign([Name(q)], SelectCall(line)), ExecuteOf(Attribute(Name(q), attr), line)]
  }

  lemma AttributeIsReported(q: string, attr: string, line: nat)
    ensures Entry(ExecuteOf(Attribute(Name(q), attr), line)) in Report(AttributeExecuted(q, attr, line), map[])
  {
    var body, c := AttributeExecuted(q, attr, line), ExecuteOf(Attribute(Name(q), attr), line);
    var none: Env := map[];
    assert BindNames([Name(q)][1..], Select, none[q := Select]) == none[q := Select];
    assert Record(body[0], none) == none[q := Select];
    assert body[1..][0] == c && InTree(c, c) && Flagged(c, none[q := Select]);
    StmtCallReported(c, none[q := Select], c);
  }

  /** An execute call in one of the two statements is the second statement. */
  lemma OnlyExecute(q: string, attr: string, line: nat, k: nat, c: Ast)
    requires k < 2 && InTree(c, AttributeExecuted(q, attr, line)[k]) && IsExecute(c)
    ensures c == AttributeExecuted(q, attr, line)[1]
  {
    var body := AttributeExecuted(q, attr, line);
    var sel, arg := SelectCall(line), Attribute(Name(q), attr);
    InTreeOrKids(c, body[k]);
    if k == 0 {
      assert Children(body[0]) == [Name(q), sel] && Children(sel) == [Name("select")];
      InTreeOrKids(c, sel);
    } else {
      assert Children(body[1]) == [body[1].func, arg] && Children(body[1].func) == [Name("session")];
      assert Children(arg) == [Name(q)];
      InTreeOrKids(c, body[1].func);
      InTreeOrKids(c, arg);
    }
  }

  lemma LastExecutes(s: Ast, st: Store, c: Ast, at: Store)
    requires ExecutesAll([s], st, c, at)
    ensures Executes(s, st, c, at)
  {
    assert [s][1..] == [];
    assert forall m :: !ExecutesAll([s][1..], m, c, at);
  }

  /** A false alarm, for this whole family: the guard reports the call, and no run hands
      it a stale select if an attribute of a query is a plain value. */
  lemma AttributeAlarm(q: string, attr: string, line: nat, lib: Library, c: Ast)
    requires !lib.attributes
    ensures var body := AttributeExecuted(q, attr, line);
            && Entry(ExecuteOf(Attribute(Name(q), attr), line)) in Report(body, map[])
            && !ExecutesStale(body, Start(lib), c)
  {
    var body := AttributeExecuted(q, attr, line);
    AttributeIsReported(q, attr, line);
    if ExecutesStale(body, Start(lib), c) {
      var at :| ExecutesAll(body, Start(lib), c, at) && Stale in Values(c.args[0], at);
      if Executes(body[0], Start(lib), c, at) {
        OnlyExecute(q, attr, line, 0, c);
      } else {
        var m :| Ends(body[0], Start(lib), Normal, m) && ExecutesAll(body[1..], m, c, at);
        assert body[1..] == [body[1]];
        LastExecutes(body[1], m, c, at);
        OnlyExecute(q, attr, line, 1, c);
        EndsFrame(body[0], Start(lib), Normal, m);
      }
    }
  }

  // ----- a query extended in a branch -----

  /** `q = select(...)`, `if flag: q = q.m(...)`, `session.execute(q)`, the usual way to
      build a query. */
  function ExtendedInBranch(q: string, flag: string, m: string, line: nat): seq<Ast> {
    [Assign([Name(q)], SelectCall(line)),
     If(Name(flag), [Assign([Name(q)], Call(Attribute(Name(q), m), [], [], line))], []),
     ExecuteOf(Name(q), line)]
  }

  lemma ExtensionIsGuarded(q: string, m: string, line: nat, env: Env, known: Trust, lib: Library)
    ensures GuardedAll([Assign([Name(q)], Call(Attribute(Name(q), m), [], [], line))], env, known, lib)
  {
    var s := Assign([Name(q)], Call(Attribute(Name(q), m), [], [], line));
    forall c | c in Walk([s]) ensures !IsExecute(c) {
      WalkFindsExactlyTheCalls([s], c);
      InSomeOne(c, s);
      var e := s.rhs;
      assert Children(s) == [Name(q), e] && Children(e) == [e.func] && Children(e.func) == [Name(q)];
      InTreeOrKids(c, s);
      InTreeOrKids(c, e);
      InTreeOrKids(c, e.func);
    }
    assert Guarded(s, env, known, lib);
    assert GuardedAll([s][1..], Record(s, env), TrustAfter(s, env, known, lib), lib);
  }

  lemma BindingIsGuarded(q: string, line: nat, known: Trust, lib: Library)
    ensures Guarded(Assign([Name(q)], SelectCall(line)), map[], known, lib)
  {
    var s, sel := Assign([Name(q)], SelectCall(line)), SelectCall(line);
    forall c | c in Walk([s]) ensures !IsExecute(c) {
      WalkFindsExactlyTheCalls([s], c);
      InSomeOne(c, s);
      assert Children(s) == [Name(q), sel] && Children(sel) == [Name("select")];
      InTreeOrKids(c, s);
      InTreeOrKids(c, sel);
    }
  }

  lemma TestIsGuarded(flag: string, env: Env, known: Trust, lib: Library)
    ensures TrustedCalls([Name(flag)], env, known, lib)
  {
    forall c | c in Walk([Name(flag)]) ensures !IsExecute(c) {
      WalkFindsExactlyTheCalls([Name(flag)], c);
      InSomeOne(c, Name(flag));
    }
  }

  /** The usual way is guarded, so its stale executes are all reported. */
  lemma ExtendedIsGuarded(q: string, flag: string, m: string, line: nat, lib: Library)
    ensures GuardedAll(ExtendedInBranch(q, flag, m, line), map[], Everything(), lib)
  {
    var p := ExtendedInBranch(q, flag, m, line);
    var none: Env := map[];
    assert BindNames([Name(q)][1..], Select, none[q := Select]) == none[q := Select];
    var env := none[q := Select];
    assert Record(p[0], none) == env && Record(p[1], env) == env;
    BindingIsGuarded(q, line, Everything(), lib);
    TestIsGuarded(flag, env, TrustAfter(p[0], none, Everything(), lib), lib);
    var known := TrustAfter(p[0], none, Everything(), lib);
    ExtensionIsGuarded(q, m, line, env, known, lib);
    assert GuardedAll(p[1].orelse, env, known, lib);
    assert Guarded(p[1], env, known, lib);
    ExecuteIsGuarded(q, line, env, TrustAfter(p[1], env, known, lib), lib);
    assert p[1..][1..] == [p[2]];
  }

  lemma ExecuteIsGuarded(q: string, line: nat, env: Env, known: Trust, lib: Library)
    requires Get(env, q) == Select
    ensures GuardedAll([ExecuteOf(Name(q), line)], env, known, lib)
  {
    var s := ExecuteOf(Name(q), line);
    forall c | c in Walk([s]) && IsExecute(c) ensures c == s {
      WalkFindsExactlyTheCalls([s], c);
      InSomeOne(c, s);
      assert Children(s) == [s.func, Name(q)] && Children(s.func) == [Name("session")];
      InTreeOrKids(c, s);
      InTreeOrKids(c, s.func);
    }
    assert Guarded(s, env, known, lib);
    assert GuardedAll([s][1..], Record(s, env), TrustAfter(s, env, known, lib), lib);
  }
}
