/** The guard itself (scripts/check_refresh_select_execute.py:67-212): first as
    functions, then as the methods that mutate the environment and append to the
    violation list, proved to compute those functions. */
module RefreshGuard {
  import opened Common
  import opened RefreshSyntax

  datatype QueryState = Other | Select | Wrapped

  type Env = map<string, QueryState>

  /** The reported snippet is the source text of the call's first argument, so the
      argument node stands for it. */
  datatype Violation = Violation(line: nat, argument: Ast)

  const SELECT_CHAIN_METHODS: set<string> := {
    "alias", "cte", "distinct", "execution_options", "filter", "filter_by", "group_by",
    "having", "join", "join_from", "limit", "offset", "options", "order_by", "outerjoin",
    "outerjoin_from", "scalar_subquery", "select_from", "subquery", "where"
  }

  const REFRESH := "refresh_select_statement"
  const REFRESH_METHOD := "_refresh_statement"

  function Get(env: Env, x: string): QueryState {
    if x in env then env[x] else Other
  }

  predicate SetsPopulateExisting(kw: Ast) {
    kw.Keyword? && kw.arg == Some("populate_existing") && kw.given == Constant(true)
  }

  function Refreshed(state: QueryState): QueryState {
    if state == Other then Other else Wrapped
  }

  function Classify(e: Ast, env: Env): QueryState {
    match e
    case Name(x) => Get(env, x)
    case Attribute(v, _) => Classify(v, env)
    case Call(Name(f), args, _, _) =>
      if f == REFRESH then (if args == [] then Other else Refreshed(Classify(args[0], env)))
      else if f == "select" then Select
      else Other
    case Call(Attribute(v, m), args, kws, _) =>
      if m == REFRESH_METHOD then (if args == [] then Other else Refreshed(Classify(args[0], env)))
      else
        var base := Classify(v, env);
        if base == Other then Other
        else if m == "execution_options" && exists kw :: kw in kws && SetsPopulateExisting(kw) then Wrapped
        else if m in SELECT_CHAIN_METHODS then base
        else Other
    case _ => Other
  }

  predicate IsExecute(c: Ast) {
    c.Call? && c.func.Attribute? && c.func.attr == "execute" && c.args != []
  }

  predicate Flagged(c: Ast, env: Env) {
    IsExecute(c) && Classify(c.args[0], env) == Select
  }

  function Entry(c: Ast): Violation
    requires IsExecute(c)
  {
    Violation(c.line, c.args[0])
  }

  /** One statement's calls, in walk order (lines 162-176). */
  function CallReport(calls: seq<Ast>, env: Env): seq<Violation> {
    if calls == [] then []
    else (if Flagged(calls[0], env) then [Entry(calls[0])] else []) + CallReport(calls[1..], env)
  }

  /** Only plain names among the assignment targets are tracked (lines 121-126). */
  function BindNames(targets: seq<Ast>, state: QueryState, env: Env): Env {
    if targets == [] then env
    else BindNames(targets[1..], state, if targets[0].Name? then env[targets[0].id := state] else env)
  }

  function Record(s: Ast, env: Env): Env {
    match s
    case Assign(targets, rhs) => BindNames(targets, Classify(rhs, env), env)
    case AnnAssign(Name(x), _, init) => env[x := if init.Some? then Classify(init.value, env) else Other]
    case AugAssign(Name(x), _) => env[x := Other]
    case _ => env
  }

  function RecordAll(body: seq<Ast>, env: Env): Env {
    if body == [] then env else RecordAll(body[1..], Record(body[0], env))
  }

  predicate IsScope(s: Ast) { s.FunctionDef? || s.ClassDef? }

  function StmtReport(s: Ast, env: Env): seq<Violation>
    decreases Size(s), 2, 0
  {
    if IsScope(s) then
      SizeOfScope(s);
      Report(s.body, env)
    else
      CallReport(Walk([s]), env) + NestedReport(s, 0, Record(s, env))
  }

  function NestedReport(s: Ast, k: nat, env: Env): seq<Violation>
    requires k <= |NestedBodies(s)|
    decreases Size(s), 1, |NestedBodies(s)| - k
  {
    if k == |NestedBodies(s)| then []
    else
      SizeOfNested(s, k);
      Report(NestedBodies(s)[k], env) + NestedReport(s, k + 1, env)
  }

  /** `_process_body`: what scanning a statement list reports, from `env`. */
  function Report(body: seq<Ast>, env: Env): seq<Violation>
    decreases SizeAll(body), 3, 0
  {
    if body == [] then []
    else
      StmtReport(body[0], env) + Report(body[1..], Record(body[0], env))
  }

  // ----- the imperative form -----

  class EnvDict {
    var states: Env
    constructor (states: Env)
      ensures this.states == states
    {
      this.states := states;
    }
  }

  class ViolationList {
    var entries: seq<Violation>
    constructor ()
      ensures entries == []
    {
      entries := [];
    }
  }

  /** `_iter_child_calls`: the queue of `ast.walk`, read from the front. */
  method IterChildCalls(stmt: Ast) returns (calls: seq<Ast>)
    ensures calls == Walk([stmt])
  {
    calls := [];
    var todo := [stmt];
    while todo != []
      invariant calls + Walk(todo) == Walk([stmt])
      decreases SizeAll(todo)
    {
      var node := todo[0];
      SizeUnfolds(node);
      SizeAllAppend(todo[1..], Children(node));
      AppendAssoc(calls, if node.Call? then [node] else [], Walk(todo[1..] + Children(node)));
      todo := todo[1..] + Children(node);
      calls := calls + if node.Call? then [node] else [];
    }
    assert calls + [] == calls;
  }

  method RecordAssignments(stmt: Ast, env: EnvDict)
    modifies env
    ensures env.states == Record(stmt, old(env.states))
  {
    if stmt.Assign? {
      var state := Classify(stmt.rhs, env.states);
      var k := 0;
      while k < |stmt.targets|
        invariant 0 <= k <= |stmt.targets|
        invariant BindNames(stmt.targets[k..], state, env.states) == Record(stmt, old(env.states))
      {
        assert stmt.targets[k..][1..] == stmt.targets[k + 1..];
        if stmt.targets[k].Name? {
          env.states := env.states[stmt.targets[k].id := state];
        }
        k := k + 1;
      }
    } else if stmt.AnnAssign? && stmt.target.Name? {
      env.states := env.states[stmt.target.id :=
        if stmt.init.Some? then Classify(stmt.init.value, env.states) else Other];
    } else if stmt.AugAssign? && stmt.target.Name? {
      env.states := env.states[stmt.target.id := Other];
    }
  }

  /** One turn of the loop over the calls (lines 163-176). */
  method ExamineCall(call: Ast, env: EnvDict, violations: ViolationList)
    modifies violations
    ensures violations.entries ==
            old(violations.entries) + if Flagged(call, env.states) then [Entry(call)] else []
  {
    if IsExecute(call) {
      var state := Classify(call.args[0], env.states);
      if state == Select {
        violations.entries := violations.entries + [Violation(call.line, call.args[0])];
      }
    }
  }

  ghost predicate ReportedUpTo(entries: seq<Violation>, before: seq<Violation>, calls: seq<Ast>, k: nat, env: Env) {
    k <= |calls| && entries == before + CallReport(calls[..k], env)
  }

  lemma ReportedAll(entries: seq<Violation>, before: seq<Violation>, calls: seq<Ast>, env: Env)
    ensures ReportedUpTo(entries, before, calls, |calls|, env) <==> entries == before + CallReport(calls, env)
    ensures ReportedUpTo(before, before, calls, 0, env)
  {
    assert calls[..|calls|] == calls && calls[..0] == [];
  }

  lemma ReportsOneMore(entries: seq<Violation>, before: seq<Violation>, calls: seq<Ast>, k: nat, env: Env)
    requires k < |calls| && ReportedUpTo(entries, before, calls, k, env)
    ensures ReportedUpTo(entries + (if Flagged(calls[k], env) then [Entry(calls[k])] else []), before, calls, k + 1, env)
  {
    CallReportSnoc(calls[..k], calls[k], env);
    AppendAssoc(before, CallReport(calls[..k], env), if Flagged(calls[k], env) then [Entry(calls[k])] else []);
    assert calls[..k + 1] == calls[..k] + [calls[k]];
  }

  method ExamineCalls(stmt: Ast, env: EnvDict, violations: ViolationList)
    modifies violations
    ensures violations.entries == old(violations.entries) + CallReport(Walk([stmt]), env.states)
  {
    var calls := IterChildCalls(stmt);
    var k := 0;
    ghost var before, states := violations.entries, env.states;
    ReportedAll(before, before, calls, states);
    while k < |calls|
      invariant 0 <= k <= |calls| && env.states == states
      invariant ReportedUpTo(violations.entries, before, calls, k, states)
    {
      ReportsOneMore(violations.entries, before, calls, k, states);
      ExamineCall(calls[k], env, violations);
      k := k + 1;
    }
    ReportedAll(violations.entries, before, calls, states);
  }

  lemma {:induction false} CallReportSnoc(calls: seq<Ast>, c: Ast, env: Env)
    ensures CallReport(calls + [c], env) ==
            CallReport(calls, env) + if Flagged(c, env) then [Entry(c)] else []
  {
    var last := if Flagged(c, env) then [Entry(c)] else [];
    if calls == [] {
      assert [] + [c] == [c] && [c][1..] == [];
    } else {
      CallReportSnoc(calls[1..], c, env);
      assert (calls + [c])[1..] == calls[1..] + [c];
      AppendAssoc(if Flagged(calls[0], env) then [Entry(calls[0])] else [], CallReport(calls[1..], env), last);
    }
  }

  lemma {:induction false} ReportStep(body: seq<Ast>, env: Env, found: seq<Violation>)
    requires body != []
    ensures found + Report(body, env)
         == found + StmtReport(body[0], env) + Report(body[1..], Record(body[0], env))
  {
    AppendAssoc(found, StmtReport(body[0], env), Report(body[1..], Record(body[0], env)));
  }

  /** `_process_body`: the caller's environment changes in place, each nested body
      works on its own copy, and the violations only grow. */
  method ProcessBody(body: seq<Ast>, env: EnvDict, violations: ViolationList)
    modifies env, violations
    ensures violations.entries == old(violations.entries) + Report(body, old(env.states))
    ensures env.states == RecordAll(body, old(env.states))
    decreases SizeAll(body), 2, 0
  {
    var i := 0;
    ghost var found := [];
    while i < |body|
      invariant 0 <= i <= |body|
      invariant found + Report(body[i..], env.states) == Report(body, old(env.states))
      invariant violations.entries == old(violations.entries) + found
      invariant RecordAll(body[i..], env.states) == RecordAll(body, old(env.states))
    {
      ReportStep(body[i..], env.states, found);
      assert body[i..][1..] == body[i + 1..];
      AppendAssoc(old(violations.entries), found, StmtReport(body[i], env.states));
      found := found + StmtReport(body[i], env.states);
      SizeOfMember(body, i);
      ProcessStmt(body[i], env, violations);
      i := i + 1;
    }
    assert found + [] == found;
  }

  method ProcessStmt(stmt: Ast, env: EnvDict, violations: ViolationList)
    modifies env, violations
    ensures violations.entries == old(violations.entries) + StmtReport(stmt, old(env.states))
    ensures env.states == Record(stmt, old(env.states))
    decreases Size(stmt), 1, 1
  {
    if IsScope(stmt) {
      SizeOfScope(stmt);
      var inner := new EnvDict(env.states);
      ProcessBody(stmt.body, inner, violations);
    } else {
      ghost var calls, nested := CallReport(Walk([stmt]), env.states), NestedReport(stmt, 0, Record(stmt, env.states));
      AppendAssoc(violations.entries, calls, nested);
      ExamineCalls(stmt, env, violations);
      RecordAssignments(stmt, env);
      ProcessNested(stmt, env, violations);
    }
  }

  method ProcessNested(stmt: Ast, env: EnvDict, violations: ViolationList)
    modifies violations
    ensures violations.entries == old(violations.entries) + NestedReport(stmt, 0, env.states)
    decreases Size(stmt), 0, 0
  {
    var k := 0;
    ghost var before, states := violations.entries, env.states;
    NestedReportedAll(before, before, stmt, states);
    while k < |NestedBodies(stmt)|
      invariant 0 <= k <= |NestedBodies(stmt)| && env.states == states
      invariant NestedReportedUpTo(violations.entries, before, stmt, k, states)
    {
      SizeOfNested(stmt, k);
      ghost var entries := violations.entries;
      var inner := new EnvDict(env.states);
      ProcessBody(NestedBodies(stmt)[k], inner, violations);
      NestedReportsOneMore(entries, before, stmt, k, states);
      k := k + 1;
    }
    NestedReportedAll(violations.entries, before, stmt, states);
  }

  /** With the reports of the bodies still to come, the entries are complete. */
  ghost predicate NestedReportedUpTo(entries: seq<Violation>, before: seq<Violation>, s: Ast, k: nat, env: Env) {
    k <= |NestedBodies(s)| && entries + NestedReport(s, k, env) == before + NestedReport(s, 0, env)
  }

  lemma NestedReportedAll(entries: seq<Violation>, before: seq<Violation>, s: Ast, env: Env)
    ensures NestedReportedUpTo(entries, before, s, |NestedBodies(s)|, env) <==>
            entries == before + NestedReport(s, 0, env)
    ensures NestedReportedUpTo(before, before, s, 0, env)
  {
    assert entries + [] == entries;
  }

  lemma NestedReportsOneMore(entries: seq<Violation>, before: seq<Violation>, s: Ast, k: nat, env: Env)
    requires k < |NestedBodies(s)| && NestedReportedUpTo(entries, before, s, k, env)
    ensures NestedReportedUpTo(entries + Report(NestedBodies(s)[k], env), before, s, k + 1, env)
  {
    AppendAssoc(entries, Report(NestedBodies(s)[k], env), NestedReport(s, k + 1, env));
  }

  /** `_scan_file` on a parsed module. */
  method ScanModule(module_: seq<Ast>) returns (violations: seq<Violation>)
    ensures violations == Report(module_, map[])
  {
    var env := new EnvDict(map[]);
    var list := new ViolationList();
    ProcessBody(module_, env, list);
    violations := list.entries;
  }

  // ----- what a report contains -----

  lemma {:induction false} CallReported(calls: seq<Ast>, env: Env, c: Ast)
    requires c in calls && Flagged(c, env)
    ensures Entry(c) in CallReport(calls, env)
  {
    if c != calls[0] { CallReported(calls[1..], env, c); }
  }

  lemma {:induction false} CallReportOnly(calls: seq<Ast>, env: Env, v: Violation) returns (c: Ast)
    requires v in CallReport(calls, env)
    ensures c in calls && Flagged(c, env) && v == Entry(c)
  {
    if Flagged(calls[0], env) && v == Entry(calls[0]) {
      c := calls[0];
    } else {
      c := CallReportOnly(calls[1..], env, v);
    }
  }

  lemma StmtCallReported(s: Ast, env: Env, c: Ast)
    requires !IsScope(s) && InTree(c, s) && Flagged(c, env)
    ensures Entry(c) in StmtReport(s, env)
  {
    WalkFindsExactlyTheCalls([s], c);
    assert InTree(c, [s][0]);
    CallReported(Walk([s]), env, c);
  }

  lemma {:induction false} NestedReported(s: Ast, k: nat, j: nat, env: Env, v: Violation)
    requires k <= j < |NestedBodies(s)|
    requires v in Report(NestedBodies(s)[j], env)
    ensures v in NestedReport(s, k, env)
    decreases j - k
  {
    if k < j { NestedReported(s, k + 1, j, env, v); }
  }

  /** No call of the tree is flagged. */
  ghost predicate Quiet(n: Ast, env: Env)
    decreases n
  {
    && !Flagged(n, env)
    && forall k :: 0 <= k < |Children(n)| ==> (ChildSmaller(n, k); Quiet(Children(n)[k], env))
  }

  lemma {:induction false} QuietBelow(c: Ast, n: Ast, env: Env)
    requires Quiet(n, env) && InTree(c, n)
    ensures Quiet(c, env)
    decreases n
  {
    if c != n {
      var k :| 0 <= k < |Children(n)| && InTree(c, Children(n)[k]);
      ChildSmaller(n, k);
      QuietBelow(c, Children(n)[k], env);
    }
  }

  lemma QuietStatement(s: Ast, env: Env)
    requires Quiet(s, env)
    ensures CallReport(Walk([s]), env) == []
  {
    if CallReport(Walk([s]), env) != [] {
      var v := CallReport(Walk([s]), env)[0];
      var c := CallReportOnly(Walk([s]), env, v);
      WalkFindsExactlyTheCalls([s], c);
      QuietBelow(c, s, env);
    }
  }

  // ----- the nested bodies in order -----

  function ClauseReports(hs: seq<Ast>, env: Env): seq<Violation> {
    if hs == [] then [] else Report(BodyOf(hs[0]), env) + ClauseReports(hs[1..], env)
  }

  lemma NestedStep(s: Ast, k: nat, env: Env)
    requires k < |NestedBodies(s)|
    ensures NestedReport(s, k, env) == Report(NestedBodies(s)[k], env) + NestedReport(s, k + 1, env)
  {
  }

  /** From the `k`-th nested body on, the bodies are those of the clauses. */
  predicate ClausesFrom(s: Ast, k: nat, clauses: seq<Ast>) {
    |NestedBodies(s)| == k + |clauses| && forall j :: 0 <= j < |clauses| ==> NestedBodies(s)[k + j] == BodyOf(clauses[j])
  }

  lemma {:induction false} ClausesInOrder(s: Ast, k: nat, clauses: seq<Ast>, i: nat, env: Env)
    requires ClausesFrom(s, k, clauses) && i <= |clauses|
    ensures NestedReport(s, k + i, env) == ClauseReports(clauses[i..], env)
    decreases |clauses| - i
  {
    if i < |clauses| {
      ClausesInOrder(s, k, clauses, i + 1, env);
      NestedStep(s, k + i, env);
      assert NestedBodies(s)[k + i] == BodyOf(clauses[i]);
      assert clauses[i..][1..] == clauses[i + 1..];
    }
  }

  lemma TryReport(s: Ast, env: Env)
    requires s.Try?
    ensures NestedReport(s, 0, env) ==
            Report(s.body, env) + (Report(s.orelse, env) + (Report(s.finalbody, env) + ClauseReports(s.handlers, env)))
  {
    ClausesInOrder(s, 3, s.handlers, 0, env);
    assert s.handlers[0..] == s.handlers;
    NestedStep(s, 0, env);
    NestedStep(s, 1, env);
    NestedStep(s, 2, env);
  }

  // ----- the methods of the table -----

  /** The twenty methods. */
  predicate Listed(m: string) {
    || m == "alias" || m == "cte" || m == "distinct" || m == "execution_options" || m == "filter"
    || m == "filter_by" || m == "group_by" || m == "having" || m == "join" || m == "join_from"
    || m == "limit" || m == "offset" || m == "options" || m == "order_by" || m == "outerjoin"
    || m == "outerjoin_from" || m == "scalar_subquery" || m == "select_from" || m == "subquery" || m == "where"
  }

  lemma TableIsListed(m: string)
    ensures m in SELECT_CHAIN_METHODS <==> Listed(m)
  {
  }
}
