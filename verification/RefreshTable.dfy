/** The guard's report in literals: which chained methods count, which two calls
    refresh, what a violation carries and in which order violations come
    (scripts/check_refresh_select_execute.py:32-53, 67-118, 162-198). */
module RefreshTable {
  import opened Common
  import opened RefreshSyntax
  import opened RefreshGuard
  import opened RefreshRuns
  import opened RefreshSoundness
  import opened RefreshRepair

  // ----- the methods -----

  /** The one statement `target.execute(argument, ...)`. */
  function Executed(target: Ast, argument: Ast, more: seq<Ast>, kws: seq<Ast>, line: nat): Ast {
    Call(Attribute(target, "execute"), [argument] + more, kws, line)
  }

  /** The report of an expression statement holds the entry of the call itself exactly
      when its argument is a bare select there. */
  lemma ExecutedReport(target: Ast, argument: Ast, more: seq<Ast>, kws: seq<Ast>, line: nat, env: Env)
    ensures Violation(line, argument) in Report([Executed(target, argument, more, kws, line)], env) <==>
            Classify(argument, env) == Select
  {
    var s := Executed(target, argument, more, kws, line);
    assert [s][1..] == [] && NestedReport(s, 0, Record(s, env)) == [];
    assert Report([s], env) == CallReport(Walk([s]), env) + [] + [];
    if Violation(line, argument) in CallReport(Walk([s]), env) {
      var c := CallReportOnly(Walk([s]), env, Violation(line, argument));
    }
    if Classify(argument, env) == Select {
      StmtCallReported(s, env, s);
    }
  }

  /** `target.execute(select(...).m(...))` is reported exactly for the twenty methods, and
      not for `execution_options` with `populate_existing=True`, whatever the arguments. */
  lemma ChainedReport(target: Ast, columns: seq<Ast>, options: seq<Ast>, m: string, args: seq<Ast>, kws: seq<Ast>,
                      more: seq<Ast>, execKws: seq<Ast>, line: nat, lines: (nat, nat), env: Env)
    requires m != "_refresh_statement"
    ensures var chain := Call(Attribute(Call(Name("select"), columns, options, lines.0), m), args, kws, lines.1);
            Violation(line, chain) in Report([Executed(target, chain, more, execKws, line)], env) <==>
            Listed(m) && !(m == "execution_options" && Keyword(Some("populate_existing"), Constant(true)) in kws)
  {
    var chain := Call(Attribute(Call(Name("select"), columns, options, lines.0), m), args, kws, lines.1);
    ExecutedReport(target, chain, more, execKws, line, env);
    TableIsListed(m);
    if kw :| kw in kws && SetsPopulateExisting(kw) {
      assert kw == Keyword(Some("populate_existing"), Constant(true));
    }
  }

  /** `target.execute(select(...))` is reported. */
  lemma BareReport(target: Ast, columns: seq<Ast>, options: seq<Ast>, more: seq<Ast>, kws: seq<Ast>, line: nat, at: nat, env: Env)
    ensures var sel := Call(Name("select"), columns, options, at);
            Violation(line, sel) in Report([Executed(target, sel, more, kws, line)], env)
  {
    ExecutedReport(target, Call(Name("select"), columns, options, at), more, kws, line, env);
  }

  /** Wrapped by either helper it is not, in any environment. */
  lemma WrappedNotReported(target: Ast, helper: Ast, args: seq<Ast>, options: seq<Ast>, more: seq<Ast>, kws: seq<Ast>,
                           line: nat, at: nat, env: Env)
    requires helper == Name("refresh_select_statement") || exists h :: helper == Attribute(h, "_refresh_statement")
    ensures var wrapped := Call(helper, args, options, at);
            Violation(line, wrapped) !in Report([Executed(target, wrapped, more, kws, line)], env)
  {
    ExecutedReport(target, Call(helper, args, options, at), more, kws, line, env);
  }

  /** Either helper makes a wrapped select of a select, of a wrapped one, and of nothing
      else. */
  lemma HelperWraps(helper: Ast, args: seq<Ast>, options: seq<Ast>, at: nat, env: Env)
    requires helper == Name("refresh_select_statement") || exists h :: helper == Attribute(h, "_refresh_statement")
    ensures Classify(Call(helper, args, options, at), env) ==
            if args != [] && Classify(args[0], env) != Other then Wrapped else Other
  {
  }

  /** The repair of an `execute` call puts its first argument, repaired, into
      `refresh_select_statement(...)`, and keeps the other arguments and the line. */
  lemma RepairedCall(target: Ast, argument: Ast, more: seq<Ast>, kws: seq<Ast>, line: nat)
    ensures Repair(Executed(target, argument, more, kws, line)) ==
            Executed(Repair(target), Call(Name("refresh_select_statement"), [Repair(argument)], [], line),
                     RepairAll(more), RepairAll(kws), line)
  {
    var c := Executed(target, argument, more, kws, line);
    RepairedMethod(target);
    RepairedKids(target, argument, more, kws, line);
    var f := Attribute(Repair(target), "execute");
    var args := [Repair(argument)] + RepairAll(more);
    Cut([f], args, RepairAll(kws));
    assert WithKids(c, [f] + args + RepairAll(kws)) == Call(f, args, RepairAll(kws), line);
    assert args[1..] == RepairAll(more);
  }

  lemma RepairedMethod(target: Ast)
    ensures Repair(Attribute(target, "execute")) == Attribute(Repair(target), "execute")
  {
    assert RepairKids(Attribute(target, "execute")) == [Repair(target)];
  }

  lemma RepairedKids(target: Ast, argument: Ast, more: seq<Ast>, kws: seq<Ast>, line: nat)
    ensures RepairKids(Executed(target, argument, more, kws, line)) ==
            [Repair(Attribute(target, "execute"))] + ([Repair(argument)] + RepairAll(more)) + RepairAll(kws)
  {
    var c, f := Executed(target, argument, more, kws, line), Attribute(target, "execute");
    assert RepairKids(c) == RepairAll(Children(c));
    RepairAllAppend([f] + ([argument] + more), kws);
    RepairAllAppend([f], [argument] + more);
    RepairAllAppend([argument], more);
    assert RepairAll([f]) == [Repair(f)] && RepairAll([argument]) == [Repair(argument)];
  }

  lemma RepairAllAppend(a: seq<Ast>, b: seq<Ast>)
    ensures RepairAll(a + b) == RepairAll(a) + RepairAll(b)
  {
  }

  // ----- what a violation carries -----

  /** `v` carries the line and the first argument of `c`, a call of an `execute` method. */
  predicate Describes(v: Violation, c: Ast) {
    && c.Call? && c.func.Attribute? && c.func.attr == "execute" && |c.args| >= 1
    && v.line == c.line && v.argument == c.args[0]
  }

  /** Every violation describes a call in the scanned body. */
  lemma {:induction false} ReportDescribes(body: seq<Ast>, env: Env, v: Violation) returns (c: Ast, j: nat)
    requires v in Report(body, env)
    ensures j < |body| && InTree(c, body[j]) && Describes(v, c)
    decreases SizeAll(body), 3, 0
  {
    if v in StmtReport(body[0], env) {
      j := 0;
      c := StmtDescribes(body[0], env, v);
    } else {
      c, j := ReportDescribes(body[1..], Record(body[0], env), v);
      j := j + 1;
    }
  }

  lemma {:induction false} StmtDescribes(s: Ast, env: Env, v: Violation) returns (c: Ast)
    requires v in StmtReport(s, env)
    ensures InTree(c, s) && Describes(v, c)
    decreases Size(s), 2, 0
  {
    if IsScope(s) {
      SizeOfScope(s);
      var j: nat;
      c, j := ReportDescribes(s.body, env, v);
      var i := (if s.FunctionDef? then 1 else |s.bases|) + j;
      assert Children(s)[i] == s.body[j];
      ChildInTree(c, s, i);
    } else if v in CallReport(Walk([s]), env) {
      c := CallReportOnly(Walk([s]), env, v);
      WalkFindsExactlyTheCalls([s], c);
    } else {
      c := NestedDescribes(s, 0, Record(s, env), v);
    }
  }

  lemma {:induction false} NestedDescribes(s: Ast, k: nat, env: Env, v: Violation) returns (c: Ast)
    requires k <= |NestedBodies(s)| && v in NestedReport(s, k, env)
    ensures InTree(c, s) && Describes(v, c)
    decreases Size(s), 1, |NestedBodies(s)| - k
  {
    SizeOfNested(s, k);
    if v in Report(NestedBodies(s)[k], env) {
      var j: nat;
      c, j := ReportDescribes(NestedBodies(s)[k], env, v);
      NestedInTree(s, k, j);
      InTreeTransitive(c, NestedBodies(s)[k][j], s);
    } else {
      c := NestedDescribes(s, k + 1, env, v);
    }
  }

  /** Soundness and its converse on the fields: a stale execute of a guarded program has a
      violation with its line and first argument, and every violation of any program has
      those of an `execute` call in it. */
  lemma ViolationsDescribeCalls(program: seq<Ast>, lib: Library)
    ensures forall c :: GuardedAll(program, map[], Everything(), lib) && ExecutesStale(program, Start(lib), c) ==>
              exists v :: v in Report(program, map[]) && Describes(v, c)
    ensures forall v :: v in Report(program, map[]) ==>
              exists c, j :: 0 <= j < |program| && InTree(c, program[j]) && Describes(v, c)
  {
    forall c | GuardedAll(program, map[], Everything(), lib) && ExecutesStale(program, Start(lib), c)
      ensures exists v :: v in Report(program, map[]) && Describes(v, c)
    {
      GuardIsSound(program, lib, c);
      assert Describes(Entry(c), c);
    }
    forall v | v in Report(program, map[])
      ensures exists c, j :: 0 <= j < |program| && InTree(c, program[j]) && Describes(v, c)
    {
      var c, j := ReportDescribes(program, map[], v);
    }
  }

  // ----- the order of the report -----

  function Kids(ns: seq<Ast>): seq<Ast> {
    if ns == [] then [] else Children(ns[0]) + Kids(ns[1..])
  }

  function CallsOf(ns: seq<Ast>): seq<Ast> {
    if ns == [] then [] else (if ns[0].Call? then [ns[0]] else []) + CallsOf(ns[1..])
  }

  lemma {:induction false} WalkPrefix(ns: seq<Ast>, later: seq<Ast>)
    ensures Walk(ns + later) == CallsOf(ns) + Walk(later + Kids(ns))
  {
    if ns == [] {
      assert ns + later == later && later + [] == later;
    } else {
      var n, rest := ns[0], ns[1..];
      assert (ns + later)[1..] == rest + later;
      SizeUnfolds(n);
      AppendAssoc(rest, later, Children(n));
      WalkPrefix(rest, later + Children(n));
      AppendAssoc(later, Children(n), Kids(rest));
      AppendAssoc(if n.Call? then [n] else [], CallsOf(rest), Walk(later + Kids(ns)));
    }
  }

  /** The walk meets every call once for each place it stands in, level by level and from
      left to right. */
  lemma WalkByLevels(ns: seq<Ast>)
    ensures Walk(ns) == CallsOf(ns) + Walk(Kids(ns))
  {
    WalkPrefix(ns, []);
    assert ns + [] == ns && [] + Kids(ns) == Kids(ns);
  }

  lemma BranchReport(s: Ast, env: Env)
    requires s.If? || s.For? || s.While?
    ensures NestedReport(s, 0, env) == Report(s.body, env) + Report(s.orelse, env)
  {
    assert NestedReport(s, 2, env) == [];
    assert NestedReport(s, 1, env) == Report(s.orelse, env) + [];
  }

  /** A compound statement reports its own calls, then its nested bodies in this order:
      body, else, finally, handlers; every body from the same environment. */
  lemma CompoundReport(s: Ast, env: Env)
    ensures s.If? || s.For? || s.While? ==>
              StmtReport(s, env) == CallReport(Walk([s]), env) + (Report(s.body, env) + Report(s.orelse, env))
    ensures s.With? ==> StmtReport(s, env) == CallReport(Walk([s]), env) + Report(s.body, env)
    ensures s.Try? ==>
              StmtReport(s, env) == CallReport(Walk([s]), env) +
                (Report(s.body, env) + (Report(s.orelse, env) + (Report(s.finalbody, env) + ClauseReports(s.handlers, env))))
    ensures s.Match? ==> StmtReport(s, env) == CallReport(Walk([s]), env) + ClauseReports(s.cases, env)
    ensures s.FunctionDef? || s.ClassDef? ==> StmtReport(s, env) == Report(s.body, env)
  {
    if s.If? || s.For? || s.While? { BranchReport(s, env); }
    else if s.With? { assert NestedReport(s, 1, env) == []; }
    else if s.Try? { TryReport(s, env); }
    else if s.Match? { ClausesInOrder(s, 0, s.cases, 0, env); assert s.cases[0..] == s.cases; }
  }
}
