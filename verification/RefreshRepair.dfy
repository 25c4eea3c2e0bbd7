/** The repair the guard advises (scripts/check_refresh_select_execute.py:235-238):
    wrap the first argument of every `execute` call in `refresh_select_statement`. */
module RefreshRepair {
  import opened Common
  import opened RefreshSyntax
  import opened RefreshGuard
  import opened RefreshRuns

  function First(ns: seq<Ast>): Option<Ast> {
    if ns == [] then None else Some(ns[0])
  }

  /** The node with its children replaced, in field order. */
  function WithKids(n: Ast, ks: seq<Ast>): Ast
    requires |ks| == |Children(n)|
  {
    match n
    case Name(_) => n
    case Constant(_) => n
    case Attribute(_, a) => Attribute(ks[0], a)
    case Call(_, args, _, line) => Call(ks[0], ks[1..1 + |args|], ks[1 + |args|..], line)
    case Keyword(a, _) => Keyword(a, ks[0])
    case Pack(_) => Pack(ks)
    case Node(_) => Node(ks)
    case Assign(ts, _) => Assign(ks[..|ts|], ks[|ts|])
    case AnnAssign(_, _, _) => AnnAssign(ks[0], ks[1], First(ks[2..]))
    case AugAssign(_, _) => AugAssign(ks[0], ks[1])
    case Import(_) => n
    case If(_, b, _) => If(ks[0], ks[1..1 + |b|], ks[1 + |b|..])
    case For(_, _, b, _) => For(ks[0], ks[1], ks[2..2 + |b|], ks[2 + |b|..])
    case While(_, b, _) => While(ks[0], ks[1..1 + |b|], ks[1 + |b|..])
    case With(items, _) => With(ks[..|items|], ks[|items|..])
    case WithItem(_, _) => WithItem(ks[0], First(ks[1..]))
    case Try(b, h, o, _) =>
      Try(ks[..|b|], ks[|b|..|b| + |h|], ks[|b| + |h|..|b| + |h| + |o|], ks[|b| + |h| + |o|..])
    case Handler(k, a, _) => Handler(First(ks[..|Maybe(k)|]), a, ks[|Maybe(k)|..])
    case Match(_, _) => Match(ks[0], ks[1..])
    case Case(cap, _, g, _) => Case(cap, ks[0], First(ks[1..1 + |Maybe(g)|]), ks[1 + |Maybe(g)|..])
    case FunctionDef(x, _, b, _) => FunctionDef(x, ks[0], ks[1..1 + |b|], ks[1 + |b|..])
    case ClassDef(x, bs, b, _) => ClassDef(x, ks[..|bs|], ks[|bs|..|bs| + |b|], ks[|bs| + |b|..])
  }

  predicate Branching(n: Ast) { n.If? || n.For? || n.While? || n.With? || n.WithItem? }

  predicate Clausal(n: Ast) { n.Try? || n.Handler? || n.Match? || n.Case? || n.FunctionDef? || n.ClassDef? }

  lemma KidsOfIf(n: Ast, ks: seq<Ast>)
    requires n.If? && |ks| == |Children(n)|
    ensures Children(WithKids(n, ks)) == ks && WithKids(WithKids(n, ks), Children(n)) == n
  {
    var r := WithKids(n, ks);
    assert ks == [r.test] + r.body + r.orelse;
    Cut([n.test], n.body, n.orelse);
  }

  lemma KidsOfWhile(n: Ast, ks: seq<Ast>)
    requires n.While? && |ks| == |Children(n)|
    ensures Children(WithKids(n, ks)) == ks && WithKids(WithKids(n, ks), Children(n)) == n
  {
    var r := WithKids(n, ks);
    assert ks == [r.test] + r.body + r.orelse;
    Cut([n.test], n.body, n.orelse);
  }

  lemma KidsOfFor(n: Ast, ks: seq<Ast>)
    requires n.For? && |ks| == |Children(n)|
    ensures Children(WithKids(n, ks)) == ks && WithKids(WithKids(n, ks), Children(n)) == n
  {
    var r := WithKids(n, ks);
    assert ks == [r.target, r.iter] + r.body + r.orelse;
    Cut([n.target, n.iter], n.body, n.orelse);
  }

  lemma KidsOfWith(n: Ast, ks: seq<Ast>)
    requires (n.With? || n.WithItem?) && |ks| == |Children(n)|
    ensures Children(WithKids(n, ks)) == ks && WithKids(WithKids(n, ks), Children(n)) == n
  {
    var r := WithKids(n, ks);
    if n.With? {
      assert ks == r.items + r.body;
      Cut([], n.items, n.body);
    } else {
      assert ks == [r.context] + Maybe(r.vars);
    }
  }

  /** Cutting a concatenation at the lengths of its parts gives the parts. */
  lemma Cut(a: seq<Ast>, b: seq<Ast>, c: seq<Ast>)
    ensures (a + b + c)[..|a|] == a
    ensures (a + b + c)[|a|..|a| + |b|] == b
    ensures (a + b + c)[|a| + |b|..] == c
  {
  }

  lemma CutFour(a: seq<Ast>, b: seq<Ast>, c: seq<Ast>, d: seq<Ast>)
    ensures var s := a + b + c + d;
            && s[..|a|] == a && s[|a|..|a| + |b|] == b
            && s[|a| + |b|..|a| + |b| + |c|] == c && s[|a| + |b| + |c|..] == d
  {
    Cut(a, b, c + d);
    Cut(a + b, c, d);
    assert a + b + (c + d) == a + b + c + d;
  }

  lemma JoinFour(s: seq<Ast>, i: nat, j: nat, k: nat)
    requires i <= j <= k <= |s|
    ensures s[..i] + s[i..j] + s[j..k] + s[k..] == s
  {
  }

  lemma KidsOfTry(n: Ast, ks: seq<Ast>)
    requires n.Try? && |ks| == |Children(n)|
    ensures Children(WithKids(n, ks)) == ks && WithKids(WithKids(n, ks), Children(n)) == n
  {
    KidsPutIntoTry(n, ks);
    CutFour(n.body, n.handlers, n.orelse, n.finalbody);
  }

  lemma KidsPutIntoTry(n: Ast, ks: seq<Ast>)
    requires n.Try? && |ks| == |Children(n)|
    ensures var r := WithKids(n, ks);
            && r.Try? && |r.body| == |n.body| && |r.handlers| == |n.handlers| && |r.orelse| == |n.orelse|
            && Children(r) == ks
  {
    var i, j, k := |n.body|, |n.body| + |n.handlers|, |n.body| + |n.handlers| + |n.orelse|;
    assert WithKids(n, ks) == Try(ks[..i], ks[i..j], ks[j..k], ks[k..]);
    JoinFour(ks, i, j, k);
  }

  lemma KidsOfFunction(n: Ast, ks: seq<Ast>)
    requires n.FunctionDef? && |ks| == |Children(n)|
    ensures Children(WithKids(n, ks)) == ks && WithKids(WithKids(n, ks), Children(n)) == n
  {
    var r := WithKids(n, ks);
    assert ks == [r.params] + r.body + r.decorators;
    Cut([n.params], n.body, n.decorators);
  }

  lemma KidsOfClass(n: Ast, ks: seq<Ast>)
    requires n.ClassDef? && |ks| == |Children(n)|
    ensures Children(WithKids(n, ks)) == ks && WithKids(WithKids(n, ks), Children(n)) == n
  {
    var r := WithKids(n, ks);
    assert ks == r.bases + r.body + r.decorators;
    Cut(n.bases, n.body, n.decorators);
  }

  lemma KidsOfCase(n: Ast, ks: seq<Ast>)
    requires n.Case? && |ks| == |Children(n)|
    ensures Children(WithKids(n, ks)) == ks && WithKids(WithKids(n, ks), Children(n)) == n
  {
    var r := WithKids(n, ks);
    assert ks == [r.pattern] + Maybe(r.guard) + r.body;
    Cut([n.pattern], Maybe(n.guard), n.body);
  }

  lemma KidsOfClause(n: Ast, ks: seq<Ast>)
    requires (n.Handler? || n.Match?) && |ks| == |Children(n)|
    ensures Children(WithKids(n, ks)) == ks && WithKids(WithKids(n, ks), Children(n)) == n
  {
    if n.Handler? {
      KidsOfHandler(n, ks);
    } else {
      var r := WithKids(n, ks);
      assert ks == [r.subject] + r.cases;
    }
  }

  lemma KidsOfHandler(n: Ast, ks: seq<Ast>)
    requires n.Handler? && |ks| == |Children(n)|
    ensures Children(WithKids(n, ks)) == ks && WithKids(WithKids(n, ks), Children(n)) == n
  {
    var r, i := WithKids(n, ks), |Maybe(n.kind)|;
    assert r == Handler(First(ks[..i]), n.alias, ks[i..]);
    assert ks[..i] + ks[i..] == ks;
    assert Maybe(r.kind) == ks[..i];
    assert (Maybe(n.kind) + n.body)[..i] == Maybe(n.kind) && (Maybe(n.kind) + n.body)[i..] == n.body;
  }

  lemma KidsOfCall(n: Ast, ks: seq<Ast>)
    requires n.Call? && |ks| == |Children(n)|
    ensures Children(WithKids(n, ks)) == ks && WithKids(WithKids(n, ks), Children(n)) == n
  {
    var r := WithKids(n, ks);
    assert ks == [r.func] + r.args + r.keywords;
    Cut([n.func], n.args, n.keywords);
  }

  lemma KidsOfSimple(n: Ast, ks: seq<Ast>)
    requires !Branching(n) && !Clausal(n) && !n.Call? && |ks| == |Children(n)|
    ensures Children(WithKids(n, ks)) == ks && WithKids(WithKids(n, ks), Children(n)) == n
  {
    var r := WithKids(n, ks);
    match n
    case Assign(_, _) => assert ks == r.targets + [r.rhs];
    case AnnAssign(_, _, _) => assert ks == [r.target, r.annotation] + Maybe(r.init);
    case AugAssign(_, _) => assert ks == [r.target, r.rhs];
    case Attribute(_, _) => assert ks == [r.value];
    case Keyword(_, _) => assert ks == [r.given];
    case _ =>
  }

  /** Replacing the children replaces exactly the children. */
  lemma KidsOfWithKids(n: Ast, ks: seq<Ast>)
    requires |ks| == |Children(n)|
    ensures Children(WithKids(n, ks)) == ks && WithKids(WithKids(n, ks), Children(n)) == n
  {
    if n.If? { KidsOfIf(n, ks); }
    else if n.While? { KidsOfWhile(n, ks); }
    else if n.For? { KidsOfFor(n, ks); }
    else if Branching(n) { KidsOfWith(n, ks); }
    else if n.Try? { KidsOfTry(n, ks); }
    else if n.FunctionDef? { KidsOfFunction(n, ks); }
    else if n.ClassDef? { KidsOfClass(n, ks); }
    else if n.Case? { KidsOfCase(n, ks); }
    else if Clausal(n) { KidsOfClause(n, ks); }
    else if n.Call? { KidsOfCall(n, ks); }
    else { KidsOfSimple(n, ks); }
  }

  // ----- the repair -----

  function Wrap(arg: Ast, line: nat): Ast {
    Call(Name(REFRESH), [arg], [], line)
  }

  function Patch(n: Ast): Ast {
    if IsExecute(n) then n.(args := [Wrap(n.args[0], n.line)] + n.args[1..]) else n
  }

  function RepairKids(n: Ast): (ks: seq<Ast>)
    ensures |ks| == |Children(n)|
    decreases n, 0
  {
    seq(|Children(n)|, k requires 0 <= k < |Children(n)| => (ChildSmaller(n, k); Repair(Children(n)[k])))
  }

  function Repair(n: Ast): Ast
    decreases n, 1
  {
    Patch(WithKids(n, RepairKids(n)))
  }

  function RepairAll(ns: seq<Ast>): seq<Ast> {
    seq(|ns|, k requires 0 <= k < |ns| => Repair(ns[k]))
  }

  // ----- the repair only wraps: taking the wrappers off gives the program back -----

  function Unwrap(arg: Ast): Ast {
    if arg.Call? && arg.func == Name(REFRESH) && |arg.args| == 1 then arg.args[0] else arg
  }

  function Unpatch(n: Ast): Ast {
    if IsExecute(n) then n.(args := [Unwrap(n.args[0])] + n.args[1..]) else n
  }

  function StripKids(n: Ast): (ks: seq<Ast>)
    ensures |ks| == |Children(n)|
    decreases n, 0
  {
    seq(|Children(n)|, k requires 0 <= k < |Children(n)| => (ChildSmaller(n, k); Strip(Children(n)[k])))
  }

  /** Removes one wrapper from the first argument of every `execute` call. */
  function Strip(n: Ast): Ast
    decreases n, 1
  {
    Unpatch(WithKids(n, StripKids(n)))
  }

  function StripAll(ns: seq<Ast>): seq<Ast> {
    seq(|ns|, k requires 0 <= k < |ns| => Strip(ns[k]))
  }

  lemma StripWrapped(arg: Ast, line: nat)
    ensures Strip(Wrap(arg, line)) == Wrap(Strip(arg), line)
  {
    var w := Wrap(arg, line);
    assert Children(w) == [Name(REFRESH), arg];
    assert Strip(Name(REFRESH)) == Name(REFRESH);
    assert StripKids(w) == [Name(REFRESH), Strip(arg)];
  }

  lemma {:induction false} StripUndoesRepair(n: Ast)
    ensures Strip(Repair(n)) == n
    decreases n
  {
    var kids := RepairKids(n);
    forall k | 0 <= k < |kids| ensures kids[k] == Repair(Children(n)[k]) && Strip(kids[k]) == Children(n)[k] {
      ChildSmaller(n, k);
      StripUndoesRepair(Children(n)[k]);
    }
    KidsOfWithKids(n, kids);
    if IsExecute(WithKids(n, kids)) {
      StripUndoesRepairOfExecute(n, kids);
    } else {
      assert StripKids(Repair(n)) == Children(n);
      NotExecuteBack(n, kids);
    }
  }

  /** A repaired node is an execute call exactly when the original is. */
  lemma NotExecuteBack(n: Ast, kids: seq<Ast>)
    requires |kids| == |Children(n)| && forall k :: 0 <= k < |kids| ==> kids[k] == Repair(Children(n)[k])
    ensures IsExecute(WithKids(n, kids)) <==> IsExecute(n)
  {
    if n.Call? {
      assert kids[0] == Repair(n.func) == Patch(WithKids(n.func, RepairKids(n.func)));
    }
  }

  lemma PatchKids(x: Ast)
    requires IsExecute(x)
    ensures |Children(x)| > 1 && Children(x)[0] == x.func && Children(x)[1] == x.args[0]
    ensures Children(Patch(x)) == Children(x)[1 := Wrap(x.args[0], x.line)]
  {
    PatchedSeq([x.func], x.args, x.keywords, Wrap(x.args[0], x.line));
  }

  lemma PatchedSeq(f: seq<Ast>, args: seq<Ast>, kws: seq<Ast>, w: Ast)
    requires |f| == 1 && args != []
    ensures f + ([w] + args[1..]) + kws == (f + args + kws)[1 := w]
  {
  }

  lemma {:induction false} StripUndoesRepairOfExecute(n: Ast, kids: seq<Ast>)
    requires |kids| == |Children(n)| && kids == RepairKids(n) && IsExecute(WithKids(n, kids))
    requires forall k :: 0 <= k < |kids| ==> kids[k] == Repair(Children(n)[k]) && Strip(kids[k]) == Children(n)[k]
    ensures Strip(Repair(n)) == n
  {
    NotExecuteBack(n, kids);
    StrippedKids(n, kids);
    StripBack(Repair(n), Patch(n));
    UnpatchPatch(n);
  }

  lemma UnpatchPatch(n: Ast)
    requires IsExecute(n)
    ensures Unpatch(Patch(n)) == n
  {
    assert [n.args[0]] + n.args[1..] == n.args;
  }

  lemma {:induction false} StrippedKids(n: Ast, kids: seq<Ast>)
    requires |kids| == |Children(n)| && kids == RepairKids(n) && IsExecute(WithKids(n, kids)) && IsExecute(n)
    requires forall k :: 0 <= k < |kids| ==> Strip(kids[k]) == Children(n)[k]
    ensures StripKids(Repair(n)) == Children(Patch(n))
  {
    KidsOfWithKids(n, kids);
    PatchKids(WithKids(n, kids));
    PatchKids(n);
    StripWrapped(kids[1], n.line);
  }

  /** Two calls with as many arguments: giving one the other's children makes it the other. */
  lemma StripBack(r: Ast, q: Ast)
    requires r.Call? && q.Call? && r.line == q.line && |r.args| == |q.args| && |Children(r)| == |Children(q)|
    ensures WithKids(r, Children(q)) == q
  {
    Cut([q.func], q.args, q.keywords);
  }

  // ----- every execute of a repaired tree has a refreshed argument -----

  predicate RefreshesItsArgument(c: Ast) {
    IsExecute(c) ==> c.args[0].Call? && c.args[0].func == Name(REFRESH)
  }

  ghost predicate AllRefreshed(n: Ast)
    decreases n
  {
    && RefreshesItsArgument(n)
    && forall k :: 0 <= k < |Children(n)| ==> (ChildSmaller(n, k); AllRefreshed(Children(n)[k]))
  }

  ghost predicate EachRefreshed(ns: seq<Ast>) {
    forall k :: 0 <= k < |ns| ==> AllRefreshed(ns[k])
  }

  lemma WrapRefreshed(arg: Ast, line: nat)
    requires AllRefreshed(arg)
    ensures AllRefreshed(Wrap(arg, line))
  {
    assert Children(Wrap(arg, line)) == [Name(REFRESH), arg];
  }

  lemma {:induction false} RepairRefreshes(n: Ast)
    ensures AllRefreshed(Repair(n))
    decreases n
  {
    var kids := RepairKids(n);
    forall k | 0 <= k < |kids| ensures AllRefreshed(kids[k]) {
      ChildSmaller(n, k);
      RepairRefreshes(Children(n)[k]);
    }
    var x := WithKids(n, kids);
    KidsOfWithKids(n, kids);
    if IsExecute(x) {
      PatchKids(x);
      WrapRefreshed(x.args[0], x.line);
    }
  }

  lemma {:induction false} RefreshedBelow(c: Ast, n: Ast)
    requires AllRefreshed(n) && InTree(c, n)
    ensures AllRefreshed(c)
    decreases n
  {
    if c != n {
      var k :| 0 <= k < |Children(n)| && InTree(c, Children(n)[k]);
      ChildSmaller(n, k);
      RefreshedBelow(c, Children(n)[k]);
    }
  }

  // ----- nothing is reported -----

  lemma {:induction false} RefreshedIsQuiet(n: Ast, env: Env)
    requires AllRefreshed(n)
    ensures Quiet(n, env)
    decreases n
  {
    forall k | 0 <= k < |Children(n)| ensures Quiet(Children(n)[k], env) {
      ChildSmaller(n, k);
      RefreshedIsQuiet(Children(n)[k], env);
    }
  }

  lemma BodyOfInTree(n: Ast, j: nat)
    requires j < |BodyOf(n)|
    ensures InTree(BodyOf(n)[j], n)
  {
    match n
    case Handler(k, _, b) => ChildInTree(b[j], n, |Maybe(k)| + j);
    case Case(_, p, g, b) => ChildInTree(b[j], n, 1 + |Maybe(g)| + j);
  }

  lemma StretchAt(before: seq<Ast>, part: seq<Ast>, after: seq<Ast>, j: nat)
    requires j < |part|
    ensures (before + part + after)[|before| + j] == part[j]
  {
  }

  /** The `j`-th node of a stretch of children. */
  lemma StretchInTree(s: Ast, before: seq<Ast>, part: seq<Ast>, after: seq<Ast>, j: nat)
    requires Children(s) == before + part + after && j < |part|
    ensures InTree(part[j], s)
  {
    StretchAt(before, part, after, j);
    ChildInTree(part[j], s, |before| + j);
  }

  lemma BranchInTree(s: Ast, k: nat, j: nat)
    requires Branching(s) && k < |NestedBodies(s)| && j < |NestedBodies(s)[k]|
    ensures InTree(NestedBodies(s)[k][j], s)
  {
    match s
    case If(t, b, o) =>
      if k == 0 { StretchInTree(s, [t], b, o, j); } else { StretchInTree(s, [t] + b, o, [], j); }
    case For(t, i, b, o) =>
      if k == 0 { StretchInTree(s, [t, i], b, o, j); } else { StretchInTree(s, [t, i] + b, o, [], j); }
    case While(t, b, o) =>
      if k == 0 { StretchInTree(s, [t], b, o, j); } else { StretchInTree(s, [t] + b, o, [], j); }
    case With(items, b) => StretchInTree(s, items, b, [], j);
  }

  lemma TryInTree(s: Ast, k: nat, j: nat)
    requires s.Try? && k < |NestedBodies(s)| && j < |NestedBodies(s)[k]|
    ensures InTree(NestedBodies(s)[k][j], s)
  {
    var Try(b, h, o, f) := s;
    if k == 0 {
      StretchAt([], b, h + o + f, j);
      assert Children(s)[j] == b[j];
      ChildInTree(b[j], s, j);
    } else if k == 1 {
      StretchInTree(s, b + h, o, f, j);
    } else if k == 2 {
      StretchInTree(s, b + h + o, f, [], j);
    } else {
      BodyOfInTree(h[k - 3], j);
      assert Children(s)[|b| + k - 3] == h[k - 3];
      ChildInTree(BodyOf(h[k - 3])[j], s, |b| + k - 3);
    }
  }

  lemma {:induction false} NestedInTree(s: Ast, k: nat, j: nat)
    requires k < |NestedBodies(s)| && j < |NestedBodies(s)[k]|
    ensures InTree(NestedBodies(s)[k][j], s)
  {
    if s.Try? {
      TryInTree(s, k, j);
    } else if s.Match? {
      BodyOfInTree(s.cases[k], j);
      ChildInTree(NestedBodies(s)[k][j], s, 1 + k);
    } else {
      BranchInTree(s, k, j);
    }
  }

  lemma NestedRefreshed(s: Ast, k: nat)
    requires AllRefreshed(s) && k < |NestedBodies(s)|
    ensures EachRefreshed(NestedBodies(s)[k])
  {
    forall j | 0 <= j < |NestedBodies(s)[k]| ensures AllRefreshed(NestedBodies(s)[k][j]) {
      NestedInTree(s, k, j);
      RefreshedBelow(NestedBodies(s)[k][j], s);
    }
  }

  lemma {:induction false} RefreshedReport(body: seq<Ast>, env: Env)
    requires EachRefreshed(body)
    ensures Report(body, env) == []
    decreases SizeAll(body), 3, 0
  {
    if body != [] {
      RefreshedStatement(body[0], env);
      RefreshedReport(body[1..], Record(body[0], env));
    }
  }

  lemma ScopeRefreshed(s: Ast)
    requires IsScope(s) && AllRefreshed(s)
    ensures EachRefreshed(s.body)
  {
    forall j | 0 <= j < |s.body| ensures AllRefreshed(s.body[j]) {
      var at := if s.FunctionDef? then 1 + j else |s.bases| + j;
      assert Children(s)[at] == s.body[j];
    }
  }

  lemma {:induction false} RefreshedStatement(s: Ast, env: Env)
    requires AllRefreshed(s)
    ensures StmtReport(s, env) == []
    decreases Size(s), 2, 0
  {
    if IsScope(s) {
      SizeOfScope(s);
      ScopeRefreshed(s);
      RefreshedReport(s.body, env);
    } else {
      RefreshedIsQuiet(s, env);
      QuietStatement(s, env);
      RefreshedNested(s, 0, Record(s, env));
    }
  }

  lemma {:induction false} RefreshedNested(s: Ast, k: nat, env: Env)
    requires AllRefreshed(s) && k <= |NestedBodies(s)|
    ensures NestedReport(s, k, env) == []
    decreases Size(s), 1, |NestedBodies(s)| - k
  {
    if k < |NestedBodies(s)| {
      SizeOfNested(s, k);
      NestedRefreshed(s, k);
      RefreshedReport(NestedBodies(s)[k], env);
      RefreshedNested(s, k + 1, env);
    }
  }

  /** The advised repair always works: for every program and every environment the
      scan of the repaired program reports nothing, and nothing but wrappers changed. */
  lemma RepairSilencesTheGuard(program: seq<Ast>, env: Env)
    ensures Report(RepairAll(program), env) == []
    ensures StripAll(RepairAll(program)) == program
  {
    forall k | 0 <= k < |program| ensures AllRefreshed(RepairAll(program)[k]) {
      RepairRefreshes(program[k]);
    }
    RefreshedReport(RepairAll(program), env);
    forall k | 0 <= k < |program| ensures StripAll(RepairAll(program))[k] == program[k] {
      StripUndoesRepair(program[k]);
    }
  }

  // ----- nothing stale is executed -----

  lemma {:induction false} BodyExecutesBelow(body: seq<Ast>, st: Store, c: Ast, at: Store) returns (j: nat)
    requires ExecutesAll(body, st, c, at)
    ensures j < |body| && InTree(c, body[j])
    decreases SizeAll(body), 4, 0
  {
    if Executes(body[0], st, c, at) {
      ExecutesBelow(body[0], st, c, at);
      j := 0;
    } else {
      var m :| Ends(body[0], st, Normal, m) && ExecutesAll(body[1..], m, c, at);
      var i := BodyExecutesBelow(body[1..], m, c, at);
      j := i + 1;
    }
  }

  lemma {:induction false} NestedExecutesBelow(s: Ast, k: nat, st: Store, c: Ast, at: Store)
    requires k < |NestedBodies(s)| && ExecutesAll(NestedBodies(s)[k], st, c, at)
    ensures InTree(c, s)
    decreases Size(s), 1, 0
  {
    SizeOfNested(s, k);
    var j := BodyExecutesBelow(NestedBodies(s)[k], st, c, at);
    NestedInTree(s, k, j);
    InTreeTransitive(c, NestedBodies(s)[k][j], s);
  }

  lemma PartBelow(c: Ast, part: seq<Ast>, s: Ast, offset: nat)
    requires InSome(c, part) && offset + |part| <= |Children(s)|
    requires forall k :: 0 <= k < |part| ==> Children(s)[offset + k] == part[k]
    ensures InTree(c, s)
  {
    var k :| 0 <= k < |part| && InTree(c, part[k]);
    ChildInTree(c, s, offset + k);
  }

  lemma ScopeHeaderBelow(c: Ast, s: Ast)
    requires IsScope(s) && InSome(c, ScopeHeader(s))
    ensures InTree(c, s)
  {
    if s.FunctionDef? {
      InSomeAppend(c, [s.params], s.decorators);
      InSomeAppend(c, [s.params] + s.body, s.decorators);
      InSomeAppend(c, [s.params], s.body);
    } else {
      InSomeAppend(c, s.bases, s.decorators);
      InSomeAppend(c, s.bases + s.body, s.decorators);
      InSomeAppend(c, s.bases, s.body);
    }
    InTreeOrKids(c, s);
  }

  lemma {:induction false} ScopeExecutesBelow(s: Ast, st: Store, c: Ast, at: Store)
    requires IsScope(s) && ExecutesAll(s.body, st, c, at)
    ensures InTree(c, s)
    decreases Size(s), 1, 0
  {
    SizeOfScope(s);
    var j := BodyExecutesBelow(s.body, st, c, at);
    var i := (if s.FunctionDef? then 1 else |s.bases|) + j;
    assert Children(s)[i] == s.body[j];
    ChildInTree(c, s, i);
  }

  lemma {:induction false} LoopExecutesBelow(s: Ast, m: Store, c: Ast, at: Store)
    requires IsLoop(s) && LoopExecutes(s, m, c, at)
    ensures InTree(c, s)
    decreases Size(s), 2, 0
  {
    if InTree(c, LoopTest(s)) {
      assert Children(s)[0] == LoopTest(s);
      ChildInTree(c, s, 0);
    } else if ExecutesAll(s.orelse, m, c, at) {
      NestedExecutesBelow(s, 1, m, c, at);
    } else {
      var a :| Same(m, a, LoopNames(s)) && ExecutesAll(s.body, a, c, at);
      NestedExecutesBelow(s, 0, a, c, at);
    }
  }

  lemma {:induction false} HandlerBelow(s: Ast, k: nat, a: Store, c: Ast, at: Store)
    requires s.Try? && k < |s.handlers|
    requires InSome(c, ClauseHeader(s.handlers[k])) || ExecutesAll(BodyOf(s.handlers[k]), a, c, at)
    ensures InTree(c, s)
    decreases Size(s), 1, 1
  {
    if InSome(c, ClauseHeader(s.handlers[k])) {
      assert Children(s)[|s.body| + k] == s.handlers[k];
      ClauseInTree(c, s.handlers[k], s, |s.body| + k);
    } else {
      assert NestedBodies(s)[3 + k] == BodyOf(s.handlers[k]);
      NestedExecutesBelow(s, 3 + k, a, c, at);
    }
  }

  lemma {:induction false} AfterTryExecutesBelow(s: Ast, y: Exit, m: Store, c: Ast, at: Store)
    requires s.Try? && AfterTryExecutes(s, y, m, c, at)
    ensures InTree(c, s)
    decreases Size(s), 2, 0
  {
    if ExecutesAll(s.orelse, m, c, at) {
      NestedExecutesBelow(s, 1, m, c, at);
    } else if z, m' :| Handled(s, y, m, z, m') && ExecutesAll(s.finalbody, m', c, at) {
      NestedExecutesBelow(s, 2, m', c, at);
    } else {
      var k, a :| 0 <= k < |s.handlers| && Same(m, a, Alias(s.handlers[k]))
        && ((InSome(c, ClauseHeader(s.handlers[k])) && at == m) || ExecutesAll(BodyOf(s.handlers[k]), a, c, at));
      HandlerBelow(s, k, a, c, at);
    }
  }

  lemma {:induction false} MatchExecutesBelow(s: Ast, st: Store, c: Ast, at: Store)
    requires s.Match? && Executes(s, st, c, at)
    ensures InTree(c, s)
    decreases Size(s), 2, 0
  {
    if InTree(c, s.subject) {
      ChildInTree(c, s, 0);
    } else {
      var cs := s.cases;
      var m, k :| Same(st, m, Captures(cs)) && 0 <= k < |cs|
        && ((InSome(c, ClauseHeader(cs[k])) && at == m) || ExecutesAll(BodyOf(cs[k]), m, c, at));
      if InSome(c, ClauseHeader(cs[k])) {
        ClauseInTree(c, cs[k], s, 1 + k);
      } else {
        NestedExecutesBelow(s, k, m, c, at);
      }
    }
  }

  /** A run of a statement evaluates only calls of that statement. */
  lemma {:induction false} ExecutesBelow(s: Ast, st: Store, c: Ast, at: Store)
    requires Executes(s, st, c, at)
    ensures InTree(c, s)
    decreases Size(s), 3, 0
  {
    if s.If? {
      if ExecutesAll(s.body, st, c, at) { NestedExecutesBelow(s, 0, st, c, at); }
      else if ExecutesAll(s.orelse, st, c, at) { NestedExecutesBelow(s, 1, st, c, at); }
      else { ChildInTree(c, s, 0); }
    } else if IsLoop(s) {
      if s.For? && InTree(c, s.iter) {
        ChildInTree(c, s, 1);
      } else {
        var n: nat, m :| LoopHead(s, n, st, m) && LoopExecutes(s, m, c, at);
        LoopExecutesBelow(s, m, c, at);
      }
    } else if s.With? {
      var m :| Same(st, m, AssignedAll(s.items)) && ((InSome(c, s.items) && at == m) || ExecutesAll(s.body, m, c, at));
      if InSome(c, s.items) { PartBelow(c, s.items, s, 0); } else { NestedExecutesBelow(s, 0, m, c, at); }
    } else if s.Try? {
      if ExecutesAll(s.body, st, c, at) {
        NestedExecutesBelow(s, 0, st, c, at);
      } else {
        var y, m :| EndsAll(s.body, st, y, m) && AfterTryExecutes(s, y, m, c, at);
        AfterTryExecutesBelow(s, y, m, c, at);
      }
    } else if s.Match? {
      MatchExecutesBelow(s, st, c, at);
    } else if IsScope(s) {
      if InSome(c, ScopeHeader(s)) {
        ScopeHeaderBelow(c, s);
      } else if s.FunctionDef? {
        var st0: Store :| st0.lib == st.lib && ExecutesAll(s.body, st0, c, at);
        ScopeExecutesBelow(s, st0, c, at);
      } else {
        ScopeExecutesBelow(s, st, c, at);
      }
    }
  }

  /** The repair does what it is advised for: whatever the program, no run of the
      repaired program hands a stale select to `execute`. */
  lemma RepairedRunsAreFresh(program: seq<Ast>, st: Store, c: Ast)
    ensures !ExecutesStale(RepairAll(program), st, c)
  {
    var repaired := RepairAll(program);
    if ExecutesStale(repaired, st, c) {
      var at :| ExecutesAll(repaired, st, c, at) && Stale in Values(c.args[0], at);
      var j := BodyExecutesBelow(repaired, st, c, at);
      RepairRefreshes(program[j]);
      RefreshedBelow(c, repaired[j]);
    }
  }
}
