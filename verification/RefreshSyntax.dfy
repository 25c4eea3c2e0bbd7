/** The Python syntax tree seen by the refresh guard (scripts/check_refresh_select_execute.py).

    One datatype stands for `ast.AST`, as the guard itself treats it: a chain of
    `isinstance` tests with a default.  Every node that is neither a name, a
    constant, an attribute, a call, an assignment, an import nor a block is a `Node`
    (await, return, expression statement, subscript, lambda, ...). */
module RefreshSyntax {
  import opened Common

  datatype Ast =
    | Name(id: string)
    | Constant(isTrue: bool)
    | Attribute(value: Ast, attr: string)
    | Call(func: Ast, args: seq<Ast>, keywords: seq<Ast>, line: nat)
    | Keyword(arg: Option<string>, given: Ast)
    | Pack(elts: seq<Ast>)
    | Node(kids: seq<Ast>)
    | Assign(targets: seq<Ast>, rhs: Ast)
    | AnnAssign(target: Ast, annotation: Ast, init: Option<Ast>)
    | AugAssign(target: Ast, rhs: Ast)
    | Import(names: set<string>)
    | If(test: Ast, body: seq<Ast>, orelse: seq<Ast>)
    | For(target: Ast, iter: Ast, body: seq<Ast>, orelse: seq<Ast>)
    | While(test: Ast, body: seq<Ast>, orelse: seq<Ast>)
    | With(items: seq<Ast>, body: seq<Ast>)
    | WithItem(context: Ast, vars: Option<Ast>)
    | Try(body: seq<Ast>, handlers: seq<Ast>, orelse: seq<Ast>, finalbody: seq<Ast>)
    | Handler(kind: Option<Ast>, alias: Option<string>, body: seq<Ast>)
    | Match(subject: Ast, cases: seq<Ast>)
    | Case(captures: set<string>, pattern: Ast, guard: Option<Ast>, body: seq<Ast>)
    | FunctionDef(name: string, params: Ast, body: seq<Ast>, decorators: seq<Ast>)
    | ClassDef(name: string, bases: seq<Ast>, body: seq<Ast>, decorators: seq<Ast>)

  function Maybe(o: Option<Ast>): seq<Ast> {
    if o.Some? then [o.value] else []
  }

  /** `ast.iter_child_nodes`: the child nodes in field order. */
  function Children(n: Ast): seq<Ast> {
    match n
    case Name(_) => []
    case Constant(_) => []
    case Attribute(v, _) => [v]
    case Call(f, args, kws, _) => [f] + args + kws
    case Keyword(_, v) => [v]
    case Pack(elts) => elts
    case Node(kids) => kids
    case Assign(ts, v) => ts + [v]
    case AnnAssign(t, a, v) => [t, a] + Maybe(v)
    case AugAssign(t, v) => [t, v]
    case Import(_) => []
    case If(t, b, o) => [t] + b + o
    case For(t, i, b, o) => [t, i] + b + o
    case While(t, b, o) => [t] + b + o
    case With(items, b) => items + b
    case WithItem(c, v) => [c] + Maybe(v)
    case Try(b, h, o, f) => b + h + o + f
    case Handler(k, _, b) => Maybe(k) + b
    case Match(s, cs) => [s] + cs
    case Case(_, p, g, b) => [p] + Maybe(g) + b
    case FunctionDef(_, p, b, d) => [p] + b + d
    case ClassDef(_, bs, b, d) => bs + b + d
  }

  lemma ChildOfBlock(n: Ast, k: nat)
    requires (n.If? || n.For? || n.While? || n.With? || n.Try?) && k < |Children(n)|
    ensures n decreases to Children(n)[k]
  {
    var c := Children(n)[k];
    match n
    case If(t, b, o) => assert c == t || c in b || c in o;
    case For(t, i, b, o) => assert c == t || c == i || c in b || c in o;
    case While(t, b, o) => assert c == t || c in b || c in o;
    case With(items, b) => assert c in items || c in b;
    case Try(b, h, o, f) => assert c in b || c in h || c in o || c in f;
  }

  lemma ChildOfClause(n: Ast, k: nat)
    requires (n.Handler? || n.Match? || n.Case? || n.FunctionDef? || n.ClassDef?) && k < |Children(n)|
    ensures n decreases to Children(n)[k]
  {
    var c := Children(n)[k];
    match n
    case Handler(kd, _, b) => assert c in Maybe(kd) || c in b;
    case Match(s, cs) => assert c == s || c in cs;
    case Case(_, p, g, b) => assert c == p || c in Maybe(g) || c in b;
    case FunctionDef(_, p, b, d) => assert c == p || c in b || c in d;
    case ClassDef(_, bs, b, d) => assert c in bs || c in b || c in d;
  }

  lemma ChildSmaller(n: Ast, k: nat)
    requires k < |Children(n)|
    ensures n decreases to Children(n)[k]
  {
    var c := Children(n)[k];
    if n.If? || n.For? || n.While? || n.With? || n.Try? {
      ChildOfBlock(n, k);
    } else if n.Handler? || n.Match? || n.Case? || n.FunctionDef? || n.ClassDef? {
      ChildOfClause(n, k);
    } else if n.Call? {
      assert c == n.func || c in n.args || c in n.keywords;
    } else if n.Assign? {
      assert c == n.rhs || c in n.targets;
    }
  }

  /** Number of nodes of a tree: the measure of every recursion below. */
  ghost function Size(n: Ast): (size: nat)
    ensures size > 0
    decreases n, 1, 0
  {
    1 + KidsSize(n, 0)
  }

  ghost function KidsSize(n: Ast, k: nat): nat
    requires k <= |Children(n)|
    decreases n, 0, |Children(n)| - k
  {
    if k == |Children(n)| then 0
    else
      ChildSmaller(n, k);
      Size(Children(n)[k]) + KidsSize(n, k + 1)
  }

  ghost function SizeAll(ns: seq<Ast>): nat {
    if ns == [] then 0 else Size(ns[0]) + SizeAll(ns[1..])
  }

  lemma {:induction false} KidsSizeIsSizeAll(n: Ast, k: nat)
    requires k <= |Children(n)|
    ensures KidsSize(n, k) == SizeAll(Children(n)[k..])
    decreases |Children(n)| - k
  {
    if k < |Children(n)| {
      KidsSizeIsSizeAll(n, k + 1);
      assert Children(n)[k..][1..] == Children(n)[k + 1..];
    }
  }

  lemma SizeUnfolds(n: Ast)
    ensures Size(n) == 1 + SizeAll(Children(n))
  {
    KidsSizeIsSizeAll(n, 0);
    assert Children(n)[0..] == Children(n);
  }

  lemma {:induction false} SizeAllAppend(a: seq<Ast>, b: seq<Ast>)
    ensures SizeAll(a + b) == SizeAll(a) + SizeAll(b)
  {
    if a == [] {
      assert a + b == b;
    } else {
      SizeAllAppend(a[1..], b);
      assert (a + b)[1..] == a[1..] + b;
    }
  }

  lemma {:induction false} SizeOfMember(ns: seq<Ast>, k: nat)
    requires k < |ns|
    ensures Size(ns[k]) <= SizeAll(ns)
  {
    if k > 0 { SizeOfMember(ns[1..], k - 1); }
  }

  lemma SizeOfChild(n: Ast, k: nat)
    requires k < |Children(n)|
    ensures Size(Children(n)[k]) < Size(n)
  {
    SizeUnfolds(n);
    SizeOfMember(Children(n), k);
  }

  /** A stretch of consecutive children is smaller than its parent. */
  lemma SizeOfStretch(n: Ast, before: seq<Ast>, part: seq<Ast>, after: seq<Ast>)
    requires Children(n) == before + part + after
    ensures SizeAll(part) < Size(n)
  {
    SizeUnfolds(n);
    SizeAllAppend(before + part, after);
    SizeAllAppend(before, part);
  }

  /** The bodies of handlers and cases are one level further down. */
  function BodyOf(n: Ast): seq<Ast> {
    match n
    case Handler(_, _, b) => b
    case Case(_, _, _, b) => b
    case _ => []
  }

  function BodiesOf(ns: seq<Ast>): (bodies: seq<seq<Ast>>)
    ensures |bodies| == |ns|
    ensures forall k :: 0 <= k < |ns| ==> bodies[k] == BodyOf(ns[k])
  {
    seq(|ns|, k requires 0 <= k < |ns| => BodyOf(ns[k]))
  }

  /** The statement lists the guard descends into with a copied environment
      (check_refresh_select_execute.py:180-189). */
  function NestedBodies(s: Ast): seq<seq<Ast>> {
    match s
    case If(_, b, o) => [b, o]
    case For(_, _, b, o) => [b, o]
    case While(_, b, o) => [b, o]
    case With(_, b) => [b]
    case Try(b, h, o, f) => [b, o, f] + BodiesOf(h)
    case Match(_, cs) => BodiesOf(cs)
    case _ => []
  }

  lemma SizeOfBodyOf(n: Ast)
    ensures SizeAll(BodyOf(n)) < Size(n)
  {
    match n
    case Handler(k, _, b) => SizeOfStretch(n, Maybe(k), b, []);
    case Case(_, p, g, b) => SizeOfStretch(n, [p] + Maybe(g), b, []);
    case _ =>
  }

  lemma SizeOfTryBody(s: Ast)
    requires s.Try?
    ensures SizeAll(s.body) + SizeAll(s.handlers) + SizeAll(s.orelse) + SizeAll(s.finalbody) < Size(s)
  {
    SizeUnfolds(s);
    SizeAllAppend(s.body + s.handlers + s.orelse, s.finalbody);
    SizeAllAppend(s.body + s.handlers, s.orelse);
    SizeAllAppend(s.body, s.handlers);
  }

  lemma SizeOfBranches(s: Ast)
    requires s.If? || s.For? || s.While? || s.With?
    ensures SizeAll(s.body) < Size(s)
    ensures !s.With? ==> SizeAll(s.orelse) < Size(s)
  {
    SizeUnfolds(s);
    match s
    case If(t, b, o) => SizeAllAppend([t] + b, o); SizeAllAppend([t], b);
    case For(t, i, b, o) => SizeAllAppend([t, i] + b, o); SizeAllAppend([t, i], b);
    case While(t, b, o) => SizeAllAppend([t] + b, o); SizeAllAppend([t], b);
    case With(items, b) => SizeAllAppend(items, b);
  }

  lemma SizeOfHandler(s: Ast, k: nat)
    requires s.Try? && k < |s.handlers|
    ensures SizeAll(BodyOf(s.handlers[k])) < Size(s)
  {
    SizeOfTryBody(s);
    SizeOfBodyOf(s.handlers[k]);
    SizeOfMember(s.handlers, k);
  }

  lemma SizeOfCase(s: Ast, k: nat)
    requires s.Match? && k < |s.cases|
    ensures SizeAll(BodyOf(s.cases[k])) < Size(s)
  {
    SizeOfBodyOf(s.cases[k]);
    assert Children(s)[1 + k] == s.cases[k];
    SizeOfChild(s, 1 + k);
  }

  lemma SizeOfNested(s: Ast, k: nat)
    requires k < |NestedBodies(s)|
    ensures SizeAll(NestedBodies(s)[k]) < Size(s)
  {
    if s.Try? {
      if k >= 3 { SizeOfHandler(s, k - 3); } else { SizeOfTryBody(s); }
    } else if s.Match? {
      SizeOfCase(s, k);
    } else {
      SizeOfBranches(s);
    }
  }

  lemma SizeOfScope(s: Ast)
    requires s.FunctionDef? || s.ClassDef?
    ensures SizeAll(s.body) < Size(s)
  {
    match s
    case FunctionDef(_, p, b, d) => SizeOfStretch(s, [p], b, d);
    case ClassDef(_, bs, b, d) => SizeOfStretch(s, bs, b, d);
  }

  /** `c` is `n` or one of its descendants. */
  ghost predicate InTree(c: Ast, n: Ast)
    decreases n
  {
    || c == n
    || exists k :: 0 <= k < |Children(n)| && (ChildSmaller(n, k); InTree(c, Children(n)[k]))
  }

  /** The calls met by `ast.walk`, breadth first, from a queue of nodes
      (check_refresh_select_execute.py:111-118).  The walk never prunes. */
  function Walk(todo: seq<Ast>): seq<Ast>
    decreases SizeAll(todo)
  {
    if todo == [] then []
    else
      SizeUnfolds(todo[0]);
      SizeAllAppend(todo[1..], Children(todo[0]));
      (if todo[0].Call? then [todo[0]] else []) + Walk(todo[1..] + Children(todo[0]))
  }

  /** `c` is in one of the trees. */
  ghost predicate InSome(c: Ast, ns: seq<Ast>) {
    exists k :: 0 <= k < |ns| && InTree(c, ns[k])
  }

  lemma InSomeAppend(c: Ast, a: seq<Ast>, b: seq<Ast>)
    ensures InSome(c, a + b) <==> InSome(c, a) || InSome(c, b)
  {
    if k :| 0 <= k < |a| && InTree(c, a[k]) { assert (a + b)[k] == a[k]; }
    if k :| 0 <= k < |b| && InTree(c, b[k]) { assert (a + b)[|a| + k] == b[k]; }
    if k :| 0 <= k < |a + b| && InTree(c, (a + b)[k]) {
      if k < |a| { assert InTree(c, a[k]); } else { assert InTree(c, b[k - |a|]); }
    }
  }

  lemma InSomeOne(c: Ast, n: Ast)
    ensures InSome(c, [n]) <==> InTree(c, n)
  {
    if InTree(c, n) { assert InTree(c, [n][0]); }
  }

  lemma InTreeOrKids(c: Ast, n: Ast)
    ensures InTree(c, n) <==> c == n || InSome(c, Children(n))
  {
  }

  /** The walk finds exactly the calls of the trees. */
  lemma {:induction false} WalkFindsExactlyTheCalls(todo: seq<Ast>, c: Ast)
    ensures c in Walk(todo) <==> c.Call? && InSome(c, todo)
    decreases SizeAll(todo)
  {
    if todo != [] {
      var n, rest := todo[0], todo[1..];
      SizeUnfolds(n);
      SizeAllAppend(rest, Children(n));
      WalkFindsExactlyTheCalls(rest + Children(n), c);
      InSomeAppend(c, rest, Children(n));
      InTreeOrKids(c, n);
      InSomeOne(c, n);
      InSomeAppend(c, [n], rest);
      assert [n] + rest == todo;
    }
  }

  lemma {:induction false} InTreeTransitive(a: Ast, b: Ast, c: Ast)
    requires InTree(a, b) && InTree(b, c)
    ensures InTree(a, c)
    decreases c
  {
    if b != c {
      var k :| 0 <= k < |Children(c)| && InTree(b, Children(c)[k]);
      ChildSmaller(c, k);
      InTreeTransitive(a, b, Children(c)[k]);
    }
  }

  lemma ChildInTree(c: Ast, n: Ast, k: nat)
    requires k < |Children(n)| && InTree(c, Children(n)[k])
    ensures InTree(c, n)
  {
  }
}
