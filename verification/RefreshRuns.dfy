/** What a scanned program does when it runs: a store of values, every branch
    choice, every loop count and every early exit possible, over a library of which the
    guard knows only its table of methods. */
module RefreshRuns {
  import opened Common
  import opened RefreshSyntax
  import opened RefreshGuard

  /** `Stale` is a select statement that will not refresh loaded rows, `Fresh`
      one that will (`populate_existing`), `Plain` anything else. */
  datatype Value = Plain | Stale | Fresh

  /** What the guard does not know of the library: the methods that return a query as
      well as those of its table, and whether an attribute of a query may be a query. */
  datatype Library = Library(moreMethods: set<string>, attributes: bool)

  datatype Store = Store(vars: map<string, Value>, lib: Library)

  function Look(st: Store, x: string): Value {
    if x in st.vars then st.vars[x] else Plain
  }

  function Set(st: Store, x: string, v: Value): Store {
    st.(vars := st.vars[x := v])
  }

  function Start(lib: Library): Store { Store(map[], lib) }

  /** The stores agree outside `changed`. */
  ghost predicate Same(st: Store, st': Store, changed: set<string>) {
    st'.lib == st.lib && forall x :: x !in changed ==> Look(st', x) == Look(st, x)
  }

  predicate ReturnsQuery(m: string, lib: Library) {
    m in SELECT_CHAIN_METHODS || m in lib.moreMethods
  }

  predicate MentionsPopulateExisting(kw: Ast) {
    kw.Keyword? && (kw.arg == Some("populate_existing") || kw.arg == None)
  }

  /** A chained method on a value.  An option other than the literal `True`, or an
      unpacked option dictionary, may switch the refresh on or off. */
  function ChainValues(m: string, kws: seq<Ast>, v: Value, lib: Library): set<Value> {
    if v == Plain || !ReturnsQuery(m, lib) then {Plain}
    else if m != "execution_options" then {v}
    else if exists kw :: kw in kws && SetsPopulateExisting(kw) then {Fresh}
    else if exists kw :: kw in kws && MentionsPopulateExisting(kw) then {Stale, Fresh}
    else {v}
  }

  function RefreshedValues(vs: set<Value>): set<Value> {
    set v | v in vs :: if v == Plain then Plain else Fresh
  }

  /** The values an expression can have in a store. */
  function Values(e: Ast, st: Store): set<Value> {
    match e
    case Name(x) => {Look(st, x)}
    case Attribute(v, _) => if st.lib.attributes then Values(v, st) + {Plain} else {Plain}
    case Call(Name(f), args, _, _) =>
      if f == REFRESH then (if args == [] then {Plain} else RefreshedValues(Values(args[0], st)))
      else if f == "select" then {Stale}
      else {Plain}
    case Call(Attribute(b, m), args, kws, _) =>
      if m == REFRESH_METHOD then (if args == [] then {Plain} else RefreshedValues(Values(args[0], st)))
      else set v, w | v in Values(b, st) && w in ChainValues(m, kws, v, st.lib) :: w
    case _ => {Plain}
  }

  // ----- the names a statement may bind -----

  function TargetNames(t: Ast): set<string> {
    match t
    case Name(x) => {x}
    case Pack(elts) => TargetsNames(elts)
    case _ => {}
  }

  function TargetsNames(ts: seq<Ast>): set<string> {
    if ts == [] then {} else TargetNames(ts[0]) + TargetsNames(ts[1..])
  }

  function PlainTargets(ts: seq<Ast>): set<string> {
    if ts == [] then {} else (if ts[0].Name? then {ts[0].id} else {}) + PlainTargets(ts[1..])
  }

  /** Names bound by unpacking, which the guard does not track. */
  function UnpackedTargets(ts: seq<Ast>): set<string> {
    if ts == [] then {} else (if ts[0].Name? then {} else TargetNames(ts[0])) + UnpackedTargets(ts[1..])
  }

  function Alias(h: Ast): set<string> {
    if h.Handler? && h.alias.Some? then {h.alias.value} else {}
  }

  function Captures(cases: seq<Ast>): set<string> {
    if cases == [] then {} else (if cases[0].Case? then cases[0].captures else {}) + Captures(cases[1..])
  }

  function LoopNames(s: Ast): set<string> {
    if s.For? then TargetNames(s.target) else {}
  }

  function Assigned(s: Ast): set<string> {
    match s
    case Assign(ts, _) => TargetsNames(ts)
    case AnnAssign(Name(x), _, _) => {x}
    case AugAssign(Name(x), _) => {x}
    case Import(names) => names
    case If(_, b, o) => AssignedAll(b) + AssignedAll(o)
    case For(t, _, b, o) => TargetNames(t) + AssignedAll(b) + AssignedAll(o)
    case While(_, b, o) => AssignedAll(b) + AssignedAll(o)
    case With(items, b) => AssignedAll(items) + AssignedAll(b)
    case WithItem(_, Some(t)) => TargetNames(t)
    case Try(b, h, o, f) => AssignedAll(b) + AssignedAll(h) + AssignedAll(o) + AssignedAll(f)
    case Handler(_, _, b) => Alias(s) + AssignedAll(b)
    case Match(_, cs) => Captures(cs) + AssignedAll(cs)
    case Case(_, _, _, b) => AssignedAll(b)
    case FunctionDef(n, _, _, _) => {n}
    case ClassDef(n, _, _, _) => {n}
    case _ => {}
  }

  function AssignedAll(ns: seq<Ast>): set<string> {
    if ns == [] then {} else Assigned(ns[0]) + AssignedAll(ns[1..])
  }

  lemma {:induction false} AssignedMember(ns: seq<Ast>, k: nat)
    requires k < |ns|
    ensures Assigned(ns[k]) <= AssignedAll(ns)
  {
    if k > 0 { AssignedMember(ns[1..], k - 1); }
  }

  // ----- runs -----

  /** `Abrupt` is every exit other than falling through: an exception, `return`,
      `break` or `continue`. */
  datatype Exit = Normal | Abrupt

  ghost predicate Stored(ts: seq<Ast>, v: Value, st: Store, st': Store) {
    && Same(st, st', TargetsNames(ts))
    && forall x :: x in PlainTargets(ts) && x !in UnpackedTargets(ts) ==> Look(st', x) == v
  }

  predicate IsLoop(s: Ast) { s.For? || s.While? }

  /** Some run of `s` from `st` leaves it by `x` with store `st'`. */
  ghost predicate Ends(s: Ast, st: Store, x: Exit, st': Store)
    decreases Size(s), 3, 0
  {
    || (x == Abrupt && st' == st)
    || match s
       case Assign(ts, e) => x == Normal && exists v :: v in Values(e, st) && Stored(ts, v, st, st')
       case AnnAssign(Name(y), _, Some(e)) =>
         x == Normal && Same(st, st', {y}) && Look(st', y) in Values(e, st)
       case AugAssign(Name(y), _) => x == Normal && Same(st, st', {y}) && Look(st', y) == Plain
       case Import(names) => x == Normal && Same(st, st', names)
       case If(_, b, o) =>
         SizeOfNested(s, 0); SizeOfNested(s, 1);
         EndsAll(b, st, x, st') || EndsAll(o, st, x, st')
       case For(_, _, _, o) =>
         SizeOfNested(s, 1);
         exists n: nat, m :: LoopHead(s, n, st, m) && (st' == m || EndsAll(o, m, x, st'))
       case While(_, _, o) =>
         SizeOfNested(s, 1);
         exists n: nat, m :: LoopHead(s, n, st, m) && (st' == m || EndsAll(o, m, x, st'))
       case With(items, b) =>
         SizeOfNested(s, 0);
         exists m, y :: Same(st, m, AssignedAll(items)) && EndsAll(b, m, y, st') && (x == y || x == Normal)
       case Try(b, h, o, f) =>
         SizeOfNested(s, 0); SizeOfNested(s, 2);
         exists y, m, z, m', w ::
           && EndsAll(b, st, y, m) && Handled(s, y, m, z, m') && EndsAll(f, m', w, st')
           && x == if w == Abrupt then Abrupt else z
       case Match(_, cs) =>
         exists m :: Same(st, m, Captures(cs)) && (
           || (x == Normal && st' == m)
           || exists k :: 0 <= k < |cs| && (SizeOfNested(s, k); EndsAll(BodyOf(cs[k]), m, x, st')))
       case FunctionDef(n, _, _, _) => x == Normal && Same(st, st', {n}) && Look(st', n) == Plain
       case ClassDef(n, _, _, _) => x == Normal && Same(st, st', {n}) && Look(st', n) == Plain
       case _ => x == Normal && st' == st
  }

  /** After a try body left by `y`: its else, one handler, or the exception goes on. */
  ghost predicate Handled(s: Ast, y: Exit, m: Store, z: Exit, m': Store)
    requires s.Try?
    decreases Size(s), 1, 0
  {
    SizeOfNested(s, 1);
    if y == Normal then EndsAll(s.orelse, m, z, m')
    else
      || (z == Abrupt && m' == m)
      || exists k, a :: 0 <= k < |s.handlers| && Same(m, a, Alias(s.handlers[k]))
           && (SizeOfNested(s, 3 + k); EndsAll(BodyOf(s.handlers[k]), a, z, m'))
  }

  /** `m` is a store at the head of loop `s` after `n` iterations. */
  ghost predicate LoopHead(s: Ast, n: nat, st: Store, m: Store)
    requires IsLoop(s)
    decreases Size(s), 1, n
  {
    SizeOfNested(s, 0);
    if n == 0 then m == st
    else exists h, a, y :: LoopHead(s, n - 1, st, h) && Same(h, a, LoopNames(s)) && EndsAll(s.body, a, y, m)
  }

  ghost predicate EndsAll(body: seq<Ast>, st: Store, x: Exit, st': Store)
    decreases SizeAll(body), 4, 0
  {
    if body == [] then x == Normal && st' == st
    else
      || (x == Abrupt && Ends(body[0], st, Abrupt, st'))
      || exists m :: Ends(body[0], st, Normal, m) && EndsAll(body[1..], m, x, st')
  }

  /** The expressions a scope evaluates where it is defined. */
  function ScopeHeader(s: Ast): seq<Ast> {
    match s
    case FunctionDef(_, p, _, d) => [p] + d
    case ClassDef(_, bs, _, d) => bs + d
    case _ => []
  }

  function ClauseHeader(n: Ast): seq<Ast> {
    match n
    case Handler(k, _, _) => Maybe(k)
    case Case(_, p, g, _) => [p] + Maybe(g)
    case _ => []
  }

  function LoopTest(s: Ast): Ast
    requires IsLoop(s)
  {
    match s case For(t, _, _, _) => t case While(t, _, _) => t
  }

  /** Some run of `s` from `st` evaluates the call `c` while the store is `at`.
      A function body runs when it is called, from whatever store. */
  ghost predicate Executes(s: Ast, st: Store, c: Ast, at: Store)
    decreases Size(s), 3, 0
  {
    match s
    case If(t, b, o) =>
      SizeOfNested(s, 0); SizeOfNested(s, 1);
      (InTree(c, t) && at == st) || ExecutesAll(b, st, c, at) || ExecutesAll(o, st, c, at)
    case For(_, i, _, _) =>
      (InTree(c, i) && at == st) || exists n: nat, m :: LoopHead(s, n, st, m) && LoopExecutes(s, m, c, at)
    case While(_, _, _) => exists n: nat, m :: LoopHead(s, n, st, m) && LoopExecutes(s, m, c, at)
    case With(items, b) =>
      SizeOfNested(s, 0);
      exists m :: Same(st, m, AssignedAll(items)) && ((InSome(c, items) && at == m) || ExecutesAll(b, m, c, at))
    case Try(b, _, _, _) =>
      SizeOfNested(s, 0);
      || ExecutesAll(b, st, c, at)
      || exists y, m :: EndsAll(b, st, y, m) && AfterTryExecutes(s, y, m, c, at)
    case Match(sub, cs) =>
      || (InTree(c, sub) && at == st)
      || exists m, k :: Same(st, m, Captures(cs)) && 0 <= k < |cs|
           && ((InSome(c, ClauseHeader(cs[k])) && at == m) || (SizeOfNested(s, k); ExecutesAll(BodyOf(cs[k]), m, c, at)))
    case FunctionDef(_, _, b, _) =>
      SizeOfScope(s);
      (InSome(c, ScopeHeader(s)) && at == st) || exists st0: Store :: st0.lib == st.lib && ExecutesAll(b, st0, c, at)
    case ClassDef(_, _, b, _) =>
      SizeOfScope(s);
      (InSome(c, ScopeHeader(s)) && at == st) || ExecutesAll(b, st, c, at)
    case _ => InTree(c, s) && at == st
  }

  ghost predicate LoopExecutes(s: Ast, m: Store, c: Ast, at: Store)
    requires IsLoop(s)
    decreases Size(s), 1, 0
  {
    SizeOfNested(s, 0); SizeOfNested(s, 1);
    || (InTree(c, LoopTest(s)) && at == m)
    || ExecutesAll(s.orelse, m, c, at)
    || exists a :: Same(m, a, LoopNames(s)) && ExecutesAll(s.body, a, c, at)
  }

  ghost predicate AfterTryExecutes(s: Ast, y: Exit, m: Store, c: Ast, at: Store)
    requires s.Try?
    decreases Size(s), 1, 0
  {
    SizeOfNested(s, 1); SizeOfNested(s, 2);
    || ExecutesAll(s.orelse, m, c, at)
    || (exists k, a :: 0 <= k < |s.handlers| && Same(m, a, Alias(s.handlers[k]))
         && ((InSome(c, ClauseHeader(s.handlers[k])) && at == m)
             || (SizeOfNested(s, 3 + k); ExecutesAll(BodyOf(s.handlers[k]), a, c, at))))
    || exists z, m' :: Handled(s, y, m, z, m') && ExecutesAll(s.finalbody, m', c, at)
  }

  ghost predicate ExecutesAll(body: seq<Ast>, st: Store, c: Ast, at: Store)
    decreases SizeAll(body), 4, 0
  {
    body != [] && (
      || Executes(body[0], st, c, at)
      || exists m :: Ends(body[0], st, Normal, m) && ExecutesAll(body[1..], m, c, at))
  }

  /** A run hands a stale select to the `execute` call `c`. */
  ghost predicate ExecutesStale(body: seq<Ast>, st: Store, c: Ast) {
    IsExecute(c) && exists at :: ExecutesAll(body, st, c, at) && Stale in Values(c.args[0], at)
  }

  /** A clause's own expressions lie two levels below the statement. */
  lemma ClauseInTree(c: Ast, n: Ast, s: Ast, j: nat)
    requires InSome(c, ClauseHeader(n)) && j < |Children(s)| && Children(s)[j] == n
    ensures InTree(c, s)
  {
    var k :| 0 <= k < |ClauseHeader(n)| && InTree(c, ClauseHeader(n)[k]);
    assert Children(n)[k] == ClauseHeader(n)[k];
    ChildInTree(c, n, k);
    ChildInTree(c, s, j);
  }
}
