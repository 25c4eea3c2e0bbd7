/** The text of any program decides which `execute` calls some run hands a stale select.
    An expression hangs on one name, so a run can be followed backwards and forwards by
    one fact at a time, a name with a value: the runs of `RefreshRuns` over stores have
    a counterpart over facts, in which nothing but the program text is left. */
module RefreshFacts {
  import opened Common
  import opened RefreshSyntax
  import opened RefreshGuard
  import opened RefreshRuns
  import opened RefreshSoundness
  import opened RefreshExactness

  datatype Fact = Fact(name: string, value: Value)

  predicate Held(p: Fact, st: Store) { Look(st, p.name) == p.value }

  /** What a store says about a name. */
  function Here(x: string, st: Store): Fact { Fact(x, Look(st, x)) }

  // ----- expressions -----

  /** Where the fact holds, `w` is a value of the expression. */
  predicate Yields(e: Ast, p: Fact, w: Value, lib: Library) {
    && (Root(e).Some? ==> Root(e).value == p.name)
    && w in Values(e, Set(Start(lib), p.name, p.value))
  }

  lemma {:induction false} OneNameDecides(e: Ast, st: Store, st': Store)
    requires st.lib == st'.lib && (Root(e).Some? ==> Look(st, Root(e).value) == Look(st', Root(e).value))
    ensures Values(e, st) == Values(e, st')
  {
    match e
    case Attribute(v, _) => OneNameDecides(v, st, st');
    case Call(f, args, _, _) =>
      if IsRefreshCall(e) {
        if args != [] { OneNameDecides(args[0], st, st'); }
      } else if f.Attribute? {
        OneNameDecides(f.value, st, st');
      }
    case _ =>
  }

  /** The fact of a store that decides the expression. */
  function RootFact(e: Ast, st: Store): Fact {
    Here(if Root(e).Some? then Root(e).value else "", st)
  }

  lemma ValueYields(e: Ast, st: Store, w: Value)
    requires w in Values(e, st)
    ensures Held(RootFact(e, st), st) && Yields(e, RootFact(e, st), w, st.lib)
  {
    var p := RootFact(e, st);
    OneNameDecides(e, st, Set(Start(st.lib), p.name, p.value));
  }

  lemma YieldsValue(e: Ast, p: Fact, w: Value, st: Store)
    requires Yields(e, p, w, st.lib) && Held(p, st)
    ensures w in Values(e, st)
  {
    OneNameDecides(e, st, Set(Start(st.lib), p.name, p.value));
  }

  // ----- statements -----

  /** The names may take any value, the others keep theirs. */
  predicate Moves(p: Fact, q: Fact, names: set<string>) { q.name in names || q == p }

  /** One name takes values of its own. */
  predicate Sets(p: Fact, q: Fact, x: string, own: bool) { if q.name == x then own else q == p }

  /** From a store where `p` holds, `s` can be left by `x` with `q` holding. */
  ghost predicate Leads(s: Ast, p: Fact, x: Exit, q: Fact, lib: Library)
    decreases Size(s), 3, 0
  {
    || (x == Abrupt && q == p)
    || match s
       case Assign(ts, e) =>
         x == Normal &&
         if q.name in UnpackedTargets(ts) then true
         else if q.name in PlainTargets(ts) then Yields(e, p, q.value, lib)
         else q == p
       case AnnAssign(Name(y), _, Some(e)) => x == Normal && Sets(p, q, y, Yields(e, p, q.value, lib))
       case AugAssign(Name(y), _) => x == Normal && Sets(p, q, y, q.value == Plain)
       case Import(names) => x == Normal && Moves(p, q, names)
       case If(_, b, o) =>
         SizeOfNested(s, 0); SizeOfNested(s, 1);
         LeadsAll(b, p, x, q, lib) || LeadsAll(o, p, x, q, lib)
       case For(_, _, _, o) =>
         SizeOfNested(s, 1);
         exists n: nat, m :: HeadLeads(s, n, p, m, lib) && (q == m || LeadsAll(o, m, x, q, lib))
       case While(_, _, o) =>
         SizeOfNested(s, 1);
         exists n: nat, m :: HeadLeads(s, n, p, m, lib) && (q == m || LeadsAll(o, m, x, q, lib))
       case With(items, b) =>
         SizeOfNested(s, 0);
         exists m, y :: Moves(p, m, AssignedAll(items)) && LeadsAll(b, m, y, q, lib) && (x == y || x == Normal)
       case Try(b, h, o, f) =>
         SizeOfNested(s, 0); SizeOfNested(s, 2);
         exists y, m, z, m', w ::
           && LeadsAll(b, p, y, m, lib) && HandledLeads(s, y, m, z, m', lib) && LeadsAll(f, m', w, q, lib)
           && x == if w == Abrupt then Abrupt else z
       case Match(_, cs) =>
         exists m :: Moves(p, m, Captures(cs)) && (
           || (x == Normal && q == m)
           || exists k :: 0 <= k < |cs| && (SizeOfNested(s, k); LeadsAll(BodyOf(cs[k]), m, x, q, lib)))
       case FunctionDef(n, _, _, _) => x == Normal && Sets(p, q, n, q.value == Plain)
       case ClassDef(n, _, _, _) => x == Normal && Sets(p, q, n, q.value == Plain)
       case _ => x == Normal && q == p
  }

  ghost predicate HandledLeads(s: Ast, y: Exit, m: Fact, z: Exit, m': Fact, lib: Library)
    requires s.Try?
    decreases Size(s), 1, 0
  {
    SizeOfNested(s, 1);
    if y == Normal then LeadsAll(s.orelse, m, z, m', lib)
    else
      || (z == Abrupt && m' == m)
      || exists k, a :: 0 <= k < |s.handlers| && Moves(m, a, Alias(s.handlers[k]))
           && (SizeOfNested(s, 3 + k); LeadsAll(BodyOf(s.handlers[k]), a, z, m', lib))
  }

  /** Reachability over the facts by turns of the loop. */
  ghost predicate HeadLeads(s: Ast, n: nat, p: Fact, m: Fact, lib: Library)
    requires IsLoop(s)
    decreases Size(s), 1, n
  {
    SizeOfNested(s, 0);
    if n == 0 then m == p
    else exists h, a, y :: HeadLeads(s, n - 1, p, h, lib) && Moves(h, a, LoopNames(s)) && LeadsAll(s.body, a, y, m, lib)
  }

  ghost predicate LeadsAll(body: seq<Ast>, p: Fact, x: Exit, q: Fact, lib: Library)
    decreases SizeAll(body), 4, 0
  {
    if body == [] then x == Normal && q == p
    else
      || (x == Abrupt && Leads(body[0], p, Abrupt, q, lib))
      || exists m :: Leads(body[0], p, Normal, m, lib) && LeadsAll(body[1..], m, x, q, lib)
  }

  lemma TurnLeads(s: Ast, n: nat, p: Fact, h: Fact, a: Fact, y: Exit, q: Fact, lib: Library)
    requires IsLoop(s) && n > 0 && HeadLeads(s, n - 1, p, h, lib)
    requires Moves(h, a, LoopNames(s)) && LeadsAll(s.body, a, y, q, lib)
    ensures HeadLeads(s, n, p, q, lib)
  {
  }

  lemma HandlerLeads(s: Ast, k: nat, p: Fact, a: Fact, z: Exit, q: Fact, lib: Library)
    requires s.Try? && k < |s.handlers|
    requires Moves(p, a, Alias(s.handlers[k])) && LeadsAll(BodyOf(s.handlers[k]), a, z, q, lib)
    ensures HandledLeads(s, Abrupt, p, z, q, lib)
  {
  }

  // ----- what holds after a run comes from one fact before it -----

  function MovedFrom(q: Fact, st: Store, names: set<string>): Fact {
    if q.name in names then Here(q.name, st) else q
  }

  lemma MovesBack(st: Store, m: Store, names: set<string>, q: Fact)
    requires Same(st, m, names) && Held(q, m)
    ensures Held(MovedFrom(q, st, names), st) && Moves(MovedFrom(q, st, names), q, names)
  {
  }

  lemma {:induction false} AssignBack(s: Ast, st: Store, st': Store, q: Fact) returns (p: Fact)
    requires (s.Assign? || s.AnnAssign? || s.AugAssign? || s.Import?) && Ends(s, st, Normal, st') && Held(q, st')
    ensures Held(p, st) && Leads(s, p, Normal, q, st.lib)
  {
    p := Here(q.name, st);
    if s.Assign? {
      var v :| v in Values(s.rhs, st) && Stored(s.targets, v, st, st');
      TargetsSplit(s.targets);
      if q.name in PlainTargets(s.targets) && q.name !in UnpackedTargets(s.targets) {
        p := RootFact(s.rhs, st);
        ValueYields(s.rhs, st, v);
      }
    } else if s.AnnAssign? && s.target == Name(q.name) && s.init.Some? {
      p := RootFact(s.init.value, st);
      ValueYields(s.init.value, st, q.value);
    }
  }

  lemma {:induction false} EndsBack(s: Ast, st: Store, x: Exit, st': Store, q: Fact) returns (p: Fact)
    requires Ends(s, st, x, st') && Held(q, st')
    ensures Held(p, st) && Leads(s, p, x, q, st.lib) && st'.lib == st.lib
    decreases Size(s), 3, 0
  {
    EndsFrame(s, st, x, st');
    p := Here(q.name, st);
    if !(x == Abrupt && st' == st) {
      if s.Assign? || s.AnnAssign? || s.AugAssign? || s.Import? {
        p := AssignBack(s, st, st', q);
      } else if s.If? {
        SizeOfNested(s, 0); SizeOfNested(s, 1);
        if EndsAll(s.body, st, x, st') { p := EndsAllBack(s.body, st, x, st', q); }
        else { p := EndsAllBack(s.orelse, st, x, st', q); }
      } else if IsLoop(s) {
        p := LoopBack(s, st, x, st', q);
      } else if s.With? {
        p := WithBack(s, st, x, st', q);
      } else if s.Try? {
        p := TryBack(s, st, x, st', q);
      } else if s.Match? {
        p := MatchBack(s, st, x, st', q);
      }
    }
  }

  lemma {:induction false} LoopBack(s: Ast, st: Store, x: Exit, st': Store, q: Fact) returns (p: Fact)
    requires IsLoop(s) && Ends(s, st, x, st') && !(x == Abrupt && st' == st) && Held(q, st')
    ensures Held(p, st) && Leads(s, p, x, q, st.lib)
    decreases Size(s), 2, 0
  {
    var n: nat, m :| LoopHead(s, n, st, m) && (st' == m || EndsAll(s.orelse, m, x, st'));
    LoopHeadFrame(s, n, st, m);
    var h := q;
    if st' != m {
      SizeOfNested(s, 1);
      h := EndsAllBack(s.orelse, m, x, st', q);
    }
    p := LoopHeadBack(s, n, st, m, h);
  }

  lemma {:induction false} LoopHeadBack(s: Ast, n: nat, st: Store, m: Store, q: Fact) returns (p: Fact)
    requires IsLoop(s) && LoopHead(s, n, st, m) && Held(q, m)
    ensures Held(p, st) && HeadLeads(s, n, p, q, st.lib) && m.lib == st.lib
    decreases Size(s), 1, n
  {
    if n == 0 {
      p := q;
    } else {
      var h, a, y :| LoopHead(s, n - 1, st, h) && Same(h, a, LoopNames(s)) && EndsAll(s.body, a, y, m);
      var g, r := TurnBack(s, h, a, y, m, q);
      p := LoopHeadBack(s, n - 1, st, h, g);
      TurnLeads(s, n, p, g, r, y, q, st.lib);
    }
  }

  lemma {:induction false} TurnBack(s: Ast, h: Store, a: Store, y: Exit, m: Store, q: Fact) returns (g: Fact, r: Fact)
    requires IsLoop(s) && Same(h, a, LoopNames(s)) && EndsAll(s.body, a, y, m) && Held(q, m)
    ensures Held(g, h) && Moves(g, r, LoopNames(s)) && LeadsAll(s.body, r, y, q, h.lib) && m.lib == h.lib
    decreases Size(s), 0, 0
  {
    SizeOfNested(s, 0);
    r := EndsAllBack(s.body, a, y, m, q);
    MovesBack(h, a, LoopNames(s), r);
    g := MovedFrom(r, h, LoopNames(s));
  }

  lemma {:induction false} WithBack(s: Ast, st: Store, x: Exit, st': Store, q: Fact) returns (p: Fact)
    requires s.With? && Ends(s, st, x, st') && !(x == Abrupt && st' == st) && Held(q, st')
    ensures Held(p, st) && Leads(s, p, x, q, st.lib)
    decreases Size(s), 2, 0
  {
    SizeOfNested(s, 0);
    var m, y :| Same(st, m, AssignedAll(s.items)) && EndsAll(s.body, m, y, st') && (x == y || x == Normal);
    var r := EndsAllBack(s.body, m, y, st', q);
    MovesBack(st, m, AssignedAll(s.items), r);
    p := MovedFrom(r, st, AssignedAll(s.items));
  }

  lemma {:induction false} TryBack(s: Ast, st: Store, x: Exit, st': Store, q: Fact) returns (p: Fact)
    requires s.Try? && Ends(s, st, x, st') && !(x == Abrupt && st' == st) && Held(q, st')
    ensures Held(p, st) && Leads(s, p, x, q, st.lib)
    decreases Size(s), 2, 0
  {
    SizeOfNested(s, 0); SizeOfNested(s, 2);
    var y, m, z, m', w :| EndsAll(s.body, st, y, m) && Handled(s, y, m, z, m') && EndsAll(s.finalbody, m', w, st')
                          && x == if w == Abrupt then Abrupt else z;
    var r' := EndsAllBack(s.finalbody, m', w, st', q);
    var r := HandledBack(s, y, m, z, m', r');
    p := EndsAllBack(s.body, st, y, m, r);
  }

  lemma {:induction false} HandledBack(s: Ast, y: Exit, m: Store, z: Exit, m': Store, q: Fact) returns (p: Fact)
    requires s.Try? && Handled(s, y, m, z, m') && Held(q, m')
    ensures Held(p, m) && HandledLeads(s, y, p, z, q, m.lib) && m'.lib == m.lib
    decreases Size(s), 1, 0
  {
    SizeOfNested(s, 1);
    if y == Normal {
      p := EndsAllBack(s.orelse, m, z, m', q);
    } else if z == Abrupt && m' == m {
      p := q;
    } else {
      var k, a :| 0 <= k < |s.handlers| && Same(m, a, Alias(s.handlers[k])) && EndsAll(BodyOf(s.handlers[k]), a, z, m');
      p := HandlerEndsBack(s, k, m, a, z, m', q);
    }
  }

  lemma {:induction false} HandlerEndsBack(s: Ast, k: nat, m: Store, a: Store, z: Exit, m': Store, q: Fact) returns (p: Fact)
    requires s.Try? && k < |s.handlers| && Same(m, a, Alias(s.handlers[k]))
    requires EndsAll(BodyOf(s.handlers[k]), a, z, m') && Held(q, m')
    ensures Held(p, m) && HandledLeads(s, Abrupt, p, z, q, m.lib) && m'.lib == m.lib
    decreases Size(s), 0, 0
  {
    SizeOfHandler(s, k);
    var r := EndsAllBack(BodyOf(s.handlers[k]), a, z, m', q);
    MovesBack(m, a, Alias(s.handlers[k]), r);
    p := MovedFrom(r, m, Alias(s.handlers[k]));
    HandlerLeads(s, k, p, r, z, q, m.lib);
  }

  lemma {:induction false} MatchBack(s: Ast, st: Store, x: Exit, st': Store, q: Fact) returns (p: Fact)
    requires s.Match? && Ends(s, st, x, st') && !(x == Abrupt && st' == st) && Held(q, st')
    ensures Held(p, st) && Leads(s, p, x, q, st.lib)
    decreases Size(s), 2, 0
  {
    var cs := s.cases;
    var m :| Same(st, m, Captures(cs)) && (
      || (x == Normal && st' == m)
      || exists k :: 0 <= k < |cs| && EndsAll(BodyOf(cs[k]), m, x, st'));
    var r := q;
    if !(x == Normal && st' == m) {
      var k :| 0 <= k < |cs| && EndsAll(BodyOf(cs[k]), m, x, st');
      SizeOfNested(s, k);
      r := EndsAllBack(BodyOf(cs[k]), m, x, st', q);
    }
    MovesBack(st, m, Captures(cs), r);
    p := MovedFrom(r, st, Captures(cs));
  }

  lemma {:induction false} EndsAllBack(body: seq<Ast>, st: Store, x: Exit, st': Store, q: Fact) returns (p: Fact)
    requires EndsAll(body, st, x, st') && Held(q, st')
    ensures Held(p, st) && LeadsAll(body, p, x, q, st.lib) && st'.lib == st.lib
    decreases SizeAll(body), 4, 0
  {
    if body == [] {
      p := q;
    } else if x == Abrupt && Ends(body[0], st, Abrupt, st') {
      p := EndsBack(body[0], st, Abrupt, st', q);
    } else {
      var m :| Ends(body[0], st, Normal, m) && EndsAll(body[1..], m, x, st');
      var r := EndsAllBack(body[1..], m, x, st', q);
      p := EndsBack(body[0], st, Normal, m, r);
    }
  }

  // ----- a path of facts is a run -----

  lemma MovesForth(p: Fact, q: Fact, names: set<string>, st: Store) returns (m: Store)
    requires Moves(p, q, names) && Held(p, st)
    ensures Same(st, m, names) && Held(q, m)
  {
    m := Set(st, q.name, q.value);
  }

  lemma {:induction false} AssignForth(s: Ast, p: Fact, q: Fact, st: Store) returns (st': Store)
    requires s.Assign? && Leads(s, p, Normal, q, st.lib) && Held(p, st)
    ensures Ends(s, st, Normal, st') && Held(q, st') && st'.lib == st.lib
  {
    var ts := s.targets;
    TargetsSplit(ts);
    var v := SomeValue(s.rhs, st);
    if q.name in PlainTargets(ts) && q.name !in UnpackedTargets(ts) {
      YieldsValue(s.rhs, p, q.value, st);
      v := q.value;
    }
    st' := BindStore(PlainTargets(ts), v, st);
    if q.name in UnpackedTargets(ts) { st' := Set(st', q.name, q.value); }
    assert Stored(ts, v, st, st');
  }

  lemma {:induction false} SimpleForth(s: Ast, p: Fact, q: Fact, st: Store) returns (st': Store)
    requires !s.Assign? && !s.If? && !IsLoop(s) && !s.With? && !s.Try? && !s.Match?
    requires Leads(s, p, Normal, q, st.lib) && Held(p, st)
    ensures Ends(s, st, Normal, st') && Held(q, st') && st'.lib == st.lib
  {
    if s.AnnAssign? && s.target.Name? && s.init.Some? {
      var v := SomeValue(s.init.value, st);
      if q.name == s.target.id {
        YieldsValue(s.init.value, p, q.value, st);
        v := q.value;
      }
      st' := Set(st, s.target.id, v);
    } else if s.AugAssign? && s.target.Name? {
      st' := Set(st, s.target.id, Plain);
    } else if IsScope(s) {
      st' := Set(st, s.name, Plain);
    } else if s.Import? {
      st' := MovesForth(p, q, s.names, st);
    } else {
      st' := st;
    }
  }

  lemma {:induction false} EndsForth(s: Ast, p: Fact, x: Exit, q: Fact, st: Store) returns (st': Store)
    requires Leads(s, p, x, q, st.lib) && Held(p, st)
    ensures Ends(s, st, x, st') && Held(q, st') && st'.lib == st.lib
    decreases Size(s), 3, 0
  {
    if x == Abrupt && q == p {
      st' := st;
    } else if s.Assign? {
      st' := AssignForth(s, p, q, st);
    } else if s.If? {
      SizeOfNested(s, 0); SizeOfNested(s, 1);
      if LeadsAll(s.body, p, x, q, st.lib) { st' := EndsAllForth(s.body, p, x, q, st); }
      else { st' := EndsAllForth(s.orelse, p, x, q, st); }
    } else if IsLoop(s) {
      st' := LoopForth(s, p, x, q, st);
    } else if s.With? {
      SizeOfNested(s, 0);
      var r, y :| Moves(p, r, AssignedAll(s.items)) && LeadsAll(s.body, r, y, q, st.lib) && (x == y || x == Normal);
      var m := MovesForth(p, r, AssignedAll(s.items), st);
      st' := EndsAllForth(s.body, r, y, q, m);
    } else if s.Try? {
      st' := TryForth(s, p, x, q, st);
    } else if s.Match? {
      st' := MatchForth(s, p, x, q, st);
    } else {
      st' := SimpleForth(s, p, q, st);
    }
  }

  lemma {:induction false} LoopForth(s: Ast, p: Fact, x: Exit, q: Fact, st: Store) returns (st': Store)
    requires IsLoop(s) && Leads(s, p, x, q, st.lib) && !(x == Abrupt && q == p) && Held(p, st)
    ensures Ends(s, st, x, st') && Held(q, st') && st'.lib == st.lib
    decreases Size(s), 2, 0
  {
    var n: nat, r :| HeadLeads(s, n, p, r, st.lib) && (q == r || LeadsAll(s.orelse, r, x, q, st.lib));
    var m := LoopHeadForth(s, n, p, r, st);
    if q == r {
      st' := m;
    } else {
      SizeOfNested(s, 1);
      st' := EndsAllForth(s.orelse, r, x, q, m);
    }
  }

  lemma {:induction false} LoopHeadForth(s: Ast, n: nat, p: Fact, q: Fact, st: Store) returns (m: Store)
    requires IsLoop(s) && HeadLeads(s, n, p, q, st.lib) && Held(p, st)
    ensures LoopHead(s, n, st, m) && Held(q, m) && m.lib == st.lib
    decreases Size(s), 1, n
  {
    if n == 0 {
      m := st;
    } else {
      var f, g, y :| HeadLeads(s, n - 1, p, f, st.lib) && Moves(f, g, LoopNames(s)) && LeadsAll(s.body, g, y, q, st.lib);
      var h := LoopHeadForth(s, n - 1, p, f, st);
      var a := MovesForth(f, g, LoopNames(s), h);
      SizeOfNested(s, 0);
      m := EndsAllForth(s.body, g, y, q, a);
    }
  }

  lemma {:induction false} TryForth(s: Ast, p: Fact, x: Exit, q: Fact, st: Store) returns (st': Store)
    requires s.Try? && Leads(s, p, x, q, st.lib) && !(x == Abrupt && q == p) && Held(p, st)
    ensures Ends(s, st, x, st') && Held(q, st') && st'.lib == st.lib
    decreases Size(s), 2, 0
  {
    SizeOfNested(s, 0); SizeOfNested(s, 2);
    var y, r, z, r', w :| LeadsAll(s.body, p, y, r, st.lib) && HandledLeads(s, y, r, z, r', st.lib)
                          && LeadsAll(s.finalbody, r', w, q, st.lib) && x == if w == Abrupt then Abrupt else z;
    var m := EndsAllForth(s.body, p, y, r, st);
    var m' := HandledForth(s, y, r, z, r', m);
    st' := EndsAllForth(s.finalbody, r', w, q, m');
  }

  lemma {:induction false} HandledForth(s: Ast, y: Exit, p: Fact, z: Exit, q: Fact, m: Store) returns (m': Store)
    requires s.Try? && HandledLeads(s, y, p, z, q, m.lib) && Held(p, m)
    ensures Handled(s, y, m, z, m') && Held(q, m') && m'.lib == m.lib
    decreases Size(s), 1, 0
  {
    SizeOfNested(s, 1);
    if y == Normal {
      m' := EndsAllForth(s.orelse, p, z, q, m);
    } else if z == Abrupt && q == p {
      m' := m;
    } else {
      var k, r :| 0 <= k < |s.handlers| && Moves(p, r, Alias(s.handlers[k]))
                  && LeadsAll(BodyOf(s.handlers[k]), r, z, q, m.lib);
      SizeOfNested(s, 3 + k);
      var a := MovesForth(p, r, Alias(s.handlers[k]), m);
      m' := EndsAllForth(BodyOf(s.handlers[k]), r, z, q, a);
    }
  }

  lemma {:induction false} MatchForth(s: Ast, p: Fact, x: Exit, q: Fact, st: Store) returns (st': Store)
    requires s.Match? && Leads(s, p, x, q, st.lib) && !(x == Abrupt && q == p) && Held(p, st)
    ensures Ends(s, st, x, st') && Held(q, st') && st'.lib == st.lib
    decreases Size(s), 2, 0
  {
    var cs := s.cases;
    var r :| Moves(p, r, Captures(cs)) && (
      || (x == Normal && q == r)
      || exists k :: 0 <= k < |cs| && LeadsAll(BodyOf(cs[k]), r, x, q, st.lib));
    var m := MovesForth(p, r, Captures(cs), st);
    if x == Normal && q == r {
      st' := m;
    } else {
      var k :| 0 <= k < |cs| && LeadsAll(BodyOf(cs[k]), r, x, q, st.lib);
      SizeOfNested(s, k);
      st' := EndsAllForth(BodyOf(cs[k]), r, x, q, m);
    }
  }

  lemma {:induction false} EndsAllForth(body: seq<Ast>, p: Fact, x: Exit, q: Fact, st: Store) returns (st': Store)
    requires LeadsAll(body, p, x, q, st.lib) && Held(p, st)
    ensures EndsAll(body, st, x, st') && Held(q, st') && st'.lib == st.lib
    decreases SizeAll(body), 4, 0
  {
    if body == [] {
      st' := st;
    } else if x == Abrupt && Leads(body[0], p, Abrupt, q, st.lib) {
      st' := EndsForth(body[0], p, Abrupt, q, st);
    } else {
      var r :| Leads(body[0], p, Normal, r, st.lib) && LeadsAll(body[1..], r, x, q, st.lib);
      var m := EndsForth(body[0], p, Normal, r, st);
      st' := EndsAllForth(body[1..], r, x, q, m);
    }
  }

  // ----- calls -----

  /** From a store where `p` holds, a run of `s` can evaluate `c` with `q` holding. */
  ghost predicate Reaches(s: Ast, p: Fact, c: Ast, q: Fact, lib: Library)
    decreases Size(s), 3, 0
  {
    if s.If? then
      SizeOfNested(s, 0); SizeOfNested(s, 1);
      (InTree(c, s.test) && q == p) || ReachesAll(s.body, p, c, q, lib) || ReachesAll(s.orelse, p, c, q, lib)
    else if IsLoop(s) then
      || (s.For? && InTree(c, s.iter) && q == p)
      || exists n: nat, m :: HeadLeads(s, n, p, m, lib) && LoopReaches(s, m, c, q, lib)
    else if s.With? then WithReaches(s, p, c, q, lib)
    else if s.Try? then
      SizeOfNested(s, 0);
      || ReachesAll(s.body, p, c, q, lib)
      || exists y, m :: LeadsAll(s.body, p, y, m, lib) && AfterTryReaches(s, y, m, c, q, lib)
    else if s.Match? then MatchReaches(s, p, c, q, lib)
    else if IsScope(s) then ScopeReaches(s, p, c, q, lib)
    else InTree(c, s) && q == p
  }

  ghost predicate WithReaches(s: Ast, p: Fact, c: Ast, q: Fact, lib: Library)
    requires s.With?
    decreases Size(s), 1, 0
  {
    SizeOfNested(s, 0);
    exists m :: Moves(p, m, AssignedAll(s.items)) && ((InSome(c, s.items) && q == m) || ReachesAll(s.body, m, c, q, lib))
  }

  ghost predicate MatchReaches(s: Ast, p: Fact, c: Ast, q: Fact, lib: Library)
    requires s.Match?
    decreases Size(s), 1, 1
  {
    || (InTree(c, s.subject) && q == p)
    || exists m, k: nat :: k < |s.cases| && Moves(p, m, Captures(s.cases)) && CaseReaches(s, k, m, c, q, lib)
  }

  ghost predicate CaseReaches(s: Ast, k: nat, m: Fact, c: Ast, q: Fact, lib: Library)
    requires s.Match? && k < |s.cases|
    decreases Size(s), 1, 0
  {
    SizeOfNested(s, k);
    (InSome(c, ClauseHeader(s.cases[k])) && q == m) || ReachesAll(BodyOf(s.cases[k]), m, c, q, lib)
  }

  /** A function body runs when it is called, from whatever store. */
  ghost predicate ScopeReaches(s: Ast, p: Fact, c: Ast, q: Fact, lib: Library)
    requires IsScope(s)
    decreases Size(s), 1, 0
  {
    SizeOfScope(s);
    || (InSome(c, ScopeHeader(s)) && q == p)
    || if s.FunctionDef? then exists p0 :: ReachesAll(s.body, p0, c, q, lib) else ReachesAll(s.body, p, c, q, lib)
  }

  ghost predicate LoopReaches(s: Ast, m: Fact, c: Ast, q: Fact, lib: Library)
    requires IsLoop(s)
    decreases Size(s), 1, 0
  {
    SizeOfNested(s, 0); SizeOfNested(s, 1);
    || (InTree(c, LoopTest(s)) && q == m)
    || ReachesAll(s.orelse, m, c, q, lib)
    || exists a :: Moves(m, a, LoopNames(s)) && ReachesAll(s.body, a, c, q, lib)
  }

  ghost predicate AfterTryReaches(s: Ast, y: Exit, m: Fact, c: Ast, q: Fact, lib: Library)
    requires s.Try?
    decreases Size(s), 1, 1
  {
    SizeOfNested(s, 1); SizeOfNested(s, 2);
    || ReachesAll(s.orelse, m, c, q, lib)
    || (exists k: nat :: k < |s.handlers| && HandlerReaches(s, k, m, c, q, lib))
    || exists z, m' :: HandledLeads(s, y, m, z, m', lib) && ReachesAll(s.finalbody, m', c, q, lib)
  }

  /** A handler reached with fact `p` before its alias is bound. */
  ghost predicate HandlerReaches(s: Ast, k: nat, p: Fact, c: Ast, q: Fact, lib: Library)
    requires s.Try? && k < |s.handlers|
    decreases Size(s), 1, 0
  {
    SizeOfNested(s, 3 + k);
    || (InSome(c, ClauseHeader(s.handlers[k])) && q == p)
    || exists a :: Moves(p, a, Alias(s.handlers[k])) && ReachesAll(BodyOf(s.handlers[k]), a, c, q, lib)
  }

  ghost predicate ReachesAll(body: seq<Ast>, p: Fact, c: Ast, q: Fact, lib: Library)
    decreases SizeAll(body), 4, 0
  {
    body != [] && (
      || Reaches(body[0], p, c, q, lib)
      || exists m :: Leads(body[0], p, Normal, m, lib) && ReachesAll(body[1..], m, c, q, lib))
  }

  // ----- the ways to reach a call inside a statement -----

  lemma ReachesOrelse(s: Ast, p: Fact, c: Ast, q: Fact, lib: Library)
    requires IsLoop(s) && ReachesAll(s.orelse, p, c, q, lib)
    ensures LoopReaches(s, p, c, q, lib)
  {
  }

  lemma ReachesBody(s: Ast, p: Fact, r: Fact, c: Ast, q: Fact, lib: Library)
    requires IsLoop(s) && Moves(p, r, LoopNames(s)) && ReachesAll(s.body, r, c, q, lib)
    ensures LoopReaches(s, p, c, q, lib)
  {
  }

  lemma ReachesElse(s: Ast, y: Exit, p: Fact, c: Ast, q: Fact, lib: Library)
    requires s.Try? && ReachesAll(s.orelse, p, c, q, lib)
    ensures AfterTryReaches(s, y, p, c, q, lib)
  {
  }

  lemma ReachesFinally(s: Ast, y: Exit, p: Fact, z: Exit, r: Fact, c: Ast, q: Fact, lib: Library)
    requires s.Try? && HandledLeads(s, y, p, z, r, lib) && ReachesAll(s.finalbody, r, c, q, lib)
    ensures AfterTryReaches(s, y, p, c, q, lib)
  {
  }

  lemma ReachesHandler(s: Ast, y: Exit, k: nat, p: Fact, c: Ast, q: Fact, lib: Library)
    requires s.Try? && k < |s.handlers| && HandlerReaches(s, k, p, c, q, lib)
    ensures AfterTryReaches(s, y, p, c, q, lib)
  {
  }

  lemma ReachesCase(s: Ast, k: nat, p: Fact, r: Fact, c: Ast, q: Fact, lib: Library)
    requires s.Match? && k < |s.cases| && Moves(p, r, Captures(s.cases)) && CaseReaches(s, k, r, c, q, lib)
    ensures Reaches(s, p, c, q, lib)
  {
    assert MatchReaches(s, p, c, q, lib);
  }

  lemma ExecutesOrelse(s: Ast, m: Store, c: Ast, at: Store)
    requires IsLoop(s) && ExecutesAll(s.orelse, m, c, at)
    ensures LoopExecutes(s, m, c, at)
  {
  }

  lemma ExecutesBody(s: Ast, m: Store, a: Store, c: Ast, at: Store)
    requires IsLoop(s) && Same(m, a, LoopNames(s)) && ExecutesAll(s.body, a, c, at)
    ensures LoopExecutes(s, m, c, at)
  {
  }

  lemma ExecutesElse(s: Ast, y: Exit, m: Store, c: Ast, at: Store)
    requires s.Try? && ExecutesAll(s.orelse, m, c, at)
    ensures AfterTryExecutes(s, y, m, c, at)
  {
  }

  lemma ExecutesFinally(s: Ast, y: Exit, m: Store, z: Exit, m': Store, c: Ast, at: Store)
    requires s.Try? && Handled(s, y, m, z, m') && ExecutesAll(s.finalbody, m', c, at)
    ensures AfterTryExecutes(s, y, m, c, at)
  {
  }

  lemma ExecutesHandler(s: Ast, y: Exit, k: nat, m: Store, a: Store, c: Ast, at: Store)
    requires s.Try? && k < |s.handlers| && Same(m, a, Alias(s.handlers[k]))
    requires (InSome(c, ClauseHeader(s.handlers[k])) && at == m) || ExecutesAll(BodyOf(s.handlers[k]), a, c, at)
    ensures AfterTryExecutes(s, y, m, c, at)
  {
  }

  lemma ExecutesCase(s: Ast, k: nat, st: Store, m: Store, c: Ast, at: Store)
    requires s.Match? && k < |s.cases| && Same(st, m, Captures(s.cases))
    requires (InSome(c, ClauseHeader(s.cases[k])) && at == m) || ExecutesAll(BodyOf(s.cases[k]), m, c, at)
    ensures Executes(s, st, c, at)
  {
  }

  // ----- what holds at a call comes from one fact before the run -----

  lemma {:induction false} ExecutesBack(s: Ast, st: Store, c: Ast, at: Store, q: Fact) returns (p: Fact)
    requires Executes(s, st, c, at) && Held(q, at)
    ensures Held(p, st) && Reaches(s, p, c, q, st.lib) && at.lib == st.lib
    decreases Size(s), 3, 0
  {
    if s.If? { p := IfBack(s, st, c, at, q); }
    else if IsLoop(s) { p := LoopRunBack(s, st, c, at, q); }
    else if s.With? { p := WithExecutesBack(s, st, c, at, q); }
    else if s.Try? { p := TryExecutesBack(s, st, c, at, q); }
    else if s.Match? { p := MatchExecutesBack(s, st, c, at, q); }
    else if IsScope(s) { p := ScopeBack(s, st, c, at, q); }
    else { p := q; }
  }

  lemma {:induction false} IfBack(s: Ast, st: Store, c: Ast, at: Store, q: Fact) returns (p: Fact)
    requires s.If? && Executes(s, st, c, at) && Held(q, at)
    ensures Held(p, st) && Reaches(s, p, c, q, st.lib) && at.lib == st.lib
    decreases Size(s), 2, 0
  {
    if ExecutesAll(s.body, st, c, at) {
      SizeOfNested(s, 0);
      p := ExecutesAllBack(s.body, st, c, at, q);
    } else if ExecutesAll(s.orelse, st, c, at) {
      SizeOfNested(s, 1);
      p := ExecutesAllBack(s.orelse, st, c, at, q);
    } else {
      p := q;
    }
  }

  lemma {:induction false} LoopRunBack(s: Ast, st: Store, c: Ast, at: Store, q: Fact) returns (p: Fact)
    requires IsLoop(s) && Executes(s, st, c, at) && Held(q, at)
    ensures Held(p, st) && Reaches(s, p, c, q, st.lib) && at.lib == st.lib
    decreases Size(s), 2, 0
  {
    if s.For? && InTree(c, s.iter) && at == st {
      p := q;
    } else {
      var n: nat, m :| LoopHead(s, n, st, m) && LoopExecutes(s, m, c, at);
      var r := LoopExecutesBack(s, m, c, at, q);
      p := LoopHeadBack(s, n, st, m, r);
    }
  }

  lemma {:induction false} TryExecutesBack(s: Ast, st: Store, c: Ast, at: Store, q: Fact) returns (p: Fact)
    requires s.Try? && Executes(s, st, c, at) && Held(q, at)
    ensures Held(p, st) && Reaches(s, p, c, q, st.lib) && at.lib == st.lib
    decreases Size(s), 2, 0
  {
    SizeOfNested(s, 0);
    if ExecutesAll(s.body, st, c, at) {
      p := ExecutesAllBack(s.body, st, c, at, q);
    } else {
      var y, m :| EndsAll(s.body, st, y, m) && AfterTryExecutes(s, y, m, c, at);
      var r := AfterTryBack(s, y, m, c, at, q);
      p := EndsAllBack(s.body, st, y, m, r);
    }
  }

  lemma {:induction false} WithExecutesBack(s: Ast, st: Store, c: Ast, at: Store, q: Fact) returns (p: Fact)
    requires s.With? && Executes(s, st, c, at) && Held(q, at)
    ensures Held(p, st) && Reaches(s, p, c, q, st.lib) && at.lib == st.lib
    decreases Size(s), 2, 0
  {
    var m :| Same(st, m, AssignedAll(s.items)) && ((InSome(c, s.items) && at == m) || ExecutesAll(s.body, m, c, at));
    var r := q;
    if !(InSome(c, s.items) && at == m) {
      SizeOfNested(s, 0);
      r := ExecutesAllBack(s.body, m, c, at, q);
    }
    MovesBack(st, m, AssignedAll(s.items), r);
    p := MovedFrom(r, st, AssignedAll(s.items));
  }

  lemma {:induction false} ScopeBack(s: Ast, st: Store, c: Ast, at: Store, q: Fact) returns (p: Fact)
    requires IsScope(s) && Executes(s, st, c, at) && Held(q, at)
    ensures Held(p, st) && Reaches(s, p, c, q, st.lib) && at.lib == st.lib
    decreases Size(s), 2, 0
  {
    SizeOfScope(s);
    p := q;
    if !(InSome(c, ScopeHeader(s)) && at == st) {
      if s.FunctionDef? {
        var st0: Store :| st0.lib == st.lib && ExecutesAll(s.body, st0, c, at);
        var p0 := ExecutesAllBack(s.body, st0, c, at, q);
        p := Here("", st);
      } else {
        p := ExecutesAllBack(s.body, st, c, at, q);
      }
    }
  }

  lemma {:induction false} LoopExecutesBack(s: Ast, m: Store, c: Ast, at: Store, q: Fact) returns (p: Fact)
    requires IsLoop(s) && LoopExecutes(s, m, c, at) && Held(q, at)
    ensures Held(p, m) && LoopReaches(s, p, c, q, m.lib) && at.lib == m.lib
    decreases Size(s), 1, 0
  {
    if InTree(c, LoopTest(s)) && at == m {
      p := q;
    } else if ExecutesAll(s.orelse, m, c, at) {
      SizeOfNested(s, 1);
      p := ExecutesAllBack(s.orelse, m, c, at, q);
      ReachesOrelse(s, p, c, q, m.lib);
    } else {
      var a :| Same(m, a, LoopNames(s)) && ExecutesAll(s.body, a, c, at);
      SizeOfNested(s, 0);
      var r := ExecutesAllBack(s.body, a, c, at, q);
      MovesBack(m, a, LoopNames(s), r);
      p := MovedFrom(r, m, LoopNames(s));
      ReachesBody(s, p, r, c, q, m.lib);
    }
  }

  lemma {:induction false} AfterTryBack(s: Ast, y: Exit, m: Store, c: Ast, at: Store, q: Fact) returns (p: Fact)
    requires s.Try? && AfterTryExecutes(s, y, m, c, at) && Held(q, at)
    ensures Held(p, m) && AfterTryReaches(s, y, p, c, q, m.lib) && at.lib == m.lib
    decreases Size(s), 1, 1
  {
    if ExecutesAll(s.orelse, m, c, at) {
      SizeOfNested(s, 1);
      p := ExecutesAllBack(s.orelse, m, c, at, q);
      ReachesElse(s, y, p, c, q, m.lib);
    } else if z, m' :| Handled(s, y, m, z, m') && ExecutesAll(s.finalbody, m', c, at) {
      SizeOfNested(s, 2);
      var r := ExecutesAllBack(s.finalbody, m', c, at, q);
      p := HandledBack(s, y, m, z, m', r);
      ReachesFinally(s, y, p, z, r, c, q, m.lib);
    } else {
      var k, a :| 0 <= k < |s.handlers| && Same(m, a, Alias(s.handlers[k]))
        && ((InSome(c, ClauseHeader(s.handlers[k])) && at == m) || ExecutesAll(BodyOf(s.handlers[k]), a, c, at));
      p := HandlerBack(s, k, m, a, c, at, q);
      ReachesHandler(s, y, k, p, c, q, m.lib);
    }
  }

  lemma {:induction false} HandlerBack(s: Ast, k: nat, m: Store, a: Store, c: Ast, at: Store, q: Fact) returns (p: Fact)
    requires s.Try? && k < |s.handlers| && Same(m, a, Alias(s.handlers[k])) && Held(q, at)
    requires (InSome(c, ClauseHeader(s.handlers[k])) && at == m) || ExecutesAll(BodyOf(s.handlers[k]), a, c, at)
    ensures Held(p, m) && HandlerReaches(s, k, p, c, q, m.lib) && at.lib == m.lib
    decreases Size(s), 1, 0
  {
    var h := s.handlers[k];
    if InSome(c, ClauseHeader(h)) && at == m {
      p := q;
    } else {
      SizeOfNested(s, 3 + k);
      var r := ExecutesAllBack(BodyOf(h), a, c, at, q);
      MovesBack(m, a, Alias(h), r);
      p := MovedFrom(r, m, Alias(h));
    }
  }

  lemma {:induction false} MatchExecutesBack(s: Ast, st: Store, c: Ast, at: Store, q: Fact) returns (p: Fact)
    requires s.Match? && Executes(s, st, c, at) && Held(q, at)
    ensures Held(p, st) && Reaches(s, p, c, q, st.lib) && at.lib == st.lib
    decreases Size(s), 2, 0
  {
    var cs := s.cases;
    if InTree(c, s.subject) && at == st {
      p := q;
    } else {
      var m, k :| Same(st, m, Captures(cs)) && 0 <= k < |cs|
        && ((InSome(c, ClauseHeader(cs[k])) && at == m) || ExecutesAll(BodyOf(cs[k]), m, c, at));
      var r := q;
      if !(InSome(c, ClauseHeader(cs[k])) && at == m) {
        SizeOfNested(s, k);
        r := ExecutesAllBack(BodyOf(cs[k]), m, c, at, q);
      }
      MovesBack(st, m, Captures(cs), r);
      p := MovedFrom(r, st, Captures(cs));
      ReachesCase(s, k, p, r, c, q, st.lib);
    }
  }

  lemma {:induction false} ExecutesAllBack(body: seq<Ast>, st: Store, c: Ast, at: Store, q: Fact) returns (p: Fact)
    requires ExecutesAll(body, st, c, at) && Held(q, at)
    ensures Held(p, st) && ReachesAll(body, p, c, q, st.lib) && at.lib == st.lib
    decreases SizeAll(body), 4, 0
  {
    if Executes(body[0], st, c, at) {
      p := ExecutesBack(body[0], st, c, at, q);
    } else {
      var m :| Ends(body[0], st, Normal, m) && ExecutesAll(body[1..], m, c, at);
      var r := ExecutesAllBack(body[1..], m, c, at, q);
      p := EndsBack(body[0], st, Normal, m, r);
    }
  }

  // ----- a path of facts to a call is a run -----

  lemma {:induction false} ExecutesForth(s: Ast, p: Fact, c: Ast, q: Fact, st: Store) returns (at: Store)
    requires Reaches(s, p, c, q, st.lib) && Held(p, st)
    ensures Executes(s, st, c, at) && Held(q, at) && at.lib == st.lib
    decreases Size(s), 3, 0
  {
    if s.If? { at := IfForth(s, p, c, q, st); }
    else if IsLoop(s) { at := LoopRunForth(s, p, c, q, st); }
    else if s.With? { at := WithExecutesForth(s, p, c, q, st); }
    else if s.Try? { at := TryExecutesForth(s, p, c, q, st); }
    else if s.Match? { at := MatchExecutesForth(s, p, c, q, st); }
    else if IsScope(s) { at := ScopeForth(s, p, c, q, st); }
    else { at := st; }
  }

  lemma {:induction false} IfForth(s: Ast, p: Fact, c: Ast, q: Fact, st: Store) returns (at: Store)
    requires s.If? && Reaches(s, p, c, q, st.lib) && Held(p, st)
    ensures Executes(s, st, c, at) && Held(q, at) && at.lib == st.lib
    decreases Size(s), 2, 0
  {
    if ReachesAll(s.body, p, c, q, st.lib) {
      SizeOfNested(s, 0);
      at := ExecutesAllForth(s.body, p, c, q, st);
    } else if ReachesAll(s.orelse, p, c, q, st.lib) {
      SizeOfNested(s, 1);
      at := ExecutesAllForth(s.orelse, p, c, q, st);
    } else {
      at := st;
    }
  }

  lemma {:induction false} LoopRunForth(s: Ast, p: Fact, c: Ast, q: Fact, st: Store) returns (at: Store)
    requires IsLoop(s) && Reaches(s, p, c, q, st.lib) && Held(p, st)
    ensures Executes(s, st, c, at) && Held(q, at) && at.lib == st.lib
    decreases Size(s), 2, 0
  {
    if s.For? && InTree(c, s.iter) && q == p {
      at := st;
    } else {
      var n: nat, r :| HeadLeads(s, n, p, r, st.lib) && LoopReaches(s, r, c, q, st.lib);
      var m := LoopHeadForth(s, n, p, r, st);
      at := LoopExecutesForth(s, r, c, q, m);
    }
  }

  lemma {:induction false} TryExecutesForth(s: Ast, p: Fact, c: Ast, q: Fact, st: Store) returns (at: Store)
    requires s.Try? && Reaches(s, p, c, q, st.lib) && Held(p, st)
    ensures Executes(s, st, c, at) && Held(q, at) && at.lib == st.lib
    decreases Size(s), 2, 0
  {
    SizeOfNested(s, 0);
    if ReachesAll(s.body, p, c, q, st.lib) {
      at := ExecutesAllForth(s.body, p, c, q, st);
    } else {
      var y, r :| LeadsAll(s.body, p, y, r, st.lib) && AfterTryReaches(s, y, r, c, q, st.lib);
      var m := EndsAllForth(s.body, p, y, r, st);
      at := AfterTryForth(s, y, r, c, q, m);
    }
  }

  lemma {:induction false} WithExecutesForth(s: Ast, p: Fact, c: Ast, q: Fact, st: Store) returns (at: Store)
    requires s.With? && Reaches(s, p, c, q, st.lib) && Held(p, st)
    ensures Executes(s, st, c, at) && Held(q, at) && at.lib == st.lib
    decreases Size(s), 2, 0
  {
    var r :| Moves(p, r, AssignedAll(s.items)) && ((InSome(c, s.items) && q == r) || ReachesAll(s.body, r, c, q, st.lib));
    var m := MovesForth(p, r, AssignedAll(s.items), st);
    at := m;
    if !(InSome(c, s.items) && q == r) {
      SizeOfNested(s, 0);
      at := ExecutesAllForth(s.body, r, c, q, m);
    }
  }

  lemma {:induction false} ScopeForth(s: Ast, p: Fact, c: Ast, q: Fact, st: Store) returns (at: Store)
    requires IsScope(s) && Reaches(s, p, c, q, st.lib) && Held(p, st)
    ensures Executes(s, st, c, at) && Held(q, at) && at.lib == st.lib
    decreases Size(s), 2, 0
  {
    SizeOfScope(s);
    assert ScopeReaches(s, p, c, q, st.lib);
    at := st;
    if !(InSome(c, ScopeHeader(s)) && q == p) {
      if s.FunctionDef? {
        var p0 :| ReachesAll(s.body, p0, c, q, st.lib);
        at := ExecutesAllForth(s.body, p0, c, q, Set(st, p0.name, p0.value));
      } else {
        at := ExecutesAllForth(s.body, p, c, q, st);
      }
    }
  }

  lemma {:induction false} LoopExecutesForth(s: Ast, p: Fact, c: Ast, q: Fact, m: Store) returns (at: Store)
    requires IsLoop(s) && LoopReaches(s, p, c, q, m.lib) && Held(p, m)
    ensures LoopExecutes(s, m, c, at) && Held(q, at) && at.lib == m.lib
    decreases Size(s), 1, 0
  {
    if InTree(c, LoopTest(s)) && q == p {
      at := m;
    } else if ReachesAll(s.orelse, p, c, q, m.lib) {
      SizeOfNested(s, 1);
      at := ExecutesAllForth(s.orelse, p, c, q, m);
      ExecutesOrelse(s, m, c, at);
    } else {
      var r :| Moves(p, r, LoopNames(s)) && ReachesAll(s.body, r, c, q, m.lib);
      var a := MovesForth(p, r, LoopNames(s), m);
      SizeOfNested(s, 0);
      at := ExecutesAllForth(s.body, r, c, q, a);
      ExecutesBody(s, m, a, c, at);
    }
  }

  lemma {:induction false} AfterTryForth(s: Ast, y: Exit, p: Fact, c: Ast, q: Fact, m: Store) returns (at: Store)
    requires s.Try? && AfterTryReaches(s, y, p, c, q, m.lib) && Held(p, m)
    ensures AfterTryExecutes(s, y, m, c, at) && Held(q, at) && at.lib == m.lib
    decreases Size(s), 1, 1
  {
    if ReachesAll(s.orelse, p, c, q, m.lib) {
      SizeOfNested(s, 1);
      at := ExecutesAllForth(s.orelse, p, c, q, m);
      ExecutesElse(s, y, m, c, at);
    } else if z, r :| HandledLeads(s, y, p, z, r, m.lib) && ReachesAll(s.finalbody, r, c, q, m.lib) {
      var m' := HandledForth(s, y, p, z, r, m);
      SizeOfNested(s, 2);
      at := ExecutesAllForth(s.finalbody, r, c, q, m');
      ExecutesFinally(s, y, m, z, m', c, at);
    } else {
      var k: nat :| k < |s.handlers| && HandlerReaches(s, k, p, c, q, m.lib);
      var a;
      at, a := HandlerForth(s, k, p, c, q, m);
      ExecutesHandler(s, y, k, m, a, c, at);
    }
  }

  lemma {:induction false} HandlerForth(s: Ast, k: nat, p: Fact, c: Ast, q: Fact, m: Store) returns (at: Store, a: Store)
    requires s.Try? && k < |s.handlers| && HandlerReaches(s, k, p, c, q, m.lib) && Held(p, m)
    ensures Same(m, a, Alias(s.handlers[k])) && Held(q, at) && at.lib == m.lib
    ensures (InSome(c, ClauseHeader(s.handlers[k])) && at == m) || ExecutesAll(BodyOf(s.handlers[k]), a, c, at)
    decreases Size(s), 1, 0
  {
    var h := s.handlers[k];
    if InSome(c, ClauseHeader(h)) && q == p {
      at, a := m, m;
    } else {
      SizeOfNested(s, 3 + k);
      var r :| Moves(p, r, Alias(h)) && ReachesAll(BodyOf(h), r, c, q, m.lib);
      a := MovesForth(p, r, Alias(h), m);
      at := ExecutesAllForth(BodyOf(h), r, c, q, a);
    }
  }

  lemma {:induction false} MatchExecutesForth(s: Ast, p: Fact, c: Ast, q: Fact, st: Store) returns (at: Store)
    requires s.Match? && Reaches(s, p, c, q, st.lib) && Held(p, st)
    ensures Executes(s, st, c, at) && Held(q, at) && at.lib == st.lib
    decreases Size(s), 2, 0
  {
    var cs := s.cases;
    assert MatchReaches(s, p, c, q, st.lib);
    if InTree(c, s.subject) && q == p {
      at := st;
    } else {
      var r, k: nat :| k < |cs| && Moves(p, r, Captures(cs)) && CaseReaches(s, k, r, c, q, st.lib);
      var m := MovesForth(p, r, Captures(cs), st);
      at := m;
      if !(InSome(c, ClauseHeader(cs[k])) && q == r) {
        SizeOfNested(s, k);
        at := ExecutesAllForth(BodyOf(cs[k]), r, c, q, m);
      }
      ExecutesCase(s, k, st, m, c, at);
    }
  }

  lemma {:induction false} ExecutesAllForth(body: seq<Ast>, p: Fact, c: Ast, q: Fact, st: Store) returns (at: Store)
    requires ReachesAll(body, p, c, q, st.lib) && Held(p, st)
    ensures ExecutesAll(body, st, c, at) && Held(q, at) && at.lib == st.lib
    decreases SizeAll(body), 4, 0
  {
    if Reaches(body[0], p, c, q, st.lib) {
      at := ExecutesForth(body[0], p, c, q, st);
    } else {
      var r :| Leads(body[0], p, Normal, r, st.lib) && ReachesAll(body[1..], r, c, q, st.lib);
      var m := EndsForth(body[0], p, Normal, r, st);
      at := ExecutesAllForth(body[1..], r, c, q, m);
    }
  }

  // ----- the verdict on the guard -----

  /** Told from the text: a path of facts, from a name that is plain at the start, to the
      fact that makes the argument of the call a stale select. */
  ghost predicate MayBeHandedStale(program: seq<Ast>, c: Ast, lib: Library) {
    IsExecute(c) && exists p: Fact, q: Fact ::
      p.value == Plain && ReachesAll(program, p, c, q, lib) && Yields(c.args[0], q, Stale, lib)
  }

  /** For every program and library the text decides which calls some run hands a stale
      select. */
  lemma TextDecides(program: seq<Ast>, c: Ast, lib: Library)
    ensures ExecutesStale(program, Start(lib), c) <==> MayBeHandedStale(program, c, lib)
  {
    if ExecutesStale(program, Start(lib), c) {
      var at :| ExecutesAll(program, Start(lib), c, at) && Stale in Values(c.args[0], at);
      var q := RootFact(c.args[0], at);
      ValueYields(c.args[0], at, Stale);
      var p := ExecutesAllBack(program, Start(lib), c, at, q);
    }
    if MayBeHandedStale(program, c, lib) {
      var p: Fact, q: Fact :| p.value == Plain && ReachesAll(program, p, c, q, lib) && Yields(c.args[0], q, Stale, lib);
      var at := ExecutesAllForth(program, p, c, q, Start(lib));
      YieldsValue(c.args[0], q, Stale, at);
    }
  }

  /** The programs for which no stale execute of any run goes unreported, and those for
      which every report has a run behind it, are told from the text, exactly. */
  lemma GuardVerdict(program: seq<Ast>, lib: Library)
    ensures (forall c :: ExecutesStale(program, Start(lib), c) ==> Entry(c) in Report(program, map[]))
       <==> forall c :: MayBeHandedStale(program, c, lib) ==> Entry(c) in Report(program, map[])
    ensures (forall v :: v in Report(program, map[]) ==> exists c :: ExecutesStale(program, Start(lib), c) && v == Entry(c))
       <==> forall v :: v in Report(program, map[]) ==> exists c :: MayBeHandedStale(program, c, lib) && v == Entry(c)
  {
    forall c ensures ExecutesStale(program, Start(lib), c) <==> MayBeHandedStale(program, c, lib) {
      TextDecides(program, c, lib);
    }
  }
}
