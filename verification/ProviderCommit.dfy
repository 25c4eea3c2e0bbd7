/** When the provider split commits, exactly, and the plain case in which it does and
    preserves every served mapping
    (alembic/versions/c1d2e3f4a5b6_add_llm_provider_operation_type.py:53-247). */
module ProviderCommit {
  import opened Common
  import opened ProviderSplit

  // ----- the unique names -----

  /** The source rows of one INSERT that still lack their derived row have distinct
      derived names. */
  ghost predicate DistinctSources(ps: Providers, op: Operation) {
    forall i, j :: i in ps && j in ps && i != j && Splits(ps, i, op) && Splits(ps, j, op) ==>
      DerivedName(ps[i].name, op) != DerivedName(ps[j].name, op)
  }

  lemma InsertIsUnique(ps: Providers, op: Operation, gen: nat -> nat)
    requires UniqueNames(ps) && FreshIds(gen, ps)
    ensures UniqueNames(InsertDerived(ps, op, gen)) <==> DistinctSources(ps, op)
  {
    var r := InsertDerived(ps, op, gen);
    if UniqueNames(r) {
      forall i, j | i in ps && j in ps && i != j && Splits(ps, i, op) && Splits(ps, j, op)
        ensures DerivedName(ps[i].name, op) != DerivedName(ps[j].name, op)
      {
        InsertKeepsRows(ps, op, gen, i);
        InsertKeepsRows(ps, op, gen, j);
        assert r[gen(i)].name != r[gen(j)].name;
      }
    }
    if DistinctSources(ps, op) {
      forall t, u | t in r && u in r && t != u ensures r[t].name != r[u].name {
        InsertedPair(ps, op, gen, t, u);
      }
    }
  }

  lemma InsertedPair(ps: Providers, op: Operation, gen: nat -> nat, t: nat, u: nat)
    requires UniqueNames(ps) && FreshIds(gen, ps) && DistinctSources(ps, op)
    requires t in InsertDerived(ps, op, gen) && u in InsertDerived(ps, op, gen) && t != u
    ensures InsertDerived(ps, op, gen)[t].name != InsertDerived(ps, op, gen)[u].name
  {
    if t in ps { InsertKeepsRows(ps, op, gen, t); }
    if u in ps { InsertKeepsRows(ps, op, gen, u); }
    if t !in ps {
      var i := InsertedRow(ps, op, gen, t);
      if u !in ps { var j := InsertedRow(ps, op, gen, u); }
    } else if u !in ps {
      var j := InsertedRow(ps, op, gen, u);
    }
  }

  /** The sources of the rerank INSERT, told before the embedding INSERT: the derived
      name must not be taken by then either. */
  predicate StillSplits(ps: Providers, i: nat)
    requires i in ps
  {
    Splits(ps, i, Rerank) && !exists j :: j in ps && Yields(ps, j, Embedding, DerivedName(ps[i].name, Rerank))
  }

  ghost predicate DistinctLater(ps: Providers) {
    forall i, j :: i in ps && j in ps && i != j && StillSplits(ps, i) && StillSplits(ps, j) ==>
      DerivedName(ps[i].name, Rerank) != DerivedName(ps[j].name, Rerank)
  }

  lemma SplitsAfterEmbedding(ps: Providers, gen: nat -> nat, i: nat)
    requires FreshIds(gen, ps)
    ensures var e := InsertDerived(ps, Embedding, gen);
            (i in e && Splits(e, i, Rerank)) <==> (i in ps && StillSplits(ps, i))
  {
    var e := InsertDerived(ps, Embedding, gen);
    if i in ps {
      InsertKeepsRows(ps, Embedding, gen, i);
      InsertedName(ps, Embedding, gen, DerivedName(ps[i].name, Rerank));
    } else if i in e {
      var j := InsertedRow(ps, Embedding, gen, i);
    }
  }

  lemma LaterSources(ps: Providers, gen: nat -> nat)
    requires FreshIds(gen, ps)
    ensures DistinctSources(InsertDerived(ps, Embedding, gen), Rerank) <==> DistinctLater(ps)
  {
    var e := InsertDerived(ps, Embedding, gen);
    forall i ensures (i in e && Splits(e, i, Rerank)) <==> (i in ps && StillSplits(ps, i)) {
      SplitsAfterEmbedding(ps, gen, i);
    }
    forall i | i in ps ensures i in e && e[i] == ps[i] { InsertKeepsRows(ps, Embedding, gen, i); }
  }

  lemma SplitIsUnique(ps: Providers, genE: nat -> nat, genR: nat -> nat)
    requires UniqueNames(ps) && Supplies(ps, genE, genR)
    ensures UniqueNames(InsertDerived(Classify(ps), Embedding, genE)) && UniqueNames(Split(ps, genE, genR))
       <==> DistinctSources(Classify(ps), Embedding) && DistinctLater(Classify(ps))
  {
    var c := Classify(ps);
    assert UniqueNames(c);
    InsertIsUnique(c, Embedding, genE);
    LaterSources(c, genE);
    if UniqueNames(InsertDerived(c, Embedding, genE)) {
      InsertIsUnique(InsertDerived(c, Embedding, genE), Rerank, genR);
    }
  }

  // ----- the unique mappings -----

  predicate Holds(ps: Providers, name: string, op: Operation) {
    exists t :: t in ps && ps[t].name == name && ps[t].op == op
  }

  /** A row with this name and operation will be there after the split. */
  ghost predicate WillHold(ps: Providers, name: string, op: Operation) {
    if HasName(ps, name) then Holds(ps, name, op)
    else if exists i :: Yields(ps, i, Embedding, name) then op == Embedding
    else op == Rerank && exists i :: Yields(ps, i, Rerank, name)
  }

  /** A name in use is not inserted again. */
  lemma TakenNameHolds(ps: Providers, insert: Operation, gen: nat -> nat, name: string, op: Operation)
    requires FreshIds(gen, ps) && HasName(ps, name)
    ensures Holds(InsertDerived(ps, insert, gen), name, op) <==> Holds(ps, name, op)
  {
    var r := InsertDerived(ps, insert, gen);
    if t :| t in r && r[t].name == name && r[t].op == op {
      if t in ps { InsertKeepsRows(ps, insert, gen, t); } else { var i := InsertedRow(ps, insert, gen, t); }
    }
    if t :| t in ps && ps[t].name == name && ps[t].op == op { InsertKeepsRows(ps, insert, gen, t); }
  }

  lemma NewNameHolds(ps: Providers, insert: Operation, gen: nat -> nat, name: string, op: Operation)
    requires FreshIds(gen, ps) && !HasName(ps, name)
    ensures Holds(InsertDerived(ps, insert, gen), name, op) <==>
            op == insert && exists i :: Yields(ps, i, insert, name)
  {
    var r := InsertDerived(ps, insert, gen);
    if t :| t in r && r[t].name == name && r[t].op == op {
      if t in ps { InsertKeepsRows(ps, insert, gen, t); }
      var i := InsertedRow(ps, insert, gen, t);
      assert Yields(ps, i, insert, name);
    }
    if i :| Yields(ps, i, insert, name) { YieldedRow(ps, insert, gen, i, name); }
  }

  lemma YieldsAfterEmbedding(ps: Providers, gen: nat -> nat, name: string)
    requires FreshIds(gen, ps)
    ensures (exists i :: Yields(InsertDerived(ps, Embedding, gen), i, Rerank, name)) <==> exists i :: Yields(ps, i, Rerank, name)
  {
    var e := InsertDerived(ps, Embedding, gen);
    forall i ensures Yields(e, i, Rerank, name) <==> Yields(ps, i, Rerank, name) {
      if i in ps {
        InsertKeepsRows(ps, Embedding, gen, i);
      } else if i in e {
        var j := InsertedRow(ps, Embedding, gen, i);
      }
    }
  }

  lemma TwoInsertsHold(ps: Providers, e: Providers, genE: nat -> nat, genR: nat -> nat, name: string, op: Operation)
    requires FreshIds(genE, ps) && e == InsertDerived(ps, Embedding, genE) && FreshIds(genR, e)
    ensures Holds(InsertDerived(e, Rerank, genR), name, op) <==> WillHold(ps, name, op)
  {
    InsertedName(ps, Embedding, genE, name);
    if HasName(ps, name) {
      TakenNameHolds(ps, Embedding, genE, name, op);
      TakenNameHolds(e, Rerank, genR, name, op);
    } else if HasName(e, name) {
      NewNameHolds(ps, Embedding, genE, name, op);
      TakenNameHolds(e, Rerank, genR, name, op);
    } else {
      NewNameHolds(e, Rerank, genR, name, op);
      YieldsAfterEmbedding(ps, genE, name);
    }
  }

  lemma HoldForeseen(ps: Providers, genE: nat -> nat, genR: nat -> nat, name: string, op: Operation)
    requires Supplies(ps, genE, genR)
    ensures Holds(Split(ps, genE, genR), name, op) <==> WillHold(Classify(ps), name, op)
  {
    TwoInsertsHold(Classify(ps), InsertDerived(Classify(ps), Embedding, genE), genE, genR, name, op);
  }

  /** The name of the row a mapping will point at. */
  ghost function Destination(ps: Providers, m: Mapping): string
    requires m.provider in ps
  {
    var derived := DerivedName(ps[m.provider].name, m.op);
    if (m.op == Embedding || m.op == Rerank) && ps[m.provider].op == Llm && WillHold(ps, derived, m.op) then derived
    else ps[m.provider].name
  }

  /** No two mappings of a tenant and operation will point at the same row. */
  ghost predicate DistinctDestinations(ps: Providers, ms: Mappings)
    requires forall i :: i in ms ==> ms[i].provider in ps
  {
    forall i, j :: i in ms && j in ms && i != j && ms[i].tenant == ms[j].tenant && ms[i].op == ms[j].op ==>
      Destination(ps, ms[i]) != Destination(ps, ms[j])
  }

  /** Where a mapping ends up after both redirects. */
  function Final(ps: Providers, m: Mapping): Mapping
    requires UniqueNames(ps)
  {
    if m.op == Embedding || m.op == Rerank then Redirected(ps, m, m.op) else m
  }

  lemma FinalDestination(ps: Providers, genE: nat -> nat, genR: nat -> nat, m: Mapping)
    requires Supplies(ps, genE, genR) && UniqueNames(Split(ps, genE, genR)) && m.provider in ps
    ensures var r, f := Split(ps, genE, genR), Final(Split(ps, genE, genR), m);
            && f.tenant == m.tenant && f.op == m.op && f.provider in r
            && r[f.provider].name == Destination(Classify(ps), m)
  {
    var r, c := Split(ps, genE, genR), Classify(ps);
    SplitKeepsRows(ps, genE, genR, m.provider);
    if m.op == Embedding || m.op == Rerank {
      var name := DerivedName(c[m.provider].name, m.op);
      RedirectedFacts(r, m, m.op);
      HoldForeseen(ps, genE, genR, name, m.op);
      if c[m.provider].op == Llm && Holds(r, name, m.op) {
        var t :| t in r && r[t].name == name && r[t].op == m.op;
        assert IsTarget(r, m, m.op, t);
      }
    }
  }

  lemma RedirectsAreFinal(ps: Providers, ms: Mappings)
    requires UniqueNames(ps) && UniqueMappings(ms)
    ensures var ms1 := Redirect(ps, ms, Embedding);
            UniqueMappings(ms1) && UniqueMappings(Redirect(ps, ms1, Rerank)) <==>
            forall i, j :: i in ms && j in ms && i != j ==> Final(ps, ms[i]) != Final(ps, ms[j])
  {
    var ms1 := Redirect(ps, ms, Embedding);
    var ms2 := Redirect(ps, ms1, Rerank);
    forall i | i in ms ensures i in ms2 && ms2[i] == Final(ps, ms[i]) { FinalMapping(ps, ms, i); }
    forall i | i in ms ensures ms1[i] == if ms[i].op == Embedding then Final(ps, ms[i]) else ms[i] {
      RedirectedFacts(ps, ms[i], Embedding);
    }
    forall i | i in ms ensures Final(ps, ms[i]).op == ms[i].op {
      RedirectedFacts(ps, ms[i], ms[i].op);
    }
  }

  lemma FinalsDiffer(db: Tables, genE: nat -> nat, genR: nat -> nat, i: nat, j: nat)
    requires WellFormed(db) && Supplies(db.providers, genE, genR) && UniqueNames(Split(db.providers, genE, genR))
    requires i in db.mappings && j in db.mappings
    ensures var ps, c, m, n := Split(db.providers, genE, genR), Classify(db.providers), db.mappings[i], db.mappings[j];
            Final(ps, m) == Final(ps, n) <==>
            m.tenant == n.tenant && m.op == n.op && Destination(c, m) == Destination(c, n)
  {
    FinalDestination(db.providers, genE, genR, db.mappings[i]);
    FinalDestination(db.providers, genE, genR, db.mappings[j]);
  }

  lemma MappingsUnique(db: Tables, genE: nat -> nat, genR: nat -> nat)
    requires WellFormed(db) && Supplies(db.providers, genE, genR) && UniqueNames(Split(db.providers, genE, genR))
    ensures var ps := Split(db.providers, genE, genR);
            var ms1 := Redirect(ps, db.mappings, Embedding);
            UniqueMappings(ms1) && UniqueMappings(Redirect(ps, ms1, Rerank))
            <==> DistinctDestinations(Classify(db.providers), db.mappings)
  {
    var ps, c, ms := Split(db.providers, genE, genR), Classify(db.providers), db.mappings;
    RedirectsAreFinal(ps, ms);
    forall i, j | i in ms && j in ms
      ensures Final(ps, ms[i]) == Final(ps, ms[j]) <==>
              ms[i].tenant == ms[j].tenant && ms[i].op == ms[j].op && Destination(c, ms[i]) == Destination(c, ms[j])
    {
      FinalsDiffer(db, genE, genR, i, j);
    }
  }

  // ----- when the upgrade commits -----

  lemma ListedAfterSplit(ps: Providers, genE: nat -> nat, genR: nat -> nat)
    requires Supplies(ps, genE, genR)
    ensures ListedOperations(Split(ps, genE, genR)) <==> ListedOperations(Classify(ps))
  {
    var r := Split(ps, genE, genR);
    forall t | t in ps ensures t in r && r[t] == Classify(ps)[t] { SplitKeepsRows(ps, genE, genR, t); }
    forall t | t in r && t !in ps ensures !r[t].op.Unlisted? {
      var i, op := SplitRowOrigin(ps, genE, genR, t);
    }
  }

  /** The upgrade commits exactly when, on the rows before it, the derived names of the
      rows that still lack a derived row are distinct for each INSERT, every classified
      operation is listed, and no two mappings of a tenant and operation will meet. */
  lemma UpgradeCommitsExactly(db: Tables, genE: nat -> nat, genR: nat -> nat)
    requires WellFormed(db) && Supplies(db.providers, genE, genR)
    ensures var c := Classify(db.providers);
            Upgrade(db, genE, genR).Some? <==>
            && DistinctSources(c, Embedding) && DistinctLater(c) && ListedOperations(c)
            && DistinctDestinations(c, db.mappings)
  {
    SplitIsUnique(db.providers, genE, genR);
    ListedAfterSplit(db.providers, genE, genR);
    if UniqueNames(Split(db.providers, genE, genR)) { MappingsUnique(db, genE, genR); }
  }

  // ----- the plain case: short names, no derived name in use -----

  ghost predicate NoDerivedNameInUse(ps: Providers) {
    forall i, op :: i in ps && OperationOf(ps[i]) == Llm && (op == Embedding || op == Rerank) ==>
      !HasName(ps, DerivedName(ps[i].name, op))
  }

  ghost predicate ShortNames(ps: Providers) {
    forall i :: i in ps ==> |ps[i].name| <= 245
  }

  lemma DerivedNamesDiffer(a: string, b: string, op: Operation, op': Operation)
    requires |a| <= 245 && |b| <= 245 && (op == Embedding || op == Rerank) && (op' == Embedding || op' == Rerank)
    ensures DerivedName(a, op) == a + (if op == Embedding then " Embedding" else " Rerank")
    ensures DerivedName(a, op) == DerivedName(b, op') <==> a == b && op == op'
  {
    var x, y := a + Suffix(op), b + Suffix(op');
    assert DerivedName(a, op) == x && DerivedName(b, op') == y;
    if x == y {
      assert x[|x| - 1] == Suffix(op)[|Suffix(op)| - 1];
      assert y[|y| - 1] == Suffix(op')[|Suffix(op')| - 1];
      assert op == op';
      assert a == x[..|a|] && b == y[..|b|];
    }
  }

  lemma CleanUpgradeCommits(db: Tables, genE: nat -> nat, genR: nat -> nat)
    requires WellFormed(db) && ShortNames(db.providers) && NoDerivedNameInUse(db.providers)
    requires ListedOperations(Classify(db.providers)) && Supplies(db.providers, genE, genR)
    ensures Upgrade(db, genE, genR).Some?
  {
    var ps, c, ms := db.providers, Classify(db.providers), db.mappings;
    forall i, j, op | i in c && j in c && i != j && (op == Embedding || op == Rerank)
      ensures DerivedName(c[i].name, op) != DerivedName(c[j].name, op)
    {
      DerivedNamesDiffer(ps[i].name, ps[j].name, op, op);
    }
    forall i, j | i in ms && j in ms && i != j && ms[i].tenant == ms[j].tenant && ms[i].op == ms[j].op
      ensures Destination(c, ms[i]) != Destination(c, ms[j])
    {
      CleanDestinations(ps, ms[i], ms[j]);
    }
    UpgradeCommitsExactly(db, genE, genR);
  }

  lemma CleanDestinations(ps: Providers, m: Mapping, n: Mapping)
    requires UniqueNames(ps) && ShortNames(ps) && NoDerivedNameInUse(ps)
    requires m.provider in ps && n.provider in ps && m.op == n.op && m.provider != n.provider
    ensures Destination(Classify(ps), m) != Destination(Classify(ps), n)
  {
    if m.op == Embedding || m.op == Rerank {
      DerivedNamesDiffer(ps[m.provider].name, ps[n.provider].name, m.op, n.op);
    }
  }

  /** The mapping's provider is a language-model provider or one of its own operation. */
  predicate Serves(db: Tables, m: Mapping) {
    m.provider in db.providers &&
    (OperationOf(db.providers[m.provider]) == Llm || OperationOf(db.providers[m.provider]) == m.op)
  }

  /** With short names and no derived name in use the upgrade commits, and every
      mapping to a language-model provider, or to one of its own operation, resolves to
      the same model before and after. */
  lemma CleanSplitPreservesMeaning(db: Tables, genE: nat -> nat, genR: nat -> nat)
    requires WellFormed(db) && ShortNames(db.providers) && NoDerivedNameInUse(db.providers)
    requires ListedOperations(Classify(db.providers)) && Supplies(db.providers, genE, genR)
    ensures var after := Upgrade(db, genE, genR);
            after.Some? && forall i :: i in db.mappings && Serves(db, db.mappings[i]) ==>
              i in after.value.mappings && Resolve(after.value, after.value.mappings[i]) == Resolve(db, db.mappings[i])
  {
    CleanUpgradeCommits(db, genE, genR);
    var after := Upgrade(db, genE, genR).value;
    forall i | i in db.mappings && Serves(db, db.mappings[i])
      ensures i in after.mappings && Resolve(after, after.mappings[i]) == Resolve(db, db.mappings[i])
    {
      MappingPreservedExactly(db, genE, genR, i);
      var m := db.mappings[i];
      if Classify(db.providers)[m.provider].op != m.op { OwnRowHoldsTheName(db.providers, m.provider, m.op); }
    }
  }

  /** In the plain case the only source of a derived name is the row it is derived from. */
  lemma OwnRowHoldsTheName(ps: Providers, i: nat, op: Operation)
    requires UniqueNames(ps) && ShortNames(ps) && NoDerivedNameInUse(ps)
    requires i in ps && (op == Embedding || op == Rerank) && OperationOf(ps[i]) == Llm
    ensures WillAgree(Classify(ps), Classify(ps)[i], op)
  {
    var c, name := Classify(ps), DerivedName(ps[i].name, op);
    assert !HasName(c, name);
    forall j, insert | (insert == Embedding || insert == Rerank) && Yields(c, j, insert, name)
      ensures j == i && insert == op
    {
      DerivedNamesDiffer(ps[j].name, ps[i].name, insert, op);
    }
  }
}
