/** The rows the provider split adds, with their names spelled out
    (alembic/versions/c1d2e3f4a5b6_add_llm_provider_operation_type.py:53-173). */
module ProviderNames {
  import opened Common
  import opened ProviderSplit
  import opened ProviderCommit

  /** A language-model provider: its type has neither ending, and its operation is `llm`. */
  ghost predicate IsSource(p: Provider) {
    !EndsWith(p.kind, "_embedding") && !EndsWith(p.kind, "_reranker") && p.op == Llm
  }

  /** It names a model for the operation, which is not the empty string. */
  predicate HasModel(p: Provider, op: Operation) {
    match op
    case Embedding => p.embeddingModel.Some? && p.embeddingModel.value != ""
    case Rerank => p.rerankerModel.Some? && p.rerankerModel.value != ""
    case _ => false
  }

  lemma SourceIsClassified(p: Provider)
    ensures IsSource(p) <==> OperationOf(p) == Llm
  {
    OperationBySuffix(p);
  }

  /** Row `q` is `p`'s row for the operation and holds `p`'s model. */
  predicate StandsFor(q: Provider, p: Provider, op: Operation) {
    && q.op == op && NamedFor(q.name, p.name, op)
    && (op == Embedding ==> q.embeddingModel == p.embeddingModel && q.rerankerModel.None?)
    && (op == Rerank ==> q.rerankerModel == p.rerankerModel && q.embeddingModel.None?)
  }

  predicate NameInUse(ps: Providers, source: string, op: Operation) {
    exists t :: t in ps && NamedFor(ps[t].name, source, op)
  }

  lemma InUseIsHasName(ps: Providers, source: string, op: Operation)
    requires op == Embedding || op == Rerank
    ensures NameInUse(ps, source, op) <==> HasName(ps, DerivedName(source, op))
  {
    DerivedIsCut(source);
    if HasName(ps, DerivedName(source, op)) {
      var t :| t in ps && ps[t].name == DerivedName(source, op);
      assert NamedFor(ps[t].name, source, op);
    }
  }

  /** Every row the upgrade adds stands for a language-model provider with such a model,
      under the name spelled out, which no row bore before. */
  lemma AddedRow(db: Tables, genE: nat -> nat, genR: nat -> nat, t: nat) returns (i: nat)
    requires Supplies(db.providers, genE, genR) && Upgrade(db, genE, genR).Some?
    requires t in Split(db.providers, genE, genR) && t !in db.providers
    ensures var q := Upgrade(db, genE, genR).value.providers;
            && t in q && i in db.providers && IsSource(db.providers[i]) && HasModel(db.providers[i], q[t].op)
            && StandsFor(q[t], db.providers[i], q[t].op) && !NameInUse(db.providers, db.providers[i].name, q[t].op)
  {
    var op;
    i, op := SplitRowOrigin(db.providers, genE, genR, t);
    SourceIsClassified(db.providers[i]);
    DerivedIsCut(db.providers[i].name);
    InUseIsHasName(db.providers, db.providers[i].name, op);
    NewRowIsNew(db.providers, genE, genR, t);
  }

  /** The NOT EXISTS of the INSERTs: an added name was free. */
  lemma NewRowIsNew(ps: Providers, genE: nat -> nat, genR: nat -> nat, t: nat)
    requires Supplies(ps, genE, genR) && t in Split(ps, genE, genR) && t !in ps
    ensures !HasName(ps, Split(ps, genE, genR)[t].name)
  {
    var c := Classify(ps);
    var e := InsertDerived(c, Embedding, genE);
    if u :| u in ps && ps[u].name == Split(ps, genE, genR)[t].name {
      InsertKeepsRows(c, Embedding, genE, u);
      if t in e {
        var i := InsertedRow(c, Embedding, genE, t);
        InsertKeepsRows(e, Rerank, genR, t);
      } else {
        var i := InsertedRow(e, Rerank, genR, t);
      }
    }
  }

  /** Every language-model provider with a model for the operation finds a row of the name
      spelled out after the upgrade, its own or one that was there. */
  lemma SourceHasRow(db: Tables, genE: nat -> nat, genR: nat -> nat, i: nat, op: Operation)
    requires Supplies(db.providers, genE, genR) && Upgrade(db, genE, genR).Some?
    requires i in db.providers && IsSource(db.providers[i]) && HasModel(db.providers[i], op)
    ensures NameInUse(Upgrade(db, genE, genR).value.providers, db.providers[i].name, op)
  {
    SourceIsClassified(db.providers[i]);
    SplitTakesName(db.providers, genE, genR, i, op);
    var ps := Split(db.providers, genE, genR);
    var t :| t in ps && ps[t].name == DerivedName(db.providers[i].name, op);
    DerivedIsCut(db.providers[i].name);
    AfterTheSplit(db, genE, genR, t);
  }

  /** The steps after the INSERTs add no row and rename none. */
  lemma AfterTheSplit(db: Tables, genE: nat -> nat, genR: nat -> nat, t: nat)
    requires Supplies(db.providers, genE, genR) && Upgrade(db, genE, genR).Some?
    ensures var q, ps := Upgrade(db, genE, genR).value.providers, Split(db.providers, genE, genR);
            (t in q <==> t in ps) && (t in q ==> q[t].name == ps[t].name)
  {
  }

  lemma CleanSourceHasRow(db: Tables, genE: nat -> nat, genR: nat -> nat, i: nat, op: Operation) returns (t: nat)
    requires Supplies(db.providers, genE, genR) && Upgrade(db, genE, genR).Some?
    requires ShortNames(db.providers) && NoDerivedNameInUse(db.providers)
    requires i in db.providers && IsSource(db.providers[i]) && HasModel(db.providers[i], op)
    requires UniqueNames(db.providers)
    ensures var q := Upgrade(db, genE, genR).value.providers;
            t in q && t !in db.providers && StandsFor(q[t], db.providers[i], op)
  {
    var q, p := Upgrade(db, genE, genR).value.providers, db.providers[i];
    SourceHasRow(db, genE, genR, i, op);
    t :| t in q && NamedFor(q[t].name, p.name, op);
    AfterTheSplit(db, genE, genR, t);
    InUseIsHasName(db.providers, p.name, op);
    SourceIsClassified(p);
    if t in db.providers {
      SplitKeepsRows(db.providers, genE, genR, t);
    }
    var j := AddedRow(db, genE, genR, t);
    SameCut(db.providers[j].name, p.name, q[t].name, q[t].op, op);
  }

  lemma CleanRowHasSource(db: Tables, genE: nat -> nat, genR: nat -> nat, i: nat, op: Operation, t: nat)
    requires Supplies(db.providers, genE, genR) && Upgrade(db, genE, genR).Some?
    requires UniqueNames(db.providers) && ShortNames(db.providers) && i in db.providers && t !in db.providers
    requires t in Upgrade(db, genE, genR).value.providers
    requires StandsFor(Upgrade(db, genE, genR).value.providers[t], db.providers[i], op)
    ensures IsSource(db.providers[i]) && HasModel(db.providers[i], op)
  {
    AfterTheSplit(db, genE, genR, t);
    var j := AddedRow(db, genE, genR, t);
    SameCut(db.providers[j].name, db.providers[i].name, Upgrade(db, genE, genR).value.providers[t].name, op, op);
  }

  /** In the plain case the added rows are exactly these: for each language-model provider
      and operation with a model, one row of that literal name, operation and model. */
  lemma CleanRowsExactly(db: Tables, genE: nat -> nat, genR: nat -> nat, i: nat, op: Operation)
    requires WellFormed(db) && ShortNames(db.providers) && NoDerivedNameInUse(db.providers)
    requires ListedOperations(Classify(db.providers)) && Supplies(db.providers, genE, genR) && i in db.providers
    ensures Upgrade(db, genE, genR).Some?
    ensures var q := Upgrade(db, genE, genR).value.providers;
            IsSource(db.providers[i]) && HasModel(db.providers[i], op) <==>
            exists t :: t in q && t !in db.providers && StandsFor(q[t], db.providers[i], op)
  {
    CleanUpgradeCommits(db, genE, genR);
    var q, p := Upgrade(db, genE, genR).value.providers, db.providers[i];
    if IsSource(p) && HasModel(p, op) {
      var t := CleanSourceHasRow(db, genE, genR, i, op);
    }
    if t :| t in q && t !in db.providers && StandsFor(q[t], p, op) {
      CleanRowHasSource(db, genE, genR, i, op, t);
    }
  }

  /** A name cut for two short sources was cut for one source and one operation. */
  lemma SameCut(a: string, b: string, name: string, op: Operation, op': Operation)
    requires |a| <= 245 && |b| <= 245 && NamedFor(name, a, op) && NamedFor(name, b, op')
    ensures a == b && op == op'
  {
    DerivedIsCut(a);
    DerivedIsCut(b);
    DerivedNamesDiffer(a, b, op, op');
  }
}
