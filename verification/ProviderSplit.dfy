/** The data steps of the provider split migration
    (alembic/versions/c1d2e3f4a5b6_add_llm_provider_operation_type.py:42-247) over the
    tables llm_providers and tenant_provider_mappings, with the unique keys and the
    check of src/infrastructure/persistence/llm_providers_models.py. */
module ProviderSplit {
  import opened Common

  datatype Operation = Llm | Embedding | Rerank | Unlisted(text: string)

  /** A provider row.  `carried` stands for the columns that are copied as they are. */
  datatype Provider = Provider(
    name: string, kind: string, op: Operation,
    llmModel: Option<string>, smallModel: Option<string>,
    embeddingModel: Option<string>, rerankerModel: Option<string>,
    config: map<string, string>, poolEnabled: bool, tier: Option<string>, secondary: Option<string>,
    carried: string)

  datatype Mapping = Mapping(tenant: string, op: Operation, provider: nat)

  type Providers = map<nat, Provider>
  type Mappings = map<nat, Mapping>

  datatype Tables = Tables(providers: Providers, mappings: Mappings)

  // ----- SQL string functions -----

  function Left(s: string, n: nat): string { if |s| <= n then s else s[..n] }

  function Right(s: string, n: nat): string { if |s| <= n then s else s[|s| - n..] }

  // ----- the steps -----

  /** Lines 42-51. */
  function OperationOf(p: Provider): Operation {
    if Right(p.kind, 10) == "_embedding" then Embedding
    else if Right(p.kind, 9) == "_reranker" then Rerank
    else p.op
  }

  function Classify(ps: Providers): Providers {
    map i | i in ps :: ps[i].(op := OperationOf(ps[i]))
  }

  function Suffix(op: Operation): string {
    if op == Embedding then " Embedding" else " Rerank"
  }

  function DerivedName(name: string, op: Operation): string {
    Left(name + Suffix(op), 255)
  }

  function ModelOf(p: Provider, op: Operation): Option<string> {
    match op
    case Llm => p.llmModel
    case Embedding => p.embeddingModel
    case Rerank => p.rerankerModel
    case Unlisted(_) => None
  }

  /** The empty string counts as no model. */
  function Norm(m: Option<string>): Option<string> {
    if m == Some("") then None else m
  }

  predicate HasName(ps: Providers, name: string) {
    exists i :: i in ps && ps[i].name == name
  }

  /** The source rows of one INSERT (lines 102-110, 163-171). */
  predicate Splits(ps: Providers, i: nat, op: Operation)
    requires i in ps
  {
    ps[i].op == Llm && Norm(ModelOf(ps[i], op)) != None && !HasName(ps, DerivedName(ps[i].name, op))
  }

  function DerivedRow(p: Provider, op: Operation): Provider {
    Provider(
      DerivedName(p.name, op), p.kind, op, None, None,
      if op == Embedding then p.embeddingModel else None,
      if op == Embedding then None else p.rerankerModel,
      if op == Embedding then p.config else p.config - {"embedding"},
      false, None, None, p.carried)
  }

  /** `gen_random_uuid()` gives every inserted row an unused id of its own. */
  predicate FreshIds(gen: nat -> nat, ps: Providers) {
    && (forall i :: i in ps ==> gen(i) !in ps)
    && forall i, j :: i in ps && j in ps && i != j ==> gen(i) != gen(j)
  }

  function InsertDerived(ps: Providers, op: Operation, gen: nat -> nat): Providers
    requires FreshIds(gen, ps)
  {
    ps + map i | i in ps && Splits(ps, i, op) :: gen(i) := DerivedRow(ps[i], op)
  }

  predicate UniqueNames(ps: Providers) {
    forall i, j :: i in ps && j in ps && i != j ==> ps[i].name != ps[j].name
  }

  predicate UniqueMappings(ms: Mappings) {
    forall i, j :: i in ms && j in ms && i != j ==> ms[i] != ms[j]
  }

  /** The joined target row of one redirect (lines 179-186). */
  predicate IsTarget(ps: Providers, m: Mapping, op: Operation, t: nat) {
    && m.op == op && m.provider in ps && ps[m.provider].op == Llm
    && t in ps && ps[t].op == op && ps[t].name == DerivedName(ps[m.provider].name, op)
  }

  function Redirected(ps: Providers, m: Mapping, op: Operation): Mapping
    requires UniqueNames(ps)
  {
    if exists t :: t in ps && IsTarget(ps, m, op, t) then
      var t :| t in ps && IsTarget(ps, m, op, t);
      m.(provider := t)
    else m
  }

  function Redirect(ps: Providers, ms: Mappings, op: Operation): Mappings
    requires UniqueNames(ps)
  {
    map i | i in ms :: Redirected(ps, ms[i], op)
  }

  /** Lines 203-238. */
  function Cleared(p: Provider): Provider {
    match p.op
    case Llm => p.(embeddingModel := None, rerankerModel := None, config := p.config - {"embedding"})
    case Embedding => p.(llmModel := None, smallModel := None, rerankerModel := None,
                         poolEnabled := false, tier := None, secondary := None)
    case Rerank => p.(llmModel := None, smallModel := None, embeddingModel := None, config := p.config - {"embedding"},
                      poolEnabled := false, tier := None, secondary := None)
    case Unlisted(_) => p
  }

  function Clear(ps: Providers): Providers {
    map i | i in ps :: Cleared(ps[i])
  }

  predicate ListedOperations(ps: Providers) {
    forall i :: i in ps ==> !ps[i].op.Unlisted?
  }

  /** The tables after both INSERTs. */
  function Split(ps: Providers, genE: nat -> nat, genR: nat -> nat): Providers
    requires FreshIds(genE, Classify(ps)) && FreshIds(genR, InsertDerived(Classify(ps), Embedding, genE))
  {
    InsertDerived(InsertDerived(Classify(ps), Embedding, genE), Rerank, genR)
  }

  predicate Supplies(ps: Providers, genE: nat -> nat, genR: nat -> nat) {
    FreshIds(genE, Classify(ps)) && FreshIds(genR, InsertDerived(Classify(ps), Embedding, genE))
  }

  /** The whole data migration: the new tables, or None when a statement breaks a
      unique key or the final check and the transaction rolls back. */
  function Upgrade(db: Tables, genE: nat -> nat, genR: nat -> nat): Option<Tables>
    requires Supplies(db.providers, genE, genR)
  {
    var ps := Split(db.providers, genE, genR);
    if !UniqueNames(InsertDerived(Classify(db.providers), Embedding, genE)) || !UniqueNames(ps) then None
    else
      var ms := Redirect(ps, db.mappings, Embedding);
      var ms' := Redirect(ps, ms, Rerank);
      if !UniqueMappings(ms) || !UniqueMappings(ms') || !ListedOperations(ps) then None
      else Some(Tables(Clear(ps), ms'))
  }

  // ----- the meaning -----

  /** Which model a tenant mapping resolves to. */
  function Resolve(db: Tables, m: Mapping): Option<string> {
    if m.provider in db.providers then Norm(ModelOf(db.providers[m.provider], m.op)) else None
  }

  ghost predicate WellFormed(db: Tables) {
    && UniqueNames(db.providers) && UniqueMappings(db.mappings)
    && (forall i :: i in db.mappings ==> db.mappings[i].provider in db.providers && !db.mappings[i].op.Unlisted?)
  }

  /** Row `q` stands for the model `p` has for `op`: same model if it has the operation,
      no model to lose otherwise. */
  predicate Stands(q: Provider, p: Provider, op: Operation) {
    Norm(ModelOf(p, op)) == if q.op == op then Norm(ModelOf(q, op)) else None
  }

  /** The row that bears the derived name, if any, stands for the source's model. */
  ghost predicate HolderAgrees(ps: Providers, p: Provider, op: Operation) {
    forall t :: t in ps && ps[t].name == DerivedName(p.name, op) ==> Stands(ps[t], p, op)
  }

  // ----- the statements as updates of the tables -----

  class ProviderTables {
    var providers: Providers
    var mappings: Mappings

    constructor (db: Tables)
      ensures providers == db.providers && mappings == db.mappings
    {
      providers, mappings := db.providers, db.mappings;
    }

    /** The statements of `upgrade` in order.  A broken unique key or check rolls the
        whole transaction back. */
    method RunUpgrade(genE: nat -> nat, genR: nat -> nat) returns (committed: bool)
      requires Supplies(providers, genE, genR)
      modifies this
      ensures committed == old(Upgrade(Tables(providers, mappings), genE, genR)).Some?
      ensures committed ==> Tables(providers, mappings) == old(Upgrade(Tables(providers, mappings), genE, genR)).value
      ensures !committed ==> providers == old(providers) && mappings == old(mappings)
    {
      var savedProviders, savedMappings := providers, mappings;
      committed := false;
      providers := Classify(providers);
      providers := InsertDerived(providers, Embedding, genE);
      if UniqueNames(providers) {
        providers := InsertDerived(providers, Rerank, genR);
        if UniqueNames(providers) {
          mappings := Redirect(providers, mappings, Embedding);
          if UniqueMappings(mappings) {
            mappings := Redirect(providers, mappings, Rerank);
            if UniqueMappings(mappings) && ListedOperations(providers) {
              providers := Clear(providers);
              committed := true;
            }
          }
        }
      }
      if !committed {
        providers, mappings := savedProviders, savedMappings;
      }
    }
  }

  // ----- what the inserts do -----

  lemma InsertKeepsRows(ps: Providers, op: Operation, gen: nat -> nat, i: nat)
    requires FreshIds(gen, ps) && i in ps
    ensures i in InsertDerived(ps, op, gen) && InsertDerived(ps, op, gen)[i] == ps[i]
    ensures Splits(ps, i, op) ==>
              gen(i) in InsertDerived(ps, op, gen) && InsertDerived(ps, op, gen)[gen(i)] == DerivedRow(ps[i], op)
  {
  }

  lemma InsertedRow(ps: Providers, op: Operation, gen: nat -> nat, t: nat) returns (i: nat)
    requires FreshIds(gen, ps) && t in InsertDerived(ps, op, gen) && t !in ps
    ensures i in ps && Splits(ps, i, op) && t == gen(i)
    ensures InsertDerived(ps, op, gen)[t] == DerivedRow(ps[i], op)
  {
    i :| i in ps && Splits(ps, i, op) && t == gen(i);
  }

  /** A source row with a model always finds its derived name taken after the insert. */
  lemma NameTaken(ps: Providers, op: Operation, gen: nat -> nat, i: nat)
    requires FreshIds(gen, ps) && i in ps && ps[i].op == Llm && Norm(ModelOf(ps[i], op)) != None
    ensures HasName(InsertDerived(ps, op, gen), DerivedName(ps[i].name, op))
  {
    InsertKeepsRows(ps, op, gen, i);
    var r := InsertDerived(ps, op, gen);
    if t :| t in ps && ps[t].name == DerivedName(ps[i].name, op) {
      InsertKeepsRows(ps, op, gen, t);
      assert t in r && r[t].name == DerivedName(ps[i].name, op);
    } else {
      assert gen(i) in r && r[gen(i)].name == DerivedName(ps[i].name, op);
    }
  }

  lemma SplitKeepsRows(ps: Providers, genE: nat -> nat, genR: nat -> nat, i: nat)
    requires Supplies(ps, genE, genR) && i in ps
    ensures i in Split(ps, genE, genR) && Split(ps, genE, genR)[i] == ps[i].(op := OperationOf(ps[i]))
  {
    var c := Classify(ps);
    InsertKeepsRows(c, Embedding, genE, i);
    InsertKeepsRows(InsertDerived(c, Embedding, genE), Rerank, genR, i);
  }

  lemma SplitTakesName(ps: Providers, genE: nat -> nat, genR: nat -> nat, i: nat, op: Operation)
    requires Supplies(ps, genE, genR) && i in ps && (op == Embedding || op == Rerank)
    requires OperationOf(ps[i]) == Llm && Norm(ModelOf(ps[i], op)) != None
    ensures HasName(Split(ps, genE, genR), DerivedName(ps[i].name, op))
  {
    var c := Classify(ps);
    var e := InsertDerived(c, Embedding, genE);
    InsertKeepsRows(c, Embedding, genE, i);
    if op == Embedding {
      NameTaken(c, Embedding, genE, i);
      var t :| t in e && e[t].name == DerivedName(ps[i].name, op);
      InsertKeepsRows(e, Rerank, genR, t);
      assert t in Split(ps, genE, genR) && Split(ps, genE, genR)[t].name == DerivedName(ps[i].name, op);
    } else {
      NameTaken(e, Rerank, genR, i);
    }
  }

  // ----- what the redirects do -----

  lemma RedirectedFacts(ps: Providers, m: Mapping, op: Operation)
    requires UniqueNames(ps)
    ensures Redirected(ps, m, op).tenant == m.tenant && Redirected(ps, m, op).op == m.op
    ensures forall t :: IsTarget(ps, m, op, t) ==> Redirected(ps, m, op).provider == t
    ensures (forall t :: !IsTarget(ps, m, op, t)) ==> Redirected(ps, m, op) == m
  {
  }

  /** Only the redirect of the mapping's own operation can move it. */
  lemma FinalMapping(ps: Providers, ms: Mappings, i: nat)
    requires UniqueNames(ps) && i in ms
    ensures Redirect(ps, Redirect(ps, ms, Embedding), Rerank)[i] ==
            if ms[i].op == Embedding || ms[i].op == Rerank then Redirected(ps, ms[i], ms[i].op) else ms[i]
  {
    var m := ms[i];
    RedirectedFacts(ps, m, Embedding);
    RedirectedFacts(ps, Redirected(ps, m, Embedding), Rerank);
    RedirectedFacts(ps, m, Rerank);
  }

  // ----- the split preserves meaning, exactly -----

  /** Provider `i` is a source of one INSERT for a row called `name`. */
  predicate Yields(ps: Providers, i: nat, op: Operation, name: string) {
    i in ps && ps[i].op == Llm && Norm(ModelOf(ps[i], op)) != None && DerivedName(ps[i].name, op) == name
  }

  /** The sources of one INSERT for `p`'s derived name carry the model `p` has for `op`;
      a source of the other INSERT can only stand for no model. */
  ghost predicate SourcesAgree(ps: Providers, insert: Operation, p: Provider, op: Operation) {
    forall i :: Yields(ps, i, insert, DerivedName(p.name, op)) ==>
      Norm(ModelOf(p, op)) == if insert == op then Norm(ModelOf(ps[i], op)) else None
  }

  /** `HolderAgrees` after the split, said of the classified rows before it: a row that
      already bears the name wins, then the embedding INSERT, then the rerank INSERT. */
  ghost predicate WillAgree(ps: Providers, p: Provider, op: Operation) {
    var name := DerivedName(p.name, op);
    if HasName(ps, name) then HolderAgrees(ps, p, op)
    else if exists i :: Yields(ps, i, Embedding, name) then SourcesAgree(ps, Embedding, p, op)
    else SourcesAgree(ps, Rerank, p, op)
  }

  lemma InsertedRows(ps: Providers, insert: Operation, gen: nat -> nat)
    requires FreshIds(gen, ps)
    ensures var r := InsertDerived(ps, insert, gen);
            && (forall t :: t in ps ==> t in r && r[t] == ps[t])
            && (forall t :: t in r && t !in ps ==>
                  !HasName(ps, r[t].name) && exists i :: Yields(ps, i, insert, r[t].name) && r[t] == DerivedRow(ps[i], insert))
  {
    var r := InsertDerived(ps, insert, gen);
    forall t | t in r && t !in ps
      ensures !HasName(ps, r[t].name)
      ensures exists i :: Yields(ps, i, insert, r[t].name) && r[t] == DerivedRow(ps[i], insert)
    {
      var i := InsertedRow(ps, insert, gen, t);
      assert Yields(ps, i, insert, r[t].name);
    }
  }

  lemma YieldedRow(ps: Providers, insert: Operation, gen: nat -> nat, i: nat, name: string)
    requires FreshIds(gen, ps) && Yields(ps, i, insert, name) && !HasName(ps, name)
    ensures var r := InsertDerived(ps, insert, gen); gen(i) in r && r[gen(i)] == DerivedRow(ps[i], insert)
  {
    InsertKeepsRows(ps, insert, gen, i);
  }

  lemma InsertedName(ps: Providers, insert: Operation, gen: nat -> nat, name: string)
    requires FreshIds(gen, ps)
    ensures HasName(InsertDerived(ps, insert, gen), name) <==>
            HasName(ps, name) || exists i :: Yields(ps, i, insert, name)
  {
    InsertedRows(ps, insert, gen);
    if !HasName(ps, name) {
      if i :| Yields(ps, i, insert, name) { YieldedRow(ps, insert, gen, i, name); }
    }
  }

  lemma DerivedStands(q: Provider, insert: Operation, p: Provider, op: Operation)
    requires insert == Embedding || insert == Rerank
    ensures Stands(DerivedRow(q, insert), p, op) <==>
            Norm(ModelOf(p, op)) == if insert == op then Norm(ModelOf(q, op)) else None
  {
  }

  lemma NewHolder(ps: Providers, insert: Operation, gen: nat -> nat, p: Provider, op: Operation)
    requires FreshIds(gen, ps) && (insert == Embedding || insert == Rerank)
    requires !HasName(ps, DerivedName(p.name, op))
    ensures HolderAgrees(InsertDerived(ps, insert, gen), p, op) <==> SourcesAgree(ps, insert, p, op)
  {
    var r, name := InsertDerived(ps, insert, gen), DerivedName(p.name, op);
    if HolderAgrees(r, p, op) {
      forall i | Yields(ps, i, insert, name) ensures Stands(DerivedRow(ps[i], insert), p, op) {
        YieldedRow(ps, insert, gen, i, name);
      }
      forall i | Yields(ps, i, insert, name)
        ensures Norm(ModelOf(p, op)) == if insert == op then Norm(ModelOf(ps[i], op)) else None
      {
        DerivedStands(ps[i], insert, p, op);
      }
    }
    if SourcesAgree(ps, insert, p, op) {
      forall t | t in r && r[t].name == name ensures Stands(r[t], p, op) {
        if t in ps { InsertKeepsRows(ps, insert, gen, t); }
        var i := InsertedRow(ps, insert, gen, t);
        assert Yields(ps, i, insert, name);
        DerivedStands(ps[i], insert, p, op);
      }
    }
  }

  lemma InsertedHolder(ps: Providers, insert: Operation, gen: nat -> nat, p: Provider, op: Operation)
    requires FreshIds(gen, ps) && (insert == Embedding || insert == Rerank)
    ensures HolderAgrees(InsertDerived(ps, insert, gen), p, op) <==>
            if HasName(ps, DerivedName(p.name, op)) then HolderAgrees(ps, p, op) else SourcesAgree(ps, insert, p, op)
  {
    if HasName(ps, DerivedName(p.name, op)) {
      InsertedRows(ps, insert, gen);
    } else {
      NewHolder(ps, insert, gen, p, op);
    }
  }

  lemma EmbeddingInsertKeepsSources(ps: Providers, gen: nat -> nat, p: Provider, op: Operation)
    requires FreshIds(gen, ps)
    ensures SourcesAgree(InsertDerived(ps, Embedding, gen), Rerank, p, op) <==> SourcesAgree(ps, Rerank, p, op)
  {
    var e, name := InsertDerived(ps, Embedding, gen), DerivedName(p.name, op);
    forall i ensures Yields(e, i, Rerank, name) <==> Yields(ps, i, Rerank, name) {
      if i in ps {
        InsertKeepsRows(ps, Embedding, gen, i);
      } else if i in e {
        var j := InsertedRow(ps, Embedding, gen, i);
      }
    }
    forall i | i in ps ensures i in e && e[i] == ps[i] {
      InsertKeepsRows(ps, Embedding, gen, i);
    }
  }

  /** Who will hold the derived name can be told before the split. */
  lemma HolderForeseen(ps: Providers, genE: nat -> nat, genR: nat -> nat, p: Provider, op: Operation)
    requires Supplies(ps, genE, genR)
    ensures HolderAgrees(Split(ps, genE, genR), p, op) <==> WillAgree(Classify(ps), p, op)
  {
    var c, name := Classify(ps), DerivedName(p.name, op);
    var e := InsertDerived(c, Embedding, genE);
    InsertedName(c, Embedding, genE, name);
    InsertedHolder(c, Embedding, genE, p, op);
    InsertedHolder(e, Rerank, genR, p, op);
    EmbeddingInsertKeepsSources(c, genE, p, op);
  }

  ghost predicate Keeps(ps: Providers, p: Provider, op: Operation) {
    || p.op == op
    || (p.op == Llm && HolderAgrees(ps, p, op))
    || (p.op != Llm && Norm(ModelOf(p, op)) == None)
  }

  /** The exact condition on one mapping, on the tables before the migration: its
      provider already has the mapping's operation; or it is a language-model provider
      whose derived name will be held by a row that stands for the model; or there was
      no model to begin with. */
  ghost predicate WillKeep(ps: Providers, p: Provider, op: Operation) {
    || p.op == op
    || (p.op == Llm && WillAgree(ps, p, op))
    || (p.op != Llm && Norm(ModelOf(p, op)) == None)
  }

  lemma MappingPreservedExactly(db: Tables, genE: nat -> nat, genR: nat -> nat, i: nat)
    requires WellFormed(db) && Supplies(db.providers, genE, genR) && i in db.mappings
    requires Upgrade(db, genE, genR).Some?
    ensures var after := Upgrade(db, genE, genR).value;
            var m := db.mappings[i];
            var p := Classify(db.providers)[m.provider];
            i in after.mappings &&
            (Resolve(after, after.mappings[i]) == Resolve(db, m) <==> WillKeep(Classify(db.providers), p, m.op))
  {
    var ps := Split(db.providers, genE, genR);
    var m := db.mappings[i];
    FinalMapping(ps, db.mappings, i);
    ProviderKept(db.providers, genE, genR, m);
    HolderForeseen(db.providers, genE, genR, ps[m.provider], m.op);
    MovedModel(ps, m);
  }

  /** A cleared row keeps the model of its own operation and no other. */
  lemma ClearedModel(p: Provider, op: Operation)
    requires !p.op.Unlisted?
    ensures Norm(ModelOf(Cleared(p), op)) == if p.op == op then Norm(ModelOf(p, op)) else None
    ensures Cleared(Cleared(p)) == Cleared(p) && Cleared(p).kind == p.kind && Cleared(p).op == p.op
  {
  }

  /** What a mapping's provider is after the inserts. */
  lemma ProviderKept(ps: Providers, genE: nat -> nat, genR: nat -> nat, m: Mapping)
    requires Supplies(ps, genE, genR) && m.provider in ps
    ensures m.provider in Split(ps, genE, genR) && Split(ps, genE, genR)[m.provider] == Classify(ps)[m.provider]
    ensures ModelOf(Split(ps, genE, genR)[m.provider], m.op) == ModelOf(ps[m.provider], m.op)
    ensures NamedIfModel(Split(ps, genE, genR), m)
  {
    var r := Split(ps, genE, genR);
    SplitKeepsRows(ps, genE, genR, m.provider);
    if r[m.provider].op == Llm && (m.op == Embedding || m.op == Rerank) && Norm(ModelOf(r[m.provider], m.op)) != None {
      SplitTakesName(ps, genE, genR, m.provider, m.op);
    }
  }

  ghost predicate NamedIfModel(ps: Providers, m: Mapping) {
    m.provider in ps && ps[m.provider].op == Llm && (m.op == Embedding || m.op == Rerank)
      && Norm(ModelOf(ps[m.provider], m.op)) != None
    ==> HasName(ps, DerivedName(ps[m.provider].name, m.op))
  }

  lemma MovedModel(ps: Providers, m: Mapping)
    requires UniqueNames(ps) && ListedOperations(ps) && m.provider in ps && !m.op.Unlisted? && NamedIfModel(ps, m)
    ensures var r := if m.op == Embedding || m.op == Rerank then Redirected(ps, m, m.op) else m;
            r.op == m.op && r.provider in ps &&
            (Norm(ModelOf(Cleared(ps[r.provider]), m.op)) == Norm(ModelOf(ps[m.provider], m.op))
             <==> Keeps(ps, ps[m.provider], m.op))
  {
    var p, name := ps[m.provider], DerivedName(ps[m.provider].name, m.op);
    RedirectedFacts(ps, m, m.op);
    ClearedModel(p, m.op);
    if p.op == Llm && m.op != Llm {
      if t :| t in ps && ps[t].name == name {
        ClearedModel(ps[t], m.op);
        if ps[t].op == m.op { assert IsTarget(ps, m, m.op, t); }
        else { assert forall u :: !IsTarget(ps, m, m.op, u); }
      } else {
        assert forall u :: !IsTarget(ps, m, m.op, u);
        assert HolderAgrees(ps, p, m.op);
      }
    } else {
      assert forall u :: !IsTarget(ps, m, m.op, u) || m.op == Llm;
    }
  }

  /** Every row after the split is an original or the derived row of an original. */
  lemma SplitRowOrigin(ps: Providers, genE: nat -> nat, genR: nat -> nat, t: nat) returns (i: nat, op: Operation)
    requires Supplies(ps, genE, genR) && t in Split(ps, genE, genR) && t !in ps
    ensures i in ps && OperationOf(ps[i]) == Llm && (op == Embedding || op == Rerank)
    ensures t == (if op == Embedding then genE(i) else genR(i))
    ensures Norm(ModelOf(ps[i], op)) != None
    ensures Split(ps, genE, genR)[t] == DerivedRow(ps[i].(op := Llm), op)
  {
    var c := Classify(ps);
    var e := InsertDerived(c, Embedding, genE);
    if t in e {
      i := InsertedRow(c, Embedding, genE, t);
      op := Embedding;
      InsertKeepsRows(e, Rerank, genR, t);
    } else {
      i := InsertedRow(e, Rerank, genR, t);
      op := Rerank;
      if i !in c { var j := InsertedRow(c, Embedding, genE, i); }
      InsertKeepsRows(c, Embedding, genE, i);
    }
  }

  // ----- running the data steps again -----

  lemma ClassifiedAlready(ps: Providers, genE: nat -> nat, genR: nat -> nat)
    requires Supplies(ps, genE, genR)
    ensures AllClassified(Split(ps, genE, genR))
  {
    var r := Split(ps, genE, genR);
    forall t | t in r ensures OperationOf(r[t]) == r[t].op {
      if t in ps { SplitKeepsRows(ps, genE, genR, t); }
      else { var i, op := SplitRowOrigin(ps, genE, genR, t); }
    }
  }

  lemma ClearedRow(p: Provider)
    requires !p.op.Unlisted? && OperationOf(p) == p.op
    ensures Cleared(p).name == p.name && Cleared(p).op == p.op && Cleared(Cleared(p)) == Cleared(p)
    ensures Cleared(p).(op := OperationOf(Cleared(p))) == Cleared(p)
    ensures p.op == Llm ==> Cleared(p).embeddingModel == None && Cleared(p).rerankerModel == None
  {
    ClearedModel(p, p.op);
    var q := Cleared(p);
    assert q.kind == p.kind && q.op == p.op;
  }

  ghost predicate AllClassified(ps: Providers) {
    forall t :: t in ps ==> OperationOf(ps[t]) == ps[t].op
  }

  lemma ClearedSettles(ps: Providers)
    requires ListedOperations(ps) && AllClassified(ps)
    ensures Classify(Clear(ps)) == Clear(ps) && Clear(Clear(ps)) == Clear(ps)
    ensures forall t :: t in ps && ps[t].op == Llm ==>
              Clear(ps)[t].embeddingModel == None && Clear(ps)[t].rerankerModel == None
    ensures forall t :: t in ps ==> Clear(ps)[t].name == ps[t].name && Clear(ps)[t].op == ps[t].op
  {
    var c := Clear(ps);
    forall t | t in ps
      ensures c[t].name == ps[t].name && c[t].op == ps[t].op && Cleared(c[t]) == c[t]
      ensures Classify(c)[t] == c[t]
      ensures ps[t].op == Llm ==> c[t].embeddingModel == None && c[t].rerankerModel == None
    {
      ClearedRow(ps[t]);
    }
    assert Classify(c).Keys == c.Keys;
  }

  lemma NothingToInsert(ps: Providers, op: Operation, gen: nat -> nat)
    requires FreshIds(gen, ps) && (op == Embedding || op == Rerank)
    requires forall i :: i in ps && ps[i].op == Llm ==> Norm(ModelOf(ps[i], op)) == None
    ensures InsertDerived(ps, op, gen) == ps
  {
  }

  /** Clearing keeps names and operations, so it makes no redirect target. */
  lemma ClearedTarget(ps: Providers, m: Mapping, op: Operation, t: nat)
    ensures IsTarget(Clear(ps), m, op, t) ==> IsTarget(ps, m, op, t)
  {
  }

  lemma RedirectedTwice(ps: Providers, m: Mapping, op: Operation)
    requires UniqueNames(ps) && (op == Embedding || op == Rerank)
    ensures m.op == op ==> forall t :: !IsTarget(ps, Redirected(ps, m, op), op, t)
  {
    RedirectedFacts(ps, m, op);
  }

  lemma NothingToRedirect(ps: Providers, ms: Mappings, op: Operation)
    requires UniqueNames(ps) && UniqueNames(Clear(ps)) && (op == Embedding || op == Rerank)
    ensures var r := Redirect(ps, Redirect(ps, ms, Embedding), Rerank);
            Redirect(Clear(ps), r, op) == r
  {
    var r := Redirect(ps, Redirect(ps, ms, Embedding), Rerank);
    forall i | i in ms ensures Redirected(Clear(ps), r[i], op) == r[i] {
      FinalMapping(ps, ms, i);
      RedirectedTwice(ps, ms[i], op);
      RedirectedFacts(Clear(ps), r[i], op);
      forall t ensures !IsTarget(Clear(ps), r[i], op, t) {
        RedirectedFacts(ps, ms[i], op);
        ClearedTarget(ps, r[i], op, t);
      }
    }
  }

  /** The data steps are idempotent: a second run commits and changes no row. */
  lemma UpgradeIsIdempotent(db: Tables, genE: nat -> nat, genR: nat -> nat, genE': nat -> nat, genR': nat -> nat)
    requires Supplies(db.providers, genE, genR) && Upgrade(db, genE, genR).Some?
    requires Supplies(Upgrade(db, genE, genR).value.providers, genE', genR')
    ensures Upgrade(Upgrade(db, genE, genR).value, genE', genR') == Upgrade(db, genE, genR)
  {
    var ps, after := Split(db.providers, genE, genR), Upgrade(db, genE, genR).value;
    ClassifiedAlready(db.providers, genE, genR);
    ClearedSettles(ps);
    NothingToSplit(after.providers, genE', genR');
    NothingToRedirect(ps, db.mappings, Embedding);
    NothingToRedirect(ps, db.mappings, Rerank);
  }

  lemma NothingToSplit(ps: Providers, genE: nat -> nat, genR: nat -> nat)
    requires Supplies(ps, genE, genR) && Classify(ps) == ps
    requires forall t :: t in ps && ps[t].op == Llm ==> ps[t].embeddingModel == None && ps[t].rerankerModel == None
    ensures Split(ps, genE, genR) == ps && InsertDerived(Classify(ps), Embedding, genE) == ps
  {
    NothingToInsert(ps, Embedding, genE);
    NothingToInsert(ps, Rerank, genR);
  }

  // ----- what each row looks like afterwards -----

  ghost predicate EndsWith(s: string, tail: string) {
    exists stem: string :: s == stem + tail
  }

  lemma RightIsSuffix(s: string, tail: string)
    ensures Right(s, |tail|) == tail <==> EndsWith(s, tail)
  {
    if Right(s, |tail|) == tail {
      if |s| <= |tail| { assert s == "" + tail; }
      else { assert s == s[..|s| - |tail|] + tail; }
    }
    if stem: string :| s == stem + tail {
      assert s[|s| - |tail|..] == tail;
    }
  }

  /** The operation follows the provider type's ending, and is kept otherwise. */
  lemma OperationBySuffix(p: Provider)
    ensures EndsWith(p.kind, "_embedding") ==> OperationOf(p) == Embedding
    ensures EndsWith(p.kind, "_reranker") ==> OperationOf(p) == Rerank
    ensures !EndsWith(p.kind, "_embedding") && !EndsWith(p.kind, "_reranker") ==> OperationOf(p) == p.op
  {
    RightIsSuffix(p.kind, "_embedding");
    RightIsSuffix(p.kind, "_reranker");
    if stem: string :| p.kind == stem + "_embedding" { assert p.kind[|p.kind| - 1] == 'g'; }
    if stem: string :| p.kind == stem + "_reranker" { assert p.kind[|p.kind| - 1] == 'r'; }
  }

  /** A row keeps the columns of one operation only. */
  predicate SinglePurpose(q: Provider) {
    && (q.op != Llm ==> q.llmModel == None && q.smallModel == None && !q.poolEnabled && q.tier == None && q.secondary == None)
    && (q.op != Embedding ==> q.embeddingModel == None && "embedding" !in q.config)
    && (q.op != Rerank ==> q.rerankerModel == None)
  }

  /** Only an embedding row keeps the embedding settings. */
  function ConfigFor(p: Provider, op: Operation): map<string, string> {
    if op == Embedding then p.config else p.config - {"embedding"}
  }

  /** An original row: same identity, its own operation, and as a language-model row its
      own settings. */
  predicate IsOriginal(p: Provider, q: Provider) {
    && q.name == p.name && q.kind == p.kind && q.carried == p.carried && q.op == OperationOf(p)
    && ModelOf(q, q.op) == ModelOf(p, q.op) && q.config == ConfigFor(p, q.op)
    && (q.op == Llm ==> q.llmModel == p.llmModel && q.smallModel == p.smallModel
                        && q.poolEnabled == p.poolEnabled && q.tier == p.tier && q.secondary == p.secondary)
  }

  /** `LEFT(source || ending, 255)`. */
  predicate IsCut(name: string, source: string, ending: string) {
    name == if |source + ending| <= 255 then source + ending else (source + ending)[..255]
  }

  predicate NamedFor(name: string, source: string, op: Operation) {
    match op
    case Embedding => IsCut(name, source, " Embedding")
    case Rerank => IsCut(name, source, " Rerank")
    case _ => false
  }

  lemma DerivedIsCut(source: string)
    ensures IsCut(DerivedName(source, Embedding), source, " Embedding")
    ensures IsCut(DerivedName(source, Rerank), source, " Rerank")
  {
  }

  /** A row split off a language-model row: the derived name and that row's model. */
  predicate IsDerived(p: Provider, q: Provider) {
    && OperationOf(p) == Llm && (q.op == Embedding || q.op == Rerank)
    && NamedFor(q.name, p.name, q.op) && q.kind == p.kind && q.carried == p.carried
    && ModelOf(q, q.op) == ModelOf(p, q.op) && q.config == ConfigFor(p, q.op)
  }

  lemma OriginalAfter(p: Provider)
    requires !OperationOf(p).Unlisted?
    ensures var q := Cleared(p.(op := OperationOf(p))); SinglePurpose(q) && IsOriginal(p, q)
  {
  }

  lemma DerivedAfter(p: Provider, op: Operation)
    requires OperationOf(p) == Llm && (op == Embedding || op == Rerank)
    ensures var q := Cleared(DerivedRow(p.(op := Llm), op)); SinglePurpose(q) && IsDerived(p, q)
  {
    DerivedIsCut(p.name);
  }

  /** After the upgrade every row is single-purpose.  An original row keeps its identity
      and, if it serves language models, everything that concerns them; a new row is
      the derived row of one original. */
  lemma RowsAfterUpgrade(db: Tables, genE: nat -> nat, genR: nat -> nat)
    requires Supplies(db.providers, genE, genR) && Upgrade(db, genE, genR).Some?
    ensures var after := Upgrade(db, genE, genR).value.providers;
            forall t :: t in after ==>
              && SinglePurpose(after[t])
              && (t in db.providers ==> IsOriginal(db.providers[t], after[t]))
              && (t !in db.providers ==> exists i :: i in db.providers && IsDerived(db.providers[i], after[t]))
  {
    var ps, after := Split(db.providers, genE, genR), Upgrade(db, genE, genR).value.providers;
    forall t | t in after
      ensures SinglePurpose(after[t])
      ensures t in db.providers ==> IsOriginal(db.providers[t], after[t])
      ensures t !in db.providers ==> exists i :: i in db.providers && IsDerived(db.providers[i], after[t])
    {
      assert after[t] == Cleared(ps[t]) && !ps[t].op.Unlisted?;
      if t in db.providers {
        SplitKeepsRows(db.providers, genE, genR, t);
        OriginalAfter(db.providers[t]);
      } else {
        var i, op := SplitRowOrigin(db.providers, genE, genR, t);
        DerivedAfter(db.providers[i], op);
      }
    }
  }

  lemma OriginalRowsStay(db: Tables, genE: nat -> nat, genR: nat -> nat)
    requires Supplies(db.providers, genE, genR) && Upgrade(db, genE, genR).Some?
    ensures db.providers.Keys <= Upgrade(db, genE, genR).value.providers.Keys
    ensures Upgrade(db, genE, genR).value.mappings.Keys == db.mappings.Keys
  {
    forall i | i in db.providers ensures i in Upgrade(db, genE, genR).value.providers {
      SplitKeepsRows(db.providers, genE, genR, i);
    }
  }
}
