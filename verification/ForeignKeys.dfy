/** The catalog surgery on the conversations table
    (alembic/versions/e9f0a1b2c3d5_relax_conversation_workspace_links.py:22-156). */
module ForeignKeys {
  import opened Common

  datatype OnDelete = SetNull | OtherAction

  /** A constraint of `conversations`; its name is unique there. */
  datatype Constraint =
    | ForeignKey(columns: seq<string>, table: string, targets: seq<string>, onDelete: OnDelete)
    | OtherConstraint(definition: string)

  /** The catalog as far as the block looks at it: the constraints of `conversations`
      and the columns of each table. */
  datatype Catalog = Catalog(constraints: map<string, Constraint>, columns: map<string, set<string>>)

  datatype Relation = Relation(source: string, table: string, target: string, allowed: set<string>, restored: string)

  const WORKSPACE_LINK := Relation(
    "workspace_id", "workspaces", "id",
    {"fk_conversations_workspace_id", "conversations_workspace_id_fkey"}, "fk_conversations_workspace_id")

  const TASK_LINK := Relation(
    "linked_workspace_task_id", "workspace_tasks", "id",
    {"fk_conversations_linked_workspace_task_id", "conversations_linked_workspace_task_id_fkey"},
    "fk_conversations_linked_workspace_task_id")

  const RELATIONS := [WORKSPACE_LINK, TASK_LINK]

  predicate HasColumn(c: Catalog, table: string, column: string) {
    table in c.columns && column in c.columns[table]
  }

  /** The foreign keys a column takes part in. */
  function Relevant(c: Catalog, source: string): set<string> {
    set n | n in c.constraints && c.constraints[n].ForeignKey? && source in c.constraints[n].columns
  }

  predicate IsLink(k: Constraint, r: Relation) {
    k == ForeignKey([r.source], r.table, [r.target], SetNull)
  }

  /** The foreign keys with an allowed name and exactly the expected shape. */
  function Candidates(c: Catalog, r: Relation): set<string> {
    set n | n in c.constraints && n in r.allowed && IsLink(c.constraints[n], r)
  }

  /** One turn of the loop: drop the one candidate, or raise. */
  function DropOne(c: Catalog, r: Relation): Option<Catalog> {
    if && HasColumn(c, "conversations", r.source) && HasColumn(c, r.table, r.target)
       && Relevant(c, r.source) <= r.allowed && |Relevant(c, r.source)| == 1 && |Candidates(c, r)| == 1
    then Some(c.(constraints := c.constraints - Candidates(c, r))) else None
  }

  /** The loop; an exception in either turn undoes the whole block. */
  function Upgrade(c: Catalog): Option<Catalog> {
    var first := DropOne(c, WORKSPACE_LINK);
    if first.None? then None else DropOne(first.value, TASK_LINK)
  }

  // ----- when the block succeeds -----

  /** Exactly one foreign key uses the column, and it is the legacy link. */
  ghost predicate LegacyLink(c: Catalog, r: Relation, name: string) {
    && HasColumn(c, "conversations", r.source) && HasColumn(c, r.table, r.target)
    && name in r.allowed && name in c.constraints && IsLink(c.constraints[name], r)
    && forall n :: n in c.constraints && c.constraints[n].ForeignKey? && r.source in c.constraints[n].columns ==> n == name
  }

  lemma Singleton<T>(s: set<T>, x: T)
    requires x in s && |s| == 1
    ensures s == {x}
  {
    assert |s - {x}| == 0;
  }

  lemma DropOneExactly(c: Catalog, r: Relation)
    ensures DropOne(c, r).Some? <==> exists name :: LegacyLink(c, r, name)
    ensures forall name :: LegacyLink(c, r, name) ==> DropOne(c, r) == Some(c.(constraints := c.constraints - {name}))
  {
    var rel, can := Relevant(c, r.source), Candidates(c, r);
    assert can <= rel;
    if DropOne(c, r).Some? {
      var name :| name in can;
      Singleton(rel, name);
      forall n | n in c.constraints && c.constraints[n].ForeignKey? && r.source in c.constraints[n].columns
        ensures n == name
      {
        assert n in rel;
      }
      assert LegacyLink(c, r, name);
    }
    forall name | LegacyLink(c, r, name) ensures DropOne(c, r) == Some(c.(constraints := c.constraints - {name})) {
      assert rel == {name} && can == {name};
    }
  }

  /** Dropping a constraint that does not use the column does not matter to its link. */
  lemma OtherLinkDropped(c: Catalog, r: Relation, gone: string, name: string)
    requires gone in c.constraints && c.constraints[gone].ForeignKey? && r.source !in c.constraints[gone].columns
    ensures LegacyLink(c.(constraints := c.constraints - {gone}), r, name) <==> LegacyLink(c, r, name)
  {
    var d := c.(constraints := c.constraints - {gone});
    if LegacyLink(d, r, name) {
      forall n | n in c.constraints && c.constraints[n].ForeignKey? && r.source in c.constraints[n].columns
        ensures n == name
      {
        assert n in d.constraints;
      }
    }
  }

  /** The block succeeds exactly when, on the catalog it starts from, each of the two
      columns has its one legacy link; it then removes just those two and otherwise
      nothing. */
  lemma UpgradeExactly(c: Catalog)
    ensures Upgrade(c).Some? <==>
            (exists a :: LegacyLink(c, WORKSPACE_LINK, a)) && (exists b :: LegacyLink(c, TASK_LINK, b))
    ensures forall a, b :: LegacyLink(c, WORKSPACE_LINK, a) && LegacyLink(c, TASK_LINK, b) ==>
              Upgrade(c) == Some(c.(constraints := c.constraints - {a, b}))
  {
    DropOneExactly(c, WORKSPACE_LINK);
    if a :| LegacyLink(c, WORKSPACE_LINK, a) {
      var d := c.(constraints := c.constraints - {a});
      DropOneExactly(d, TASK_LINK);
      assert TASK_LINK.source !in c.constraints[a].columns;
      forall b ensures LegacyLink(d, TASK_LINK, b) <==> LegacyLink(c, TASK_LINK, b) {
        OtherLinkDropped(c, TASK_LINK, a, b);
      }
      forall b | LegacyLink(c, TASK_LINK, b) ensures d.constraints - {b} == c.constraints - {a, b} {}
    }
  }

  // ----- downgrade -----

  /** The stored links and the ids they may refer to. */
  datatype Links = Links(workspaceLinks: set<string>, workspaces: set<string>, taskLinks: set<string>, tasks: set<string>)

  predicate Dangles(l: Links) {
    !(l.workspaceLinks <= l.workspaces) || !(l.taskLinks <= l.tasks)
  }

  function Restored(c: Catalog, r: Relation): Option<Catalog> {
    if r.restored in c.constraints || !HasColumn(c, "conversations", r.source) || !HasColumn(c, r.table, r.target) then None
    else Some(c.(constraints := c.constraints[r.restored := ForeignKey([r.source], r.table, [r.target], SetNull)]))
  }

  function Downgrade(c: Catalog, l: Links): Option<Catalog> {
    if Dangles(l) then None
    else
      var first := Restored(c, WORKSPACE_LINK);
      if first.None? then None else Restored(first.value, TASK_LINK)
  }

  /** After an upgrade the downgrade goes through exactly when no link dangles and the
      two names are free, and upgrading again gives the same catalog. */
  lemma UpgradeDowngradeUpgrade(c: Catalog, l: Links)
    requires Upgrade(c).Some?
    ensures var up := Upgrade(c).value;
            && (Downgrade(up, l).Some? <==>
                  !Dangles(l) && WORKSPACE_LINK.restored !in up.constraints && TASK_LINK.restored !in up.constraints)
            && (Downgrade(up, l).Some? ==> Upgrade(Downgrade(up, l).value) == Some(up))
  {
    UpgradeExactly(c);
    var a :| LegacyLink(c, WORKSPACE_LINK, a);
    var b :| LegacyLink(c, TASK_LINK, b);
    LinksGone(c, a, b);
    if Downgrade(Upgrade(c).value, l).Some? { RestoredLinks(Upgrade(c).value, l); }
  }

  /** After an upgrade neither column is in any foreign key. */
  lemma LinksGone(c: Catalog, a: string, b: string)
    requires LegacyLink(c, WORKSPACE_LINK, a) && LegacyLink(c, TASK_LINK, b) && Upgrade(c).Some?
    requires Upgrade(c) == Some(c.(constraints := c.constraints - {a, b}))
    ensures Unlinked(Upgrade(c).value, WORKSPACE_LINK) && Unlinked(Upgrade(c).value, TASK_LINK)
  {
  }

  ghost predicate Unlinked(c: Catalog, r: Relation) {
    && HasColumn(c, "conversations", r.source) && HasColumn(c, r.table, r.target)
    && forall n :: n in c.constraints && c.constraints[n].ForeignKey? ==> r.source !in c.constraints[n].columns
  }

  lemma RestoredLinks(up: Catalog, l: Links)
    requires Unlinked(up, WORKSPACE_LINK) && Unlinked(up, TASK_LINK) && Downgrade(up, l).Some?
    ensures Upgrade(Downgrade(up, l).value) == Some(up)
  {
    var down := Downgrade(up, l).value;
    UpgradeExactly(down);
    var wsName, taskName := WORKSPACE_LINK.restored, TASK_LINK.restored;
    assert LegacyLink(down, WORKSPACE_LINK, wsName);
    assert LegacyLink(down, TASK_LINK, taskName);
    assert down.constraints - {wsName, taskName} == up.constraints;
  }

  // ----- the same by name -----

  /** The constraint is the column's link to the table's id, set to null on delete, and no
      other foreign key uses the column. */
  ghost predicate OnlyLink(c: Catalog, column: string, table: string, name: string) {
    && name in c.constraints && c.constraints[name] == ForeignKey([column], table, ["id"], SetNull)
    && forall n :: n in c.constraints && n != name && c.constraints[n].ForeignKey? ==> column !in c.constraints[n].columns
  }

  ghost predicate WorkspaceLinkIs(c: Catalog, name: string) {
    && (name == "fk_conversations_workspace_id" || name == "conversations_workspace_id_fkey")
    && OnlyLink(c, "workspace_id", "workspaces", name)
  }

  ghost predicate TaskLinkIs(c: Catalog, name: string) {
    && (name == "fk_conversations_linked_workspace_task_id" || name == "conversations_linked_workspace_task_id_fkey")
    && OnlyLink(c, "linked_workspace_task_id", "workspace_tasks", name)
  }

  /** The tables have the columns the two links join. */
  predicate HasTheColumns(c: Catalog) {
    && "conversations" in c.columns && "workspaces" in c.columns && "workspace_tasks" in c.columns
    && "workspace_id" in c.columns["conversations"] && "linked_workspace_task_id" in c.columns["conversations"]
    && "id" in c.columns["workspaces"] && "id" in c.columns["workspace_tasks"]
  }

  /** The block succeeds exactly if both links are there under one of their two names each,
      and drops these two. */
  lemma UpgradeByName(c: Catalog)
    ensures Upgrade(c).Some? <==>
            HasTheColumns(c) && (exists a :: WorkspaceLinkIs(c, a)) && exists b :: TaskLinkIs(c, b)
    ensures forall a, b :: HasTheColumns(c) && WorkspaceLinkIs(c, a) && TaskLinkIs(c, b) ==>
              Upgrade(c) == Some(Catalog(c.constraints - {a, b}, c.columns))
  {
    UpgradeExactly(c);
    forall a ensures LegacyLink(c, WORKSPACE_LINK, a) ==> WorkspaceLinkIs(c, a) {}
    forall b ensures LegacyLink(c, TASK_LINK, b) ==> TaskLinkIs(c, b) {}
    forall a ensures HasTheColumns(c) && WorkspaceLinkIs(c, a) ==> LegacyLink(c, WORKSPACE_LINK, a) {}
    forall b ensures HasTheColumns(c) && TaskLinkIs(c, b) ==> LegacyLink(c, TASK_LINK, b) {}
  }

  /** The restore goes through exactly if every stored link is to a row that is there, the
      two names are free and the columns exist; it adds the two links under these names. */
  lemma DowngradeByName(c: Catalog, l: Links)
    ensures Downgrade(c, l).Some? <==>
            && (forall x :: x in l.workspaceLinks ==> x in l.workspaces) && (forall x :: x in l.taskLinks ==> x in l.tasks)
            && "fk_conversations_workspace_id" !in c.constraints
            && "fk_conversations_linked_workspace_task_id" !in c.constraints && HasTheColumns(c)
    ensures Downgrade(c, l).Some? ==>
              Downgrade(c, l).value == Catalog(
                c.constraints["fk_conversations_workspace_id" := ForeignKey(["workspace_id"], "workspaces", ["id"], SetNull)]
                             ["fk_conversations_linked_workspace_task_id" :=
                               ForeignKey(["linked_workspace_task_id"], "workspace_tasks", ["id"], SetNull)],
                c.columns)
  {
  }

  // ----- the PL/pgSQL loop -----

  class ConversationsTable {
    var catalog: Catalog

    constructor (catalog: Catalog)
      ensures this.catalog == catalog
    {
      this.catalog := catalog;
    }

    /** The DO block: the name sets are recomputed on the catalog as the first turn left it. */
    method DropLinks() returns (raised: bool)
      modifies this
      ensures raised == Upgrade(old(catalog)).None?
      ensures catalog == if raised then old(catalog) else Upgrade(old(catalog)).value
    {
      var saved, i := catalog, 0;
      raised := false;
      while i < |RELATIONS| && !raised
        invariant 0 <= i <= 2
        invariant i == 0 ==> !raised && catalog == saved
        invariant i == 1 ==> raised == DropOne(saved, WORKSPACE_LINK).None?
                             && (!raised ==> Some(catalog) == DropOne(saved, WORKSPACE_LINK))
        invariant i == 2 ==> raised == Upgrade(saved).None? && (!raised ==> Some(catalog) == Upgrade(saved))
        decreases 2 - i
      {
        var r := RELATIONS[i];
        var relevant := Relevant(catalog, r.source);
        var candidates := Candidates(catalog, r);
        if !HasColumn(catalog, "conversations", r.source) || !HasColumn(catalog, r.table, r.target)
           || !(relevant <= r.allowed) || |relevant| != 1 || |candidates| != 1 {
          raised := true;
        } else {
          catalog := catalog.(constraints := catalog.constraints - candidates);
        }
        i := i + 1;
      }
      if raised {
        catalog := saved;
      }
    }
  }
}
