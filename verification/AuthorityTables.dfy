/** What each row write does, said of the tables alone
    (alembic/versions/d4e9f0a1b2c3_add_workspace_collaboration_authority.py:207-390). */
module AuthorityTables {
  import opened Common
  import opened WorkspaceAuthority

  // ----- to which workspace a row belongs -----

  /** The plan is a row of the plans table that names the workspace (lines 273-284). */
  predicate PlanIn(db: Db, plan: string, w: string) {
    Key(Plans, plan) in db.children && db.children[Key(Plans, plan)].workspace == Some(w)
  }

  /** The conversation is joined to the workspace by id, tenant and project, and some
      session attempt has both (lines 285-303). */
  ghost predicate SessionIn(db: Db, conversation: string, w: string) {
    && conversation in db.conversations && w in db.workspaces
    && db.conversations[conversation] == Conversation(Some(w), db.workspaces[w].tenant, db.workspaces[w].project)
    && exists id :: Key(TaskSessionAttempts, id) in db.children
         && db.children[Key(TaskSessionAttempts, id)].conversation == Some(conversation)
         && db.children[Key(TaskSessionAttempts, id)].workspace == Some(w)
  }

  predicate ChildIn(row: Option<Child>, w: string) { row.Some? && row.value.workspace == Some(w) }

  predicate NodeIn(db: Db, row: Option<Node>, w: string) { row.Some? && PlanIn(db, row.value.plan, w) }

  ghost predicate RecordIn(db: Db, row: Option<Record>, w: string) { row.Some? && SessionIn(db, row.value.conversation, w) }

  lemma PlanOwnerIs(db: Db, plan: string, w: string)
    ensures PlanOwner(db, plan) == Some(w) <==> PlanIn(db, plan, w)
  {
  }

  lemma RecordOwnerIs(db: Db, conversation: string, w: string)
    ensures RecordOwner(db, conversation) == Some(w) <==> SessionIn(db, conversation, w)
  {
    if RecordOwner(db, conversation) == Some(w) {
      var k :| k in db.children && k.table == TaskSessionAttempts
               && db.children[k].conversation == Some(conversation) && db.children[k].workspace == Some(w);
      assert k == Key(TaskSessionAttempts, k.id);
    }
  }

  // ----- what a write does to the tables -----

  /** The revision of each live workspace rises by one if the row belonged or belongs to
      it, and no other revision changes. */
  ghost predicate Raised(db: Db, after: Db, before: iset<string>, later: iset<string>) {
    forall w :: Revision(after, w) ==
                Revision(db, w) + if w in after.workspaces && (w in before || w in later) then 1 else 0
  }

  function Put<K, R>(m: map<K, R>, k: K, row: Option<R>): map<K, R> {
    match row case None => m - {k} case Some(r) => m[k := r]
  }

  lemma StepRaises(db: Db, w: Write, before: iset<string>, later: iset<string>)
    requires !w.WorkspaceDelete? && Touches(db, w)
    requires forall x :: OwnerBefore(db, Written(db, w), w) == Some(x) <==> x in before
    requires forall x :: OwnerAfter(Written(db, w), w) == Some(x) <==> x in later
    ensures Raised(db, Step(db, w), before, later)
  {
    forall x ensures Revision(Step(db, w), x) ==
                     Revision(db, x) + if x in Step(db, w).workspaces && (x in before || x in later) then 1 else 0 {
      WriteBumpsExactly(db, w, x);
      OnlyAuthorities(db, w);
    }
  }

  lemma BumpOnlyAuthorities(db: Db, target: Option<string>)
    ensures Bump(db, target).(authorities := map[]) == db.(authorities := map[])
  {
  }

  lemma BumpOwnersOnlyAuthorities(db: Db, op: RowOp, before: Option<string>, after: Option<string>)
    ensures BumpOwners(db, op, before, after).(authorities := map[]) == db.(authorities := map[])
  {
    BumpOnlyAuthorities(db, before);
    BumpOnlyAuthorities(db, after);
    BumpOnlyAuthorities(Bump(db, before), after);
  }

  /** The trigger writes the authorities and nothing else. */
  lemma OnlyAuthorities(db: Db, w: Write)
    ensures Step(db, w).(authorities := map[]) == Written(db, w).(authorities := map[])
  {
    var after := Written(db, w);
    if Touches(db, w) {
      BumpOwnersOnlyAuthorities(after, OpOfWrite(db, w), OwnerBefore(db, after, w), OwnerAfter(after, w));
    }
  }

  /** A row of one of the thirteen tables. */
  lemma ChildWriteExactly(db: Db, k: Key, row: Option<Child>)
    ensures var t := Step(db, ChildWrite(k, row));
            && t == db.(children := Put(db.children, k, row), authorities := t.authorities)
            && Raised(db, t, iset w | k in db.children && ChildIn(Some(db.children[k]), w), iset w | ChildIn(row, w))
  {
    var w := ChildWrite(k, row);
    OnlyAuthorities(db, w);
    if Touches(db, w) {
      StepRaises(db, w, iset w | k in db.children && ChildIn(Some(db.children[k]), w), iset w | ChildIn(row, w));
    }
  }

  /** A plan node: the revisions of its old and its new plan's workspace. */
  lemma NodeWriteExactly(db: Db, n: string, row: Option<Node>)
    ensures var t := Step(db, NodeWrite(n, row));
            && t == db.(nodes := Put(db.nodes, n, row), authorities := t.authorities)
            && Raised(db, t, iset w | n in db.nodes && NodeIn(db, Some(db.nodes[n]), w), iset w | NodeIn(db, row, w))
  {
    var w := NodeWrite(n, row);
    OnlyAuthorities(db, w);
    if Touches(db, w) {
      forall x, p ensures PlanOwner(Written(db, w), p) == Some(x) <==> PlanIn(db, p, x) { PlanOwnerIs(db, p, x); }
      StepRaises(db, w, iset w | n in db.nodes && NodeIn(db, Some(db.nodes[n]), w), iset w | NodeIn(db, row, w));
    }
  }

  /** A tool execution record: the workspaces its old and new conversation is joined to. */
  lemma RecordWriteExactly(db: Db, r: string, row: Option<Record>)
    ensures var t := Step(db, RecordWrite(r, row));
            && t == db.(records := Put(db.records, r, row), authorities := t.authorities)
            && Raised(db, t, iset w | r in db.records && RecordIn(db, Some(db.records[r]), w), iset w | RecordIn(db, row, w))
  {
    var w := RecordWrite(r, row);
    OnlyAuthorities(db, w);
    if Touches(db, w) {
      forall x, c ensures RecordOwner(Written(db, w), c) == Some(x) <==> SessionIn(db, c, x) {
        RecordOwnerIs(Written(db, w), c, x);
      }
      StepRaises(db, w, iset w | r in db.records && RecordIn(db, Some(db.records[r]), w), iset w | RecordIn(db, row, w));
    }
  }

  /** A workspace row raises that workspace's revision by one; a conversation row raises
      none. */
  lemma WorkspaceWriteExactly(db: Db, x: string, row: Workspace)
    ensures var t := Step(db, WorkspaceWrite(x, row));
            && t == db.(workspaces := db.workspaces[x := row], authorities := t.authorities)
            && Raised(db, t, iset{}, iset{x})
  {
    var w := WorkspaceWrite(x, row);
    OnlyAuthorities(db, w);
    forall y ensures Revision(Step(db, w), y) ==
                     Revision(db, y) + if y in Step(db, w).workspaces && y in iset{x} then 1 else 0 {
      WriteBumpsExactly(db, w, y);
    }
  }

  lemma ConversationWriteExactly(db: Db, c: string, row: Option<Conversation>)
    ensures Step(db, ConversationWrite(c, row)) == db.(conversations := Put(db.conversations, c, row))
  {
  }

  /** Deleting a workspace deletes its authority, its child rows and the nodes of its plans,
      unlinks its conversations, and leaves every other row and revision. */
  lemma WorkspaceDeleteExactly(db: Db, x: string)
    ensures var t := Step(db, WorkspaceDelete(x));
            && t.workspaces == db.workspaces - {x} && t.authorities == db.authorities - {x} && t.records == db.records
            && (forall k :: k in t.children <==> k in db.children && !ChildIn(Some(db.children[k]), x))
            && (forall k :: k in t.children ==> t.children[k] == db.children[k])
            && (forall n :: n in t.nodes <==> n in db.nodes && !NodeIn(db, Some(db.nodes[n]), x))
            && (forall n :: n in t.nodes ==> t.nodes[n] == db.nodes[n])
            && t.conversations.Keys == db.conversations.Keys
            && (forall c :: c in db.conversations ==>
                  t.conversations[c] == if db.conversations[c].workspace == Some(x)
                                        then Conversation(None, db.conversations[c].tenant, db.conversations[c].project)
                                        else db.conversations[c])
  {
    forall p ensures PlanOwner(db, p) == Some(x) <==> PlanIn(db, p, x) { PlanOwnerIs(db, p, x); }
  }

  // ----- what a workspace contains -----

  /** The contents the revision stamps: the workspace's row, its child rows, and the nodes
      whose plan row names it. */
  lemma ContentsByTable(db: Db, w: string)
    requires w in db.workspaces
    ensures var c := ContentsOf(db, w);
            && c.row == db.workspaces[w]
            && (forall k :: k in c.rows <==> k in db.children && db.children[k].workspace == Some(w))
            && (forall k :: k in c.rows ==> c.rows[k] == db.children[k])
            && (forall n :: n in c.planNodes <==> n in db.nodes && PlanIn(db, db.nodes[n].plan, w))
            && (forall n :: n in c.planNodes ==> c.planNodes[n] == db.nodes[n])
  {
    forall p ensures PlanOwner(db, p) == Some(w) <==> PlanIn(db, p, w) { PlanOwnerIs(db, p, w); }
  }

  // ----- the backfill and the upsert -----

  /** The backfill adds an authority at revision 0 for each workspace that has none and
      changes nothing else. */
  lemma BackfillExactly(db: Db)
    ensures var t := Backfill(db);
            && t == db.(authorities := t.authorities) && t.authorities.Keys == db.authorities.Keys + db.workspaces.Keys
            && (forall w :: w in db.authorities ==> t.authorities[w] == db.authorities[w])
            && (forall w :: w in db.workspaces && w !in db.authorities ==>
                  t.authorities[w] == Authority(db.workspaces[w].tenant, db.workspaces[w].project, 0))
  {
  }

  /** The upsert of one workspace: the row's tenant and project, and 1 or one more. */
  lemma BumpExactly(db: Db, w: string)
    requires w in db.workspaces
    ensures var t := Bump(db, Some(w));
            && t == db.(authorities := t.authorities) && t.authorities.Keys == db.authorities.Keys + {w}
            && (forall x :: x in db.authorities && x != w ==> t.authorities[x] == db.authorities[x])
            && t.authorities[w].tenant == db.workspaces[w].tenant && t.authorities[w].project == db.workspaces[w].project
            && t.authorities[w].revision == if w in db.authorities then db.authorities[w].revision + 1 else 1
  {
  }
}
