/** Workspace revision authority
    (alembic/versions/d4e9f0a1b2c3_add_workspace_collaboration_authority.py:180-390):
    row triggers bump the revision of the workspaces a write belongs to. */
module WorkspaceAuthority {
  import opened Common

  /** The tables whose rows name their workspace (lines 21-35). */
  datatype Table =
    | Members | Agents | Tasks | TaskSessionAttempts | Objectives | Posts | Replies | Files
    | Genes | TopologyNodes | TopologyEdges | Plans | PlanOutbox

  datatype Child = Child(workspace: Option<string>, conversation: Option<string>, content: string)
  datatype Node = Node(plan: string, content: string)
  datatype Record = Record(conversation: string, content: string)
  datatype Conversation = Conversation(workspace: Option<string>, tenant: string, project: string)
  datatype Workspace = Workspace(tenant: string, project: string, content: string)
  datatype Authority = Authority(tenant: string, project: string, revision: nat)

  datatype Key = Key(table: Table, id: string)

  datatype Db = Db(
    workspaces: map<string, Workspace>,
    children: map<Key, Child>,
    nodes: map<string, Node>,
    records: map<string, Record>,
    conversations: map<string, Conversation>,
    authorities: map<string, Authority>)

  // ----- the two trigger functions -----

  /** `bump_workspace_collaboration_authority_for_workspace` (lines 216-249), outside
      canonical mode. */
  function Bump(db: Db, target: Option<string>): Db {
    if target.None? || target.value !in db.workspaces then db
    else
      var w := target.value;
      var row := db.workspaces[w];
      var revision := if w in db.authorities then db.authorities[w].revision + 1 else 1;
      db.(authorities := db.authorities[w := Authority(row.tenant, row.project, revision)])
  }

  /** TG_OP. */
  datatype RowOp = Inserted | Updated | Deleted

  /** The tail of `bump_workspace_collaboration_authority` (lines 331-348). */
  function BumpOwners(db: Db, op: RowOp, before: Option<string>, after: Option<string>): Db {
    match op
    case Deleted => Bump(db, before)
    case Inserted => Bump(db, after)
    case Updated => Bump(if before != after then Bump(db, before) else db, after)
  }

  function PlanOwner(db: Db, plan: string): Option<string> {
    if Key(Plans, plan) in db.children then db.children[Key(Plans, plan)].workspace else None
  }

  /** Lines 285-303. */
  function RecordOwner(db: Db, conversation: string): Option<string> {
    if conversation !in db.conversations || db.conversations[conversation].workspace.None? then None
    else
      var c := db.conversations[conversation];
      var w := c.workspace.value;
      if && w in db.workspaces && c.tenant == db.workspaces[w].tenant && c.project == db.workspaces[w].project
         && exists k :: k in db.children && k.table == TaskSessionAttempts
                        && db.children[k].conversation == Some(conversation) && db.children[k].workspace == Some(w)
      then Some(w) else None
  }

  // ----- row writes -----

  /** A row write of one statement.  `row: None` deletes. */
  datatype Write =
    | ChildWrite(key: Key, child: Option<Child>)
    | NodeWrite(node: string, nodeRow: Option<Node>)
    | RecordWrite(record: string, recordRow: Option<Record>)
    | ConversationWrite(conversation: string, conversationRow: Option<Conversation>)
    | WorkspaceWrite(workspace: string, workspaceRow: Workspace)
    | WorkspaceDelete(gone: string)

  function OpOf(present: bool, written: bool): RowOp
    requires present || written
  {
    if !present then Inserted else if written then Updated else Deleted
  }

  function Lookup<K, R>(m: map<K, R>, k: K): Option<R> {
    if k in m then Some(m[k]) else None
  }

  function Store<K, R>(m: map<K, R>, k: K, row: Option<R>): map<K, R> {
    if row.Some? then m[k := row.value] else m - {k}
  }

  function ChildOwner(row: Option<Child>): Option<string> {
    if row.Some? then row.value.workspace else None
  }

  function NodeOwner(db: Db, row: Option<Node>): Option<string> {
    if row.Some? then PlanOwner(db, row.value.plan) else None
  }

  function RecordRowOwner(db: Db, row: Option<Record>): Option<string> {
    if row.Some? then RecordOwner(db, row.value.conversation) else None
  }

  /** The owners a write's trigger sees, in the state after the write. */
  function OwnerBefore(db: Db, after: Db, w: Write): Option<string> {
    match w
    case ChildWrite(k, _) => ChildOwner(Lookup(db.children, k))
    case NodeWrite(n, _) => NodeOwner(after, Lookup(db.nodes, n))
    case RecordWrite(r, _) => RecordRowOwner(after, Lookup(db.records, r))
    case WorkspaceWrite(x, _) => if x in db.workspaces then Some(x) else None
    case _ => None
  }

  function OwnerAfter(after: Db, w: Write): Option<string> {
    match w
    case ChildWrite(_, row) => ChildOwner(row)
    case NodeWrite(_, row) => NodeOwner(after, row)
    case RecordWrite(_, row) => RecordRowOwner(after, row)
    case WorkspaceWrite(x, _) => Some(x)
    case _ => None
  }

  /** Deleting an absent row touches nothing and fires nothing. */
  predicate Touches(db: Db, w: Write) {
    match w
    case ChildWrite(k, row) => k in db.children || row.Some?
    case NodeWrite(n, row) => n in db.nodes || row.Some?
    case RecordWrite(r, row) => r in db.records || row.Some?
    case ConversationWrite(_, _) => false
    case WorkspaceWrite(_, _) => true
    case WorkspaceDelete(_) => false
  }

  function OpOfWrite(db: Db, w: Write): RowOp
    requires Touches(db, w)
  {
    match w
    case ChildWrite(k, row) => OpOf(k in db.children, row.Some?)
    case NodeWrite(n, row) => OpOf(n in db.nodes, row.Some?)
    case RecordWrite(r, row) => OpOf(r in db.records, row.Some?)
    case WorkspaceWrite(x, _) => OpOf(x in db.workspaces, true)
  }

  /** The written rows, before any trigger.  Deleting a workspace cascades to its child
      rows, to the nodes of its plans and to its authority, and unlinks conversations;
      the child triggers then find no workspace to bump. */
  function Written(db: Db, w: Write): Db {
    match w
    case ChildWrite(k, row) => db.(children := Store(db.children, k, row))
    case NodeWrite(n, row) => db.(nodes := Store(db.nodes, n, row))
    case RecordWrite(r, row) => db.(records := Store(db.records, r, row))
    case ConversationWrite(c, row) => db.(conversations := Store(db.conversations, c, row))
    case WorkspaceWrite(x, row) => db.(workspaces := db.workspaces[x := row])
    case WorkspaceDelete(x) => db.(
      workspaces := db.workspaces - {x},
      children := map k | k in db.children && db.children[k].workspace != Some(x) :: db.children[k],
      nodes := map n | n in db.nodes && PlanOwner(db, db.nodes[n].plan) != Some(x) :: db.nodes[n],
      conversations := map c | c in db.conversations ::
        if db.conversations[c].workspace == Some(x) then db.conversations[c].(workspace := None) else db.conversations[c],
      authorities := db.authorities - {x})
  }

  /** One row write outside canonical mode, with its trigger. */
  function Step(db: Db, w: Write): Db {
    var after := Written(db, w);
    if Touches(db, w) then BumpOwners(after, OpOfWrite(db, w), OwnerBefore(db, after, w), OwnerAfter(after, w))
    else after
  }

  /** The backfill: revision 0 for every workspace that has no authority (lines 180-202). */
  function Backfill(db: Db): Db {
    db.(authorities := map w | w in db.workspaces.Keys + db.authorities.Keys ::
      if w in db.authorities then db.authorities[w]
      else Authority(db.workspaces[w].tenant, db.workspaces[w].project, 0))
  }

  function Revision(db: Db, w: string): nat {
    if w in db.authorities then db.authorities[w].revision else 0
  }

  // ----- exact accounting -----

  lemma BumpIsExact(db: Db, target: Option<string>, x: string)
    ensures Revision(Bump(db, target), x) ==
            Revision(db, x) + if target == Some(x) && x in db.workspaces then 1 else 0
  {
  }

  predicate Fits(op: RowOp, before: Option<string>, after: Option<string>) {
    (op == Inserted ==> before == None) && (op == Deleted ==> after == None)
  }

  lemma BumpOwnersIsExact(db: Db, op: RowOp, before: Option<string>, after: Option<string>, x: string)
    requires Fits(op, before, after)
    ensures Revision(BumpOwners(db, op, before, after), x) ==
            Revision(db, x) + if x in db.workspaces && (before == Some(x) || after == Some(x)) then 1 else 0
  {
    BumpIsExact(db, before, x);
    BumpIsExact(db, after, x);
    BumpIsExact(Bump(db, before), after, x);
  }

  lemma OwnersFit(db: Db, w: Write)
    requires Touches(db, w)
    ensures Fits(OpOfWrite(db, w), OwnerBefore(db, Written(db, w), w), OwnerAfter(Written(db, w), w))
  {
  }

  /** A row write raises the revision of its old and its new owner by exactly one, once
      if they coincide, and of no other workspace. */
  lemma WriteBumpsExactly(db: Db, w: Write, x: string)
    requires !w.WorkspaceDelete?
    ensures var after := Written(db, w);
            Revision(Step(db, w), x) == Revision(db, x) +
              if Touches(db, w) && x in after.workspaces
                 && (OwnerBefore(db, after, w) == Some(x) || OwnerAfter(after, w) == Some(x)) then 1 else 0
  {
    var after := Written(db, w);
    assert after.authorities == db.authorities;
    if Touches(db, w) {
      OwnersFit(db, w);
      BumpOwnersIsExact(after, OpOfWrite(db, w), OwnerBefore(db, after, w), OwnerAfter(after, w), x);
    }
  }

  // ----- the authority mirrors its workspace -----

  /** Every workspace has an authority with its tenant and project, and nothing else has. */
  ghost predicate Mirrors(db: Db) {
    && db.authorities.Keys == db.workspaces.Keys
    && forall w :: w in db.authorities ==>
         db.authorities[w].tenant == db.workspaces[w].tenant && db.authorities[w].project == db.workspaces[w].project
  }

  lemma BackfillMirrors(db: Db)
    requires db.authorities == map[]
    ensures Mirrors(Backfill(db)) && forall w :: w in db.workspaces ==> Revision(Backfill(db), w) == 0
  {
  }

  lemma BumpMirrors(db: Db, target: Option<string>)
    requires Mirrors(db)
    ensures Mirrors(Bump(db, target))
  {
  }

  lemma BumpOwnersMirrors(db: Db, op: RowOp, before: Option<string>, after: Option<string>)
    requires Mirrors(db)
    ensures Mirrors(BumpOwners(db, op, before, after))
  {
    BumpMirrors(db, before);
    BumpMirrors(db, after);
    BumpMirrors(Bump(db, before), after);
  }

  /** The trigger on the workspace row itself brings its authority up to date. */
  lemma WorkspaceWriteMirrors(db: Db, x: string, row: Workspace)
    requires Mirrors(db)
    ensures Mirrors(Bump(db.(workspaces := db.workspaces[x := row]), Some(x)))
  {
  }

  lemma StepMirrors(db: Db, w: Write)
    requires Mirrors(db)
    ensures Mirrors(Step(db, w))
  {
    var after := Written(db, w);
    if w.WorkspaceWrite? {
      WorkspaceWriteMirrors(db, w.workspace, w.workspaceRow);
    } else if Touches(db, w) {
      assert after.workspaces == db.workspaces && after.authorities == db.authorities;
      BumpOwnersMirrors(after, OpOfWrite(db, w), OwnerBefore(db, after, w), OwnerAfter(after, w));
    }
  }

  // ----- the revision is a faithful version stamp -----

  /** All that belongs to a workspace: its row, its rows in the thirteen child tables
      and the nodes of its plans. */
  datatype Contents = Contents(row: Workspace, rows: map<Key, Child>, planNodes: map<string, Node>)

  function ContentsOf(db: Db, w: string): Contents
    requires w in db.workspaces
  {
    Contents(
      db.workspaces[w],
      map k | k in db.children && db.children[k].workspace == Some(w) :: db.children[k],
      map n | n in db.nodes && PlanOwner(db, db.nodes[n].plan) == Some(w) :: db.nodes[n])
  }

  lemma BumpKeepsContents(db: Db, target: Option<string>, x: string)
    requires x in db.workspaces
    ensures x in Bump(db, target).workspaces && ContentsOf(Bump(db, target), x) == ContentsOf(db, x)
  {
    var b := Bump(db, target);
    assert b.children == db.children && b.nodes == db.nodes && b.workspaces == db.workspaces;
    assert forall p :: PlanOwner(b, p) == PlanOwner(db, p);
  }

  lemma BumpOwnersKeepsContents(db: Db, op: RowOp, before: Option<string>, after: Option<string>, x: string)
    requires x in db.workspaces
    ensures x in BumpOwners(db, op, before, after).workspaces
    ensures ContentsOf(BumpOwners(db, op, before, after), x) == ContentsOf(db, x)
  {
    BumpKeepsContents(db, before, x);
    BumpKeepsContents(db, after, x);
    BumpKeepsContents(Bump(db, before), after, x);
  }

  /** A write to none of a workspace's rows leaves its contents as they are. */
  lemma WrittenElsewhere(db: Db, w: Write, x: string)
    requires x in db.workspaces && x in Written(db, w).workspaces
    requires Touches(db, w) ==>
               OwnerBefore(db, Written(db, w), w) != Some(x) && OwnerAfter(Written(db, w), w) != Some(x)
    ensures ContentsOf(Written(db, w), x) == ContentsOf(db, x)
  {
    match w
    case ChildWrite(k, row) => ChildElsewhere(db, k, row, x);
    case NodeWrite(n, row) => NodeElsewhere(db, n, row, x);
    case WorkspaceDelete(y) => DeleteElsewhere(db, y, x);
    case _ => SameContents(db, Written(db, w), x);
  }

  lemma SameContents(db: Db, after: Db, x: string)
    requires x in db.workspaces && x in after.workspaces && after.workspaces[x] == db.workspaces[x]
    requires after.children == db.children && after.nodes == db.nodes
    ensures ContentsOf(after, x) == ContentsOf(db, x)
  {
    assert forall p :: PlanOwner(after, p) == PlanOwner(db, p);
  }

  lemma NodeElsewhere(db: Db, n: string, row: Option<Node>, x: string)
    requires x in db.workspaces && NodeOwner(db, Lookup(db.nodes, n)) != Some(x) && NodeOwner(db, row) != Some(x)
    ensures ContentsOf(db.(nodes := Store(db.nodes, n, row)), x) == ContentsOf(db, x)
  {
    var after := db.(nodes := Store(db.nodes, n, row));
    assert forall p :: PlanOwner(after, p) == PlanOwner(db, p);
    assert ContentsOf(after, x).planNodes == ContentsOf(db, x).planNodes;
  }

  lemma DeleteElsewhere(db: Db, y: string, x: string)
    requires x in db.workspaces && x != y
    ensures ContentsOf(Written(db, WorkspaceDelete(y)), x) == ContentsOf(db, x)
  {
    var after := Written(db, WorkspaceDelete(y));
    assert ContentsOf(after, x).rows == ContentsOf(db, x).rows;
    assert forall p :: PlanOwner(after, p) == Some(x) <==> PlanOwner(db, p) == Some(x);
    assert ContentsOf(after, x).planNodes == ContentsOf(db, x).planNodes;
  }

  lemma ChildElsewhere(db: Db, k: Key, row: Option<Child>, x: string)
    requires x in db.workspaces
    requires ChildOwner(Lookup(db.children, k)) != Some(x) && ChildOwner(row) != Some(x)
    ensures ContentsOf(db.(children := Store(db.children, k, row)), x) == ContentsOf(db, x)
  {
    var after := db.(children := Store(db.children, k, row));
    assert ContentsOf(after, x).rows == ContentsOf(db, x).rows;
    assert forall p :: PlanOwner(after, p) == Some(x) <==> PlanOwner(db, p) == Some(x);
    assert ContentsOf(after, x).planNodes == ContentsOf(db, x).planNodes;
  }

  /** One step either leaves a living workspace's contents alone or raises its revision. */
  lemma StepIsStamped(db: Db, w: Write, x: string)
    requires x in db.workspaces && x in Step(db, w).workspaces
    ensures Revision(Step(db, w), x) >= Revision(db, x)
    ensures Revision(Step(db, w), x) == Revision(db, x) ==> ContentsOf(Step(db, w), x) == ContentsOf(db, x)
  {
    var after := Written(db, w);
    if Touches(db, w) {
      var before, later := OwnerBefore(db, after, w), OwnerAfter(after, w);
      WriteBumpsExactly(db, w, x);
      BumpOwnersKeepsContents(after, OpOfWrite(db, w), before, later, x);
      if before != Some(x) && later != Some(x) { WrittenElsewhere(db, w, x); }
    } else {
      WrittenElsewhere(db, w, x);
      if !w.WorkspaceDelete? { WriteBumpsExactly(db, w, x); }
    }
  }

  // ----- whole runs -----

  ghost predicate Alive(states: seq<Db>, lo: nat, hi: nat, x: string) {
    lo <= hi < |states| && forall i :: lo <= i <= hi ==> x in states[i].workspaces
  }

  /** While a workspace lives its revision never decreases, and equal revisions at two
      points of a run mean equal contents at those points. */
  lemma {:induction false} RevisionIsFaithful(states: seq<Db>, writes: seq<Write>, lo: nat, hi: nat, x: string)
    requires IsRun(Step, states, writes) && Alive(states, lo, hi, x)
    ensures Revision(states[lo], x) <= Revision(states[hi], x)
    ensures Revision(states[lo], x) == Revision(states[hi], x) ==>
              ContentsOf(states[lo], x) == ContentsOf(states[hi], x)
    decreases hi
  {
    if lo < hi {
      RevisionIsFaithful(states, writes, lo, hi - 1, x);
      assert x in states[hi - 1].workspaces && x in states[hi].workspaces;
      assert states[hi - 1 + 1] == Step(states[hi - 1], writes[hi - 1]);
      StepIsStamped(states[hi - 1], writes[hi - 1], x);
    }
  }

  /** From the backfill on, in every reachable state each authority carries the tenant
      and project of its workspace. */
  lemma {:induction false} RunMirrors(states: seq<Db>, writes: seq<Write>, i: nat)
    requires IsRun(Step, states, writes) && Mirrors(states[0]) && i < |states|
    ensures Mirrors(states[i])
  {
    if i > 0 {
      RunMirrors(states, writes, i - 1);
      StepMirrors(states[i - 1], writes[i - 1]);
    }
  }

  // ----- the triggers as updates of the tables -----

  class Database {
    var workspaces: map<string, Workspace>
    var children: map<Key, Child>
    var nodes: map<string, Node>
    var records: map<string, Record>
    var conversations: map<string, Conversation>
    var authorities: map<string, Authority>

    constructor (db: Db)
      ensures State() == db
    {
      workspaces, children, nodes := db.workspaces, db.children, db.nodes;
      records, conversations, authorities := db.records, db.conversations, db.authorities;
    }

    function State(): Db
      reads this
    {
      Db(workspaces, children, nodes, records, conversations, authorities)
    }

    /** The upsert on the authority row. */
    method BumpFor(target: Option<string>)
      modifies this`authorities
      ensures State() == Bump(old(State()), target)
    {
      if target.None? {
        return;
      }
      var w := target.value;
      if w in workspaces {
        var revision := 1;
        if w in authorities {
          revision := authorities[w].revision + 1;
        }
        authorities := authorities[w := Authority(workspaces[w].tenant, workspaces[w].project, revision)];
      }
    }

    /** The row trigger. */
    method AfterRow(op: RowOp, before: Option<string>, after: Option<string>)
      modifies this`authorities
      ensures State() == BumpOwners(old(State()), op, before, after)
    {
      if op == Deleted {
        BumpFor(before);
      } else if op == Inserted {
        BumpFor(after);
      } else {
        if before != after {
          BumpFor(before);
        }
        BumpFor(after);
      }
    }

    /** A statement's row write followed by its trigger. */
    method Apply(w: Write)
      modifies this
      ensures State() == Step(old(State()), w)
    {
      var db := State();
      var after := Written(db, w);
      workspaces, children, nodes := after.workspaces, after.children, after.nodes;
      records, conversations, authorities := after.records, after.conversations, after.authorities;
      if Touches(db, w) {
        AfterRow(OpOfWrite(db, w), OwnerBefore(db, after, w), OwnerAfter(after, w));
      }
    }
  }
}
