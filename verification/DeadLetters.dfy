/** Dead-letter attentions over the leased outboxes: the outbox rows and their checks
    (alembic/versions/7d15f4b8c9e3_add_workspace_task_dispatch_outbox.py:27-179,
    alembic/versions/f184bcdba7ea_add_workspace_autonomy_progression_.py:37-170), the
    attention table, its triggers and the backfill
    (alembic/versions/a72d9c31e5bf_add_workspace_autonomy_judgment_claims.py:163-546). */
module DeadLetters {
  import opened Common

  datatype Kind = Progression | Bootstrap | Dispatch

  /** `Leased` is 'processing' or 'delivering', `Finished` is 'completed' or 'delivered'. */
  datatype Status = Pending | Leased | Finished | DeadLetter

  datatype Scope = Scope(tenant: string, project: string, workspace: string)

  /** The columns no update may change.  `task` is the progression's root task or the
      dispatched task, `request` the progression's tick or the dispatch's delivery
      request, `binding` the progression's agent binding. */
  datatype Snapshot = Snapshot(
    scope: Scope, task: string, request: string, binding: string, title: string, createdAt: int, payload: string)

  /** `result` is the progression's execution task; for a bootstrap it is there when both
      the objective and the root task are named. */
  datatype Row = Row(
    fixed: Snapshot, status: Status, attempts: int, maxAttempts: int, nextAttemptAt: int,
    leaseOwner: Option<string>, leaseExpiresAt: Option<int>, leaseGeneration: int,
    result: Option<string>, finishedAt: Option<int>, lastError: Option<string>)

  datatype Key = Key(kind: Kind, id: string)

  /** Rows of other tables that an outbox row refers to. */
  datatype Parent = Profile(scope: Scope) | Tick(scope: Scope, id: string) | Binding(scope: Scope, id: string)

  datatype TaskKey = TaskKey(scope: Scope, id: string)
  datatype Task = Task(role: Option<string>, rootGoal: Option<string>)

  datatype Attention = Attention(
    scope: Scope, root: Option<string>, reason: string, open: bool, createdAt: int,
    resolvedAt: Option<int>, resolvedBy: Option<string>)

  datatype State = State(
    parents: set<Parent>, tasks: map<TaskKey, Task>, outbox: map<Key, Row>, attentions: map<Key, Attention>)

  // ----- checks -----

  predicate AtLeastZero(t: Option<int>) { t.Some? ==> t.value >= 0 }

  /** The status, attempt, timestamp, lease, completion and title checks of a row. */
  predicate RowOk(kind: Kind, r: Row) {
    && 0 <= r.attempts <= r.maxAttempts && r.maxAttempts > 0
    && r.nextAttemptAt >= 0 && r.fixed.createdAt >= 0 && r.leaseGeneration >= 0
    && AtLeastZero(r.leaseExpiresAt) && AtLeastZero(r.finishedAt)
    && (if r.status == Leased then r.leaseOwner.Some? && r.leaseExpiresAt.Some?
        else r.leaseOwner.None? && r.leaseExpiresAt.None?)
    && (if r.status == Finished then r.finishedAt.Some? && (kind != Dispatch ==> r.result.Some?)
        else r.finishedAt.None?)
    && (kind == Bootstrap ==> !Blank(r.fixed.title))
  }

  predicate Blank(s: string) { forall i :: 0 <= i < |s| ==> s[i] == ' ' }

  /** The checks of an attention row. */
  predicate AttentionChecks(k: Key, a: Attention) {
    && (k.kind == Bootstrap <==> a.root.None?)
    && !Blank(a.reason) && a.createdAt >= 0 && AtLeastZero(a.resolvedAt)
    && (if a.open then a.resolvedAt.None? && a.resolvedBy.None? else a.resolvedAt.Some? && a.resolvedBy.Some?)
  }

  /** With its foreign keys. */
  predicate AttentionOk(s: State, k: Key, a: Attention) {
    AttentionChecks(k, a) && Profile(a.scope) in s.parents && (a.root.Some? ==> TaskKey(a.scope, a.root.value) in s.tasks)
  }

  /** Foreign keys of an outbox row; a null execution task is not compared. */
  predicate RowRefs(s: State, kind: Kind, r: Row) {
    && Profile(r.fixed.scope) in s.parents
    && (kind != Bootstrap ==> TaskKey(r.fixed.scope, r.fixed.task) in s.tasks)
    && (kind == Progression ==>
          && Tick(r.fixed.scope, r.fixed.request) in s.parents
          && Binding(r.fixed.scope, r.fixed.binding) in s.parents
          && NamesTask(s, r))
  }

  predicate NamesTask(s: State, r: Row) {
    r.result.Some? ==> TaskKey(r.fixed.scope, r.result.value) in s.tasks
  }

  /** The value of the table's own unique column: the tick of a progression, the
      delivery request of a dispatch, the workspace of a bootstrap. */
  function UniqueValue(kind: Kind, r: Row): string {
    if kind == Bootstrap then r.fixed.scope.workspace else r.fixed.request
  }

  predicate Collides(s: State, kind: Kind, r: Row) {
    exists j :: j in s.outbox && j.kind == kind && UniqueValue(kind, s.outbox[j]) == UniqueValue(kind, r)
  }

  // ----- triggers -----

  /** The join of the dispatch trigger (lines 423-437): the goal root an execution task
      names in its own scope. */
  function GoalRoot(s: State, scope: Scope, task: string): Option<string> {
    var k := TaskKey(scope, task);
    if k in s.tasks && s.tasks[k].role == Some("execution_task") && s.tasks[k].rootGoal.Some?
       && TaskKey(scope, s.tasks[k].rootGoal.value) in s.tasks
       && s.tasks[TaskKey(scope, s.tasks[k].rootGoal.value)].role == Some("goal_root")
    then s.tasks[k].rootGoal else None
  }

  function RootOf(s: State, kind: Kind, r: Row): Option<string> {
    match kind
    case Progression => Some(r.fixed.task)
    case Bootstrap => None
    case Dispatch => GoalRoot(s, r.fixed.scope, r.fixed.task)
  }

  function DefaultReason(kind: Kind): string {
    match kind
    case Progression => "autonomy progression exhausted its retry budget"
    case Bootstrap => "autonomy bootstrap exhausted its retry budget"
    case Dispatch => "task dispatch exhausted its retry budget"
  }

  function Reason(kind: Kind, r: Row): string {
    if r.lastError.Some? then r.lastError.value else DefaultReason(kind)
  }

  function FreshAttention(s: State, kind: Kind, r: Row, now: int): Attention {
    Attention(r.fixed.scope, RootOf(s, kind, r), Reason(kind, r), true, now, None, None)
  }

  /** ON CONFLICT DO UPDATE: scope stays, and so does the root except for dispatches. */
  function Reopened(s: State, k: Key, r: Row, now: int): Attention {
    var a := FreshAttention(s, k.kind, r, now);
    if k !in s.attentions then a
    else
      var was := s.attentions[k];
      a.(scope := was.scope, root := if k.kind == Dispatch then a.root else was.root)
  }

  // ----- steps -----

  datatype Write =
    | Insert(key: Key, row: Row)
    | Update(key: Key, row: Row, now: int)
    | Delete(key: Key)
    | Resolve(key: Key, at: int, actor: string)
    | PutTask(taskKey: TaskKey, task: Task)
    | PutParent(parent: Parent)

  predicate EntersDeadLetter(s: State, w: Write) {
    w.Update? && w.key in s.outbox && w.row.status == DeadLetter && s.outbox[w.key].status != DeadLetter
  }

  /** Whether the statement with its triggers commits. */
  predicate Commits(s: State, w: Write) {
    match w
    case Insert(k, r) => k !in s.outbox && RowOk(k.kind, r) && RowRefs(s, k.kind, r) && !Collides(s, k.kind, r)
    case Update(k, r, now) =>
      && k in s.outbox && r.fixed == s.outbox[k].fixed && RowOk(k.kind, r) && RowRefs(s, k.kind, r)
      && (EntersDeadLetter(s, w) ==>
            AttentionChecks(k, FreshAttention(s, k.kind, r, now)) && AttentionOk(s, k, Reopened(s, k, r, now)))
    case Delete(k) => k in s.outbox
    case Resolve(k, at, actor) => k in s.attentions && at >= 0
    case PutTask(_, _) => true
    case PutParent(_) => true
  }

  function Applied(s: State, w: Write): State
    requires Commits(s, w)
  {
    match w
    case Insert(k, r) => s.(outbox := s.outbox[k := r])
    case Update(k, r, now) =>
      s.(outbox := s.outbox[k := r],
         attentions := if EntersDeadLetter(s, w) then s.attentions[k := Reopened(s, k, r, now)] else s.attentions)
    case Delete(k) => s.(outbox := s.outbox - {k})
    case Resolve(k, at, actor) =>
      s.(attentions := s.attentions[k := s.attentions[k].(open := false, resolvedAt := Some(at), resolvedBy := Some(actor))])
    case PutTask(k, t) => s.(tasks := s.tasks[k := t])
    case PutParent(p) => s.(parents := s.parents + {p})
  }

  /** A step that does not commit leaves everything unchanged. */
  function Step(s: State, w: Write): State {
    if Commits(s, w) then Applied(s, w) else s
  }

  /** The upgrade's backfill over the dead letters that are already there
      (lines 472-546); None when a check fails and the upgrade aborts. */
  function Backfill(s: State): Option<State> {
    var dead := map k | k in s.outbox && s.outbox[k].status == DeadLetter ::
      FreshAttention(s, k.kind, s.outbox[k], s.outbox[k].fixed.createdAt);
    if forall k :: k in dead ==> AttentionOk(s, k, dead[k]) then Some(s.(attentions := dead)) else None
  }

  // ----- when a dead letter commits -----

  /** The exact condition for a row to enter `dead_letter`.  Its row checks hold, the
      reason is not blank, and the attention's root exists: for a dispatch, its task is
      an execution task naming a goal root of the same scope (and, if an attention is
      left over from a deleted row of the same id, of that attention's scope).  An
      execution task that a progression names must exist. */
  ghost predicate MayEnter(s: State, k: Key, r: Row, now: int)
    requires k in s.outbox
  {
    && r.fixed == s.outbox[k].fixed && RowOk(k.kind, r) && !Blank(Reason(k.kind, r)) && now >= 0
    && (k.kind == Progression ==> NamesTask(s, r))
    && (k.kind == Dispatch ==>
          exists root :: NamesGoalRoot(s, r.fixed.scope, r.fixed.task, root)
                         && (k in s.attentions ==> TaskKey(s.attentions[k].scope, root) in s.tasks))
  }

  predicate NamesGoalRoot(s: State, scope: Scope, task: string, root: string) {
    && TaskKey(scope, task) in s.tasks && TaskKey(scope, root) in s.tasks
    && s.tasks[TaskKey(scope, task)] == Task(Some("execution_task"), Some(root))
    && s.tasks[TaskKey(scope, root)].role == Some("goal_root")
  }

  ghost predicate Unique(outbox: map<Key, Row>) {
    forall j, k :: j in outbox && k in outbox && j != k && j.kind == k.kind ==>
      UniqueValue(j.kind, outbox[j]) != UniqueValue(k.kind, outbox[k])
  }

  ghost predicate RowsSound(s: State) {
    && Unique(s.outbox)
    && (forall k :: k in s.outbox ==> RowOk(k.kind, s.outbox[k]) && RowRefs(s, k.kind, s.outbox[k]))
  }

  /** Every check, unique column and reference of the four tables holds. */
  ghost predicate Sound(s: State) {
    && RowsSound(s)
    && (forall k :: k in s.attentions ==> AttentionOk(s, k, s.attentions[k]))
  }

  lemma GoalRootFound(s: State, scope: Scope, task: string)
    ensures GoalRoot(s, scope, task).Some? <==> exists root :: NamesGoalRoot(s, scope, task, root)
    ensures GoalRoot(s, scope, task).Some? ==>
              NamesGoalRoot(s, scope, task, GoalRoot(s, scope, task).value)
  {
    var found := GoalRoot(s, scope, task);
    if found.Some? {
      assert s.tasks[TaskKey(scope, task)] == Task(Some("execution_task"), Some(found.value));
      assert NamesGoalRoot(s, scope, task, found.value);
    }
    if root :| NamesGoalRoot(s, scope, task, root) {
      assert s.tasks[TaskKey(scope, task)].rootGoal == Some(root);
    }
  }

  /** What an entry into `dead_letter` leaves as the row's attention: open, with the
      row's reason and the present time.  A new one has the row's scope and root; one
      left over from before keeps its scope and, except for a dispatch, its root. */
  ghost predicate AttentionOfEntry(s: State, k: Key, r: Row, now: int, a: Attention) {
    && a.open && a.resolvedAt.None? && a.resolvedBy.None? && a.createdAt == now && a.reason == Reason(k.kind, r)
    && a.scope == (if k in s.attentions then s.attentions[k].scope else r.fixed.scope)
    && match k.kind
       case Progression => a.root == if k in s.attentions then s.attentions[k].root else Some(r.fixed.task)
       case Bootstrap => a.root.None?
       case Dispatch => a.root.Some? && NamesGoalRoot(s, r.fixed.scope, r.fixed.task, a.root.value)
  }

  /** An update into `dead_letter` commits exactly when the row may enter, and then it
      changes the row and its attention and nothing else; otherwise nothing changes. */
  lemma EnteringCommitsExactly(s: State, k: Key, r: Row, now: int)
    requires Sound(s) && k in s.outbox && s.outbox[k].status != DeadLetter && r.status == DeadLetter
    ensures var w := Update(k, r, now);
            && (Commits(s, w) <==> MayEnter(s, k, r, now))
            && (Commits(s, w) ==>
                  exists a :: AttentionOfEntry(s, k, r, now, a) &&
                    Step(s, w) == s.(outbox := s.outbox[k := r], attentions := s.attentions[k := a]))
            && (!Commits(s, w) ==> Step(s, w) == s)
  {
    GoalRootFound(s, r.fixed.scope, r.fixed.task);
    if k.kind == Dispatch {
      forall root | NamesGoalRoot(s, r.fixed.scope, r.fixed.task, root)
        ensures GoalRoot(s, r.fixed.scope, r.fixed.task) == Some(root)
      {
        assert s.tasks[TaskKey(r.fixed.scope, r.fixed.task)].rootGoal == Some(root);
      }
    }
    if Commits(s, Update(k, r, now)) {
      assert AttentionOfEntry(s, k, r, now, Reopened(s, k, r, now));
    }
  }

  /** Outside an execution task with a goal root of its scope, no dispatch row ever
      enters `dead_letter`: the attempt changes nothing. */
  lemma UnrootedDispatchNeverDies(s: State, id: string, r: Row, now: int)
    requires Sound(s) && Key(Dispatch, id) in s.outbox && s.outbox[Key(Dispatch, id)].status != DeadLetter
    requires r.status == DeadLetter
    requires forall root :: !NamesGoalRoot(s, s.outbox[Key(Dispatch, id)].fixed.scope, s.outbox[Key(Dispatch, id)].fixed.task, root)
    ensures Step(s, Update(Key(Dispatch, id), r, now)) == s
  {
    EnteringCommitsExactly(s, Key(Dispatch, id), r, now);
  }

  // ----- what every step keeps -----

  lemma StepKeepsUnique(s: State, w: Write)
    requires Unique(s.outbox)
    ensures Unique(Step(s, w).outbox)
  {
  }

  lemma StepKeepsRows(s: State, w: Write)
    requires RowsSound(s)
    ensures RowsSound(Step(s, w))
  {
    StepKeepsUnique(s, w);
    if Commits(s, w) {
      var t := Step(s, w);
      forall k | k in t.outbox ensures RowOk(k.kind, t.outbox[k]) && RowRefs(t, k.kind, t.outbox[k]) {
        assert k in s.outbox || (w.Insert? && k == w.key);
      }
    }
  }

  lemma StepKeepsSound(s: State, w: Write)
    requires Sound(s)
    ensures Sound(Step(s, w))
  {
    StepKeepsRows(s, w);
    if Commits(s, w) {
      var t := Step(s, w);
      forall k | k in t.attentions ensures AttentionOk(t, k, t.attentions[k]) {
        if k in s.attentions { assert AttentionOk(s, k, s.attentions[k]); }
      }
    }
  }

  /** Every dead letter has its attention; the unique key makes it the only one. */
  ghost predicate Attended(s: State) {
    forall k :: k in s.outbox && s.outbox[k].status == DeadLetter ==> k in s.attentions
  }

  /** The rows producers insert are new work, not dead letters. */
  predicate Usual(w: Write) {
    w.Insert? ==> w.row.status != DeadLetter
  }

  lemma StepKeepsAttended(s: State, w: Write)
    requires Attended(s) && Usual(w)
    ensures Attended(Step(s, w))
  {
  }

  lemma BackfillStarts(s: State)
    requires Backfill(s).Some?
    requires RowsSound(s)
    ensures Sound(Backfill(s).value) && Attended(Backfill(s).value)
    ensures forall k :: k in Backfill(s).value.attentions ==>
              Backfill(s).value.attentions[k].open && k in s.outbox && s.outbox[k].status == DeadLetter
  {
    var t := Backfill(s).value;
    assert t.outbox == s.outbox && t.parents == s.parents && t.tasks == s.tasks;
    forall k | k in s.outbox ensures RowRefs(t, k.kind, t.outbox[k]) {
      assert RowRefs(s, k.kind, s.outbox[k]);
    }
  }

  /** The upgrade goes through exactly when every dead letter already there has a
      reason and, if a dispatch, a goal root. */
  lemma BackfillExactly(s: State)
    requires RowsSound(s)
    ensures Backfill(s).Some? <==>
            forall k :: k in s.outbox && s.outbox[k].status == DeadLetter ==>
              !Blank(Reason(k.kind, s.outbox[k])) &&
              (k.kind == Dispatch ==> GoalRoot(s, s.outbox[k].fixed.scope, s.outbox[k].fixed.task).Some?)
  {
    forall k | k in s.outbox && s.outbox[k].status == DeadLetter
      ensures AttentionOk(s, k, FreshAttention(s, k.kind, s.outbox[k], s.outbox[k].fixed.createdAt)) <==>
              !Blank(Reason(k.kind, s.outbox[k])) &&
              (k.kind == Dispatch ==> GoalRoot(s, s.outbox[k].fixed.scope, s.outbox[k].fixed.task).Some?)
    {
    }
    var dead := map k | k in s.outbox && s.outbox[k].status == DeadLetter ::
      FreshAttention(s, k.kind, s.outbox[k], s.outbox[k].fixed.createdAt);
    if Backfill(s).Some? {
      forall k | k in s.outbox && s.outbox[k].status == DeadLetter ensures AttentionOk(s, k, dead[k]) {
        assert k in dead;
      }
    }
  }

  // ----- whole runs -----

  ghost predicate AllUsual(writes: seq<Write>) {
    forall i :: 0 <= i < |writes| ==> Usual(writes[i])
  }

  lemma {:induction false} RunKeeps(states: seq<State>, writes: seq<Write>, n: nat)
    requires IsRun(Step, states, writes) && AllUsual(writes) && n < |states|
    requires Sound(states[0]) && Attended(states[0])
    ensures Sound(states[n]) && Attended(states[n])
  {
    if n > 0 {
      RunKeeps(states, writes, n - 1);
      assert states[n - 1 + 1] == Step(states[n - 1], writes[n - 1]);
      StepKeepsSound(states[n - 1], writes[n - 1]);
      StepKeepsAttended(states[n - 1], writes[n - 1]);
    }
  }

  ghost predicate DeadAt(states: seq<State>, k: Key, i: nat)
    requires i < |states|
  {
    k in states[i].outbox && states[i].outbox[k].status == DeadLetter
  }

  /** A resolve step on `k` was taken at `j`, and the row has been dead-lettered ever
      since: no later entry into `dead_letter` followed. */
  ghost predicate ResolvedSince(states: seq<State>, writes: seq<Write>, k: Key, j: nat, n: nat) {
    && j < n <= |writes| && |states| == |writes| + 1
    && writes[j].Resolve? && writes[j].key == k && Commits(states[j], writes[j])
    && forall i :: j <= i <= n ==> DeadAt(states, k, i)
  }

  /** In every run from the backfill, a dead letter has exactly one attention, and that
      attention is closed only if somebody resolved it after the row's latest entry
      into `dead_letter`. */
  lemma {:induction false} ClosedOnlyIfResolved(states: seq<State>, writes: seq<Write>, k: Key, n: nat)
    requires IsRun(Step, states, writes) && AllUsual(writes) && n < |states|
    requires Sound(states[0]) && Attended(states[0])
    requires forall x :: x in states[0].attentions ==> states[0].attentions[x].open
    requires DeadAt(states, k, n)
    ensures k in states[n].attentions
    ensures !states[n].attentions[k].open ==> exists j :: ResolvedSince(states, writes, k, j, n)
  {
    RunKeeps(states, writes, n);
    if n > 0 && !states[n].attentions[k].open {
      var s, w := states[n - 1], writes[n - 1];
      assert states[n - 1 + 1] == Step(s, w);
      assert !(EntersDeadLetter(s, w) && w.key == k && Commits(s, w));
      assert DeadAt(states, k, n - 1);
      if w.Resolve? && w.key == k && Commits(s, w) {
        assert ResolvedSince(states, writes, k, n - 1, n);
      } else {
        ClosedOnlyIfResolved(states, writes, k, n - 1);
        RunKeeps(states, writes, n - 1);
        assert states[n].attentions[k] == s.attentions[k];
        var j :| ResolvedSince(states, writes, k, j, n - 1);
        assert ResolvedSince(states, writes, k, j, n);
      }
    }
  }

  // ----- attention ids -----

  /** The primary key the triggers and the backfill build. */
  function AttentionId(k: Key): string {
    match k.kind
    case Progression => "progression:" + k.id
    case Bootstrap => "bootstrap:" + k.id
    case Dispatch => "task-dispatch:" + k.id
  }

  /** The primary key never clashes where the unique source key does not. */
  lemma AttentionIdsDiffer(a: Key, b: Key)
    ensures AttentionId(a) == AttentionId(b) <==> a == b
  {
    if AttentionId(a) == AttentionId(b) {
      assert AttentionId(a)[0] == AttentionId(b)[0];
      var n := |AttentionId(a)| - |a.id|;
      assert a.id == AttentionId(a)[n..] && b.id == AttentionId(b)[n..];
    }
  }

  // ----- the statements as updates of the tables -----

  class Outboxes {
    var parents: set<Parent>
    var tasks: map<TaskKey, Task>
    var outbox: map<Key, Row>
    var attentions: map<Key, Attention>

    constructor (s: State)
      ensures Current() == s
    {
      parents, tasks, outbox, attentions := s.parents, s.tasks, s.outbox, s.attentions;
    }

    function Current(): State
      reads this
    {
      State(parents, tasks, outbox, attentions)
    }

    /** An UPDATE of one outbox row: the immutability trigger, the row checks, the
        status trigger with its upsert, and the attention's own checks. */
    method UpdateRow(k: Key, r: Row, now: int) returns (committed: bool)
      modifies this
      ensures committed == Commits(old(Current()), Update(k, r, now))
      ensures Current() == Step(old(Current()), Update(k, r, now))
    {
      if k !in outbox || r.fixed != outbox[k].fixed || !RowOk(k.kind, r) || !RowRefs(Current(), k.kind, r) {
        return false;
      }
      var entering := r.status == DeadLetter && outbox[k].status != DeadLetter;
      if entering {
        var s := Current();
        var fresh_ := FreshAttention(s, k.kind, r, now);
        var kept := fresh_;
        if k in attentions {
          kept := fresh_.(scope := attentions[k].scope,
                          root := if k.kind == Dispatch then fresh_.root else attentions[k].root);
        }
        if !AttentionChecks(k, fresh_) || !AttentionOk(s, k, kept) {
          return false;
        }
        attentions := attentions[k := kept];
      }
      outbox := outbox[k := r];
      return true;
    }

    /** An INSERT of one outbox row. */
    method InsertRow(k: Key, r: Row) returns (committed: bool)
      modifies this
      ensures committed == Commits(old(Current()), Insert(k, r))
      ensures Current() == Step(old(Current()), Insert(k, r))
    {
      committed := k !in outbox && RowOk(k.kind, r) && RowRefs(Current(), k.kind, r) && !Collides(Current(), k.kind, r);
      if committed {
        outbox := outbox[k := r];
      }
    }
  }
}
