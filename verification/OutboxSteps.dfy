/** What each statement on the outboxes does, said of the rows alone
    (alembic/versions/7d15f4b8c9e3_add_workspace_task_dispatch_outbox.py:27-179,
    alembic/versions/a72d9c31e5bf_add_workspace_autonomy_judgment_claims.py:163-546). */
module OutboxSteps {
  import opened Common
  import opened DeadLetters

  // ----- the rows of every reachable state -----

  predicate SomeNonNegative(t: Option<int>) { t.Some? ==> t.value >= 0 }

  /** Attempts within bounds, a lease exactly while leased, a finishing time exactly when
      finished, and the ids a finished progression or bootstrap names. */
  predicate InOrder(kind: Kind, r: Row) {
    && 0 <= r.attempts <= r.maxAttempts && 1 <= r.maxAttempts
    && 0 <= r.nextAttemptAt && 0 <= r.fixed.createdAt && 0 <= r.leaseGeneration
    && (r.leaseOwner.Some? <==> r.status == Leased) && (r.leaseExpiresAt.Some? <==> r.status == Leased)
    && SomeNonNegative(r.leaseExpiresAt) && SomeNonNegative(r.finishedAt)
    && (r.finishedAt.Some? <==> r.status == Finished)
    && (r.status == Finished && kind != Dispatch ==> r.result.Some?)
    && (kind == Bootstrap ==> exists i :: 0 <= i < |r.fixed.title| && r.fixed.title[i] != ' ')
  }

  lemma RowOkIsInOrder(kind: Kind, r: Row)
    ensures RowOk(kind, r) <==> InOrder(kind, r)
  {
  }

  /** A blank string has nothing but spaces. */
  lemma NotBlank(s: string)
    ensures !Blank(s) <==> exists i :: 0 <= i < |s| && s[i] != ' '
  {
  }

  /** The references of a row, each in its own scope. */
  predicate Refers(s: State, kind: Kind, r: Row) {
    && Profile(r.fixed.scope) in s.parents
    && (kind == Progression || kind == Dispatch ==> TaskKey(r.fixed.scope, r.fixed.task) in s.tasks)
    && (kind == Progression ==>
          Tick(r.fixed.scope, r.fixed.request) in s.parents && Binding(r.fixed.scope, r.fixed.binding) in s.parents)
    && (kind == Progression && r.result.Some? ==> TaskKey(r.fixed.scope, r.result.value) in s.tasks)
  }

  /** The unique columns of the three tables. */
  ghost predicate OwnKeysDiffer(rows: map<Key, Row>) {
    forall i, j :: i in rows && j in rows && i != j && i.kind == j.kind ==>
      match i.kind
      case Progression => rows[i].fixed.request != rows[j].fixed.request
      case Dispatch => rows[i].fixed.request != rows[j].fixed.request
      case Bootstrap => rows[i].fixed.scope.workspace != rows[j].fixed.scope.workspace
  }

  /** In every reachable state every row is in order and refers to what is there; no two
      progressions share a tick, no two dispatches a delivery request and no two
      bootstraps a workspace. */
  lemma ReachableRows(states: seq<State>, writes: seq<Write>, n: nat)
    requires IsRun(Step, states, writes) && AllUsual(writes) && n < |states| && Sound(states[0]) && Attended(states[0])
    ensures forall k :: k in states[n].outbox ==>
              InOrder(k.kind, states[n].outbox[k]) && Refers(states[n], k.kind, states[n].outbox[k])
    ensures OwnKeysDiffer(states[n].outbox)
  {
    RunKeeps(states, writes, n);
    ghost var outbox := states[n].outbox;
    forall k | k in outbox ensures InOrder(k.kind, outbox[k]) && Refers(states[n], k.kind, outbox[k]) {
      RowOkIsInOrder(k.kind, outbox[k]);
    }
    forall i, j | i in outbox && j in outbox && i != j && i.kind == j.kind
      ensures UniqueValue(i.kind, outbox[i]) != UniqueValue(j.kind, outbox[j])
    {
    }
  }

  /** In every reachable state a bootstrap's attention names no root and every other one a
      task of its scope; its reason is not blank; and it is resolved, by someone at some
      time, or open. */
  lemma ReachableAttentions(states: seq<State>, writes: seq<Write>, n: nat, k: Key)
    requires IsRun(Step, states, writes) && AllUsual(writes) && n < |states| && Sound(states[0]) && Attended(states[0])
    requires k in states[n].attentions
    ensures var s, a := states[n], states[n].attentions[k];
            && Profile(a.scope) in s.parents && a.createdAt >= 0
            && (if k.kind == Bootstrap then a.root.None? else a.root.Some? && TaskKey(a.scope, a.root.value) in s.tasks)
            && (exists i :: 0 <= i < |a.reason| && a.reason[i] != ' ')
            && (if a.open then a.resolvedAt.None? && a.resolvedBy.None?
                else a.resolvedBy.Some? && a.resolvedAt.Some? && a.resolvedAt.value >= 0)
  {
    RunKeeps(states, writes, n);
    assert AttentionOk(states[n], k, states[n].attentions[k]);
    NotBlank(states[n].attentions[k].reason);
  }

  // ----- what a statement changes -----

  /** The two tables agree at every key but one. */
  ghost predicate SameBut<K(!new), V>(m: map<K, V>, m': map<K, V>, k: K) {
    forall j :: j != k ==> (j in m' <==> j in m) && (j in m ==> m'[j] == m[j])
  }

  /** An insert commits exactly for a free id, a row in order that refers to what is there,
      and a free unique column; it adds the row and changes nothing else. */
  lemma InsertExactly(s: State, k: Key, r: Row)
    ensures Commits(s, Insert(k, r)) <==>
            && k !in s.outbox && InOrder(k.kind, r) && Refers(s, k.kind, r)
            && (forall j :: j in s.outbox && j.kind == k.kind ==>
                  if k.kind == Bootstrap then s.outbox[j].fixed.scope.workspace != r.fixed.scope.workspace
                  else s.outbox[j].fixed.request != r.fixed.request)
    ensures Step(s, Insert(k, r)) ==
            if Commits(s, Insert(k, r)) then State(s.parents, s.tasks, s.outbox[k := r], s.attentions) else s
  {
    RowOkIsInOrder(k.kind, r);
    if Collides(s, k.kind, r) {
      var j :| j in s.outbox && j.kind == k.kind && UniqueValue(k.kind, s.outbox[j]) == UniqueValue(k.kind, r);
    }
  }

  /** A committed update replaces the row and changes no task and no parent; the
      attentions change only at this key and only on an entry into `dead_letter`. */
  lemma UpdateExactly(s: State, k: Key, r: Row, now: int)
    requires Commits(s, Update(k, r, now))
    ensures var t := Step(s, Update(k, r, now));
            && k in s.outbox && r.fixed == s.outbox[k].fixed && InOrder(k.kind, r) && Refers(s, k.kind, r)
            && t.parents == s.parents && t.tasks == s.tasks && t.outbox == s.outbox[k := r]
            && SameBut(s.attentions, t.attentions, k)
            && (!(r.status == DeadLetter && s.outbox[k].status != DeadLetter) ==> t.attentions == s.attentions)
  {
    RowOkIsInOrder(k.kind, r);
  }

  /** An update that is no entry into `dead_letter` commits exactly when the row is there,
      keeps its snapshot, is in order and refers to what is there. */
  lemma PlainUpdateCommits(s: State, k: Key, r: Row, now: int)
    requires k in s.outbox ==> !(r.status == DeadLetter && s.outbox[k].status != DeadLetter)
    ensures Commits(s, Update(k, r, now)) <==>
            k in s.outbox && r.fixed == s.outbox[k].fixed && InOrder(k.kind, r) && Refers(s, k.kind, r)
  {
    RowOkIsInOrder(k.kind, r);
  }

  lemma RefusedChangesNothing(s: State, w: Write)
    requires !Commits(s, w)
    ensures Step(s, w) == s
  {
  }

  /** A delete removes the row and leaves its attention; a resolve closes the attention with
      its time and actor and changes nothing else; tasks and parents are added. */
  lemma OtherWritesExactly(s: State, w: Write)
    ensures w.Delete? ==> Step(s, w) == State(s.parents, s.tasks, s.outbox - {w.key}, s.attentions)
    ensures w.Resolve? && w.key in s.attentions && w.at >= 0 ==>
              var a := s.attentions[w.key];
              Step(s, w) == State(s.parents, s.tasks, s.outbox, s.attentions[w.key :=
                Attention(a.scope, a.root, a.reason, false, a.createdAt, Some(w.at), Some(w.actor))])
    ensures w.Resolve? && !(w.key in s.attentions && w.at >= 0) ==> Step(s, w) == s
    ensures w.PutTask? ==> Step(s, w) == State(s.parents, s.tasks[w.taskKey := w.task], s.outbox, s.attentions)
    ensures w.PutParent? ==> Step(s, w) == State(s.parents + {w.parent}, s.tasks, s.outbox, s.attentions)
  {
    if w.Delete? && w.key !in s.outbox { assert s.outbox - {w.key} == s.outbox; }
  }

  // ----- the reason and the backfill -----

  /** What an attention gives as its reason: the row's last error, or that its retry budget
      is exhausted. */
  predicate Explains(kind: Kind, r: Row, reason: string) {
    if r.lastError.Some? then reason == r.lastError.value
    else match kind
         case Progression => reason == "autonomy progression exhausted its retry budget"
         case Bootstrap => reason == "autonomy bootstrap exhausted its retry budget"
         case Dispatch => reason == "task dispatch exhausted its retry budget"
  }

  lemma ReasonExplains(kind: Kind, r: Row)
    ensures Explains(kind, r, Reason(kind, r))
  {
  }

  /** An entry that commits leaves an open attention of the present time that explains the
      row, and its reason is not blank. */
  lemma EntryExplains(s: State, k: Key, r: Row, now: int)
    requires Sound(s) && Commits(s, Update(k, r, now))
    requires r.status == DeadLetter && s.outbox[k].status != DeadLetter
    ensures var t := Step(s, Update(k, r, now));
            && k in t.attentions && t.attentions[k].open && t.attentions[k].createdAt == now && now >= 0
            && Explains(k.kind, r, t.attentions[k].reason)
            && exists i :: 0 <= i < |t.attentions[k].reason| && t.attentions[k].reason[i] != ' '
  {
    EnteringCommitsExactly(s, k, r, now);
    NotBlank(Reason(k.kind, r));
  }

  /** A backfill that commits gives each dead letter, and nothing else, an open attention of
      its scope, explained, as old as the row, with the root a dispatch names. */
  lemma BackfillContents(s: State)
    requires Backfill(s).Some?
    ensures var t := Backfill(s).value;
            && t.parents == s.parents && t.tasks == s.tasks && t.outbox == s.outbox
            && (forall k :: k in t.attentions <==> k in s.outbox && s.outbox[k].status == DeadLetter)
            && forall k :: k in t.attentions ==>
                 var a, r := t.attentions[k], s.outbox[k];
                 && a.open && a.scope == r.fixed.scope && a.createdAt == r.fixed.createdAt && Explains(k.kind, r, a.reason)
                 && a.resolvedAt.None? && a.resolvedBy.None?
                 && match k.kind
                    case Progression => a.root == Some(r.fixed.task)
                    case Bootstrap => a.root.None?
                    case Dispatch => a.root.Some? && NamesGoalRoot(s, r.fixed.scope, r.fixed.task, a.root.value)
  {
    var t := Backfill(s).value;
    forall k | k in t.attentions && k.kind == Dispatch
      ensures t.attentions[k].root.Some? &&
              NamesGoalRoot(s, s.outbox[k].fixed.scope, s.outbox[k].fixed.task, t.attentions[k].root.value)
    {
      assert AttentionOk(s, k, t.attentions[k]);
      GoalRootFound(s, s.outbox[k].fixed.scope, s.outbox[k].fixed.task);
    }
  }
}
