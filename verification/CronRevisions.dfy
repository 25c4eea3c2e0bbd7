/** Cron job revisions
    (alembic/versions/aa98102469b3_add_durable_automation_foundation.py:24-36, 119-125,
    244-280): the BEFORE UPDATE trigger that stamps every accepted update, and the
    unique reconcile rows that refer to the stamps. */
module CronRevisions {
  import opened Common

  /** The five columns a schedule consists of; `config` is the jsonb value. */
  datatype Schedule = Schedule(enabled: bool, kind: string, config: string, timezone: string, stagger: int)

  datatype Job = Job(schedule: Schedule, rest: string, revision: int, scheduleRevision: int)

  /** A durable operation; only reconcile rows carry the unique key of lines 119-125, in
      which a null stamp is not compared. */
  datatype Operation = Operation(job: string, reconcile: bool, scheduleRevision: Option<int>)

  datatype State = State(jobs: map<string, Job>, operations: map<string, Operation>)

  /** `agistack_bump_cron_job_revisions`: whatever the client wrote in the two revision
      columns is overwritten. */
  function Stamped(was: Job, written: Job): Job {
    written.(
      revision := was.revision + 1,
      scheduleRevision := if written.schedule != was.schedule then was.scheduleRevision + 1 else was.scheduleRevision)
  }

  datatype Write =
    | InsertJob(id: string, schedule: Schedule, rest: string)  // both revisions by default
    | UpdateJob(id: string, written: Job)
    | DeleteJob(id: string)
    | InsertOperation(opId: string, operation: Operation)
    | DeleteOperation(opId: string)

  predicate Keyed(o: Operation) { o.reconcile && o.scheduleRevision.Some? }

  predicate Clashes(s: State, o: Operation) {
    Keyed(o) && exists k :: k in s.operations && s.operations[k] == o
  }

  function Step(s: State, w: Write): State {
    match w
    case InsertJob(id, schedule, rest) =>
      if id in s.jobs then s else s.(jobs := s.jobs[id := Job(schedule, rest, 1, 1)])
    case UpdateJob(id, written) =>
      if id in s.jobs then s.(jobs := s.jobs[id := Stamped(s.jobs[id], written)]) else s
    case DeleteJob(id) => s.(jobs := s.jobs - {id})
    case InsertOperation(k, o) =>
      if k in s.operations || Clashes(s, o) then s else s.(operations := s.operations[k := o])
    case DeleteOperation(k) => s.(operations := s.operations - {k})
  }

  ghost predicate Exists(states: seq<State>, id: string, lo: nat, hi: nat) {
    lo <= hi < |states| && forall i :: lo <= i <= hi ==> id in states[i].jobs
  }

  function Count(b: bool): nat { if b then 1 else 0 }

  /** The number of accepted updates of a job, and of those that wrote another schedule
      than the job had, between two points of a run. */
  ghost function Updates(states: seq<State>, writes: seq<Write>, id: string, lo: nat, hi: nat): nat
    requires IsRun(Step, states, writes) && Exists(states, id, lo, hi)
    decreases hi
  {
    if lo == hi then 0
    else Updates(states, writes, id, lo, hi - 1) + Count(writes[hi - 1].UpdateJob? && writes[hi - 1].id == id)
  }

  ghost function Reschedulings(states: seq<State>, writes: seq<Write>, id: string, lo: nat, hi: nat): nat
    requires IsRun(Step, states, writes) && Exists(states, id, lo, hi)
    decreases hi
  {
    if lo == hi then 0
    else Reschedulings(states, writes, id, lo, hi - 1)
         + Count(writes[hi - 1].UpdateJob? && writes[hi - 1].id == id
                 && writes[hi - 1].written.schedule != states[hi - 1].jobs[id].schedule)
  }

  /** Between two points of a run the revision grows by exactly the number of updates
      and the schedule revision by exactly the number of schedule changes. */
  lemma {:induction false} RevisionsCount(states: seq<State>, writes: seq<Write>, id: string, lo: nat, hi: nat)
    requires IsRun(Step, states, writes) && Exists(states, id, lo, hi)
    ensures states[hi].jobs[id].revision == states[lo].jobs[id].revision + Updates(states, writes, id, lo, hi)
    ensures states[hi].jobs[id].scheduleRevision
         == states[lo].jobs[id].scheduleRevision + Reschedulings(states, writes, id, lo, hi)
    ensures Reschedulings(states, writes, id, lo, hi) <= Updates(states, writes, id, lo, hi)
    decreases hi
  {
    if lo < hi {
      RevisionsCount(states, writes, id, lo, hi - 1);
      assert states[hi - 1 + 1] == Step(states[hi - 1], writes[hi - 1]);
      assert id in states[hi - 1].jobs && id in states[hi].jobs;
    }
  }

  lemma {:induction false} NoReschedulingSameSchedule(states: seq<State>, writes: seq<Write>, id: string, lo: nat, hi: nat)
    requires IsRun(Step, states, writes) && Exists(states, id, lo, hi)
    requires Reschedulings(states, writes, id, lo, hi) == 0
    ensures states[hi].jobs[id].schedule == states[lo].jobs[id].schedule
    decreases hi
  {
    if lo < hi {
      NoReschedulingSameSchedule(states, writes, id, lo, hi - 1);
      assert states[hi - 1 + 1] == Step(states[hi - 1], writes[hi - 1]);
      assert id in states[hi - 1].jobs && id in states[hi].jobs;
    }
  }

  lemma {:induction false} NoUpdateSameRow(states: seq<State>, writes: seq<Write>, id: string, lo: nat, hi: nat)
    requires IsRun(Step, states, writes) && Exists(states, id, lo, hi)
    requires Updates(states, writes, id, lo, hi) == 0
    ensures states[hi].jobs[id] == states[lo].jobs[id]
    decreases hi
  {
    if lo < hi {
      NoUpdateSameRow(states, writes, id, lo, hi - 1);
      assert states[hi - 1 + 1] == Step(states[hi - 1], writes[hi - 1]);
      assert id in states[hi - 1].jobs && id in states[hi].jobs;
    }
  }

  /** While a job exists, equal revisions at two points mean the same row, and equal
      schedule revisions the same schedule: a stamp identifies one configuration. */
  lemma RevisionsIdentify(states: seq<State>, writes: seq<Write>, id: string, lo: nat, hi: nat)
    requires IsRun(Step, states, writes) && Exists(states, id, lo, hi)
    ensures states[lo].jobs[id].revision == states[hi].jobs[id].revision ==> states[lo].jobs[id] == states[hi].jobs[id]
    ensures states[lo].jobs[id].scheduleRevision == states[hi].jobs[id].scheduleRevision ==>
              states[lo].jobs[id].schedule == states[hi].jobs[id].schedule
  {
    RevisionsCount(states, writes, id, lo, hi);
    if states[lo].jobs[id].revision == states[hi].jobs[id].revision { NoUpdateSameRow(states, writes, id, lo, hi); }
    if states[lo].jobs[id].scheduleRevision == states[hi].jobs[id].scheduleRevision {
      NoReschedulingSameSchedule(states, writes, id, lo, hi);
    }
  }

  /** Default rows start at 1, and at most one reconcile row exists per job and stamp. */
  ghost predicate Ordered(s: State) {
    && (forall id :: id in s.jobs ==> 1 <= s.jobs[id].scheduleRevision <= s.jobs[id].revision)
    && forall j, k :: j in s.operations && k in s.operations && j != k && Keyed(s.operations[j]) ==>
         s.operations[j] != s.operations[k]
  }

  lemma StepKeepsOrdered(s: State, w: Write)
    requires Ordered(s)
    ensures Ordered(Step(s, w))
  {
  }

  lemma {:induction false} RunKeepsOrdered(states: seq<State>, writes: seq<Write>, n: nat)
    requires IsRun(Step, states, writes) && Ordered(states[0]) && n < |states|
    ensures Ordered(states[n])
  {
    if n > 0 {
      RunKeepsOrdered(states, writes, n - 1);
      assert states[n - 1 + 1] == Step(states[n - 1], writes[n - 1]);
      StepKeepsOrdered(states[n - 1], writes[n - 1]);
    }
  }

  // ----- what a statement does -----

  /** An update of a present job stores the columns the client wrote, except that the
      revision is the old one plus one and the schedule revision rises by one exactly if
      one of the five schedule columns is written differently. */
  lemma UpdateExactly(s: State, id: string, written: Job)
    requires id in s.jobs
    ensures var was, t := s.jobs[id], Step(s, UpdateJob(id, written));
            && t.operations == s.operations && t.jobs.Keys == s.jobs.Keys
            && (forall j :: j in s.jobs && j != id ==> t.jobs[j] == s.jobs[j])
            && t.jobs[id].schedule == written.schedule && t.jobs[id].rest == written.rest
            && t.jobs[id].revision == was.revision + 1
            && t.jobs[id].scheduleRevision == was.scheduleRevision +
                 (if && written.schedule.enabled == was.schedule.enabled && written.schedule.kind == was.schedule.kind
                     && written.schedule.config == was.schedule.config && written.schedule.timezone == was.schedule.timezone
                     && written.schedule.stagger == was.schedule.stagger then 0 else 1)
  {
  }

  /** The operation is a reconcile row with a stamp, and its job has one for it already. */
  predicate HasReconcileRow(s: State, o: Operation) {
    && o.reconcile && o.scheduleRevision.Some?
    && exists k :: k in s.operations && s.operations[k] == Operation(o.job, true, o.scheduleRevision)
  }

  /** The other statements: a new job starts at 1 and 1 and never replaces one, a deleted
      job leaves its operations, and an operation is added under a free id unless it is a
      reconcile row of a job and stamp that has one. */
  lemma OtherWritesExactly(s: State, w: Write)
    ensures w.UpdateJob? && w.id !in s.jobs ==> Step(s, w) == s
    ensures w.InsertJob? ==>
              Step(s, w) == if w.id in s.jobs then s else State(s.jobs[w.id := Job(w.schedule, w.rest, 1, 1)], s.operations)
    ensures w.DeleteJob? ==> Step(s, w) == State(s.jobs - {w.id}, s.operations)
    ensures w.DeleteOperation? ==> Step(s, w) == State(s.jobs, s.operations - {w.opId})
    ensures w.InsertOperation? ==>
              Step(s, w) ==
              if w.opId in s.operations || HasReconcileRow(s, w.operation) then s
              else State(s.jobs, s.operations[w.opId := w.operation])
  {
  }

  // ----- what a reconcile row identifies -----

  /** The reconcile row for the job as it is now. */
  function ReconcileNow(s: State, id: string): Operation
    requires id in s.jobs
  {
    Operation(id, true, Some(s.jobs[id].scheduleRevision))
  }

  ghost predicate KeptFrom(states: seq<State>, k: string, i: nat, j: nat) {
    i <= j < |states| && forall n :: i <= n <= j ==> k in states[n].operations
  }

  /** No step rewrites an operation row. */
  lemma {:induction false} KeptRowIsSame(states: seq<State>, writes: seq<Write>, k: string, i: nat, j: nat)
    requires IsRun(Step, states, writes) && KeptFrom(states, k, i, j)
    ensures states[j].operations[k] == states[i].operations[k]
    decreases j
  {
    if i < j {
      KeptRowIsSame(states, writes, k, i, j - 1);
      assert states[j - 1 + 1] == Step(states[j - 1], writes[j - 1]);
      assert k in states[j - 1].operations && k in states[j].operations;
    }
  }

  /** Over one life of a job a reconcile row names one configuration.  While the row
      written for the job at `i` stays, a reconcile row for the job at `j` equals it if
      and only if the job was never rescheduled in between; it is then refused, and the
      schedule is the one the row was written for. */
  lemma ReconcileRowIdentifies(states: seq<State>, writes: seq<Write>, id: string, k: string, i: nat, j: nat)
    requires IsRun(Step, states, writes) && Exists(states, id, i, j) && KeptFrom(states, k, i, j)
    requires states[i].operations[k] == ReconcileNow(states[i], id)
    ensures states[j].operations[k] == ReconcileNow(states[j], id) <==> Reschedulings(states, writes, id, i, j) == 0
    ensures states[j].operations[k] == ReconcileNow(states[j], id) ==>
              && Clashes(states[j], ReconcileNow(states[j], id))
              && states[j].jobs[id].schedule == states[i].jobs[id].schedule
  {
    KeptRowIsSame(states, writes, k, i, j);
    RevisionsCount(states, writes, id, i, j);
    RevisionsIdentify(states, writes, id, i, j);
  }

  /** No foreign key ties operations to jobs, so the row of a deleted job stays.  A new
      job under the old id starts at stamp 1 again, and the old row keeps out the
      reconcile row of another schedule. */
  lemma ReusedIdIsBlocked(id: string, k: string, k': string, a: Schedule, b: Schedule, rest: string)
    requires a != b && k != k'
    ensures var s1 := Step(State(map[], map[]), InsertJob(id, a, rest));
            var s2 := Step(s1, InsertOperation(k, ReconcileNow(s1, id)));
            var s3 := Step(s2, DeleteJob(id));
            var s4 := Step(s3, InsertJob(id, b, rest));
            && s4.jobs[id].schedule != s1.jobs[id].schedule && s4.operations[k] == ReconcileNow(s4, id)
            && Step(s4, InsertOperation(k', ReconcileNow(s4, id))) == s4
  {
    var s1 := Step(State(map[], map[]), InsertJob(id, a, rest));
    var s2 := Step(s1, InsertOperation(k, ReconcileNow(s1, id)));
    assert s2.operations[k] == ReconcileNow(s1, id);
  }

  // ----- the trigger as an update of the table -----

  class CronJobs {
    var jobs: map<string, Job>

    constructor ()
      ensures jobs == map[]
    {
      jobs := map[];
    }

    method Update(id: string, written: Job)
      modifies this
      ensures State(jobs, map[]) == Step(State(old(jobs), map[]), UpdateJob(id, written))
      ensures id in old(jobs) ==>
                && jobs.Keys == old(jobs).Keys && (forall j :: j in jobs && j != id ==> jobs[j] == old(jobs)[j])
                && jobs[id].schedule == written.schedule && jobs[id].rest == written.rest
                && jobs[id].revision == old(jobs)[id].revision + 1
                && jobs[id].scheduleRevision == old(jobs)[id].scheduleRevision
                                              + if written.schedule == old(jobs)[id].schedule then 0 else 1
      ensures id !in old(jobs) ==> jobs == old(jobs)
    {
      if id in jobs {
        var was, row := jobs[id], written;
        row := row.(revision := was.revision + 1);
        if row.schedule != was.schedule {
          row := row.(scheduleRevision := was.scheduleRevision + 1);
        } else {
          row := row.(scheduleRevision := was.scheduleRevision);
        }
        jobs := jobs[id := row];
      }
    }
  }
}
