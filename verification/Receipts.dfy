/** Task-session creation receipts
    (alembic/versions/a1f6e8c2d4b7_add_task_session_creation_receipts.py:23-152): an
    idempotency ledger whose rows survive as tombstones when what they refer to goes. */
module Receipts {
  import opened Common

  /** The unique slot of a receipt (lines 72-78). */
  datatype Slot = Slot(actor: string, tenant: string, project: string, idempotencyKey: string)

  datatype Receipt = Receipt(
    slot: Slot, workspace: string, conversation: Option<string>, message: Option<string>, tombstone: bool, response: string)

  /** `messages` maps a message to its workspace. */
  datatype State = State(
    workspaces: set<string>, conversations: set<string>, messages: map<string, string>, receipts: map<string, Receipt>)

  const TOMBSTONE := "{\"tombstone\": true}"

  /** `tombstone_task_session_creation_receipt` on one row. */
  function Buried(r: Receipt): Receipt {
    r.(conversation := None, message := None, tombstone := true, response := TOMBSTONE)
  }

  function BuryByConversation(rs: map<string, Receipt>, c: string): map<string, Receipt> {
    map k | k in rs :: if rs[k].conversation == Some(c) then Buried(rs[k]) else rs[k]
  }

  function BuryByMessages(rs: map<string, Receipt>, gone: set<string>): map<string, Receipt> {
    map k | k in rs :: if rs[k].message.Some? && rs[k].message.value in gone then Buried(rs[k]) else rs[k]
  }

  datatype Write =
    | AddWorkspace(workspace: string)
    | AddConversation(conversation: string)
    | AddMessage(message: string, inWorkspace: string)
    | Create(id: string, receipt: Receipt)
    | DropConversation(conversation: string)
    | DropMessage(message: string)
    | DropWorkspace(workspace: string)

  /** The three unique constraints; a null id is not compared. */
  predicate Apart(q: Receipt, r: Receipt) {
    && q.slot != r.slot
    && (r.conversation.Some? ==> q.conversation != r.conversation)
    && (r.message.Some? ==> q.message != r.message)
  }

  /** The primary key, the three unique constraints and the foreign keys. */
  predicate MayCreate(s: State, id: string, r: Receipt) {
    && id !in s.receipts && !r.tombstone && r.workspace in s.workspaces
    && (r.conversation.Some? ==> r.conversation.value in s.conversations)
    && (r.message.Some? ==> r.message.value in s.messages)
    && forall k :: k in s.receipts ==> Apart(s.receipts[k], r)
  }

  /** The triggers run before the rows go.  Deleting a workspace deletes its messages,
      each with its trigger, and its receipts. */
  function Step(s: State, w: Write): State {
    match w
    case AddWorkspace(x) => s.(workspaces := s.workspaces + {x})
    case AddConversation(c) => s.(conversations := s.conversations + {c})
    case AddMessage(m, x) => if x in s.workspaces && m !in s.messages then s.(messages := s.messages[m := x]) else s
    case Create(id, r) => if MayCreate(s, id, r) then s.(receipts := s.receipts[id := r]) else s
    case DropConversation(c) =>
      s.(conversations := s.conversations - {c}, receipts := BuryByConversation(s.receipts, c))
    case DropMessage(m) => s.(messages := s.messages - {m}, receipts := BuryByMessages(s.receipts, {m}))
    case DropWorkspace(x) =>
      var gone := set m | m in s.messages && s.messages[m] == x;
      var kept := BuryByMessages(s.receipts, gone);
      s.(workspaces := s.workspaces - {x}, messages := s.messages - gone,
         receipts := map k | k in kept && kept[k].workspace != x :: kept[k])
  }

  // ----- what every step keeps -----

  predicate Intact(s: State, r: Receipt) {
    && !r.tombstone && r.conversation.Some? && r.message.Some?
    && r.conversation.value in s.conversations && r.message.value in s.messages
  }

  predicate IsTombstone(r: Receipt) {
    r.tombstone && r.conversation.None? && r.message.None? && r.response == TOMBSTONE
  }

  /** References live, tombstones are complete, unique columns are distinct. */
  ghost predicate Ledger(s: State) {
    && (forall k :: k in s.receipts ==>
          var r := s.receipts[k];
          && r.workspace in s.workspaces && (r.tombstone ==> IsTombstone(r))
          && (r.conversation.Some? ==> r.conversation.value in s.conversations)
          && (r.message.Some? ==> r.message.value in s.messages))
    && forall j, k :: j in s.receipts && k in s.receipts && j != k ==> Apart(s.receipts[j], s.receipts[k])
  }

  lemma BuryingKeepsLedger(s: State, t: State)
    requires Ledger(s) && t.receipts.Keys <= s.receipts.Keys
    requires forall k :: k in t.receipts ==>
               var r := t.receipts[k];
               && (r == s.receipts[k] || r == Buried(s.receipts[k])) && r.workspace in t.workspaces
               && (r.conversation.Some? ==> r.conversation.value in t.conversations)
               && (r.message.Some? ==> r.message.value in t.messages)
    ensures Ledger(t)
  {
  }

  lemma DroppingKeepsLedger(s: State, x: string)
    requires Ledger(s)
    ensures Ledger(Step(s, DropWorkspace(x)))
  {
    BuryingKeepsLedger(s, Step(s, DropWorkspace(x)));
  }

  lemma StepKeepsLedger(s: State, w: Write)
    requires Ledger(s)
    ensures Ledger(Step(s, w))
  {
    if w.DropWorkspace? {
      DroppingKeepsLedger(s, w.workspace);
    } else if w.DropConversation? || w.DropMessage? {
      BuryingKeepsLedger(s, Step(s, w));
    }
  }

  ghost predicate Present(states: seq<State>, id: string, lo: nat, hi: nat) {
    lo <= hi < |states| && forall i :: lo <= i <= hi ==> id in states[i].receipts
  }

  lemma {:induction false} RunKeepsLedger(states: seq<State>, writes: seq<Write>, n: nat)
    requires IsRun(Step, states, writes) && Ledger(states[0]) && n < |states|
    ensures Ledger(states[n])
  {
    if n > 0 {
      RunKeepsLedger(states, writes, n - 1);
      assert states[n - 1 + 1] == Step(states[n - 1], writes[n - 1]);
      StepKeepsLedger(states[n - 1], writes[n - 1]);
    }
  }

  /** One step: an intact receipt stays as it is, becomes a whole tombstone, or goes
      with its workspace; a tombstone stays one or goes the same way. */
  lemma StepNeverHalves(s: State, w: Write, id: string)
    requires Ledger(s) && id in s.receipts && (Intact(s, s.receipts[id]) || IsTombstone(s.receipts[id]))
    ensures var t := Step(s, w);
            var r := s.receipts[id];
            if id in t.receipts then
              (t.receipts[id] == r && (Intact(t, r) || IsTombstone(r))) || (Intact(s, r) && t.receipts[id] == Buried(r))
            else
              w == DropWorkspace(r.workspace) && r.workspace !in t.workspaces
  {
  }

  /** Receipt `r` is what `first`, once intact, may have become. */
  predicate Continues(s: State, r: Receipt, first: Receipt) {
    && (Intact(s, r) || IsTombstone(r)) && r.slot == first.slot && r.workspace == first.workspace
    && (!r.tombstone ==> r == first)
  }

  lemma StepContinues(s: State, w: Write, id: string, first: Receipt)
    requires Ledger(s) && id in s.receipts && Continues(s, s.receipts[id], first)
    ensures if id in Step(s, w).receipts then Continues(Step(s, w), Step(s, w).receipts[id], first)
            else w == DropWorkspace(first.workspace)
  {
    StepNeverHalves(s, w, id);
  }

  ghost predicate ContinuesAt(states: seq<State>, id: string, first: Receipt, i: nat)
    requires i < |states|
  {
    id in states[i].receipts && Continues(states[i], states[i].receipts[id], first)
  }

  /** Step `j` deleted the receipt's workspace and the receipt with it. */
  ghost predicate GoesWithWorkspace(states: seq<State>, writes: seq<Write>, id: string, first: Receipt, j: nat) {
    && j < |writes| && |states| == |writes| + 1 && writes[j] == DropWorkspace(first.workspace)
    && ContinuesAt(states, id, first, j) && id !in states[j + 1].receipts
  }

  /** In any run a receipt that was intact is still intact with both ids live or a whole
      tombstone, in the same slot, or it went with its workspace at some step. */
  lemma {:induction false} NeverHalfCleared(states: seq<State>, writes: seq<Write>, id: string, lo: nat, hi: nat)
    requires IsRun(Step, states, writes) && Ledger(states[0]) && lo <= hi < |states|
    requires id in states[lo].receipts && Intact(states[lo], states[lo].receipts[id])
    ensures var first := states[lo].receipts[id];
            || ContinuesAt(states, id, first, hi)
            || exists j :: lo <= j < hi && GoesWithWorkspace(states, writes, id, first, j)
    decreases hi
  {
    var first := states[lo].receipts[id];
    if lo < hi {
      NeverHalfCleared(states, writes, id, lo, hi - 1);
      if ContinuesAt(states, id, first, hi - 1) {
        RunKeepsLedger(states, writes, hi - 1);
        assert states[hi - 1 + 1] == Step(states[hi - 1], writes[hi - 1]);
        StepContinues(states[hi - 1], writes[hi - 1], id, first);
        assert ContinuesAt(states, id, first, hi) || GoesWithWorkspace(states, writes, id, first, hi - 1);
      }
    }
  }

  /** A slot once taken refuses every further receipt while its row is there, tombstone
      or not, so a retried request is recognised even after its session was deleted. */
  lemma SlotStaysTaken(states: seq<State>, writes: seq<Write>, id: string, lo: nat, hi: nat, other: string, r: Receipt)
    requires IsRun(Step, states, writes) && Ledger(states[0]) && Present(states, id, lo, hi)
    requires Intact(states[lo], states[lo].receipts[id]) && r.slot == states[lo].receipts[id].slot
    ensures Step(states[hi], Create(other, r)) == states[hi]
  {
    NeverHalfCleared(states, writes, id, lo, hi);
    assert ContinuesAt(states, id, states[lo].receipts[id], hi);
  }

  // ----- what a statement does -----

  /** The statement deletes the receipt's conversation, its message, or the workspace its
      message is in. */
  predicate TakesAway(s: State, w: Write, r: Receipt) {
    || (w.DropConversation? && r.conversation == Some(w.conversation))
    || (w.DropMessage? && r.message == Some(w.message))
    || (w.DropWorkspace? && r.message.Some? && r.message.value in s.messages && s.messages[r.message.value] == w.workspace)
  }

  function TombstoneOf(r: Receipt): Receipt {
    Receipt(r.slot, r.workspace, None, None, true, "{\"tombstone\": true}")
  }

  /** What happens to a receipt that is there: it goes exactly with its workspace, it is
      buried, both ids cleared and the response replaced, exactly if the statement takes
      away what it refers to, and otherwise it stays as it is. */
  lemma ReceiptExactly(s: State, w: Write, id: string)
    requires id in s.receipts
    ensures var t, r := Step(s, w), s.receipts[id];
            && (id !in t.receipts <==> w == DropWorkspace(r.workspace))
            && (id in t.receipts ==> t.receipts[id] == if TakesAway(s, w, r) then TombstoneOf(r) else r)
  {
  }

  /** A receipt is created exactly if its id, its slot and the ids it names are free and
      what it names is live; nothing else is added or changed by a creation. */
  lemma CreateExactly(s: State, id: string, r: Receipt)
    ensures var t := Step(s, Create(id, r));
            && (t == State(s.workspaces, s.conversations, s.messages, s.receipts[id := r]) || t == s)
            && (id !in s.receipts ==> (id in t.receipts <==>
                  && !r.tombstone && r.workspace in s.workspaces
                  && (r.conversation.Some? ==> r.conversation.value in s.conversations)
                  && (r.message.Some? ==> r.message.value in s.messages)
                  && forall k :: k in s.receipts ==>
                       && s.receipts[k].slot != r.slot
                       && (r.conversation.Some? ==> s.receipts[k].conversation != r.conversation)
                       && (r.message.Some? ==> s.receipts[k].message != r.message)))
            && (id in s.receipts ==> t == s)
  {
  }

  /** The rows that are not receipts: added and deleted as the statement says; a workspace
      goes with its messages; no receipt appears. */
  lemma OtherRowsExactly(s: State, w: Write)
    ensures var t := Step(s, w);
            && (!w.Create? ==> t.receipts.Keys <= s.receipts.Keys)
            && t.workspaces == (if w.AddWorkspace? then s.workspaces + {w.workspace}
                                else if w.DropWorkspace? then s.workspaces - {w.workspace} else s.workspaces)
            && t.conversations == (if w.AddConversation? then s.conversations + {w.conversation}
                                   else if w.DropConversation? then s.conversations - {w.conversation} else s.conversations)
            && (forall m :: m in t.messages <==>
                  || (m in s.messages && !(w.DropMessage? && m == w.message)
                                      && !(w.DropWorkspace? && s.messages[m] == w.workspace))
                  || (w.AddMessage? && m == w.message && w.inWorkspace in s.workspaces))
            && (forall m :: m in t.messages ==> t.messages[m] == if m in s.messages then s.messages[m] else w.inWorkspace)
  {
  }

  // ----- the delete triggers as updates of the table -----

  class ReceiptTable {
    var workspaces: set<string>
    var conversations: set<string>
    var messages: map<string, string>
    var receipts: map<string, Receipt>

    constructor (s: State)
      ensures Current() == s
    {
      workspaces, conversations, messages, receipts := s.workspaces, s.conversations, s.messages, s.receipts;
    }

    function Current(): State
      reads this
    {
      State(workspaces, conversations, messages, receipts)
    }

    /** BEFORE DELETE ON conversations, row by row, then the delete. */
    method DeleteConversation(c: string)
      modifies this
      ensures Current() == Step(old(Current()), DropConversation(c))
    {
      ghost var before := receipts;
      var todo := receipts.Keys;
      while todo != {}
        invariant workspaces == old(workspaces) && conversations == old(conversations) && messages == old(messages)
        invariant todo <= receipts.Keys == before.Keys
        invariant forall k :: k in before && k in todo ==> receipts[k] == before[k]
        invariant forall k :: k in before && k !in todo ==> receipts[k] == BuryByConversation(before, c)[k]
        decreases todo
      {
        var k :| k in todo;
        if receipts[k].conversation == Some(c) {
          receipts := receipts[k := Buried(receipts[k])];
        }
        todo := todo - {k};
      }
      assert receipts == BuryByConversation(before, c);
      conversations := conversations - {c};
    }
  }
}
