/** The shape of the mutation queue, over every run: one pending record per entity, sequences drawn once each, and
    batches that the server's batch loop never refuses for order or shape. */
module Queue {
  import opened Entities
  import opened OfflineClient
  import opened SyncMachine
  import opened SyncInvariant
  import Convergence
  import ClientSteps
  import PullSteps

  // ---------- sequences and pending records ----------

  /** m is a record, or was captured by the push that is under way. */
  ghost predicate Ticket(w: World, m: Mutation) {
    (m.id in w.client.mutations && w.client.mutations[m.id] == m) || Captured(w.phase, m)
  }

  ghost predicate TicketOK(w: World, m: Mutation) {
    1 <= m.sequence < w.client.nextSequence
  }

  ghost predicate SequencesOK(w: World) {
    && (forall m :: Ticket(w, m) ==> TicketOK(w, m))
    && (forall m, n :: Ticket(w, m) && Ticket(w, n) && m.sequence == n.sequence ==> m.id == n.id)
  }

  ghost predicate Increasing(ms: seq<Mutation>) {
    forall i, j :: 0 <= i < j < |ms| ==> ms[i].sequence < ms[j].sequence
  }

  ghost predicate CapturedIncreasing(phase: Phase) {
    match phase
    case Pushing(queue, _) => Increasing(queue)
    case Awaiting(batch, rest, _) => Increasing(batch) && Increasing(rest)
    case _ => true
  }

  ghost predicate QueueOK(w: World) {
    && w.client.nextSequence >= 1
    && OnePendingPerKey(w.client.mutations)
    && SequencesOK(w)
    && CapturedIncreasing(w.phase)
  }

  // ---------- shape ----------

  /** What the server demands: creates have base 0, all others a base of at least 1. */
  predicate Shaped(operation: Operation, base: nat) {
    operation == Create <==> base == 0
  }

  ghost predicate PendingShaped(c: Client) {
    forall id :: id in c.mutations && c.mutations[id].status == Pending ==>
      Shaped(c.mutations[id].operation, c.mutations[id].base)
  }

  ghost predicate CapturedShaped(phase: Phase) {
    forall m :: Captured(phase, m) ==> Shaped(m.operation, m.base)
  }

  /** An edit that is compacted, or carries a fitting base version. */
  ghost predicate ShapedEdit(c: Client, edit: Edit) {
    PendingId(c.mutations, edit.key).Some? || Shaped(edit.operation, NewRecord(edit, 1).base)
  }

  /** Enqueueing keeps the shape exactly for such edits. */
  lemma ShapeKeptExactly(c: Client, edit: Edit)
    requires Keyed(c.mutations) && PendingShaped(c) && edit.id !in c.mutations
    ensures PendingShaped(Enqueue(c, edit)) <==> ShapedEdit(c, edit)
  {
    var c' := Enqueue(c, edit);
    if PendingId(c.mutations, edit.key).None? {
      assert c'.mutations[edit.id] == NewRecord(edit, c.nextSequence);
    }
  }

  // ---------- steps ----------

  /** Whatever records a step leaves are old tickets. */
  ghost predicate OldTickets(w: World, w': World) {
    && w'.client.nextSequence == w.client.nextSequence
    && (forall m :: Ticket(w', m) ==> exists n :: Ticket(w, n) && n.id == m.id && n.sequence == m.sequence)
    && (forall id :: id in w'.client.mutations && w'.client.mutations[id].status == Pending ==>
          id in w.client.mutations && w.client.mutations[id] == w'.client.mutations[id])
  }

  lemma OldTicketsKeep(w: World, w': World)
    requires QueueOK(w) && OldTickets(w, w') && CapturedIncreasing(w'.phase)
    ensures QueueOK(w')
  {
    forall m, n | Ticket(w', m) && Ticket(w', n) && m.sequence == n.sequence ensures m.id == n.id {
      var m0 :| Ticket(w, m0) && m0.id == m.id && m0.sequence == m.sequence;
      var n0 :| Ticket(w, n0) && n0.id == n.id && n0.sequence == n.sequence;
    }
  }

  lemma OldTicketsShape(w: World, w': World)
    requires OldTickets(w, w') && PendingShaped(w.client) && CapturedShaped(w.phase)
    requires forall m :: Captured(w'.phase, m) ==>
               Captured(w.phase, m) || (m.status == Pending && m.id in w'.client.mutations && w'.client.mutations[m.id] == m)
    ensures PendingShaped(w'.client) && CapturedShaped(w'.phase)
  {
  }

  /** An edit draws the next sequence for a new record; a compacted record keeps its own. */
  lemma EnqueueTicket(w: World, edit: Edit, w': World, m: Mutation)
    requires Inv(w) && Enqueues(w, edit, w') && Ticket(w', m)
    ensures if m.id == edit.id then m.sequence == w.client.nextSequence && PendingId(w.client.mutations, edit.key).None?
            else exists n :: Ticket(w, n) && n.id == m.id && n.sequence == m.sequence
  {
    if !Captured(w.phase, m) {
      ClientSteps.EnqueueRecord(w.client, edit, m.id);
      if m.id != edit.id {
        var n := w.client.mutations[m.id];
        assert Ticket(w, n) && n.sequence == m.sequence;
      }
    }
  }

  lemma EnqueueKeepsQueue(w: World, edit: Edit, w': World)
    requires Inv(w) && QueueOK(w) && Enqueues(w, edit, w')
    ensures QueueOK(w')
  {
    forall m | Ticket(w', m) ensures TicketOK(w', m) { EnqueueTicket(w, edit, w', m); }
    forall m, n | Ticket(w', m) && Ticket(w', n) && m.sequence == n.sequence ensures m.id == n.id {
      EnqueueTicket(w, edit, w', m);
      EnqueueTicket(w, edit, w', n);
    }
    EnqueueOnePending(w.client, edit);
  }

  lemma EnqueueOnePending(c: Client, edit: Edit)
    requires Keyed(c.mutations) && OnePendingPerKey(c.mutations) && edit.id !in c.mutations
    ensures Keyed(Enqueue(c, edit).mutations) && OnePendingPerKey(Enqueue(c, edit).mutations)
  {
    var c' := Enqueue(c, edit);
    forall i, j | i in c'.mutations && j in c'.mutations && c'.mutations[i].status == Pending
                  && c'.mutations[j].status == Pending && c'.mutations[i].key == c'.mutations[j].key
      ensures i == j
    {
      ClientSteps.EnqueueRecord(c, edit, i);
      ClientSteps.EnqueueRecord(c, edit, j);
    }
  }

  /** A settled record keeps the id and the sequence of its batch mutation. */
  lemma {:induction false} SettleTicket(c: Client, batch: seq<Mutation>, results: map<MutationId, Outcome>, id: MutationId)
    requires Keyed(c.mutations) && id in Settle(c, batch, results).mutations
    ensures var m := Settle(c, batch, results).mutations[id];
            || (id in c.mutations && c.mutations[id] == m)
            || (m.status != Pending && exists n :: n in batch && n.id == id && n.sequence == m.sequence && m.id == id)
  {
    if batch != [] {
      var init, last := batch[..|batch| - 1], batch[|batch| - 1];
      assert batch == init + [last];
      var before := Settle(c, init, results);
      if id in before.mutations { SettleTicket(c, init, results, id); }
    }
  }

  lemma SettleOldTickets(w: World, results: map<MutationId, Outcome>, w': World)
    requires Inv(w) && Next(w, SettleBatch(results), w')
    ensures OldTickets(w, w')
  {
    ClientSteps.SettleRecords(w.client, w.phase.batch, results, "");
    forall m | Ticket(w', m) ensures exists n :: Ticket(w, n) && n.id == m.id && n.sequence == m.sequence {
      if Captured(w'.phase, m) {
        assert Captured(w.phase, m) && Ticket(w, m);
      } else {
        SettleTicket(w.client, w.phase.batch, results, m.id);
        if !(m.id in w.client.mutations && w.client.mutations[m.id] == m) {
          var n :| n in w.phase.batch && n.id == m.id && n.sequence == m.sequence;
          assert Captured(w.phase, n) && Ticket(w, n);
        } else {
          assert Ticket(w, m);
        }
      }
    }
    forall id | id in w'.client.mutations && w'.client.mutations[id].status == Pending
      ensures id in w.client.mutations && w.client.mutations[id] == w'.client.mutations[id]
    {
      SettleTicket(w.client, w.phase.batch, results, id);
    }
  }

  lemma {:induction false} PageSequences(c: Client, changes: seq<Change>, id: MutationId)
    requires Keyed(c.mutations) && id in c.mutations
    ensures id in ApplyChanges(c, changes).mutations
    ensures ApplyChanges(c, changes).mutations[id].sequence == c.mutations[id].sequence
  {
    PullSteps.PageRecords(c, changes);
    if changes != [] {
      PageSequences(c, changes[..|changes| - 1], id);
    }
  }

  lemma PageOldTickets(w: World, queue: seq<Mutation>, w': World)
    requires Inv(w) && Next(w, ApplyReadPage(queue), w')
    ensures OldTickets(w, w')
  {
    PullSteps.PageRecords(w.client, w.phase.page.changes);
    forall m | Ticket(w', m) ensures exists n :: Ticket(w, n) && n.id == m.id && n.sequence == m.sequence {
      assert m.id in w'.client.mutations;
      PageSequences(w.client, w.phase.page.changes, m.id);
      assert Ticket(w, w.client.mutations[m.id]);
    }
  }

  lemma SendSplits(w: World, w': World)
    requires Next(w, SendBatch, w')
    ensures forall m :: Captured(w'.phase, m) <==> Captured(w.phase, m)
    ensures CapturedIncreasing(w.phase) ==> CapturedIncreasing(w'.phase)
  {
    var n, queue := BatchSize(w.phase.queue), w.phase.queue;
    assert queue == queue[..n] + queue[n..];
  }

  /** The other steps leave the records alone and capture nothing but pending records. */
  lemma QuietOldTickets(w: World, e: Event, w': World)
    requires Inv(w) && Next(w, e, w') && !e.EnqueueEdit? && !e.SettleBatch? && !e.ApplyReadPage?
    ensures OldTickets(w, w')
    ensures forall m :: Captured(w'.phase, m) ==>
              Captured(w.phase, m) || (m.status == Pending && m.id in w'.client.mutations && w'.client.mutations[m.id] == m)
  {
    if e.SendBatch? { SendSplits(w, w'); }
    forall m | Ticket(w', m) ensures exists n :: Ticket(w, n) && n.id == m.id && n.sequence == m.sequence {
      assert Ticket(w, m);
    }
  }

  /** Steps keep the captured queue in order. */
  lemma CapturedStaysIncreasing(w: World, e: Event, w': World)
    requires CapturedIncreasing(w.phase) && Next(w, e, w')
    ensures CapturedIncreasing(w'.phase)
  {
    if e.SendBatch? { SendSplits(w, w'); }
  }

  /** Every step but an edit leaves old tickets, and captures nothing but pending records. */
  lemma OtherStepTickets(w: World, e: Event, w': World)
    requires Inv(w) && Next(w, e, w') && !e.EnqueueEdit?
    ensures OldTickets(w, w')
    ensures forall m :: Captured(w'.phase, m) ==>
              Captured(w.phase, m) || (m.status == Pending && m.id in w'.client.mutations && w'.client.mutations[m.id] == m)
  {
    if e.SettleBatch? {
      SettleOldTickets(w, e.results, w');
    } else if e.ApplyReadPage? {
      PageOldTickets(w, e.queue, w');
    } else {
      QuietOldTickets(w, e, w');
    }
  }

  lemma StepKeepsQueue(w: World, e: Event, w': World)
    requires Inv(w) && QueueOK(w) && Next(w, e, w')
    ensures QueueOK(w')
  {
    if e.EnqueueEdit? {
      EnqueueKeepsQueue(w, e.edit, w');
    } else {
      CapturedStaysIncreasing(w, e, w');
      OtherStepTickets(w, e, w');
      OldTicketsKeep(w, w');
    }
  }

  lemma EnqueueKeepsShape(w: World, edit: Edit, w': World)
    requires Inv(w) && Enqueues(w, edit, w') && ShapedEdit(w.client, edit)
    requires PendingShaped(w.client) && CapturedShaped(w.phase)
    ensures PendingShaped(w'.client) && CapturedShaped(w'.phase)
  {
    ShapeKeptExactly(w.client, edit);
  }

  lemma StepKeepsShape(w: World, e: Event, w': World)
    requires Inv(w) && Next(w, e, w') && (e.EnqueueEdit? ==> ShapedEdit(w.client, e.edit))
    requires PendingShaped(w.client) && CapturedShaped(w.phase)
    ensures PendingShaped(w'.client) && CapturedShaped(w'.phase)
  {
    if e.EnqueueEdit? {
      EnqueueKeepsShape(w, e.edit, w');
    } else {
      OtherStepTickets(w, e, w');
      OldTicketsShape(w, w');
    }
  }

  // ---------- runs ----------

  /** In every world of every run, an entity has at most one pending record, and the records' sequences are
      distinct and below the next one. */
  lemma {:induction false} QueueInvariant(worlds: seq<World>, events: seq<Event>, i: nat)
    requires IsRun(worlds, events) && i < |worlds|
    ensures Inv(worlds[i]) && QueueOK(worlds[i])
    ensures var c := worlds[i].client;
            && OnePendingPerKey(c.mutations)
            && (forall id :: id in c.mutations ==> 1 <= c.mutations[id].sequence < c.nextSequence)
            && (forall a, b :: a in c.mutations && b in c.mutations && c.mutations[a].sequence == c.mutations[b].sequence ==> a == b)
  {
    Convergence.RunsKeep(worlds, events, i);
    if i > 0 {
      QueueInvariant(worlds, events, i - 1);
      StepKeepsQueue(worlds[i - 1], events[i - 1], worlds[i]);
    }
    forall id | id in worlds[i].client.mutations ensures Ticket(worlds[i], worlds[i].client.mutations[id]) { }
  }

  ghost predicate ShapedEdits(worlds: seq<World>, events: seq<Event>)
    requires |worlds| == |events| + 1
  {
    forall i :: 0 <= i < |events| && events[i].EnqueueEdit? ==> ShapedEdit(worlds[i].client, events[i].edit)
  }

  lemma {:induction false} ShapeInvariant(worlds: seq<World>, events: seq<Event>, i: nat)
    requires IsRun(worlds, events) && i < |worlds| && ShapedEdits(worlds, events)
    ensures PendingShaped(worlds[i].client) && CapturedShaped(worlds[i].phase)
  {
    if i > 0 {
      ShapeInvariant(worlds, events, i - 1);
      Convergence.RunsKeep(worlds, events, i - 1);
      StepKeepsShape(worlds[i - 1], events[i - 1], worlds[i]);
    }
  }
}
