/** Delivering reminders: the worker's filter of outbox events, the guarded recording of results, and what any run of
    delivery events, old or new, can do to a reminder. */
module ReminderDelivery {
  import opened Entities
  import opened Reminders

  predicate Deliverable(status: Status) {
    status == Pending || status == Processing || status == Failed
  }

  /** The worker's filter, and again the guard of the recording transaction. */
  predicate Current(r: Reminder, event: Id, d: Draft) {
    && r.id == d.reminder && d.event == event && r.slot.channel == d.channel && r.scheduledAt == d.scheduledAt
    && !r.deleted && Deliverable(r.status)
  }

  /** After an update, every live reminder has exactly one draft of that update, and the worker will take it as
      current. */
  lemma OneCurrentDraftEach(live: map<Slot, Reminder>, event: Id, start: int, desired: seq<Slot>, ids: seq<Id>, o: Reconciliation, k: Slot)
    returns (i: nat)
    requires WellIndexed(live) && |desired| <= |ids| && FreshIds(live, ids)
    requires Reconcilable(live, desired) && Reconciled(live, event, start, desired, ids, o) && k in o.live
    ensures i < |o.outbox| && Current(o.live[k], event, o.outbox[i])
    ensures forall j :: 0 <= j < |o.outbox| && o.outbox[j].reminder == o.live[k].id ==> j == i
  {
    i := LiveIsWanted(live, event, start, desired, ids, o, k);
    ReconciledStaysIndexed(live, event, start, desired, ids, o);
    forall j | 0 <= j < |o.outbox| && o.outbox[j].reminder == o.live[k].id ensures j == i {
      assert o.outbox[j].reminder == o.reminders[j].id == o.live[desired[j]].id;
      assert desired[j] == k;
    }
  }

  // ---------- one delivery event ----------

  // What happens to one reminder: updates of its event that keep it, its removal, and delivery events, old or new.
  datatype Event = Moved(start: int) | Dropped | Recorded(draft: Draft, outcome: Status)

  function Next(r: Reminder, event: Id, e: Event): Reminder {
    match e
    case Moved(start) => if r.deleted then r else Rescheduled(r, start)
    case Dropped => if r.deleted then r else Removed(r)
    case Recorded(d, outcome) =>
      if Current(r, event, d) && (outcome == Delivered || outcome == Failed)
      then r.(status := outcome, version := r.version + 1, attempts := r.attempts + 1) else r
  }

  /** The guarded status write. The feed shows exactly the rows that changed, at the version they now have. */
  method RecordResult(now: Reminder, event: Id, d: Draft, outcome: Status) returns (after: Reminder, changes: seq<Change>)
    requires outcome == Delivered || outcome == Failed
    ensures after == Next(now, event, Recorded(d, outcome))
    ensures after == now <==> !Current(now, event, d)
    ensures changes == if after == now then [] else [Change(after.id, Update, after.version)]
  {
    after, changes := now, [];
    if now.id != d.reminder || event != d.event || now.slot.channel != d.channel || now.scheduledAt != d.scheduledAt || now.deleted {
      return;
    }
    if now.status != Pending && now.status != Processing && now.status != Failed {
      return;
    }
    after := now.(status := outcome, version := now.version + 1, attempts := now.attempts + 1);
    changes := [Change(now.id, Update, after.version)];
  }

  /** A recorded delivery closes the reminder to every delivery event; a recorded failure leaves it open to a retry of
      the same event. */
  lemma ResultDecides(now: Reminder, event: Id, d: Draft, later: Draft, outcome: Status)
    requires Current(now, event, d)
    ensures var done := Next(now, event, Recorded(d, Delivered)); Next(done, event, Recorded(later, outcome)) == done
    ensures Current(Next(now, event, Recorded(d, Failed)), event, d)
    ensures Next(now, event, Recorded(d, Delivered)).id == now.id && Next(now, event, Recorded(d, Delivered)).scheduledAt == now.scheduledAt
  {
  }

  /** A delivery event alters a reminder only if it is the reminder's own, of this very schedule, and still open. */
  lemma OtherDraftsAreVoid(r: Reminder, event: Id, d: Draft, outcome: Status)
    ensures Next(r, event, Recorded(d, outcome)) != r ==>
              && d == Draft(r.id, event, r.slot.channel, r.scheduledAt)
              && !r.deleted && r.status != Delivered && r.status != Cancelled
    ensures !r.deleted && r.status != Delivered && r.status != Cancelled && (outcome == Delivered || outcome == Failed) ==>
              Next(r, event, Recorded(Draft(r.id, event, r.slot.channel, r.scheduledAt), outcome))
              == r.(status := outcome, version := r.version + 1, attempts := r.attempts + 1)
  {
  }

  // The reminder as the worker loads it, with what it learns of the event and the account.
  datatype Loaded = Loaded(reminder: Reminder, eventDeleted: bool, accountActive: bool, addressable: bool)

  datatype Delivery = Delivery(reminder: Reminder, changes: seq<Change>, sent: bool, retry: bool)

  /** Handling one delivery event: the reminder is loaded, mail is sent, and the result is recorded on the reminder
      as it then is, which others may have changed in the meantime. The worker's filter asks for more than the recording
      transaction does. An error makes the outbox try again. */
  method Handle(loaded: Option<Loaded>, atRecord: Reminder, event: Id, d: Draft, mailOk: bool) returns (r: Delivery)
    ensures var admitted := loaded.Some? && Current(loaded.value.reminder, event, d) && !loaded.value.eventDeleted && loaded.value.accountActive;
            && (r.sent <==> admitted && d.channel == Email && loaded.value.addressable && mailOk)
            && (r.retry <==> admitted && d.channel == Email && !(loaded.value.addressable && mailOk))
            && r.changes == (if r.reminder == atRecord then [] else [Change(r.reminder.id, Update, r.reminder.version)])
            && r.reminder == if admitted && (d.channel == Email ==> loaded.value.addressable)
                             then Next(atRecord, event, Recorded(d, if d.channel == Email && !mailOk then Failed else Delivered)) else atRecord
  {
    if loaded.None? { return Delivery(atRecord, [], false, false); }
    var now := loaded.value;
    if !Current(now.reminder, event, d) || now.eventDeleted || !now.accountActive { return Delivery(atRecord, [], false, false); }
    var outcome, sent, retry := Delivered, false, false;
    if now.reminder.slot.channel == Email {
      if !now.addressable { return Delivery(atRecord, [], false, true); }
      if mailOk { sent := true; } else { outcome, retry := Failed, true; }
    }
    var after, changes := RecordResult(atRecord, event, d, outcome);
    r := Delivery(after, changes, sent, retry);
  }

  // ---------- runs ----------

  function After(r: Reminder, event: Id, events: seq<Event>): Reminder {
    if events == [] then r else Next(After(r, event, events[..|events| - 1]), event, events[|events| - 1])
  }

  predicate Delivers(r: Reminder, event: Id, e: Event) {
    e.Recorded? && e.outcome == Delivered && Current(r, event, e.draft)
  }

  /** How often the reminder is recorded as delivered. */
  function Deliveries(r: Reminder, event: Id, events: seq<Event>): nat {
    if events == [] then 0
    else
      var init, last := events[..|events| - 1], events[|events| - 1];
      Deliveries(r, event, init) + if Delivers(After(r, event, init), event, last) then 1 else 0
  }

  /** How often it is rescheduled before it is removed. */
  function Moves(r: Reminder, event: Id, events: seq<Event>): nat {
    if events == [] then 0
    else
      var init, last := events[..|events| - 1], events[|events| - 1];
      Moves(r, event, init) + if last.Moved? && !After(r, event, init).deleted then 1 else 0
  }

  /** A delivery is still to come at most if the reminder is live and not delivered. */
  function Open(r: Reminder): nat {
    if r.status == Delivered || r.deleted then 0 else 1
  }

  /** However updates, the removal and delivery events, old or new, interleave: a reminder is delivered at most once
      for each of its schedules, and never once it is removed. */
  lemma {:induction false} DeliveredOncePerSchedule(r: Reminder, event: Id, events: seq<Event>)
    ensures Deliveries(r, event, events) + Open(After(r, event, events)) <= Open(r) + Moves(r, event, events)
    ensures r.deleted ==> After(r, event, events) == r && Moves(r, event, events) == 0
  {
    if events != [] { DeliveredOncePerSchedule(r, event, events[..|events| - 1]); }
  }

  /** When the reminder is due after these events, as its event's updates alone decide. */
  function ScheduledAt(r: Reminder, events: seq<Event>): int {
    if r.deleted || events == [] then r.scheduledAt
    else if Dropped in events[..|events| - 1] then ScheduledAt(r, events[..|events| - 1])
    else if events[|events| - 1].Moved? then Due(events[|events| - 1].start, r.slot)
    else ScheduledAt(r, events[..|events| - 1])
  }

  lemma {:induction false} Identity(r: Reminder, event: Id, events: seq<Event>)
    ensures var a := After(r, event, events);
            && a.id == r.id && a.slot == r.slot && a.scheduledAt == ScheduledAt(r, events)
            && (a.deleted <==> r.deleted || Dropped in events)
  {
    if events != [] {
      var init, last := events[..|events| - 1], events[|events| - 1];
      assert events == init + [last];
      Identity(r, event, init);
    }
  }

  /** The events without the delivery events for a schedule that was not the current one. */
  function WithoutSuperseded(r: Reminder, events: seq<Event>): seq<Event> {
    if events == [] then []
    else
      var init, last := events[..|events| - 1], events[|events| - 1];
      if last.Recorded? && last.draft.scheduledAt != ScheduledAt(r, init) then WithoutSuperseded(r, init)
      else WithoutSuperseded(r, init) + [last]
  }

  /** Delivery events of a schedule that is not the current one, however many and however late, and whatever happens in
      between, might as well not have happened. */
  lemma {:induction false} SupersededNeverAlters(r: Reminder, event: Id, events: seq<Event>)
    ensures After(r, event, WithoutSuperseded(r, events)) == After(r, event, events)
  {
    if events != [] {
      var init, last := events[..|events| - 1], events[|events| - 1];
      SupersededNeverAlters(r, event, init);
      Identity(r, event, init);
      var kept := WithoutSuperseded(r, init);
      assert (kept + [last])[..|kept|] == kept;
    }
  }

  /** Whether the current schedule has been delivered. */
  predicate DeliveredSince(r: Reminder, event: Id, events: seq<Event>) {
    events != []
    && (var init, last := events[..|events| - 1], events[|events| - 1];
        !last.Moved? && (Delivers(After(r, event, init), event, last) || DeliveredSince(r, event, init)))
  }

  /** A draft made for the reminder as it was is current again, after whatever has happened since, exactly if the
      reminder was not removed, is due again when the draft says, and was not delivered since it is. */
  lemma EarlierDraftCurrentExactly(r: Reminder, event: Id, events: seq<Event>)
    requires !r.deleted && Deliverable(r.status)
    ensures Current(After(r, event, events), event, DraftOf(r, event))
            <==> Dropped !in events && ScheduledAt(r, events) == r.scheduledAt && !DeliveredSince(r, event, events)
  {
    Identity(r, event, events);
    if Dropped !in events { StatusAfter(r, event, events); }
  }

  lemma {:induction false} StatusAfter(r: Reminder, event: Id, events: seq<Event>)
    requires !r.deleted && Deliverable(r.status) && Dropped !in events
    ensures Deliverable(After(r, event, events).status) <==> !DeliveredSince(r, event, events)
    ensures !Deliverable(After(r, event, events).status) ==> After(r, event, events).status == Delivered
  {
    if events != [] {
      var init, last := events[..|events| - 1], events[|events| - 1];
      assert events == init + [last];
      StatusAfter(r, event, init);
      Identity(r, event, init);
    }
  }

  /** So a draft that was superseded can come to alter the reminder: moving the event away and back revives it. */
  lemma MovedAwayAndBack(r: Reminder, event: Id, start: int, away: int)
    requires !r.deleted && Deliverable(r.status) && r.scheduledAt == Due(start, r.slot) && away != start
    ensures var moved := [Moved(away)]; !Current(After(r, event, moved), event, DraftOf(r, event))
    ensures var events := [Moved(away), Moved(start)]; Current(After(r, event, events), event, DraftOf(r, event))
  {
    var none: seq<Event> := [];
    var moved, events := [Moved(away)], [Moved(away), Moved(start)];
    assert moved[..0] == none && events[..1] == moved;
    EarlierDraftCurrentExactly(r, event, moved);
    EarlierDraftCurrentExactly(r, event, events);
  }
}
