/** Reminders of one calendar event: reconciling the live ones with the desired ones in an event update. The partial
    unique index on (event, offset, channel) makes the live reminders of an event a map. */
module Reminders {
  import opened Entities

  type Id = string

  datatype Channel = InApp | Email | Unknown
  datatype Slot = Slot(offset: int, channel: Channel)

  datatype Status = Pending | Processing | Delivered | Failed | Cancelled

  datatype Reminder = Reminder(id: Id, slot: Slot, scheduledAt: int, status: Status, version: nat, attempts: nat, deleted: bool)

  datatype Change = Change(id: Id, operation: Operation, version: nat)

  // What a delivery event carries.
  datatype Draft = Draft(reminder: Id, event: Id, channel: Channel, scheduledAt: int)

  const MINUTE: int := 60_000
  const MAX_OFFSET: int := 525_600

  function Due(start: int, slot: Slot): int {
    start - slot.offset * MINUTE
  }

  /** The check constraints of the table. */
  predicate Storable(slot: Slot) {
    slot.offset >= 0 && slot.channel != Unknown
  }

  function Rescheduled(r: Reminder, start: int): Reminder {
    r.(scheduledAt := Due(start, r.slot), status := Pending, version := r.version + 1, attempts := 0)
  }

  function Removed(r: Reminder): Reminder {
    r.(deleted := true, status := Cancelled, version := r.version + 1)
  }

  function Fresh(id: Id, slot: Slot, start: int): Reminder {
    Reminder.Reminder(id, slot, Due(start, slot), Pending, 1, 0, false)
  }

  function DraftOf(r: Reminder, event: Id): Draft {
    Draft(r.id, event, r.slot.channel, r.scheduledAt)
  }

  predicate Distinct<T(==)>(s: seq<T>) {
    forall i, j :: 0 <= i < j < |s| ==> s[i] != s[j]
  }

  /** The live reminders of an event, by slot. */
  predicate WellIndexed(live: map<Slot, Reminder>) {
    && (forall k :: k in live ==> live[k].slot == k && !live[k].deleted && Storable(k))
    && (forall k, l :: k in live && l in live && live[k].id == live[l].id ==> k == l)
  }

  predicate FreshIds(live: map<Slot, Reminder>, ids: seq<Id>) {
    Distinct(ids) && forall i, k :: 0 <= i < |ids| && k in live ==> live[k].id != ids[i]
  }

  method ValidateReminderInputs(inputs: seq<Slot>) returns (ok: bool)
    ensures ok <==> Distinct(inputs) && forall i :: 0 <= i < |inputs| ==> 0 <= inputs[i].offset <= 525_600 && !inputs[i].channel.Unknown?
  {
    var seen: set<Slot> := {};
    for i := 0 to |inputs|
      invariant forall s :: s in seen <==> exists j :: 0 <= j < i && inputs[j] == s
      invariant Distinct(inputs[..i])
      invariant forall j :: 0 <= j < i ==> Storable(inputs[j]) && inputs[j].offset <= MAX_OFFSET
    {
      var input := inputs[i];
      if input.offset < 0 || input.offset > MAX_OFFSET || (input.channel != InApp && input.channel != Email) {
        return false;
      }
      if input in seen {
        return false;
      }
      seen := seen + {input};
    }
    assert inputs[..|inputs|] == inputs;
    ok := true;
  }

  // ---------- updating an event ----------

  datatype Reconciliation = Reconciliation(live: map<Slot, Reminder>, reminders: seq<Reminder>, changes: seq<Change>, outbox: seq<Draft>, removed: seq<Reminder>)

  /** The update goes through exactly if no slot is wanted twice and every new slot can be stored. */
  predicate Reconcilable(live: map<Slot, Reminder>, desired: seq<Slot>) {
    Distinct(desired) && forall i :: 0 <= i < |desired| ==> desired[i] in live || Storable(desired[i])
  }

  function Wanted(live: map<Slot, Reminder>, start: int, desired: seq<Slot>, ids: seq<Id>, i: nat): Reminder
    requires i < |desired| <= |ids|
  {
    if desired[i] in live then Rescheduled(live[desired[i]], start) else Fresh(ids[i], desired[i], start)
  }

  function WantedChange(live: map<Slot, Reminder>, start: int, desired: seq<Slot>, ids: seq<Id>, i: nat): Change
    requires i < |desired| <= |ids|
  {
    var r := Wanted(live, start, desired, ids, i);
    Change(r.id, if desired[i] in live then Update else Create, r.version)
  }

  /** k is one of the first n desired slots. */
  ghost predicate Wants(desired: seq<Slot>, n: int, k: Slot) {
    exists i :: 0 <= i < n && i < |desired| && desired[i] == k
  }

  lemma WantsStep(desired: seq<Slot>, n: nat, k: Slot)
    requires n < |desired|
    ensures Wants(desired, n + 1, k) <==> Wants(desired, n, k) || desired[n] == k
  {
  }

  lemma WantsAll(desired: seq<Slot>, k: Slot)
    ensures Wants(desired, |desired|, k) <==> k in desired
  {
  }

  ghost predicate RowsMatch(live: map<Slot, Reminder>, start: int, desired: seq<Slot>, ids: seq<Id>, n: nat, o: Reconciliation)
    requires n <= |desired| <= |ids|
  {
    && (forall i, j :: 0 <= i < j < n ==> desired[i] != desired[j])
    && |o.reminders| == n && |o.changes| == n
    && (forall i :: 0 <= i < n ==> o.reminders[i] == Wanted(live, start, desired, ids, i)
                                   && o.changes[i] == WantedChange(live, start, desired, ids, i)
                                   && desired[i] in o.live && o.live[desired[i]] == o.reminders[i])
  }

  ghost predicate Unmatched(live: map<Slot, Reminder>, start: int, desired: seq<Slot>, n: nat, remaining: map<Slot, Reminder>) {
    forall k :: (k in remaining <==> k in live && !Wants(desired, n, k)) && (k in remaining ==> remaining[k] == Rescheduled(live[k], start))
  }

  ghost predicate TableHolds(desired: seq<Slot>, n: nat, table: map<Slot, Reminder>, remaining: map<Slot, Reminder>) {
    forall k :: (k in table <==> k in remaining || Wants(desired, n, k)) && (k in remaining ==> k in table && table[k] == remaining[k])
  }

  /** The state of the update after the first n desired reminders. */
  ghost predicate Matched(live: map<Slot, Reminder>, start: int, desired: seq<Slot>, ids: seq<Id>, n: nat, o: Reconciliation, remaining: map<Slot, Reminder>)
    requires n <= |desired| <= |ids|
  {
    && RowsMatch(live, start, desired, ids, n, o)
    && Unmatched(live, start, desired, n, remaining)
    && TableHolds(desired, n, o.live, remaining)
  }

  /** UPDATE ... SET scheduled_at for all live reminders of the event. */
  function RescheduleAll(live: map<Slot, Reminder>, start: int): (r: map<Slot, Reminder>)
    ensures r.Keys == live.Keys && forall k :: k in r ==> r[k] == Rescheduled(live[k], start)
  {
    map k | k in live :: Rescheduled(live[k], start)
  }

  lemma UnmatchedStep(live: map<Slot, Reminder>, start: int, desired: seq<Slot>, n: nat, remaining: map<Slot, Reminder>)
    requires n < |desired| && Unmatched(live, start, desired, n, remaining)
    ensures desired[n] in remaining ==> Unmatched(live, start, desired, n + 1, remaining - {desired[n]})
    ensures desired[n] !in remaining && !Wants(desired, n, desired[n]) ==> Unmatched(live, start, desired, n + 1, remaining) && desired[n] !in live
  {
    forall k ensures Wants(desired, n + 1, k) <==> Wants(desired, n, k) || desired[n] == k { WantsStep(desired, n, k); }
  }

  lemma TableStep(desired: seq<Slot>, n: nat, table: map<Slot, Reminder>, remaining: map<Slot, Reminder>, r: Reminder)
    requires n < |desired| && TableHolds(desired, n, table, remaining)
    ensures desired[n] in remaining ==> TableHolds(desired, n + 1, table, remaining - {desired[n]})
    ensures desired[n] !in remaining ==> TableHolds(desired, n + 1, table[desired[n] := r], remaining)
  {
    forall k ensures Wants(desired, n + 1, k) <==> Wants(desired, n, k) || desired[n] == k { WantsStep(desired, n, k); }
  }

  lemma NotWantedYet(desired: seq<Slot>, n: nat, k: Slot, i: int)
    requires !Wants(desired, n, k) && 0 <= i < n && i < |desired|
    ensures desired[i] != k
  {
  }

  lemma MatchKept(live: map<Slot, Reminder>, start: int, desired: seq<Slot>, ids: seq<Id>, n: nat, o: Reconciliation, remaining: map<Slot, Reminder>)
    requires n < |desired| <= |ids| && Matched(live, start, desired, ids, n, o, remaining) && desired[n] in remaining
    ensures var r := remaining[desired[n]];
            Matched(live, start, desired, ids, n + 1,
                    o.(reminders := o.reminders + [r], changes := o.changes + [Change(r.id, Update, r.version)]), remaining - {desired[n]})
  {
    UnmatchedStep(live, start, desired, n, remaining);
    TableStep(desired, n, o.live, remaining, remaining[desired[n]]);
    forall i | 0 <= i < n ensures desired[i] != desired[n] { NotWantedYet(desired, n, desired[n], i); }
  }

  lemma MatchCreated(live: map<Slot, Reminder>, start: int, desired: seq<Slot>, ids: seq<Id>, n: nat, o: Reconciliation, remaining: map<Slot, Reminder>)
    requires n < |desired| <= |ids| && Matched(live, start, desired, ids, n, o, remaining)
    requires desired[n] !in remaining && desired[n] !in o.live
    ensures var r := Fresh(ids[n], desired[n], start);
            Matched(live, start, desired, ids, n + 1,
                    o.(live := o.live[desired[n] := r], reminders := o.reminders + [r], changes := o.changes + [Change(r.id, Create, 1)]), remaining)
  {
    UnmatchedStep(live, start, desired, n, remaining);
    TableStep(desired, n, o.live, remaining, Fresh(ids[n], desired[n], start));
    forall i | 0 <= i < n ensures desired[i] != desired[n] { NotWantedYet(desired, n, desired[n], i); }
  }

  /** The first loop of the update: matching the desired reminders with the rescheduled ones, creating the others. */
  method MatchDesired(live: map<Slot, Reminder>, start: int, desired: seq<Slot>, ids: seq<Id>)
    returns (o: Option<Reconciliation>, remaining: map<Slot, Reminder>)
    requires WellIndexed(live) && |desired| <= |ids|
    ensures o.Some? <==> Reconcilable(live, desired)
    ensures o.Some? ==> o.value.outbox == [] && o.value.removed == [] && Matched(live, start, desired, ids, |desired|, o.value, remaining)
  {
    var table := RescheduleAll(live, start);
    remaining := table;
    var reminders: seq<Reminder>, changes: seq<Change> := [], [];
    for i := 0 to |desired|
      invariant Matched(live, start, desired, ids, i, Reconciliation(table, reminders, changes, [], []), remaining)
      invariant forall j :: 0 <= j < i ==> desired[j] in live || Storable(desired[j])
    {
      var slot := desired[i];
      ghost var o' := Reconciliation(table, reminders, changes, [], []);
      if slot in remaining {
        MatchKept(live, start, desired, ids, i, o', remaining);
        var reminder := remaining[slot];
        remaining := remaining - {slot};
        reminders := reminders + [reminder];
        changes := changes + [Change(reminder.id, Update, reminder.version)];
      } else {
        // the insert; the table refuses a second live reminder in a slot
        if !Storable(slot) || slot in table {
          SlotTaken(live, start, desired, i, table, remaining);
          return None, remaining;
        }
        MatchCreated(live, start, desired, ids, i, o', remaining);
        var reminder := Fresh(ids[i], slot, start);
        table := table[slot := reminder];
        reminders := reminders + [reminder];
        changes := changes + [Change(reminder.id, Create, 1)];
      }
    }
    o := Some(Reconciliation(table, reminders, changes, [], []));
  }

  lemma SlotTaken(live: map<Slot, Reminder>, start: int, desired: seq<Slot>, i: nat, table: map<Slot, Reminder>, remaining: map<Slot, Reminder>)
    requires WellIndexed(live) && i < |desired| && desired[i] !in remaining
    requires Unmatched(live, start, desired, i, remaining) && TableHolds(desired, i, table, remaining)
    requires !Storable(desired[i]) || desired[i] in table
    ensures !Reconcilable(live, desired)
  {
    if desired[i] in table || desired[i] in live {
      assert Wants(desired, i, desired[i]);
      var j :| 0 <= j < i && desired[j] == desired[i];
    }
  }

  /** The live reminders are exactly the desired ones; survivors keep their identity, and all are armed afresh. */
  ghost predicate LiveAsDesired(live: map<Slot, Reminder>, start: int, desired: seq<Slot>, ids: seq<Id>, o: Reconciliation)
    requires |desired| <= |ids|
  {
    && (forall k :: k in o.live <==> k in desired)
    && |o.reminders| == |desired|
    && (forall i :: 0 <= i < |desired| ==> desired[i] in o.live && o.live[desired[i]] == o.reminders[i] == Wanted(live, start, desired, ids, i))
  }

  ghost predicate Unwanted(live: map<Slot, Reminder>, start: int, desired: seq<Slot>, r: Reminder) {
    exists k :: k in live && k !in desired && r == Removed(Rescheduled(live[k], start))
  }

  /** The others are removed, each once. */
  ghost predicate OthersRemoved(live: map<Slot, Reminder>, start: int, desired: seq<Slot>, removed: seq<Reminder>) {
    Distinct(removed) && forall r :: r in removed <==> Unwanted(live, start, desired, r)
  }

  /** One feed change for each reminder touched, one delivery draft for each live one. */
  ghost predicate Recorded(live: map<Slot, Reminder>, event: Id, start: int, desired: seq<Slot>, ids: seq<Id>, o: Reconciliation)
    requires |desired| == |o.reminders| && |desired| <= |ids|
  {
    && |o.changes| == |desired| + |o.removed|
    && (forall i :: 0 <= i < |desired| ==> o.changes[i] == WantedChange(live, start, desired, ids, i))
    && (forall i :: 0 <= i < |o.removed| ==> o.changes[|desired| + i] == Change(o.removed[i].id, Delete, o.removed[i].version))
    && |o.outbox| == |desired|
    && (forall i :: 0 <= i < |desired| ==> o.outbox[i] == DraftOf(o.reminders[i], event))
  }

  ghost predicate Reconciled(live: map<Slot, Reminder>, event: Id, start: int, desired: seq<Slot>, ids: seq<Id>, o: Reconciliation)
    requires |desired| <= |ids|
  {
    && LiveAsDesired(live, start, desired, ids, o)
    && OthersRemoved(live, start, desired, o.removed)
    && Recorded(live, event, start, desired, ids, o)
  }

  ghost predicate Drafted(reminders: seq<Reminder>, event: Id, outbox: seq<Draft>) {
    |outbox| == |reminders| && forall i :: 0 <= i < |reminders| ==> outbox[i] == DraftOf(reminders[i], event)
  }

  method DraftAll(reminders: seq<Reminder>, event: Id) returns (outbox: seq<Draft>)
    ensures Drafted(reminders, event, outbox)
  {
    outbox := [];
    for i := 0 to |reminders|
      invariant |outbox| == i && forall j :: 0 <= j < i ==> outbox[j] == DraftOf(reminders[j], event)
    {
      outbox := outbox + [DraftOf(reminders[i], event)];
    }
  }

  /** Each of these reminders is removed, once, and no other. */
  ghost predicate RemovedFrom(remaining: map<Slot, Reminder>, removed: seq<Reminder>) {
    && Distinct(removed)
    && (forall r :: r in removed ==> exists k :: k in remaining && r == Removed(remaining[k]))
    && (forall k :: k in remaining ==> Removed(remaining[k]) in removed)
  }

  ghost predicate DeletesRecorded(before: seq<Change>, removed: seq<Reminder>, changes: seq<Change>) {
    && |changes| == |before| + |removed| && changes[..|before|] == before
    && (forall i :: 0 <= i < |removed| ==> changes[|before| + i] == Change(removed[i].id, Delete, removed[i].version))
  }

  lemma RemovedAre(live: map<Slot, Reminder>, start: int, desired: seq<Slot>, remaining: map<Slot, Reminder>, removed: seq<Reminder>)
    requires Unmatched(live, start, desired, |desired|, remaining)
    requires RemovedFrom(remaining, removed)
    ensures OthersRemoved(live, start, desired, removed)
  {
    forall k ensures Wants(desired, |desired|, k) <==> k in desired { WantsAll(desired, k); }
    forall r | r in removed ensures Unwanted(live, start, desired, r) {
      var k :| k in remaining && r == Removed(remaining[k]);
      assert k in live && k !in desired;
    }
    forall r | Unwanted(live, start, desired, r) ensures r in removed {
      var k :| k in live && k !in desired && r == Removed(Rescheduled(live[k], start));
      assert k in remaining;
    }
  }

  lemma LiveAre(live: map<Slot, Reminder>, start: int, desired: seq<Slot>, ids: seq<Id>,
                m: Reconciliation, remaining: map<Slot, Reminder>, o: Reconciliation)
    requires |desired| <= |ids| && Matched(live, start, desired, ids, |desired|, m, remaining)
    requires o.live == m.live - remaining.Keys && o.reminders == m.reminders
    ensures LiveAsDesired(live, start, desired, ids, o)
  {
    forall k ensures Wants(desired, |desired|, k) <==> k in desired { WantsAll(desired, k); }
  }

  lemma RecordedAre(live: map<Slot, Reminder>, event: Id, start: int, desired: seq<Slot>, ids: seq<Id>, m: Reconciliation, o: Reconciliation)
    requires |desired| <= |ids| && RowsMatch(live, start, desired, ids, |desired|, m)
    requires o.reminders == m.reminders && Drafted(m.reminders, event, o.outbox)
    requires DeletesRecorded(m.changes, o.removed, o.changes)
    ensures Recorded(live, event, start, desired, ids, o)
  {
    forall i | 0 <= i < |desired| ensures o.changes[i] == m.changes[i] { assert o.changes[..|m.changes|][i] == o.changes[i]; }
  }

  /** The reminders' part of an event update; a refused insert rolls the whole update back. */
  method UpdateReminders(live: map<Slot, Reminder>, event: Id, start: int, desired: seq<Slot>, ids: seq<Id>)
    returns (o: Option<Reconciliation>)
    requires WellIndexed(live) && |desired| <= |ids|
    ensures o.Some? <==> (forall i, j :: 0 <= i < j < |desired| ==> desired[i] != desired[j])
                         && forall i :: 0 <= i < |desired| ==> desired[i] in live || (desired[i].offset >= 0 && !desired[i].channel.Unknown?)
    ensures o.Some? ==> Reconciled(live, event, start, desired, ids, o.value)
  {
    var matched, remaining := MatchDesired(live, start, desired, ids);
    if matched.None? { return None; }
    var outbox := DraftAll(matched.value.reminders, event);
    var table, changes, removed := RemoveRemaining(matched.value.live, remaining, matched.value.changes);
    var outcome := Reconciliation(table, matched.value.reminders, changes, outbox, removed);
    LiveAre(live, start, desired, ids, matched.value, remaining, outcome);
    RemovedAre(live, start, desired, remaining, removed);
    RecordedAre(live, event, start, desired, ids, matched.value, outcome);
    o := Some(outcome);
  }

  lemma RemoveOneMore(remaining: map<Slot, Reminder>, keys: set<Slot>, key: Slot, removed: seq<Reminder>)
    requires key in keys && key in remaining && forall k :: k in remaining ==> remaining[k].slot == k
    requires RemovedFrom(remaining - keys, removed)
    ensures RemovedFrom(remaining - (keys - {key}), removed + [Removed(remaining[key])])
  {
    var deleted, rest, more := Removed(remaining[key]), remaining - (keys - {key}), removed + [Removed(remaining[key])];
    forall i | 0 <= i < |removed| ensures removed[i] != deleted { assert removed[i] in removed; }
    forall r | r in more ensures exists k :: k in rest && r == Removed(rest[k]) {
      if r == deleted {
        assert key in rest;
      } else {
        assert r in removed;
        var k :| k in remaining - keys && r == Removed((remaining - keys)[k]);
        assert k in rest && rest[k] == remaining[k];
      }
    }
    forall k | k in rest ensures Removed(rest[k]) in more {
      assert k == key || k in remaining - keys;
    }
  }

  /** The second loop of the update: what nobody wants any more is deleted, in whatever order the map yields it. */
  method RemoveRemaining(table: map<Slot, Reminder>, remaining: map<Slot, Reminder>, before: seq<Change>)
    returns (live: map<Slot, Reminder>, changes: seq<Change>, removed: seq<Reminder>)
    requires forall k :: k in remaining ==> k in table && remaining[k].slot == k
    ensures live == table - remaining.Keys
    ensures RemovedFrom(remaining, removed) && DeletesRecorded(before, removed, changes)
  {
    live, changes, removed := table, before, [];
    var keys := remaining.Keys;
    while keys != {}
      invariant keys <= remaining.Keys
      invariant live == table - (remaining.Keys - keys)
      invariant RemovedFrom(remaining - keys, removed) && DeletesRecorded(before, removed, changes)
      decreases |keys|
    {
      var key :| key in keys;
      var deleted := Removed(remaining[key]);
      RemoveOneMore(remaining, keys, key, removed);
      live := live - {key};
      removed := removed + [deleted];
      changes := changes + [Change(deleted.id, Delete, deleted.version)];
      keys := keys - {key};
    }
    assert remaining - keys == remaining;
  }

  lemma LiveIsWanted(live: map<Slot, Reminder>, event: Id, start: int, desired: seq<Slot>, ids: seq<Id>, o: Reconciliation, k: Slot)
    returns (i: nat)
    requires |desired| <= |ids| && Reconciled(live, event, start, desired, ids, o) && k in o.live
    ensures i < |desired| && desired[i] == k && o.live[k] == Wanted(live, start, desired, ids, i)
  {
    i :| 0 <= i < |desired| && desired[i] == k;
  }

  lemma WantedIdsDiffer(live: map<Slot, Reminder>, start: int, desired: seq<Slot>, ids: seq<Id>, i: nat, j: nat)
    requires WellIndexed(live) && i < |desired| <= |ids| && j < |desired| && FreshIds(live, ids)
    requires Wanted(live, start, desired, ids, i).id == Wanted(live, start, desired, ids, j).id
    ensures desired[i] == desired[j]
  {
    assert i < j ==> ids[i] != ids[j];
    assert j < i ==> ids[j] != ids[i];
  }

  /** A reconciled event is again well indexed, so updates can follow one another; survivors keep their identity, and
      every live reminder is armed for the new start, even if it had been delivered. */
  lemma ReconciledStaysIndexed(live: map<Slot, Reminder>, event: Id, start: int, desired: seq<Slot>, ids: seq<Id>, o: Reconciliation)
    requires WellIndexed(live) && |desired| <= |ids| && FreshIds(live, ids)
    requires Reconcilable(live, desired) && Reconciled(live, event, start, desired, ids, o)
    ensures WellIndexed(o.live)
    ensures forall k :: k in live && k in o.live ==> o.live[k].id == live[k].id && o.live[k].version == live[k].version + 1
    ensures forall k :: k in o.live ==> o.live[k].status == Pending && o.live[k].scheduledAt == Due(start, k)
  {
    forall k | k in o.live
      ensures o.live[k].slot == k && !o.live[k].deleted && Storable(k)
      ensures k in live ==> o.live[k].id == live[k].id && o.live[k].version == live[k].version + 1
      ensures o.live[k].status == Pending && o.live[k].scheduledAt == Due(start, k)
    {
      var i := LiveIsWanted(live, event, start, desired, ids, o, k);
    }
    forall k, l | k in o.live && l in o.live && o.live[k].id == o.live[l].id ensures k == l {
      var i := LiveIsWanted(live, event, start, desired, ids, o, k);
      var j := LiveIsWanted(live, event, start, desired, ids, o, l);
      WantedIdsDiffer(live, start, desired, ids, i, j);
    }
  }

  /** Every live reminder is armed to fire its offset in minutes before the event starts, and its draft says so: the
      larger the offset, the earlier. */
  lemma ArmedBeforeStart(live: map<Slot, Reminder>, event: Id, start: int, desired: seq<Slot>, ids: seq<Id>, o: Reconciliation)
    requires WellIndexed(live) && |desired| <= |ids| && Reconciled(live, event, start, desired, ids, o)
    ensures forall k :: k in o.live ==> o.live[k].scheduledAt + k.offset * 60_000 == start && o.live[k].attempts == 0
    ensures forall k, l :: k in o.live && l in o.live && k.offset < l.offset ==> o.live[l].scheduledAt < o.live[k].scheduledAt
    ensures |o.outbox| == |desired|
    ensures forall i :: 0 <= i < |desired| ==>
              && desired[i] in o.live && o.outbox[i].reminder == o.live[desired[i]].id && o.outbox[i].event == event
              && o.outbox[i].channel == desired[i].channel && o.outbox[i].scheduledAt + desired[i].offset * 60_000 == start
    ensures forall i :: 0 <= i < |desired| && desired[i] !in live ==> o.live[desired[i]].id == ids[i] && o.live[desired[i]].version == 1
  {
    forall k | k in o.live
      ensures o.live[k].scheduledAt + k.offset * 60_000 == start && o.live[k].attempts == 0 && o.live[k].slot == k
    {
      var i := LiveIsWanted(live, event, start, desired, ids, o, k);
    }
  }

  /** The feed tells of every reminder touched, under the version it now has: survivors as updated, new ones as created,
      the others as deleted. */
  lemma FeedTellsAll(live: map<Slot, Reminder>, event: Id, start: int, desired: seq<Slot>, ids: seq<Id>, o: Reconciliation)
    requires WellIndexed(live) && |desired| <= |ids| && Reconciled(live, event, start, desired, ids, o)
    ensures |o.changes| == |desired| + |o.removed|
    ensures forall i :: 0 <= i < |desired| ==>
              o.changes[i] == if desired[i] in live then Change(live[desired[i]].id, Update, live[desired[i]].version + 1)
                              else Change(ids[i], Create, 1)
    ensures forall k :: k in live && k !in desired ==> Change(live[k].id, Delete, live[k].version + 2) in o.changes
  {
    forall k | k in live && k !in desired ensures Change(live[k].id, Delete, live[k].version + 2) in o.changes {
      assert Unwanted(live, start, desired, Removed(Rescheduled(live[k], start)));
      var i :| 0 <= i < |o.removed| && o.removed[i] == Removed(Rescheduled(live[k], start));
      assert o.changes[|desired| + i] == Change(live[k].id, Delete, live[k].version + 2);
    }
  }

  /** Every live reminder is accounted for, once: it survives under its id, or it is removed under its id, cancelled,
      deleted for good, and two versions on: once rescheduled, once deleted. */
  lemma RemovedReminders(live: map<Slot, Reminder>, event: Id, start: int, desired: seq<Slot>, ids: seq<Id>, o: Reconciliation, k: Slot)
    requires WellIndexed(live) && |desired| <= |ids| && Reconciled(live, event, start, desired, ids, o) && k in live
    ensures if k in desired
            then k in o.live && o.live[k].id == live[k].id && forall r :: r in o.removed ==> r.id != live[k].id
            else k !in o.live && multiset(o.removed)[Removed(Rescheduled(live[k], start))] == 1
                 && forall r :: r in o.removed && r.id == live[k].id ==> r == Removed(Rescheduled(live[k], start))
    ensures var r := Removed(Rescheduled(live[k], start));
            r.id == live[k].id && r.deleted && r.status == Cancelled && r.version == live[k].version + 2
  {
    forall r | r in o.removed && r.id == live[k].id ensures r == Removed(Rescheduled(live[k], start)) && k !in desired {
      assert Unwanted(live, start, desired, r);
      var l :| l in live && l !in desired && r == Removed(Rescheduled(live[l], start));
      assert live[l].id == live[k].id;
    }
    if k in desired {
      var i :| 0 <= i < |desired| && desired[i] == k;
    } else {
      assert Unwanted(live, start, desired, Removed(Rescheduled(live[k], start)));
      OnceInDistinct(o.removed, Removed(Rescheduled(live[k], start)));
    }
  }

  lemma {:induction false} OnceInDistinct(s: seq<Reminder>, r: Reminder)
    requires Distinct(s)
    ensures multiset(s)[r] == if r in s then 1 else 0
  {
    if s != [] {
      var init, last := s[..|s| - 1], s[|s| - 1];
      assert s == init + [last];
      OnceInDistinct(init, r);
      assert last !in init;
    }
  }
}
