/** One device, no other writer: the user's edits keep the invariant. */
module LocalEdits {
  import opened Entities
  import opened OfflineClient
  import opened SyncMachine
  import opened SyncInvariant
  import opened LocalFirst
  import ClientSteps

  lemma ClaimedIsSent(l: Local, id: MutationId)
    requires LocalInv(l) && id in l.w.claims
    ensures IsSent(l.w, id)
  {
    assert l.w.claims[id] in l.w.replies;
    assert l.w.claims[id].item in l.w.sent;
  }

  /** The entity under edit has no record, or one ready record. */
  lemma EditTarget(l: Local, edit: Edit, l': Local)
    requires LocalInv(l) && UserEdits(l, edit, l')
    ensures edit.id !in l.w.client.mutations && edit.id !in l.w.claims
    ensures match PendingId(l.w.client.mutations, edit.key)
            case None => RecordFree(l.w.client, edit.key)
            case Some(held) =>
              && Ready(l.w.server, l.w.client.mutations[held]) && held !in l.w.claims
              && Shown(l.w.client, l.wish, l.w.client.mutations[held])
              && (forall id :: id in l.w.client.mutations && l.w.client.mutations[id].key == edit.key ==> id == held)
  {
    if edit.id in l.w.claims { ClaimedIsSent(l, edit.id); }
    match PendingId(l.w.client.mutations, edit.key)
    case None =>
      forall id | id in l.w.client.mutations ensures l.w.client.mutations[id].key != edit.key {
        assert RecordOK(l, id);
      }
    case Some(held) =>
      assert RecordOK(l, held);
      if held in l.w.claims { ClaimedIsSent(l, held); }
  }

  /** Compaction keeps a ready record ready, and makes it show the edit. */
  lemma CompactedRecord(l: Local, edit: Edit, l': Local, held: MutationId)
    requires LocalInv(l) && UserEdits(l, edit, l')
    requires PendingId(l.w.client.mutations, edit.key) == Some(held) && Compact(l.w.client.mutations[held], edit).Some?
    ensures l'.w.client.mutations == l.w.client.mutations[held := Compact(l.w.client.mutations[held], edit).value]
    ensures RecordOK(l', held)
  {
    EditTarget(l, edit, l');
    assert RecordOK(l, held);
  }

  /** A first edit of a synced or unknown entity makes a ready record. */
  lemma NewRecordOK(l: Local, edit: Edit, l': Local)
    requires LocalInv(l) && UserEdits(l, edit, l') && PendingId(l.w.client.mutations, edit.key).None?
    ensures l'.w.client.mutations == l.w.client.mutations[edit.id := NewRecord(edit, l.w.client.nextSequence)]
    ensures RecordOK(l', edit.id)
  {
    EditTarget(l, edit, l');
    assert FreeOK(l, edit.key);
  }

  /** The records of the other entities are untouched. */
  lemma OtherRecordOK(l: Local, edit: Edit, l': Local, id: MutationId)
    requires id in l.w.client.mutations && RecordOK(l, id) && UserEdits(l, edit, l')
    requires id in l'.w.client.mutations
    requires l'.w.client.mutations[id] == l.w.client.mutations[id] && l.w.client.mutations[id].key != edit.key
    ensures RecordOK(l', id)
  {
  }

  lemma EditRecords(l: Local, edit: Edit, l': Local)
    requires LocalInv(l) && UserEdits(l, edit, l')
    ensures forall id :: id in l'.w.client.mutations ==> RecordOK(l', id)
  {
    EditTarget(l, edit, l');
    var c, c' := l.w.client, l'.w.client;
    forall id | id in c'.mutations ensures RecordOK(l', id) {
      match PendingId(c.mutations, edit.key)
      case None =>
        if id == edit.id { NewRecordOK(l, edit, l'); } else { assert RecordOK(l, id); OtherRecordOK(l, edit, l', id); }
      case Some(held) =>
        if id == held { CompactedRecord(l, edit, l', held); } else { assert RecordOK(l, id); OtherRecordOK(l, edit, l', id); }
    }
  }

  lemma EditOneRecord(c: Client, edit: Edit)
    requires Keyed(c.mutations) && OneRecordPerKey(c) && edit.id !in c.mutations
    requires forall id :: id in c.mutations ==> c.mutations[id].status == Pending
    ensures OneRecordPerKey(Enqueue(c, edit))
  {
    var c' := Enqueue(c, edit);
    forall i, j | i in c'.mutations && j in c'.mutations && c'.mutations[i].key == c'.mutations[j].key
      ensures i == j
    {
      ClientSteps.EnqueueRecord(c, edit, i);
      ClientSteps.EnqueueRecord(c, edit, j);
    }
  }

  lemma EditFree(l: Local, edit: Edit, l': Local)
    requires LocalInv(l) && UserEdits(l, edit, l')
    ensures forall k :: FreeOK(l', k)
  {
    EditTarget(l, edit, l');
    forall k ensures FreeOK(l', k) {
      assert FreeOK(l, k);
      ClientSteps.EnqueueAt(l.w.client, edit, k);
    }
  }

  lemma EditSent(l: Local, edit: Edit, l': Local)
    requires LocalInv(l) && UserEdits(l, edit, l')
    ensures SentOK(l')
  {
    EditTarget(l, edit, l');
    forall item | item in l'.w.sent ensures ItemOK(l', item) {
      assert ItemOK(l, item);
      assert IsSent(l.w, item.id);
      if item.id in l.w.client.mutations { assert l.w.client.mutations[item.id].key != edit.key; }
    }
  }

  lemma LocalEditKeeps(l: Local, edit: Edit, l': Local)
    requires LocalInv(l) && LocalNext(l, EnqueueEdit(edit), l')
    ensures LocalInv(l')
  {
    LocalStepKeepsInv(l, EnqueueEdit(edit), l');
    EditRecords(l, edit, l');
    EditTarget(l, edit, l');
    forall id | id in l.w.client.mutations ensures l.w.client.mutations[id].status == Pending { assert RecordOK(l, id); }
    EditOneRecord(l.w.client, edit);
    EditFree(l, edit, l');
    EditSent(l, edit, l');
  }
}
