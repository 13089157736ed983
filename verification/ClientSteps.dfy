/** The client's steps keep the protocol invariant. */
module ClientSteps {
  import opened Entities
  import opened OfflineClient
  import opened SyncServer
  import opened SyncMachine
  import opened SyncInvariant

  // ---------- enqueue ----------

  /** An edit concerns one entity; that entity is left without a record only when its pending create is dropped. */
  lemma EnqueueAt(c: Client, edit: Edit, k: Key)
    requires Keyed(c.mutations) && edit.id !in c.mutations
    ensures var c' := Enqueue(c, edit);
            && (k != edit.key ==> Lookup(c'.entities, k) == Lookup(c.entities, k) && (RecordFree(c', k) ==> RecordFree(c, k)))
            && (k == edit.key && RecordFree(c', k) ==>
                  && k !in c'.entities
                  && exists id :: id in c.mutations && PendingCreate(c.mutations[id]) && c.mutations[id].key == k)
  {
    var c' := Enqueue(c, edit);
    if RecordFree(c', k) {
      match PendingId(c.mutations, edit.key)
      case None =>
        assert c'.mutations[edit.id].key == edit.key;
        forall id | id in c.mutations ensures c.mutations[id].key != k { assert c'.mutations[id] == c.mutations[id]; }
      case Some(held) =>
        if Compact(c.mutations[held], edit).Some? {
          assert c'.mutations[held].key == edit.key;
        }
        if k != edit.key {
          forall id | id in c.mutations ensures c.mutations[id].key != k {
            if id != held { assert c'.mutations[id] == c.mutations[id]; }
          }
        }
    }
  }

  /** The records after an edit: a pending one is new, unchanged, or compacted in place under its old id. */
  lemma EnqueueRecord(c: Client, edit: Edit, id: MutationId)
    requires Keyed(c.mutations) && edit.id !in c.mutations
    requires id in Enqueue(c, edit).mutations
    ensures var m := Enqueue(c, edit).mutations[id];
            && m.id == id
            && (id != edit.id ==>
                  && id in c.mutations && m.key == c.mutations[id].key && m.status == c.mutations[id].status
                  && (m.operation == Create ==> c.mutations[id].operation == Create))
            && (id == edit.id ==> m.key == edit.key && PendingId(c.mutations, edit.key).None? && m.operation == edit.operation)
  {
  }

  /** An edit at any moment keeps the record-free entities current, ahead of the cursor, or lost, as seen on a server
      no older than the page in hand. */
  lemma EnqueueViews(w: World, edit: Edit, w': World, s: Server)
    requires Inv(w) && Enqueues(w, edit, w') && Views(w.client, s, Lost(w)) && Copies(w.client, s)
    requires w.client.cursor.Some? && (HasAfter(Seen(w), edit.key, w.client.cursor.value) || View(Seen(w), edit.key).None?) ==>
               HasAfter(s, edit.key, w.client.cursor.value) || View(s, edit.key).None?
    ensures Views(w'.client, s, Lost(w')) && Copies(w'.client, s)
  {
    var c, c' := w.client, w'.client;
    forall k ensures ViewOK(c', s, Lost(w'), k) {
      EnqueueAt(c, edit, k);
      assert ViewOK(c, s, Lost(w), k);
      if k == edit.key && RecordFree(c', k) { OnlyDropsFree(c, edit); }
    }
    forall k | RecordFree(c', k) ensures Faithful(s, k, Lookup(c'.entities, k)) {
      EnqueueAt(c, edit, k);
    }
  }

  /** The one edit that leaves its entity without a record is the delete of a pending create. */
  lemma OnlyDropsFree(c: Client, edit: Edit)
    requires Keyed(c.mutations) && edit.id !in c.mutations
    ensures RecordFree(Enqueue(c, edit), edit.key) ==>
              && edit.operation == Delete && PendingId(c.mutations, edit.key).Some?
              && c.mutations[PendingId(c.mutations, edit.key).value].operation == Create
  {
    var c' := Enqueue(c, edit);
    match PendingId(c.mutations, edit.key)
    case None => assert c'.mutations[edit.id].key == edit.key;
    case Some(held) =>
      if Compact(c.mutations[held], edit).Some? { assert c'.mutations[held].key == edit.key; }
  }

  /** What is gone, or still to come, on the page in hand is so on the server. */
  lemma SeenHolds(w: World, k: Key)
    requires Inv(w) && w.client.cursor.Some?
    requires HasAfter(Seen(w), k, w.client.cursor.value) || View(Seen(w), k).None?
    ensures HasAfter(w.server, k, w.client.cursor.value) || View(w.server, k).None?
  {
    if w.phase.PageReady? {
      if HasAfter(w.phase.at, k, w.client.cursor.value) {
        HasAfterGrows(w.phase.at, w.server, k, w.client.cursor.value);
      } else if !HasAfter(w.server, k, w.client.cursor.value) {
        ViewStable(w.phase.at, w.server, k, w.client.cursor.value);
      }
    }
  }

  /** An edit that frees its entity of records leaves it as it is seen, or ahead of the cursor, exactly if it does not
      drop a pending create of an entity that the server has, with no entry to come. */
  lemma FreedIsCurrentExactly(w: World, edit: Edit, w': World)
    requires Inv(w) && Enqueues(w, edit, w') && w.client.cursor.Some? && RecordFree(w'.client, edit.key)
    ensures HasAfter(Seen(w), edit.key, w.client.cursor.value) || Lookup(w'.client.entities, edit.key) == View(Seen(w), edit.key)
            <==> !DropsLive(w, edit)
  {
    EnqueueAt(w.client, edit, edit.key);
    OnlyDropsFree(w.client, edit);
  }

  lemma EnqueueBookkeeping(w: World, edit: Edit, w': World)
    requires Inv(w) && Enqueues(w, edit, w')
    ensures IdsUsed(w') && PendingTracked(w')
  {
    forall id | id in w'.client.mutations
      ensures w'.client.mutations[id].id == id && id in w'.used && w'.used[id] == w'.client.mutations[id].key
      ensures w'.client.mutations[id].status == Pending && IsSent(w', id) ==>
                IsSent(w, id) && id != edit.id && w.client.mutations[id].status == Pending
    {
      EnqueueRecord(w.client, edit, id);
      if IsSent(w', id) { assert IsSent(w, id); }
    }
  }

  lemma EnqueueAhead(w: World, edit: Edit, w': World)
    requires Inv(w) && Enqueues(w, edit, w')
    ensures OpenRepliesAhead(w')
  {
    forall r, k | r in w'.replies && Concerns(r, k) && Open(w', r.item.id) && w'.client.cursor.Some?
      ensures HasAfter(w'.server, k, w'.client.cursor.value)
    {
      assert r.item in w.sent;
      if r.item.id in w'.client.mutations { EnqueueRecord(w.client, edit, r.item.id); }
      assert Open(w, r.item.id);
    }
  }

  lemma EnqueueKeeps(w: World, edit: Edit, w': World)
    requires Inv(w) && Next(w, EnqueueEdit(edit), w')
    ensures Inv(w')
  {
    EnqueueBookkeeping(w, edit, w');
    EnqueueAhead(w, edit, w');
    if w.client.cursor.Some? && (HasAfter(Seen(w), edit.key, w.client.cursor.value) || View(Seen(w), edit.key).None?) {
      SeenHolds(w, edit.key);
    }
    EnqueueViews(w, edit, w', w.server);
    if w.phase.PageReady? { EnqueueViews(w, edit, w', w.phase.at); }
    assert w'.client.cursor == w.client.cursor;
  }

  // ---------- push ----------

  lemma StartPushKeeps(w: World, queue: seq<Mutation>, w': World)
    requires Inv(w) && Next(w, StartPush(queue), w')
    ensures Inv(w')
  {
    forall m | Captured(w'.phase, m) ensures w.client.mutations[m.id] == m && m.status == Pending { }
    SamePending(w, w');
  }

  /** Steps that leave client, replies and server alone keep what depends on the open mutations. */
  lemma SamePending(w: World, w': World)
    requires Inv(w) && w'.client == w.client && w'.replies == w.replies && w'.server == w.server
    requires forall m :: Captured(w'.phase, m) ==> Captured(w.phase, m) || (m.id in w.client.mutations && w.client.mutations[m.id] == m && m.status == Pending)
    ensures OpenRepliesAhead(w')
  {
    forall r, k | r in w'.replies && Concerns(r, k) && Open(w', r.item.id) && w'.client.cursor.Some?
      ensures HasAfter(w'.server, k, w'.client.cursor.value)
    {
      assert Open(w, r.item.id);
    }
  }

  lemma SendBatchKeeps(w: World, w': World)
    requires Inv(w) && Next(w, SendBatch, w')
    ensures Inv(w')
  {
    var n, queue := BatchSize(w.phase.queue), w.phase.queue;
    assert queue == queue[..n] + queue[n..];
    assert forall m :: Captured(w'.phase, m) <==> Captured(w.phase, m);
    SamePending(w, w');
    forall item | item in w'.sent && item !in w.sent
      ensures exists m :: Captured(w.phase, m) && item == Outbound(m)
    {
      var m :| m in queue[..n] && item == Outbound(m);
      assert Captured(w.phase, m);
    }
    forall id | id in w'.client.mutations && w'.client.mutations[id].status == Pending && IsSent(w', id)
      ensures exists m :: Captured(w'.phase, m) && m.id == id
    {
      var item :| item in w'.sent && item.id == id;
      if item in w.sent {
        assert IsSent(w, id);
        var m :| Captured(w.phase, m) && m.id == id;
        assert Captured(w'.phase, m);
      } else {
        var m :| Captured(w.phase, m) && item == Outbound(m);
        assert Captured(w'.phase, m);
      }
    }
  }

  lemma FinishPushKeeps(w: World, w': World)
    requires Inv(w) && Next(w, FinishPush, w')
    ensures Inv(w')
  {
    SamePending(w, w');
    forall id | id in w'.client.mutations && w'.client.mutations[id].status == Pending
      ensures !IsSent(w', id)
    {
      if IsSent(w, id) { assert false; }
    }
  }

  /** What settling a batch leaves of the records: nothing pending under the batch's ids, all else untouched. */
  lemma {:induction false} SettleRecords(c: Client, batch: seq<Mutation>, results: map<MutationId, Outcome>, id: MutationId)
    requires Keyed(c.mutations)
    requires forall m :: m in batch ==> m.id in results
    ensures var c' := Settle(c, batch, results);
            && Keyed(c'.mutations) && c'.cursor == c.cursor && c'.nextSequence == c.nextSequence
            && ((forall m :: m in batch ==> m.id != id) ==>
                  (id in c'.mutations <==> id in c.mutations) && (id in c.mutations ==> c'.mutations[id] == c.mutations[id]))
            && (id in c'.mutations && (exists m :: m in batch && m.id == id) ==>
                  c'.mutations[id].status != Pending && exists m :: m in batch && m.id == id && m.key == c'.mutations[id].key)
  {
    if batch != [] {
      var init, m := batch[..|batch| - 1], batch[|batch| - 1];
      assert batch == init + [m];
      SettleRecords(c, init, results, id);
    }
  }

  ghost predicate RecordsKeyed(w: World, c: Client) {
    forall id :: id in c.mutations ==> id in w.used && w.used[id] == c.mutations[id].key
  }

  /** Settling one successful mutation: whatever it touches or frees is ahead of the cursor, and is true. */
  lemma SettleOneViews(w: World, c: Client, m: Mutation, outcome: Outcome)
    requires Keyed(c.mutations) && RecordsKeyed(w, c) && m.id in w.used && w.used[m.id] == m.key
    requires Views(c, w.server, Lost(w)) && Copies(c, w.server)
    requires Truthful(w.server, Reply(Outbound(m), outcome))
    requires c.cursor.Some? && forall k :: Concerns(Reply(Outbound(m), outcome), k) ==> HasAfter(w.server, k, c.cursor.value)
    ensures Views(SettleOne(c, m, outcome), w.server, Lost(w)) && Copies(SettleOne(c, m, outcome), w.server)
    ensures RecordsKeyed(w, SettleOne(c, m, outcome))
  {
    var c', r := SettleOne(c, m, outcome), Reply(Outbound(m), outcome);
    forall k | RecordFree(c', k) && k != m.key ensures RecordFree(c, k) {
      forall id | id in c.mutations ensures c.mutations[id].key != k {
        if id != m.id { assert c'.mutations[id] == c.mutations[id]; }
      }
    }
    if outcome.Success? {
      forall k ensures ViewOK(c', w.server, Lost(w), k) {
        assert ViewOK(c, w.server, Lost(w), k);
        if !Concerns(r, k) { assert forall x :: x in outcome.entities ==> x.0 != k; }
      }
      forall k | RecordFree(c', k) ensures Faithful(w.server, k, Lookup(c'.entities, k)) {
        if Concerns(r, k) && m.operation != Delete && k in c'.entities {
          if k == m.key || exists x :: x in outcome.entities && x.0 == k {
            assert (k, c'.entities[k]) in outcome.entities;
          }
        } else if !Concerns(r, k) {
          assert forall x :: x in outcome.entities ==> x.0 != k;
        }
      }
    } else {
      assert c'.mutations[m.id].key == m.key;
      forall k ensures ViewOK(c', w.server, Lost(w), k) { assert ViewOK(c, w.server, Lost(w), k); }
    }
  }

  lemma {:induction false} SettleViews(w: World, batch: seq<Mutation>, results: map<MutationId, Outcome>)
    requires Inv(w) && w.phase.Awaiting? && Answers(w, batch, results)
    requires forall m :: m in batch ==> m in w.phase.batch
    ensures var c' := Settle(w.client, batch, results);
            Views(c', w.server, Lost(w)) && Copies(c', w.server) && RecordsKeyed(w, c')
  {
    if batch != [] {
      var init, m := batch[..|batch| - 1], batch[|batch| - 1];
      assert batch == init + [m];
      SettleViews(w, init, results);
      SettleRecords(w.client, init, results, m.id);
      var r := Reply(Outbound(m), results[m.id]);
      assert Captured(w.phase, m);
      assert r in w.replies && Open(w, r.item.id);
      SettleOneViews(w, Settle(w.client, init, results), m, results[m.id]);
    }
  }

  lemma SettleAhead(w: World, results: map<MutationId, Outcome>, w': World)
    requires Inv(w) && Next(w, SettleBatch(results), w')
    ensures OpenRepliesAhead(w') && PendingTracked(w')
  {
    var batch := w.phase.batch;
    forall id | id in w'.client.mutations && w'.client.mutations[id].status == Pending
      ensures id in w.client.mutations && w'.client.mutations[id] == w.client.mutations[id]
      ensures IsSent(w', id) ==> exists m :: Captured(w'.phase, m) && m.id == id
    {
      SettleRecords(w.client, batch, results, id);
      if IsSent(w', id) {
        assert IsSent(w, id);
        var m :| Captured(w.phase, m) && m.id == id;
        assert Captured(w'.phase, m);
      }
    }
    forall r, k | r in w'.replies && Concerns(r, k) && Open(w', r.item.id) && w'.client.cursor.Some?
      ensures HasAfter(w'.server, k, w'.client.cursor.value)
    {
      SettleRecords(w.client, batch, results, r.item.id);
      assert Open(w, r.item.id);
    }
    SettleRecords(w.client, batch, results, "");
  }

  lemma SettleKeeps(w: World, results: map<MutationId, Outcome>, w': World)
    requires Inv(w) && Next(w, SettleBatch(results), w')
    ensures Inv(w')
  {
    SettleRecords(w.client, w.phase.batch, results, "");
    SettleViews(w, w.phase.batch, results);
    SettleAhead(w, results, w');
    assert forall m :: Captured(w'.phase, m) ==> Captured(w.phase, m);
  }
}
