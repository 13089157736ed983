/** The sync cycle keeps the local-first invariant; every cycle that completes leaves cache, server and wish equal. */
module LocalCycles {
  import opened Entities
  import opened OfflineClient
  import opened SyncServer
  import opened SyncMachine
  import opened SyncInvariant
  import opened LocalFirst
  import opened LocalEdits
  import PullSteps

  // ---------- push ----------

  /** Steps that touch neither client, server, claims nor wishes leave every record as it was. */
  lemma SameRecords(l: Local, l': Local)
    requires LocalInv(l) && l'.wish == l.wish && l'.w.client == l.w.client && l'.w.server == l.w.server && l'.w.claims == l.w.claims
    ensures forall id :: id in l'.w.client.mutations ==> RecordOK(l', id)
    ensures forall k :: FreeOK(l', k)
  {
    forall id | id in l'.w.client.mutations ensures RecordOK(l', id) { assert RecordOK(l, id); }
    forall k ensures FreeOK(l', k) { assert FreeOK(l, k); }
  }

  lemma SameSent(l: Local, l': Local)
    requires LocalInv(l) && l'.w.client == l.w.client && l'.w.claims == l.w.claims && l'.w.server == l.w.server
    requires l'.w.sent == l.w.sent && l'.w.replies == l.w.replies
    ensures SentOK(l')
  {
    forall i | i in l'.w.sent ensures ItemOK(l', i) { assert ItemOK(l, i); }
  }

  lemma QueueDistinct(c: Client, queue: seq<Mutation>)
    requires IsQueue(c, queue)
    ensures DistinctIds(queue)
  {
    forall i, j | 0 <= i < j < |queue| ensures queue[i].id != queue[j].id {
      assert queue[i] in queue && queue[j] in queue;
    }
  }

  lemma LocalStartPushKeeps(l: Local, queue: seq<Mutation>, l': Local)
    requires LocalInv(l) && LocalNext(l, StartPush(queue), l')
    ensures LocalInv(l')
  {
    LocalStepKeepsInv(l, StartPush(queue), l');
    SameRecords(l, l');
    SameSent(l, l');
    QueueDistinct(l.w.client, queue);
    forall id | id in l'.w.client.mutations ensures l'.w.client.mutations[id] in queue { assert RecordOK(l, id); }
  }

  lemma SendKeepsSent(l: Local, l': Local)
    requires LocalInv(l) && LocalNext(l, SendBatch, l')
    ensures SentOK(l')
  {
    forall i | i in l'.w.sent ensures ItemOK(l', i) {
      if i in l.w.sent {
        assert ItemOK(l, i);
      } else {
        var m :| m in l'.w.phase.batch && i == Outbound(m);
        assert m in l.w.phase.queue;
        assert !IsSent(l.w, i.id) by { SentItemsOfRecords(l, i); }
        if i.id in l.w.claims { ClaimedIsSent(l, i.id); }
      }
    }
  }

  /** An item of an unsettled record other than the record as it stands was never sent. */
  lemma SentItemsOfRecords(l: Local, item: Item)
    requires LocalInv(l) && item.id in l.w.client.mutations && item == Outbound(l.w.client.mutations[item.id])
    requires item !in l.w.sent
    ensures !IsSent(l.w, item.id)
  {
    forall i | i in l.w.sent ensures i.id != item.id { assert ItemOK(l, i); }
  }

  lemma SendKeepsPush(l: Local, l': Local)
    requires PushOK(l) && l.w.phase.Pushing? && l.w.phase.queue != [] && l'.w.client == l.w.client
    requires var n := BatchSize(l.w.phase.queue);
             l'.w.phase == Awaiting(l.w.phase.queue[..n], l.w.phase.queue[n..], l.w.phase.pullAfter)
    ensures PushOK(l')
  {
    var n, queue := BatchSize(l.w.phase.queue), l.w.phase.queue;
    assert queue[..n] + queue[n..] == queue;
    assert CapturedSeq(l'.w.phase) == queue;
  }

  lemma LocalSendBatchKeeps(l: Local, l': Local)
    requires LocalInv(l) && LocalNext(l, SendBatch, l')
    ensures LocalInv(l')
  {
    LocalStepKeepsInv(l, SendBatch, l');
    SameRecords(l, l');
    SendKeepsSent(l, l');
    SendKeepsPush(l, l');
  }

  /** All answers are successes that show the server as it is. */
  lemma AnswerIsDone(l: Local, m: Mutation, outcome: Outcome)
    requires LocalInv(l) && Reply(Outbound(m), outcome) in l.w.replies
    requires m.id in l.w.client.mutations && l.w.client.mutations[m.id] == m
    ensures m.id in l.w.claims && l.w.claims[m.id] == Reply(Outbound(m), outcome)
    ensures Done(l.w.server, l.w.claims[m.id], m) && Shown(l.w.client, l.wish, m)
  {
    assert RecordOK(l, m.id);
  }

  ghost predicate Among(ms: seq<Mutation>, k: Key) {
    exists m :: m in ms && m.key == k
  }

  ghost predicate IdAmong(ms: seq<Mutation>, id: MutationId) {
    exists m :: m in ms && m.id == id
  }

  /** The part of a batch handled so far: its records are gone, its entities are cached as the server has them. */
  ghost predicate Settled(l: Local, c: Client, done: seq<Mutation>) {
    && c.cursor == l.w.client.cursor
    && (forall id :: id in c.mutations <==> id in l.w.client.mutations && !IdAmong(done, id))
    && (forall id :: id in c.mutations ==> c.mutations[id] == l.w.client.mutations[id])
    && (forall k :: Lookup(c.entities, k) == if Among(done, k) then View(l.w.server, k) else Lookup(l.w.client.entities, k))
  }

  lemma SettleOneEntities(c: Client, m: Mutation, s: Server, claim: Reply, k: Key)
    requires Done(s, claim, m)
    requires m.operation == Delete ==> m.key !in c.entities
    ensures Lookup(SettleOne(c, m, claim.outcome).entities, k) == if k == m.key then View(s, k) else Lookup(c.entities, k)
    ensures SettleOne(c, m, claim.outcome).mutations == c.mutations - {m.id}
    ensures SettleOne(c, m, claim.outcome).cursor == c.cursor
  {
    if m.operation != Delete {
      var entry := (m.key, View(s, m.key).value);
      var none: seq<(Key, Entity)> := [];
      assert [entry][..0] == none;
      assert PutAll(c.entities, [entry]) == PutAll(c.entities, none)[entry.0 := entry.1];
    }
  }

  lemma SettledOne(l: Local, c: Client, done: seq<Mutation>, m: Mutation, outcome: Outcome)
    requires LocalInv(l) && Settled(l, c, done)
    requires m.id in l.w.client.mutations && l.w.client.mutations[m.id] == m
    requires Reply(Outbound(m), outcome) in l.w.replies
    requires !Among(done, m.key)
    ensures Settled(l, SettleOne(c, m, outcome), done + [m])
  {
    AnswerIsDone(l, m, outcome);
    SettledStep(l, c, done, m, l.w.claims[m.id]);
  }

  lemma SettledStep(l: Local, c: Client, done: seq<Mutation>, m: Mutation, claim: Reply)
    requires Settled(l, c, done) && !Among(done, m.key)
    requires Done(l.w.server, claim, m) && Shown(l.w.client, l.wish, m)
    ensures Settled(l, SettleOne(c, m, claim.outcome), done + [m])
  {
    assert Lookup(c.entities, m.key) == Lookup(l.w.client.entities, m.key);
    SettleOneEntities(c, m, l.w.server, claim, m.key);
    forall id ensures IdAmong(done + [m], id) <==> IdAmong(done, id) || id == m.id { assert m in done + [m]; }
    forall k
      ensures Lookup(SettleOne(c, m, claim.outcome).entities, k)
              == if Among(done + [m], k) then View(l.w.server, k) else Lookup(l.w.client.entities, k)
    {
      SettleOneEntities(c, m, l.w.server, claim, k);
      assert Among(done + [m], k) <==> Among(done, k) || k == m.key by { assert m in done + [m]; }
      assert Lookup(c.entities, k) == if Among(done, k) then View(l.w.server, k) else Lookup(l.w.client.entities, k);
    }
  }

  lemma {:induction false} SettlePrefix(l: Local, batch: seq<Mutation>, results: map<MutationId, Outcome>)
    requires LocalInv(l) && Answers(l.w, batch, results) && DistinctIds(batch)
    requires forall m :: m in batch ==> m.id in l.w.client.mutations && l.w.client.mutations[m.id] == m
    ensures Settled(l, Settle(l.w.client, batch, results), batch)
  {
    if batch != [] {
      var init, m := batch[..|batch| - 1], batch[|batch| - 1];
      assert batch == init + [m];
      SettlePrefix(l, init, results);
      forall other | other in init ensures other.key != m.key {
        assert other.id != m.id;
      }
      SettledOne(l, Settle(l.w.client, init, results), init, m, results[m.id]);
    }
  }

  /** A record outside the batch is as it was, and so is its entity. */
  lemma SettledRecord(l: Local, batch: seq<Mutation>, l': Local, id: MutationId)
    requires Settled(l, l'.w.client, batch) && id in l'.w.client.mutations && id in l.w.client.mutations && RecordOK(l, id)
    requires OneRecordPerKey(l.w.client)
    requires forall m :: m in batch ==> m.id in l.w.client.mutations && l.w.client.mutations[m.id] == m
    requires l'.w.server == l.w.server && l'.w.claims == l.w.claims && l'.wish == l.wish
    ensures RecordOK(l', id)
  {
    var k := l.w.client.mutations[id].key;
    forall m | m in batch ensures m.key != k { assert IdAmong(batch, m.id); }
    assert Lookup(l'.w.client.entities, k) == Lookup(l.w.client.entities, k);
  }

  lemma SettledRecords(l: Local, batch: seq<Mutation>, results: map<MutationId, Outcome>, l': Local)
    requires LocalInv(l) && LocalNext(l, SettleBatch(results), l') && batch == l.w.phase.batch
    requires Settled(l, l'.w.client, batch)
    ensures forall id :: id in l'.w.client.mutations ==> RecordOK(l', id)
    ensures forall k :: FreeOK(l', k)
  {
    forall m | m in batch ensures m.id in l.w.client.mutations && l.w.client.mutations[m.id] == m {
      assert m in CapturedSeq(l.w.phase);
    }
    forall id | id in l'.w.client.mutations ensures RecordOK(l', id) {
      assert RecordOK(l, id);
      SettledRecord(l, batch, l', id);
    }
    forall k ensures FreeOK(l', k) {
      SettledFree(l, batch, results, l', k);
    }
  }

  lemma SettledFree(l: Local, batch: seq<Mutation>, results: map<MutationId, Outcome>, l': Local, k: Key)
    requires LocalInv(l) && LocalNext(l, SettleBatch(results), l') && batch == l.w.phase.batch
    requires Settled(l, l'.w.client, batch)
    ensures FreeOK(l', k)
  {
    assert FreeOK(l, k);
    if Among(batch, k) {
      var m :| m in batch && m.key == k;
      assert m in CapturedSeq(l.w.phase);
      AnswerIsDone(l, m, results[m.id]);
    } else if RecordFree(l'.w.client, k) {
      forall id | id in l.w.client.mutations ensures l.w.client.mutations[id].key != k {
        if IdAmong(batch, id) {
          var m :| m in batch && m.id == id;
          assert m in CapturedSeq(l.w.phase);
        } else {
          assert l'.w.client.mutations[id] == l.w.client.mutations[id];
        }
      }
    }
  }

  lemma SettledSent(l: Local, batch: seq<Mutation>, results: map<MutationId, Outcome>, l': Local)
    requires LocalInv(l) && LocalNext(l, SettleBatch(results), l') && batch == l.w.phase.batch
    requires Settled(l, l'.w.client, batch)
    ensures SentOK(l')
  {
    forall m | m in batch ensures m.id in l.w.claims {
      assert m in CapturedSeq(l.w.phase);
      AnswerIsDone(l, m, results[m.id]);
    }
    forall i | i in l'.w.sent ensures ItemOK(l', i) {
      assert ItemOK(l, i);
    }
  }

  lemma DistinctParts(batch: seq<Mutation>, rest: seq<Mutation>)
    requires DistinctIds(batch + rest)
    ensures DistinctIds(batch) && DistinctIds(rest)
    ensures forall m :: m in rest ==> !IdAmong(batch, m.id)
  {
    var all := batch + rest;
    forall i, j | 0 <= i < j < |batch| ensures batch[i].id != batch[j].id { assert all[i] == batch[i] && all[j] == batch[j]; }
    forall i, j | 0 <= i < j < |rest| ensures rest[i].id != rest[j].id {
      assert all[|batch| + i] == rest[i] && all[|batch| + j] == rest[j];
    }
    forall i, j | 0 <= i < |batch| && 0 <= j < |rest| ensures batch[i].id != rest[j].id {
      assert all[i] == batch[i] && all[|batch| + j] == rest[j];
    }
  }

  lemma SettledPush(l: Local, batch: seq<Mutation>, rest: seq<Mutation>, l': Local)
    requires PushOK(l) && Keyed(l.w.client.mutations) && OneRecordPerKey(l.w.client)
    requires l.w.phase.Awaiting? && batch == l.w.phase.batch && rest == l.w.phase.rest
    requires l'.w.phase == Pushing(rest, l.w.phase.pullAfter)
    requires Settled(l, l'.w.client, batch)
    ensures PushOK(l') && OneRecordPerKey(l'.w.client)
  {
    DistinctParts(batch, rest);
    forall id | id in l'.w.client.mutations ensures l'.w.client.mutations[id] in rest {
      var m := l.w.client.mutations[id];
      assert m in batch + rest && m.id == id;
      assert m in batch ==> IdAmong(batch, id);
    }
  }

  lemma LocalSettleKeeps(l: Local, results: map<MutationId, Outcome>, l': Local)
    requires LocalInv(l) && LocalNext(l, SettleBatch(results), l')
    ensures LocalInv(l')
  {
    LocalStepKeepsInv(l, SettleBatch(results), l');
    var batch := l.w.phase.batch;
    DistinctParts(batch, l.w.phase.rest);
    forall m | m in batch ensures m.id in l.w.client.mutations && l.w.client.mutations[m.id] == m {
      assert m in CapturedSeq(l.w.phase);
    }
    SettlePrefix(l, batch, results);
    SettledRecords(l, batch, results, l');
    SettledSent(l, batch, results, l');
    SettledPush(l, batch, l.w.phase.rest, l');
  }

  lemma LocalFinishPushKeeps(l: Local, l': Local)
    requires LocalInv(l) && LocalNext(l, FinishPush, l')
    ensures LocalInv(l')
    ensures l'.w.client.mutations == map[]
  {
    LocalStepKeepsInv(l, FinishPush, l');
    SameRecords(l, l');
    SameSent(l, l');
    assert CapturedSeq(l.w.phase) == [];
  }

  lemma LocalFailKeeps(l: Local, l': Local)
    requires LocalInv(l) && LocalNext(l, Fail, l')
    ensures LocalInv(l')
  {
    LocalStepKeepsInv(l, Fail, l');
    SameRecords(l, l');
    SameSent(l, l');
  }

  // ---------- pull ----------

  lemma LocalReadPageKeeps(l: Local, l': Local)
    requires LocalInv(l) && LocalNext(l, ReadPage, l')
    ensures LocalInv(l')
  {
    LocalStepKeepsInv(l, ReadPage, l');
    SameRecords(l, l');
    SameSent(l, l');
  }

  ghost predicate Mirrors(c: Client, s: Server) {
    forall k :: Lookup(c.entities, k) == View(s, k)
  }

  lemma {:induction false} MirrorEffect(s: Server, k: Key, from: nat, to: nat)
    requires Consistent(s) && from <= to <= |s.feed| && Cacheable(k.kind)
    ensures PullSteps.EffectOf(s, View(s, k), k, from, to) == View(s, k)
  {
    if from < to {
      MirrorEffect(s, k, from, to - 1);
      assert Grounded(s.rows, s.feed[to - 1]);
    }
  }

  /** A client that mirrors the server and has no records is left as it is by any page of that server. */
  lemma MirrorUnmoved(c: Client, s: Server, cursor: nat)
    requires Consistent(s) && Mirrors(c, s) && c.mutations == map[]
    ensures ApplyChanges(c, PageOf(s, cursor, PAGE).changes) == c
  {
    var page := PageOf(s, cursor, PAGE);
    PullSteps.PageRecords(c, page.changes);
    forall k ensures Lookup(ApplyPage(c, page).entities, k) == Lookup(c.entities, k) {
      assert Lookup(c.entities, k) == View(s, k);
      if Cacheable(k.kind) {
        PullSteps.PageEffectAt(s, c, k, cursor);
        MirrorEffect(s, k, FirstAfter(s.feed, cursor), PageEnd(s, cursor, PAGE));
      } else {
        PullSteps.UncacheableUntouched(c, page.changes, k);
      }
    }
    SameMap(ApplyPage(c, page).entities, c.entities);
  }

  lemma NothingNew(s: Server, cursor: nat)
    requires Ordered(s.feed) && cursor == LastSequence(s)
    ensures PageOf(s, cursor, PAGE) == Page([], cursor, false)
  {
    FirstAfterSplits(s.feed, cursor);
    if s.feed != [] {
      assert s.feed[|s.feed| - 1].sequence <= cursor;
    }
  }

  lemma NoRecordsMirror(l: Local)
    requires LocalInv(l) && l.w.client.mutations == map[] && l.w.client.cursor.Some?
    ensures Mirrors(l.w.client, l.w.server)
  {
    forall k ensures Lookup(l.w.client.entities, k) == View(l.w.server, k) { assert FreeOK(l, k); }
  }

  /** A pulled page moves only the cursor. */
  lemma PageMovesCursor(l: Local)
    requires LocalInv(l) && l.w.phase.PageReady?
    ensures ApplyPage(l.w.client, l.w.phase.page) == l.w.client.(cursor := Some(l.w.phase.page.next))
    ensures PushesAfter(l.w.phase) ==> !l.w.phase.page.hasMore && l.w.client.cursor == Some(l.w.phase.page.next)
  {
    var s, cursor := l.w.server, l.w.client.cursor.value;
    if PushesAfter(l.w.phase) {
      NothingNew(s, cursor);
    } else {
      NoRecordsMirror(l);
      MirrorUnmoved(l.w.client, s, cursor);
    }
  }

  lemma LocalApplyPageKeeps(l: Local, queue: seq<Mutation>, l': Local)
    requires LocalInv(l) && LocalNext(l, ApplyReadPage(queue), l')
    ensures LocalInv(l')
  {
    LocalStepKeepsInv(l, ApplyReadPage(queue), l');
    PageMovesCursor(l);
    forall id | id in l'.w.client.mutations ensures RecordOK(l', id) { assert RecordOK(l, id); }
    forall k ensures FreeOK(l', k) { assert FreeOK(l, k); }
    forall i | i in l'.w.sent ensures ItemOK(l', i) { assert ItemOK(l, i); }
    if l'.w.phase.Pushing? {
      QueueDistinct(l'.w.client, queue);
      forall id | id in l'.w.client.mutations ensures l'.w.client.mutations[id] in queue { assert RecordOK(l', id); }
    }
  }

  lemma LocalBootstrapKeeps(l: Local, l': Local)
    requires LocalInv(l) && LocalNext(l, Bootstrap, l')
    ensures LocalInv(l')
  {
    LocalStepKeepsInv(l, Bootstrap, l');
    SameRecords(l, l');
    SameSent(l, l');
  }

  lemma LocalReadEntityKeeps(l: Local, k: Key, l': Local)
    requires LocalInv(l) && LocalNext(l, ReadEntity(k), l')
    ensures LocalInv(l')
  {
    LocalStepKeepsInv(l, ReadEntity(k), l');
    SameRecords(l, l');
    SameSent(l, l');
  }

  // ---------- rebuild ----------

  /** With one record per entity, the overlay shows each record. */
  lemma {:induction false} OverlayShows(entities: map<Key, Entity>, order: seq<Mutation>, i: nat)
    requires i < |order|
    requires forall a, b :: 0 <= a < b < |order| ==> order[a].key != order[b].key
    ensures var m := order[i];
            Lookup(Overlay(entities, order), m.key)
            == Lookup(Touch(entities, m.operation, m.key, m.optimistic), m.key)
  {
    var init, last := order[..|order| - 1], order[|order| - 1];
    if i < |order| - 1 {
      OverlayShows(entities, init, i);
      assert last.key != order[i].key;
    } else {
      PullSteps.OverlayUntouched(entities, init, last.key);
    }
  }

  lemma NothingAfterLast(s: Server, k: Key)
    requires Ordered(s.feed)
    ensures !HasAfter(s, k, LastSequence(s))
  {
    forall i | 0 <= i < |s.feed| ensures s.feed[i].sequence <= LastSequence(s) {
      assert i < |s.feed| - 1 ==> s.feed[i].sequence < s.feed[|s.feed| - 1].sequence;
    }
  }

  lemma SnapshotMirrors(l: Local, k: Key)
    requires LocalInv(l) && l.w.phase.Snapshotting?
    requires SnapshotDone(l.w.server, l.w.phase.boot, l.w.phase.got)
    requires Unlisted(l.w.server, l.w.phase.boot, l.w.phase.got) == {}
    ensures Lookup(PutAll(map[], l.w.phase.got), k) == View(l.w.server, k)
  {
    var s, boot, got := l.w.server, l.w.phase.boot, l.w.phase.got;
    var put := PutAll(map[], got);
    NothingAfterLast(s, k);
    if k in put {
      assert (k, put[k]) in got;
    } else {
      assert forall x :: x in got ==> x.0 != k;
      assert k !in Unlisted(s, boot, got);
    }
  }

  lemma ReplacedRecord(l: Local, order: seq<Mutation>, l': Local, id: MutationId)
    requires LocalInv(l) && LocalNext(l, ReplaceAll(order), l') && id in l.w.client.mutations
    ensures RecordOK(l', id)
  {
    assert RecordOK(l, id);
    var c, m := l.w.client, l.w.client.mutations[id];
    var i :| 0 <= i < |order| && order[i] == m;
    forall a, b | 0 <= a < b < |order| ensures order[a].key != order[b].key {
      assert order[a] in order && order[b] in order;
      assert order[a].id != order[b].id;
    }
    OverlayShows(PutAll(map[], l.w.phase.got), order, i);
  }

  lemma ReplacedFree(l: Local, order: seq<Mutation>, l': Local, k: Key)
    requires LocalInv(l) && LocalNext(l, ReplaceAll(order), l')
    ensures FreeOK(l', k)
  {
    assert FreeOK(l, k);
    if RecordFree(l.w.client, k) {
      PullSteps.OverlayUntouched(PutAll(map[], l.w.phase.got), order, k);
      SnapshotMirrors(l, k);
    }
  }

  lemma LocalReplaceKeeps(l: Local, order: seq<Mutation>, l': Local)
    requires LocalInv(l) && LocalNext(l, ReplaceAll(order), l')
    ensures LocalInv(l')
  {
    LocalStepKeepsInv(l, ReplaceAll(order), l');
    forall id | id in l'.w.client.mutations ensures RecordOK(l', id) { ReplacedRecord(l, order, l', id); }
    forall k ensures FreeOK(l', k) { ReplacedFree(l, order, l', k); }
    forall i | i in l'.w.sent ensures ItemOK(l', i) { assert ItemOK(l, i); }
  }

  // ---------- runs ----------

  lemma LocalStepKeeps(l: Local, e: Event, l': Local)
    requires LocalInv(l) && LocalNext(l, e, l')
    ensures LocalInv(l')
  {
    match e
    case EnqueueEdit(edit) => LocalEditKeeps(l, edit, l');
    case StartPush(queue) => LocalStartPushKeeps(l, queue, l');
    case SendBatch => LocalSendBatchKeeps(l, l');
    case SettleBatch(results) => LocalSettleKeeps(l, results, l');
    case FinishPush => LocalFinishPushKeeps(l, l');
    case ReadPage => LocalReadPageKeeps(l, l');
    case ApplyReadPage(queue) => LocalApplyPageKeeps(l, queue, l');
    case Bootstrap => LocalBootstrapKeeps(l, l');
    case ReadEntity(key) => LocalReadEntityKeeps(l, key, l');
    case ReplaceAll(order) => LocalReplaceKeeps(l, order, l');
    case Fail => LocalFailKeeps(l, l');
    case Execute(item, outcome, writes) => LocalExecuteKeeps(l, item, outcome, writes, l');
    case ExpireClaim(id) => LocalExpireKeeps(l, id, l');
    case _ =>
  }

  lemma {:induction false} LocalRunsKeep(locals: seq<Local>, events: seq<Event>, i: nat)
    requires IsLocalRun(locals, events) && i < |locals|
    ensures LocalInv(locals[i])
  {
    if i == 0 {
      LocalInitialInv(locals[0]);
    } else {
      LocalRunsKeep(locals, events, i - 1);
      LocalStepKeeps(locals[i - 1], events[i - 1], locals[i]);
    }
  }

  /** Every completed cycle ends with an empty queue, so without conflicts, and with memory, the cache, the server and
      the plain map of the user's edits all equal, whatever failed, was lost or was repeated before. */
  lemma LocalFirstRefinement(locals: seq<Local>, events: seq<Event>, i: nat, k: Key)
    requires IsLocalRun(locals, events) && i < |events| && Completes(locals[i].w, events[i])
    ensures var l' := locals[i + 1];
            && l'.w.client.mutations == map[]
            && Lookup(l'.w.client.entities, k) == View(l'.w.server, k)
            && (k in l'.wish <==> k in l'.w.client.entities)
            && (k in l'.wish ==> l'.w.client.entities[k].body == l'.wish[k])
            && l'.shown == l'.w.client.entities
  {
    var l, l' := locals[i], locals[i + 1];
    LocalRunsKeep(locals, events, i);
    LocalRunsKeep(locals, events, i + 1);
    if events[i].FinishPush? {
      LocalFinishPushKeeps(l, l');
    } else {
      PageMovesCursor(l);
    }
    assert FreeOK(l', k);
  }

  /** At any moment, the server overlaid with the queue is the user's map: no edit is ever lost. */
  lemma NoEditLost(locals: seq<Local>, events: seq<Event>, i: nat, k: Key)
    requires IsLocalRun(locals, events) && i < |locals|
    ensures var l := locals[i];
            if RecordFree(l.w.client, k) then Agrees(l.wish, k, View(l.w.server, k))
            else exists id :: id in l.w.client.mutations && l.w.client.mutations[id].key == k
                              && l.w.client.mutations[id].status == Pending
                              && (if l.w.client.mutations[id].operation == Delete then k !in l.wish
                                  else k in l.wish && l.wish[k] == l.w.client.mutations[id].payload)
  {
    LocalRunsKeep(locals, events, i);
    var l := locals[i];
    assert FreeOK(l, k);
    if !RecordFree(l.w.client, k) {
      var id :| id in l.w.client.mutations && l.w.client.mutations[id].key == k;
      assert RecordOK(l, id);
    }
  }
}
