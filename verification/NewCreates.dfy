/** When the UI creates only entities that are new, no creation that the server knows of is ever dropped: over such runs
    nothing but what the snapshots leave out is ever lost. */
module NewCreates {
  import opened Entities
  import opened OfflineClient
  import opened SyncServer
  import opened SyncMachine
  import opened SyncInvariant
  import ClientSteps
  import Convergence
  import PullSteps

  // ---------- the invariant ----------

  ghost predicate Mints(w: World, id: MutationId, k: Key) {
    k in w.minted && w.minted[k] == id
  }

  ghost predicate CreatesMinted(w: World) {
    && (forall id :: id in w.client.mutations && PendingCreate(w.client.mutations[id]) ==>
          Mints(w, id, w.client.mutations[id].key))
    && (forall m :: Captured(w.phase, m) && m.operation == Create ==> Mints(w, m.id, m.key))
    && (forall item :: item in w.sent && item.operation == Create ==> Mints(w, item.id, item.key))
    && (forall k :: k in w.minted && k in w.server.rows ==>
          exists item :: item in w.sent && item.operation == Create && item.key == k)
  }

  ghost predicate CreatesAhead(w: World) {
    forall id :: id in w.client.mutations && PendingCreate(w.client.mutations[id]) && w.client.cursor.Some? ==>
      w.client.mutations[id].key !in w.server.rows
      || HasAfter(w.server, w.client.mutations[id].key, w.client.cursor.value)
  }

  ghost predicate Tracked(w: World) {
    CreatesMinted(w) && CreatesAhead(w) && w.dropped == {}
  }

  /** An opening create is of an entity that neither this client nor the server has known before. */
  ghost predicate CreatesNew(w: World, e: Event) {
    e.EnqueueEdit? && Opens(w, e.edit) ==> e.edit.key !in w.minted && e.edit.key !in w.server.rows
  }

  /** A pending create that was never sent has no row. */
  lemma UnsentCreateHasNoRow(w: World, id: MutationId)
    requires Inv(w) && CreatesMinted(w)
    requires id in w.client.mutations && PendingCreate(w.client.mutations[id]) && !IsSent(w, id)
    ensures w.client.mutations[id].key !in w.server.rows
  {
    var k := w.client.mutations[id].key;
    assert Mints(w, id, k);
    forall item | item in w.sent && item.operation == Create ensures item.key != k {
      assert Mints(w, item.id, item.key);
    }
  }

  // ---------- the client's steps ----------

  /** A pending create on the server is still ahead of the cursor, also as the page in hand shows it. */
  lemma NothingToDrop(w: World, edit: Edit)
    requires Inv(w) && Tracked(w)
    ensures !DropsLive(w, edit)
  {
    if DropsLive(w, edit) {
      var id := PendingId(w.client.mutations, edit.key).value;
      assert PendingCreate(w.client.mutations[id]) && Mints(w, id, edit.key);
      if w.phase.PageReady? { UnsentCreateHasNoRow(w, id); }
    }
  }

  lemma EnqueueTracked(w: World, edit: Edit, w': World)
    requires Inv(w) && Tracked(w) && Enqueues(w, edit, w') && CreatesNew(w, EnqueueEdit(edit))
    ensures Tracked(w')
  {
    NothingToDrop(w, edit);
    forall id | id in w'.client.mutations && PendingCreate(w'.client.mutations[id])
      ensures Mints(w', id, w'.client.mutations[id].key)
      ensures w'.client.cursor.Some? ==> w'.client.mutations[id].key !in w'.server.rows
                                         || HasAfter(w'.server, w'.client.mutations[id].key, w'.client.cursor.value)
    {
      ClientSteps.EnqueueRecord(w.client, edit, id);
      if id != edit.id { assert PendingCreate(w.client.mutations[id]) && Mints(w, id, w.client.mutations[id].key); }
    }
    forall m | Captured(w'.phase, m) && m.operation == Create ensures Mints(w', m.id, m.key) { assert Mints(w, m.id, m.key); }
    forall item | item in w'.sent && item.operation == Create ensures Mints(w', item.id, item.key) {
      assert Mints(w, item.id, item.key);
    }
  }

  /** Steps that leave server and minted entities alone, and make no new pending creates. */
  lemma SameCreates(w: World, w': World)
    requires CreatesMinted(w) && w'.server == w.server && w'.minted == w.minted && w.sent <= w'.sent
    requires forall id :: id in w'.client.mutations && PendingCreate(w'.client.mutations[id]) ==>
               id in w.client.mutations && w'.client.mutations[id] == w.client.mutations[id]
    requires forall m :: Captured(w'.phase, m) ==>
               Captured(w.phase, m) || (m.id in w.client.mutations && w.client.mutations[m.id] == m && m.status == Pending)
    requires forall item :: item in w'.sent && item !in w.sent ==> exists m :: Captured(w.phase, m) && item == Outbound(m)
    ensures CreatesMinted(w')
  {
    forall id | id in w'.client.mutations && PendingCreate(w'.client.mutations[id]) ensures Mints(w', id, w'.client.mutations[id].key) {
      assert Mints(w, id, w.client.mutations[id].key);
    }
    forall m | Captured(w'.phase, m) && m.operation == Create ensures Mints(w', m.id, m.key) { assert Mints(w, m.id, m.key); }
    forall item | item in w'.sent && item.operation == Create ensures Mints(w', item.id, item.key) {
      if item in w.sent {
        assert Mints(w, item.id, item.key);
      } else {
        var m :| Captured(w.phase, m) && item == Outbound(m);
        assert Mints(w, m.id, m.key);
      }
    }
  }

  lemma SameCursorTracked(w: World, w': World)
    requires Tracked(w) && w'.server == w.server && w'.minted == w.minted && w.sent <= w'.sent
    requires w'.client.cursor == w.client.cursor && w'.dropped == {}
    requires forall id :: id in w'.client.mutations && PendingCreate(w'.client.mutations[id]) ==>
               id in w.client.mutations && w'.client.mutations[id] == w.client.mutations[id]
    requires forall m :: Captured(w'.phase, m) ==>
               Captured(w.phase, m) || (m.id in w.client.mutations && w.client.mutations[m.id] == m && m.status == Pending)
    requires forall item :: item in w'.sent && item !in w.sent ==> exists m :: Captured(w.phase, m) && item == Outbound(m)
    ensures Tracked(w')
  {
    SameCreates(w, w');
  }

  /** In a quiet phase no pending create was sent, so none has a row, wherever the cursor moves. */
  lemma QuietTracked(w: World, w': World)
    requires Inv(w) && Tracked(w) && Quiet(w.phase) && w'.server == w.server && w'.minted == w.minted && w'.sent == w.sent && w'.dropped == {}
    requires forall id :: id in w'.client.mutations && PendingCreate(w'.client.mutations[id]) ==>
               id in w.client.mutations && w'.client.mutations[id] == w.client.mutations[id]
    requires forall m :: Captured(w'.phase, m) ==> m.id in w.client.mutations && w.client.mutations[m.id] == m && m.status == Pending
    ensures Tracked(w')
  {
    SameCreates(w, w');
    forall id | id in w'.client.mutations && PendingCreate(w'.client.mutations[id])
      ensures w'.client.mutations[id].key !in w'.server.rows
    {
      UnsentCreateHasNoRow(w, id);
    }
  }

  lemma SendTracked(w: World, w': World)
    requires Inv(w) && Tracked(w) && Next(w, SendBatch, w')
    ensures Tracked(w')
  {
    var n, queue := BatchSize(w.phase.queue), w.phase.queue;
    assert queue == queue[..n] + queue[n..];
    forall item | item in w'.sent && item !in w.sent ensures exists m :: Captured(w.phase, m) && item == Outbound(m) {
      var m :| m in queue[..n] && item == Outbound(m);
      assert Captured(w.phase, m);
    }
    SameCursorTracked(w, w');
  }

  lemma SettleTracked(w: World, results: map<MutationId, Outcome>, w': World)
    requires Inv(w) && Tracked(w) && Next(w, SettleBatch(results), w')
    ensures Tracked(w')
  {
    var batch := w.phase.batch;
    ClientSteps.SettleRecords(w.client, batch, results, "");
    forall id | id in w'.client.mutations && PendingCreate(w'.client.mutations[id])
      ensures id in w.client.mutations && w'.client.mutations[id] == w.client.mutations[id]
    {
      ClientSteps.SettleRecords(w.client, batch, results, id);
    }
    SameCursorTracked(w, w');
  }

  lemma PageTracked(w: World, queue: seq<Mutation>, w': World)
    requires Inv(w) && Tracked(w) && Next(w, ApplyReadPage(queue), w')
    ensures Tracked(w')
  {
    PullSteps.PageRecords(w.client, w.phase.page.changes);
    QuietTracked(w, w');
  }

  // ---------- the server's steps ----------

  lemma OthersTracked(w: World, writes: seq<(Write, nat)>, w': World)
    requires Inv(w) && Tracked(w) && Next(w, OthersWrite(writes), w')
    ensures Tracked(w')
  {
    CommitAllGrows(w.server, writes);
    forall k | k in w.minted && k in w'.server.rows ensures k in w.server.rows {
      CommitAllRows(w.server, writes, k, 0);
    }
    forall id | id in w'.client.mutations && PendingCreate(w'.client.mutations[id]) && w'.client.cursor.Some?
      ensures w'.client.mutations[id].key !in w'.server.rows
              || HasAfter(w'.server, w'.client.mutations[id].key, w'.client.cursor.value)
    {
      var k := w.client.mutations[id].key;
      assert Mints(w, id, k);
      if HasAfter(w.server, k, w.client.cursor.value) { HasAfterGrows(w.server, w'.server, k, w.client.cursor.value); }
    }
  }

  lemma CommitCreatesMinted(w: World, item: Item, entities: seq<(Key, Entity)>, writes: seq<(Write, nat)>, w': World)
    requires Inv(w) && CreatesMinted(w) && CreatesAhead(w) && Commits(w, item, entities, writes, w')
    ensures CreatesMinted(w')
  {
    forall k | k in w'.minted && k in w'.server.rows
      ensures exists i :: i in w'.sent && i.operation == Create && i.key == k
    {
      if k !in w.server.rows { NewRowsOf(w, item, entities, writes, k); assert item in w'.sent; }
    }
  }

  lemma CommitCreatesAhead(w: World, item: Item, entities: seq<(Key, Entity)>, writes: seq<(Write, nat)>, w': World)
    requires Inv(w) && CreatesMinted(w) && CreatesAhead(w) && Commits(w, item, entities, writes, w')
    ensures CreatesAhead(w')
  {
    CommitAllGrows(w.server, writes);
    forall id | id in w'.client.mutations && PendingCreate(w'.client.mutations[id]) && w'.client.cursor.Some?
      ensures w'.client.mutations[id].key !in w'.server.rows
              || HasAfter(w'.server, w'.client.mutations[id].key, w'.client.cursor.value)
    {
      var k, cursor := w.client.mutations[id].key, w.client.cursor.value;
      assert Mints(w, id, k);
      if HasAfter(w.server, k, cursor) {
        HasAfterGrows(w.server, w'.server, k, cursor);
      } else if k in w'.server.rows {
        NewRowsOf(w, item, entities, writes, k);
        ExecutedReply(w.server, item, entities, writes, cursor);
        assert Concerns(Reply(item, Success(entities)), k);
      }
    }
  }

  /** A minted entity comes into being only through its own create item. */
  lemma NewRowsOf(w: World, item: Item, entities: seq<(Key, Entity)>, writes: seq<(Write, nat)>, k: Key)
    requires Consistent(w.server) && CanCommitAll(w.server, writes) && !Clashes(w.server, item)
    requires writes != [] && Performs(item, writes[0].0) && ForeignIds(w, writes[1..])
    requires k in w.minted && k !in w.server.rows && k in CommitAll(w.server, writes).rows
    ensures item.key == k && item.operation == Create
  {
    CommitAllRows(w.server, writes, k, 0);
    var x :| x in writes && x.0.Put? && x.0.key == k;
    FirstOrRest(writes, x);
    assert x !in writes[1..];
  }

  lemma FirstOrRest(writes: seq<(Write, nat)>, x: (Write, nat))
    requires x in writes
    ensures x == writes[0] || x in writes[1..]
  {
    var i :| 0 <= i < |writes| && writes[i] == x;
    if i > 0 { assert writes[1..][i - 1] == x; }
  }

  lemma ExecuteTracked(w: World, item: Item, outcome: Outcome, writes: seq<(Write, nat)>, w': World)
    requires Inv(w) && Tracked(w) && Next(w, Execute(item, outcome, writes), w')
    ensures Tracked(w')
  {
    if item.id in w.claims || !outcome.Success? {
      SameCursorTracked(w, w');
    } else {
      CommitCreatesMinted(w, item, outcome.entities, writes, w');
      CommitCreatesAhead(w, item, outcome.entities, writes, w');
    }
  }

  // ---------- runs ----------

  lemma StepTracked(w: World, e: Event, w': World)
    requires Inv(w) && Tracked(w) && Next(w, e, w') && CreatesNew(w, e)
    ensures Tracked(w')
  {
    match e
    case EnqueueEdit(edit) => EnqueueTracked(w, edit, w');
    case SendBatch => SendTracked(w, w');
    case SettleBatch(results) => SettleTracked(w, results, w');
    case ApplyReadPage(queue) => PageTracked(w, queue, w');
    case ReplaceAll(order) => QuietTracked(w, w');
    case Execute(item, outcome, writes) => ExecuteTracked(w, item, outcome, writes, w');
    case OthersWrite(writes) => OthersTracked(w, writes, w');
    case _ => SameCursorTracked(w, w');
  }

  lemma {:induction false} RunTracked(worlds: seq<World>, events: seq<Event>, i: nat)
    requires IsRun(worlds, events) && i < |worlds|
    requires forall j :: 0 <= j < |events| ==> CreatesNew(worlds[j], events[j])
    ensures Tracked(worlds[i])
  {
    if i > 0 {
      RunTracked(worlds, events, i - 1);
      Convergence.RunsKeep(worlds, events, i - 1);
      StepTracked(worlds[i - 1], events[i - 1], worlds[i]);
    }
  }

  /** Over runs that create only new entities, the last page of a pull leaves every cacheable entity without a record
      cached as the server held it, but for milestones and tags the last snapshot left out. */
  lemma NewCreatesConverge(worlds: seq<World>, events: seq<Event>, i: nat, k: Key)
    requires IsRun(worlds, events) && i < |events|
    requires forall j :: 0 <= j < |events| ==> CreatesNew(worlds[j], events[j])
    requires events[i].ApplyReadPage? && worlds[i].phase.PageReady? && !worlds[i].phase.page.hasMore
    requires Cacheable(k.kind) && RecordFree(worlds[i + 1].client, k)
    ensures var cached := worlds[i + 1].client.entities;
            || Lookup(cached, k) == View(worlds[i].phase.at, k)
            || (k in worlds[i + 1].missed && Leaky(k.kind) && k !in cached)
  {
    RunTracked(worlds, events, i + 1);
    Convergence.CaughtUp(worlds, events, i, k);
  }
}
