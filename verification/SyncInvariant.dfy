/** The inductive invariant of the protocol, and the proof that the server's steps keep it. */
module SyncInvariant {
  import opened Entities
  import opened OfflineClient
  import opened SyncServer
  import opened SyncMachine

  // ---------- the invariant ----------

  ghost predicate Captured(phase: Phase, m: Mutation) {
    match phase
    case Pushing(queue, _) => m in queue
    case Awaiting(batch, rest, _) => m in batch || m in rest
    case _ => false
  }

  /** Phases in which no request carrying mutations can be outstanding for a pending record. */
  predicate Quiet(phase: Phase) {
    phase.Pulling? || phase.PageReady? || phase.Snapshotting?
  }

  ghost predicate IsSent(w: World, id: MutationId) {
    exists item :: item in w.sent && item.id == id
  }

  ghost predicate Open(w: World, id: MutationId) {
    || (id in w.client.mutations && w.client.mutations[id].status == Pending)
    || (exists m :: Captured(w.phase, m) && m.id == id)
  }

  ghost predicate IdsUsed(w: World) {
    && Keyed(w.client.mutations)
    && (forall id :: id in w.client.mutations ==> id in w.used && w.used[id] == w.client.mutations[id].key)
    && (forall m :: Captured(w.phase, m) ==> m.id in w.used && w.used[m.id] == m.key)
    && (forall item :: item in w.sent ==> item.id in w.used && w.used[item.id] == item.key)
    && (forall r :: r in w.replies ==> r.item in w.sent)
    && (forall id :: id in w.claims ==> w.claims[id] in w.replies)
  }

  predicate PendingCreate(m: Mutation) {
    m.status == Pending && m.operation == Create
  }

  ghost predicate Truthful(s: Server, r: Reply) {
    r.outcome.Success? ==>
      && (forall x :: x in r.outcome.entities ==> Historical(s, x.0, x.1))
      && (r.item.operation == Delete ==> r.item.key in s.rows && s.rows[r.item.key].deleted)
      && (r.item.operation != Delete ==> exists x :: x in r.outcome.entities && x.0 == r.item.key)
  }

  ghost predicate Concerns(r: Reply, k: Key) {
    r.outcome.Success? && (r.item.key == k || exists x :: x in r.outcome.entities && x.0 == k)
  }

  ghost predicate RepliesTruthful(w: World) {
    forall r :: r in w.replies ==> Truthful(w.server, r)
  }

  /** What an unsettled mutation has written is still ahead of the pull cursor. */
  ghost predicate OpenRepliesAhead(w: World) {
    forall r, k :: r in w.replies && Concerns(r, k) && Open(w, r.item.id) && w.client.cursor.Some? ==>
      HasAfter(w.server, k, w.client.cursor.value)
  }

  ghost predicate CursorOK(w: World) {
    && (w.client.cursor.None? ==> w.sent == {} && !w.phase.Pushing? && !w.phase.Awaiting? && !w.phase.Pulling? && !w.phase.PageReady?)
    && (w.client.cursor.Some? ==> w.client.cursor.value <= LastSequence(w.server))
  }

  ghost predicate PendingTracked(w: World) {
    forall id :: id in w.client.mutations && w.client.mutations[id].status == Pending && IsSent(w, id) ==>
      && !Quiet(w.phase)
      && (w.phase.Pushing? || w.phase.Awaiting? ==> exists m :: Captured(w.phase, m) && m.id == id)
  }

  /** What the cache can lack although nothing about it is to come: what the snapshot left out, and what was dropped. */
  function Lost(w: World): set<Key> {
    w.missed + w.dropped
  }

  /** Every record-free entity is ahead of the cursor, or cached as the server has it, or lost. */
  ghost predicate ViewOK(c: Client, s: Server, lost: set<Key>, k: Key) {
    c.cursor.Some? && Cacheable(k.kind) && RecordFree(c, k) ==>
      || HasAfter(s, k, c.cursor.value)
      || Lookup(c.entities, k) == View(s, k)
      || (k in lost && k !in c.entities)
  }

  ghost predicate Views(c: Client, s: Server, lost: set<Key>) {
    forall k :: ViewOK(c, s, lost, k)
  }

  ghost predicate Faithful(s: Server, k: Key, e: Option<Entity>) {
    e.Some? ==> k in s.rows && (s.rows[k].deleted || Historical(s, k, e.value))
  }

  /** Nothing in the cache is made up: a record-free copy is a past server version, or awaits its removal. */
  ghost predicate Copies(c: Client, s: Server) {
    forall k :: RecordFree(c, k) ==> Faithful(s, k, Lookup(c.entities, k))
  }

  ghost predicate PageOK(w: World) {
    w.phase.PageReady? ==>
      var at := w.phase.at;
      && Consistent(at) && Extends(at, w.server)
      && w.client.cursor.Some? && w.client.cursor.value <= LastSequence(at)
      && w.phase.page == PageOf(at, w.client.cursor.value, PAGE)
      && Views(w.client, at, Lost(w))
      && Copies(w.client, at)
  }

  ghost predicate SnapshotOK(w: World) {
    w.phase.Snapshotting? ==>
      && w.phase.boot <= LastSequence(w.server)
      && (forall x :: x in w.phase.got ==>
            && Historical(w.server, x.0, x.1)
            && (HasAfter(w.server, x.0, w.phase.boot) || View(w.server, x.0) == Some(x.1)))
  }

  ghost predicate OnlyLeaky(keys: set<Key>) {
    forall k :: k in keys ==> Leaky(k.kind)
  }

  ghost predicate Inv(w: World) {
    && Consistent(w.server)
    && IdsUsed(w)
    && RepliesTruthful(w)
    && OpenRepliesAhead(w)
    && CursorOK(w)
    && PendingTracked(w)
    && Views(w.client, w.server, Lost(w))
    && Copies(w.client, w.server)
    && PageOK(w)
    && SnapshotOK(w)
    && OnlyLeaky(w.missed)
  }

  lemma InitialInv(w: World)
    requires Initial(w)
    ensures Inv(w)
  {
  }

  // ---------- the server grows ----------

  lemma ViewsGrow(c: Client, s: Server, s': Server, lost: set<Key>)
    requires Views(c, s, lost) && Extends(s, s')
    requires c.cursor.Some? ==> c.cursor.value <= LastSequence(s)
    ensures Views(c, s', lost)
  {
    forall k ensures ViewOK(c, s', lost, k) {
      assert ViewOK(c, s, lost, k);
      if c.cursor.Some? {
        if HasAfter(s, k, c.cursor.value) {
          HasAfterGrows(s, s', k, c.cursor.value);
        } else if !HasAfter(s', k, c.cursor.value) {
          ViewStable(s, s', k, c.cursor.value);
        }
      }
    }
  }

  lemma CopiesGrow(c: Client, s: Server, s': Server)
    requires Copies(c, s) && Extends(s, s')
    ensures Copies(c, s')
  {
    forall k | RecordFree(c, k) ensures Faithful(s', k, Lookup(c.entities, k)) {
      if k in s.rows { HistoryGrows(s, s', k); }
    }
  }

  lemma TruthGrows(s: Server, s': Server, r: Reply)
    requires Truthful(s, r) && Extends(s, s')
    ensures Truthful(s', r)
  {
    if r.outcome.Success? {
      forall x | x in r.outcome.entities ensures Historical(s', x.0, x.1) { HistoryGrows(s, s', x.0); }
      if r.item.key in s.rows { HistoryGrows(s, s', r.item.key); }
    }
  }

  lemma SnapshotGrows(w: World, s': Server)
    requires SnapshotOK(w) && Extends(w.server, s') && Ordered(s'.feed)
    ensures SnapshotOK(w.(server := s'))
  {
    if w.phase.Snapshotting? {
      LastSequenceGrows(w.server, s');
      forall x | x in w.phase.got
        ensures Historical(s', x.0, x.1)
        ensures HasAfter(s', x.0, w.phase.boot) || View(s', x.0) == Some(x.1)
      {
        HistoryGrows(w.server, s', x.0);
        if HasAfter(w.server, x.0, w.phase.boot) {
          HasAfterGrows(w.server, s', x.0, w.phase.boot);
        } else if !HasAfter(s', x.0, w.phase.boot) {
          ViewStable(w.server, s', x.0, w.phase.boot);
        }
      }
    }
  }

  /** Server growth keeps every part of the invariant that speaks about what is already there. */
  lemma GrowthKeeps(w: World, s': Server)
    requires Inv(w) && Consistent(s') && Extends(w.server, s')
    ensures var w' := w.(server := s');
            && RepliesTruthful(w') && OpenRepliesAhead(w') && CursorOK(w')
            && Views(w.client, s', Lost(w)) && Copies(w.client, s')
            && PageOK(w') && SnapshotOK(w')
  {
    var w' := w.(server := s');
    LastSequenceGrows(w.server, s');
    ViewsGrow(w.client, w.server, s', Lost(w));
    CopiesGrow(w.client, w.server, s');
    SnapshotGrows(w, s');
    forall r | r in w.replies ensures Truthful(s', r) { TruthGrows(w.server, s', r); }
    forall r, k | r in w.replies && Concerns(r, k) && Open(w', r.item.id) && w.client.cursor.Some?
      ensures HasAfter(s', k, w.client.cursor.value)
    {
      assert Open(w, r.item.id);
      HasAfterGrows(w.server, s', k, w.client.cursor.value);
    }
    if w.phase.PageReady? {
      ExtendsTransitive(w.phase.at, w.server, s');
    }
  }

  // ---------- server steps ----------

  /** Only puts bring new rows, and everything written has a new feed entry. */
  lemma {:induction false} CommitAllRows(s: Server, writes: seq<(Write, nat)>, k: Key, cursor: nat)
    requires Consistent(s) && CanCommitAll(s, writes) && cursor <= LastSequence(s)
    ensures k in CommitAll(s, writes).rows && k !in s.rows ==> exists x :: x in writes && x.0.Put? && x.0.key == k
    ensures Written(writes, k) ==> HasAfter(CommitAll(s, writes), k, cursor)
    ensures !Written(writes, k) ==> (k in s.rows <==> k in CommitAll(s, writes).rows)
    ensures !Written(writes, k) && k in s.rows ==> CommitAll(s, writes).rows[k] == s.rows[k]
  {
    if writes != [] {
      var init, last := writes[..|writes| - 1], writes[|writes| - 1];
      var mid, s' := CommitAll(s, init), CommitAll(s, writes);
      CommitAllRows(s, init, k, cursor);
      CommitAllGrows(s, init);
      LastSequenceGrows(s, mid);
      assert writes == init + [last];
      assert s'.feed[|mid.feed|].key == last.0.key && s'.feed[|mid.feed|].sequence > cursor;
      if Written(init, k) { HasAfterGrows(mid, s', k, cursor); }
      if last.0.key == k { assert last in writes; }
    }
  }

  lemma OthersWriteKeeps(w: World, writes: seq<(Write, nat)>, w': World)
    requires Inv(w) && Next(w, OthersWrite(writes), w')
    ensures Inv(w')
  {
    CommitAllGrows(w.server, writes);
    GrowthKeeps(w, w'.server);
    assert w' == w.(server := w'.server);
    SameClient(w, w');
  }

  lemma SameClient(w: World, w': World)
    requires Inv(w) && w' == w.(server := w'.server)
    ensures IdsUsed(w') && PendingTracked(w')
  {
    forall id ensures IsSent(w', id) <==> IsSent(w, id) { }
  }

  /** A committed item tells the truth, and all it concerns is ahead of any earlier cursor. */
  lemma ExecutedReply(s: Server, item: Item, entities: seq<(Key, Entity)>, writes: seq<(Write, nat)>, cursor: nat)
    requires Consistent(s) && CanCommitAll(s, writes) && cursor <= LastSequence(s)
    requires writes != [] && Performs(item, writes[0].0)
    requires forall i :: 0 < i < |writes| ==> writes[i].0.key != item.key
    requires Reports(CommitAll(s, writes), item, writes, entities)
    ensures Truthful(CommitAll(s, writes), Reply(item, Success(entities)))
    ensures forall k :: Concerns(Reply(item, Success(entities)), k) ==> HasAfter(CommitAll(s, writes), k, cursor)
  {
    var s' := CommitAll(s, writes);
    var r := Reply(item, Success(entities));
    CommitAllGrows(s, writes);
    forall k | Concerns(r, k) ensures HasAfter(s', k, cursor) {
      assert writes[0] in writes;
      assert Written(writes, k);
      CommitAllRows(s, writes, k, cursor);
    }
    forall x | x in entities ensures Historical(s', x.0, x.1) {
      assert View(s', x.0) == Some(x.1);
    }
    FirstWriteStays(s, writes, item.key);
  }

  /** A row written by the first write only is as that write left it. */
  lemma {:induction false} FirstWriteStays(s: Server, writes: seq<(Write, nat)>, k: Key)
    requires writes != [] && writes[0].0.key == k
    requires forall i :: 0 < i < |writes| ==> writes[i].0.key != k
    ensures k in CommitAll(s, writes).rows && CommitAll(s, writes).rows[k] == WrittenRow(s, writes[0].0)
  {
    if |writes| > 1 {
      FirstWriteStays(s, writes[..|writes| - 1], k);
    } else {
      assert writes[..0] == [];
    }
  }

  lemma ExecuteKeeps(w: World, item: Item, outcome: Outcome, writes: seq<(Write, nat)>, w': World)
    requires Inv(w) && Next(w, Execute(item, outcome, writes), w')
    ensures Inv(w')
  {
    var r := Reply(item, outcome);
    if item.id in w.claims || !outcome.Success? {
      if item.id in w.claims && w.claims[item.id].item == item { assert w.claims[item.id] == r; }
      forall r', k | r' in w'.replies && Concerns(r', k) && Open(w', r'.item.id) && w'.client.cursor.Some?
        ensures HasAfter(w'.server, k, w'.client.cursor.value)
      {
        assert r' in w.replies && Open(w, r'.item.id);
      }
      assert PendingTracked(w');
    } else {
      CommittedExecuteKeeps(w, item, outcome.entities, writes, w');
    }
  }

  ghost predicate Commits(w: World, item: Item, entities: seq<(Key, Entity)>, writes: seq<(Write, nat)>, w': World) {
    item.id !in w.claims && Executes(w, item, Success(entities), writes, w')
  }

  lemma CommitRepliesAhead(w: World, item: Item, entities: seq<(Key, Entity)>, writes: seq<(Write, nat)>, w': World)
    requires Inv(w) && Commits(w, item, entities, writes, w')
    ensures RepliesTruthful(w') && OpenRepliesAhead(w')
  {
    CommitAllGrows(w.server, writes);
    GrowthKeeps(w, w'.server);
    var grown, r := w.(server := w'.server), Reply(item, Success(entities));
    ExecutedReply(w.server, item, entities, writes, if w.client.cursor.Some? then w.client.cursor.value else 0);
    forall r', k | r' in w'.replies && Concerns(r', k) && Open(w', r'.item.id) && w'.client.cursor.Some?
      ensures HasAfter(w'.server, k, w'.client.cursor.value)
    {
      if r' in w.replies { assert Open(grown, r'.item.id); } else { assert r' == r; }
    }
  }

  lemma CommittedExecuteKeeps(w: World, item: Item, entities: seq<(Key, Entity)>, writes: seq<(Write, nat)>, w': World)
    requires Inv(w) && Commits(w, item, entities, writes, w')
    ensures Inv(w')
  {
    CommitAllGrows(w.server, writes);
    GrowthKeeps(w, w'.server);
    CommitRepliesAhead(w, item, entities, writes, w');
    var grown := w.(server := w'.server);
    assert IdsUsed(w');
    assert PageOK(grown) ==> PageOK(w');
    assert SnapshotOK(grown) ==> SnapshotOK(w');
  }

  lemma ExpireKeeps(w: World, id: MutationId, w': World)
    requires Inv(w) && Next(w, ExpireClaim(id), w')
    ensures Inv(w')
  {
    forall r, k | r in w'.replies && Concerns(r, k) && Open(w', r.item.id) && w'.client.cursor.Some?
      ensures HasAfter(w'.server, k, w'.client.cursor.value)
    {
      assert Open(w, r.item.id);
    }
    assert PendingTracked(w');
  }
}
