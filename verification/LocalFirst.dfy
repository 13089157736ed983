/** One device, no other writer: the whole of compaction, push, retries, pull and rebuild refines the plain map of
    the user's edits. Cycles may fail at any point, replies may be lost, sent requests may arrive late or repeatedly,
    and claims may expire. The one guard: edits are made between cycles, on what the cache holds, and not on an entity
    whose mutation was sent but not settled; the claim of an unsettled mutation does not expire; rebuilds leave nothing
    out. LocalRuns shows what happens otherwise. */
module LocalFirst {
  import opened Entities
  import opened OfflineClient
  import opened SyncServer
  import opened SyncMachine
  import opened SyncInvariant
  import opened OnceByVersion
  import Convergence

  // `wish` is what the user has entered so far; `shown` is the app state in memory, from which the UI makes its edits.
  datatype Local = Local(w: World, wish: map<Key, Body>, shown: map<Key, Entity>)

  // ---------- the edits the UI makes ----------

  /** Saving an entity: a create if memory does not hold it or only holds it unsynced, an update otherwise. */
  function UiPut(shown: map<Key, Entity>, id: MutationId, k: Key, body: Body): Edit {
    var version := if k in shown then shown[k].version else 0;
    Edit(id, k, if version == 0 then Create else Update, Some(version), body, Some(Entity(version, body)))
  }

  function UiDelete(shown: map<Key, Entity>, id: MutationId, k: Key): Edit {
    Edit(id, k, Delete, Some(if k in shown then shown[k].version else 0), "{}", None)
  }

  /** The edit is made from memory, changes memory, and is enqueued. */
  ghost predicate UserWants(l: Local, edit: Edit, l': Local) {
    && Enqueues(l.w, edit, l'.w)
    && if edit.operation == Delete then
         && edit == UiDelete(l.shown, edit.id, edit.key) && edit.key in l.shown
         && l'.wish == l.wish - {edit.key} && l'.shown == l.shown - {edit.key}
       else
         && edit == UiPut(l.shown, edit.id, edit.key, edit.payload)
         && l'.wish == l.wish[edit.key := edit.payload] && l'.shown == l.shown[edit.key := edit.optimistic.value]
  }

  /** No cycle is running, and no mutation of the entity is sent but not settled. */
  ghost predicate Editable(l: Local, k: Key) {
    && l.w.phase == Idle
    && (forall id :: id in l.w.client.mutations && l.w.client.mutations[id].key == k ==> !IsSent(l.w, id))
  }

  /** An edit that opens a record is made on the version that the cache holds, or is of an entity that is new. */
  ghost predicate UpToDate(l: Local, edit: Edit) {
    RecordFree(l.w.client, edit.key) ==>
      if edit.operation == Create then edit.key !in l.w.server.rows
      else edit.key in l.w.client.entities && edit.base == Some(l.w.client.entities[edit.key].version)
  }

  ghost predicate UserEdits(l: Local, edit: Edit, l': Local) {
    UserWants(l, edit, l') && Editable(l, edit.key) && UpToDate(l, edit)
  }

  /** The server accepts every payload and stores it as sent; it answers with the stored entity. */
  ghost predicate HonestlyExecutes(l: Local, item: Item, outcome: Outcome, writes: seq<(Write, nat)>, l': Local) {
    && Executes(l.w, item, outcome, writes, l'.w)
    && l'.wish == l.wish && l'.shown == l.shown
    && (item.id !in l.w.claims ==>
          if Clashes(l.w.server, item) then outcome.VersionConflict?
          else
            && outcome.Success? && |writes| == 1
            && writes[0].0 == (if item.operation == Delete then Remove(item.key) else Put(item.key, item.payload))
            && |outcome.entities| == (if item.operation == Delete then 0 else 1))
  }

  /** The last step of a sync cycle that does not fail. */
  predicate Completes(w: World, e: Event) {
    || (e.FinishPush? && w.phase.Pushing? && !w.phase.pullAfter)
    || (e.ApplyReadPage? && w.phase.PageReady? && !w.phase.page.hasMore && !w.phase.pushAfter)
  }

  /** Memory is reloaded from the cache when a cycle completes, and when the app starts anew; a cycle that fails leaves
      it as it is. */
  ghost predicate Reloads(l: Local, e: Event, l': Local) {
    if Completes(l.w, e) then l'.shown == l'.w.client.entities
    else l'.shown == l.shown || (e.Fail? && l'.shown == l'.w.client.entities)
  }

  /** Whatever can happen to one device that is alone on its account. */
  ghost predicate Possible(l: Local, e: Event, l': Local) {
    match e
    case EnqueueEdit(edit) => UserWants(l, edit, l')
    case Execute(item, outcome, writes) => HonestlyExecutes(l, item, outcome, writes, l')
    case OthersWrite(_) => false
    case _ => Next(l.w, e, l'.w) && l'.wish == l.wish && Reloads(l, e, l')
  }

  /** The guard of the refinement. */
  ghost predicate Guarded(l: Local, e: Event, l': Local) {
    match e
    case EnqueueEdit(edit) => Editable(l, edit.key) && UpToDate(l, edit)
    case ExpireClaim(id) => id !in l.w.client.mutations
    case ReplaceAll(_) => l'.w.missed == {}
    case _ => true
  }

  ghost predicate LocalNext(l: Local, e: Event, l': Local) {
    Possible(l, e, l') && Guarded(l, e, l')
  }

  ghost predicate LocalInitial(l: Local) {
    && Initial(l.w) && l.shown == map[]
    && (forall k :: k in l.w.server.rows ==> Cacheable(k.kind))
    && (forall k :: Agrees(l.wish, k, View(l.w.server, k)))
  }

  ghost predicate IsLocalRun(locals: seq<Local>, events: seq<Event>) {
    && |locals| == |events| + 1
    && LocalInitial(locals[0])
    && (forall i :: 0 <= i < |events| ==> LocalNext(locals[i], events[i], locals[i + 1]))
  }

  // ---------- the invariant ----------

  ghost predicate Agrees(wish: map<Key, Body>, k: Key, e: Option<Entity>) {
    && (k in wish <==> e.Some?)
    && (k in wish ==> wish[k] == e.value.body)
  }

  /** The record is still to be executed, and the server is where the record expects it to be. */
  ghost predicate Ready(s: Server, m: Mutation) {
    if m.operation == Create then m.base == 0 && m.key !in s.rows
    else View(s, m.key).Some? && View(s, m.key).value.version == m.base
  }

  /** The record has been executed, and the stored reply shows the server as it is. */
  ghost predicate Done(s: Server, claim: Reply, m: Mutation) {
    && claim.item == Outbound(m)
    && (if m.operation == Delete then View(s, m.key) == None && claim.outcome == Success([])
        else View(s, m.key).Some? && View(s, m.key).value.body == m.payload
             && claim.outcome == Success([(m.key, View(s, m.key).value)]))
  }

  /** What the record wishes for is what the user wished for, and what the cache shows. */
  ghost predicate Shown(c: Client, wish: map<Key, Body>, m: Mutation) {
    if m.operation == Delete then m.key !in wish && m.key !in c.entities
    else
      && m.optimistic.Some? && m.optimistic.value.body == m.payload
      && m.key in wish && wish[m.key] == m.payload
      && m.key in c.entities && c.entities[m.key].body == m.payload
  }

  ghost predicate RecordOK(l: Local, id: MutationId)
    requires id in l.w.client.mutations
  {
    var m := l.w.client.mutations[id];
    && m.status == Pending
    && Cacheable(m.key.kind)
    && Shown(l.w.client, l.wish, m)
    && (if id in l.w.claims then Done(l.w.server, l.w.claims[id], m) else Ready(l.w.server, m))
  }

  ghost predicate FreeOK(l: Local, k: Key) {
    RecordFree(l.w.client, k) ==>
      && Agrees(l.wish, k, View(l.w.server, k))
      && Lookup(l.w.client.entities, k) == (if l.w.client.cursor.Some? then View(l.w.server, k) else None)
  }

  ghost predicate OneRecordPerKey(c: Client) {
    forall i, j :: i in c.mutations && j in c.mutations && c.mutations[i].key == c.mutations[j].key ==> i == j
  }

  /** A sent item is an unsettled record as it stands, still to be executed, or it has been executed, exactly as sent,
      and can take effect no more. */
  ghost predicate ItemOK(l: Local, item: Item) {
    && (item.id in l.w.client.mutations ==> Outbound(l.w.client.mutations[item.id]) == item)
    && (item.id in l.w.claims ==> l.w.claims[item.id].item == item)
    && (Spent(l.w.server, item) || (item.id in l.w.client.mutations && item.id !in l.w.claims))
  }

  ghost predicate RepliesOK(l: Local) {
    && (forall r :: r in l.w.replies && r.item.id in l.w.client.mutations ==> r.item.id in l.w.claims && l.w.claims[r.item.id] == r)
    && (forall id :: id in l.w.claims ==> l.w.claims[id].item.id == id)
  }

  ghost predicate SentOK(l: Local) {
    && (forall item :: item in l.w.sent ==> ItemOK(l, item))
    && RepliesOK(l)
  }

  function CapturedSeq(phase: Phase): seq<Mutation> {
    match phase
    case Pushing(queue, _) => queue
    case Awaiting(batch, rest, _) => batch + rest
    case _ => []
  }

  ghost predicate PushOK(l: Local) {
    l.w.phase.Pushing? || l.w.phase.Awaiting? ==>
      && DistinctIds(CapturedSeq(l.w.phase))
      && (forall m :: m in CapturedSeq(l.w.phase) ==> m.id in l.w.client.mutations && l.w.client.mutations[m.id] == m)
      && (forall id :: id in l.w.client.mutations ==> l.w.client.mutations[id] in CapturedSeq(l.w.phase))
  }

  predicate PushesAfter(phase: Phase)
    requires Quiet(phase)
  {
    match phase
    case Pulling(b) => b
    case PageReady(_, _, b) => b
    case Snapshotting(_, _, b) => b
  }

  /** While pulling, the server stands still: either nothing was ever sent, or nothing is left to send. */
  ghost predicate PullOK(l: Local) {
    Quiet(l.w.phase) ==>
      && (if PushesAfter(l.w.phase) then l.w.sent == {} else l.w.client.mutations == map[])
      && (l.w.phase.PageReady? ==> l.w.phase.at == l.w.server)
      && (l.w.phase.Snapshotting? ==> l.w.phase.boot == LastSequence(l.w.server))
      && (!l.w.phase.Snapshotting? && PushesAfter(l.w.phase) ==>
            l.w.client.cursor.Some? && l.w.client.cursor.value == LastSequence(l.w.server))
  }

  ghost predicate LocalInv(l: Local) {
    && Inv(l.w)
    && (forall k :: k in l.w.server.rows ==> Cacheable(k.kind))
    && OneRecordPerKey(l.w.client)
    && (forall id :: id in l.w.client.mutations ==> RecordOK(l, id))
    && (forall k :: FreeOK(l, k))
    && SentOK(l)
    && PushOK(l)
    && PullOK(l)
  }

  lemma LocalInitialInv(l: Local)
    requires LocalInitial(l)
    ensures LocalInv(l)
  {
    InitialInv(l.w);
  }

  lemma LocalStepKeepsInv(l: Local, e: Event, l': Local)
    requires Inv(l.w) && LocalNext(l, e, l')
    ensures Inv(l'.w)
  {
    assert Next(l.w, e, l'.w);
    Convergence.StepKeeps(l.w, e, l'.w);
  }

  // ---------- server ----------

  /** A repeated execution is answered from the table, and changes nothing. */
  lemma ExecuteRepeats(l: Local, item: Item, outcome: Outcome, writes: seq<(Write, nat)>, l': Local)
    requires LocalInv(l) && HonestlyExecutes(l, item, outcome, writes, l') && item.id in l.w.claims
    ensures l'.w == l.w && l'.wish == l.wish
  {
    assert ItemOK(l, item);
    assert l.w.claims[item.id] in l.w.replies;
    assert l.w.replies + {Reply(item, outcome)} == l.w.replies;
  }

  lemma UnclaimedIsReady(l: Local, item: Item)
    requires LocalInv(l) && item in l.w.sent && item.id !in l.w.claims
    ensures item.id in l.w.client.mutations <==> !Clashes(l.w.server, item)
  {
    assert ItemOK(l, item);
    if item.id in l.w.client.mutations {
      assert RecordOK(l, item.id);
      ReadyDoesNotClash(l.w.server, l.w.client.mutations[item.id]);
    } else {
      SpentClashes(l.w.server, item);
    }
  }

  /** Once its claim has expired, a repeat is a version conflict, which changes nothing and settles nothing. */
  lemma ExecuteSpent(l: Local, item: Item, outcome: Outcome, writes: seq<(Write, nat)>, l': Local)
    requires LocalInv(l) && HonestlyExecutes(l, item, outcome, writes, l')
    requires item.id !in l.w.claims && item.id !in l.w.client.mutations
    ensures outcome.VersionConflict? && l' == l.(w := l.w.(replies := l.w.replies + {Reply(item, outcome)}))
  {
    UnclaimedIsReady(l, item);
  }

  lemma ReadyDoesNotClash(s: Server, m: Mutation)
    requires Consistent(s) && Ready(s, m)
    ensures !Clashes(s, Outbound(m))
  {
  }

  lemma SingleWrite(s: Server, writes: seq<(Write, nat)>)
    requires |writes| == 1
    ensures CommitAll(s, writes) == Commit(s, writes[0].0, writes[0].1)
  {
    assert writes[..0] == [];
  }

  /** Committing a ready record makes it done. */
  lemma {:induction false} CommitMakesDone(s: Server, m: Mutation, entities: seq<(Key, Entity)>, writes: seq<(Write, nat)>)
    requires Consistent(s) && Ready(s, m)
    requires |writes| == 1 && writes[0].0 == (if m.operation == Delete then Remove(m.key) else Put(m.key, m.payload))
    requires |entities| == (if m.operation == Delete then 0 else 1)
    requires Reports(CommitAll(s, writes), Outbound(m), writes, entities)
    ensures Done(CommitAll(s, writes), Reply(Outbound(m), Success(entities)), m)
    ensures forall k :: k != m.key ==>
              View(CommitAll(s, writes), k) == View(s, k) && (k in CommitAll(s, writes).rows <==> k in s.rows)
  {
    SingleWrite(s, writes);
    if m.operation != Delete {
      var x :| x in entities && x.0 == m.key;
      assert entities == [x];
    } else {
      assert entities == [];
    }
  }

  /** A first execution finds its record ready: it succeeds, and leaves the record done. */
  lemma ExecuteFirst(l: Local, item: Item, outcome: Outcome, writes: seq<(Write, nat)>, l': Local)
    requires LocalInv(l) && HonestlyExecutes(l, item, outcome, writes, l')
    requires item.id !in l.w.claims && item.id in l.w.client.mutations
    ensures item == Outbound(l.w.client.mutations[item.id])
    ensures l'.w == l.w.(server := l'.w.server, claims := l.w.claims[item.id := Reply(item, outcome)],
                         replies := l.w.replies + {Reply(item, outcome)})
    ensures Done(l'.w.server, Reply(item, outcome), l.w.client.mutations[item.id])
    ensures forall k :: k != item.key ==>
              View(l'.w.server, k) == View(l.w.server, k) && (k in l'.w.server.rows <==> k in l.w.server.rows)
  {
    var m := l.w.client.mutations[item.id];
    assert ItemOK(l, item);
    assert RecordOK(l, item.id) && Ready(l.w.server, m);
    ReadyDoesNotClash(l.w.server, m);
    CommitMakesDone(l.w.server, m, outcome.entities, writes);
  }

  lemma ExecuteFirstRecords(l: Local, item: Item, outcome: Outcome, writes: seq<(Write, nat)>, l': Local)
    requires LocalInv(l) && HonestlyExecutes(l, item, outcome, writes, l')
    requires item.id !in l.w.claims && item.id in l.w.client.mutations
    ensures forall id :: id in l'.w.client.mutations ==> RecordOK(l', id)
    ensures forall k :: FreeOK(l', k)
  {
    ExecuteFirst(l, item, outcome, writes, l');
    forall id | id in l'.w.client.mutations ensures RecordOK(l', id) {
      assert RecordOK(l, id);
      if id != item.id { assert l.w.client.mutations[id].key != item.key; }
    }
    forall k ensures FreeOK(l', k) {
      assert FreeOK(l, k);
      if k == item.key { assert l'.w.client.mutations[item.id].key == k; }
    }
  }

  lemma ClaimKeepsSent(l: Local, r: Reply, l': Local)
    requires SentOK(l) && r.item in l.w.sent && r.item.id !in l.w.claims && r.item.id in l.w.client.mutations
    requires l'.w == l.w.(server := l'.w.server, claims := l.w.claims[r.item.id := r], replies := l.w.replies + {r})
    requires Extends(l.w.server, l'.w.server) && Spent(l'.w.server, r.item)
    ensures SentOK(l')
  {
    assert ItemOK(l, r.item);
    forall i | i in l'.w.sent ensures ItemOK(l', i) {
      assert ItemOK(l, i);
      if Spent(l.w.server, i) { SpentForever(l.w.server, l'.w.server, i); }
    }
  }

  /** A reply to a settled mutation touches nothing else. */
  lemma SameButReplies(l: Local, l': Local)
    requires LocalInv(l) && Inv(l'.w) && l' == l.(w := l.w.(replies := l'.w.replies))
    requires forall r :: r in l'.w.replies && r !in l.w.replies ==> r.item.id !in l.w.client.mutations
    ensures LocalInv(l')
  {
    forall id | id in l'.w.client.mutations ensures RecordOK(l', id) { assert RecordOK(l, id); }
    forall k ensures FreeOK(l', k) { assert FreeOK(l, k); }
    forall i | i in l'.w.sent ensures ItemOK(l', i) { assert ItemOK(l, i); }
  }

  /** The claim of a settled mutation may expire at any time. */
  lemma LocalExpireKeeps(l: Local, id: MutationId, l': Local)
    requires LocalInv(l) && LocalNext(l, ExpireClaim(id), l')
    ensures LocalInv(l')
  {
    LocalStepKeepsInv(l, ExpireClaim(id), l');
    SameButClaim(l, id, l');
    forall i | i in l'.w.sent ensures ItemOK(l', i) { assert ItemOK(l, i); }
  }

  lemma SameButClaim(l: Local, id: MutationId, l': Local)
    requires LocalInv(l) && id !in l.w.client.mutations
    requires l'.w == l.w.(claims := l.w.claims - {id}) && l'.wish == l.wish
    ensures forall i :: i in l'.w.client.mutations ==> RecordOK(l', i)
    ensures forall k :: FreeOK(l', k)
  {
    forall i | i in l'.w.client.mutations ensures RecordOK(l', i) { assert RecordOK(l, i); }
    forall k ensures FreeOK(l', k) { assert FreeOK(l, k); }
  }

  lemma LocalExecuteKeeps(l: Local, item: Item, outcome: Outcome, writes: seq<(Write, nat)>, l': Local)
    requires LocalInv(l) && LocalNext(l, Execute(item, outcome, writes), l')
    ensures LocalInv(l')
  {
    LocalStepKeepsInv(l, Execute(item, outcome, writes), l');
    if item.id in l.w.claims {
      ExecuteRepeats(l, item, outcome, writes, l');
    } else if item.id !in l.w.client.mutations {
      ExecuteSpent(l, item, outcome, writes, l');
      SameButReplies(l, l');
    } else {
      UnclaimedIsReady(l, item);
      ServerGrows(l.w, Execute(item, outcome, writes), l'.w);
      EffectSpends(l.w, Execute(item, outcome, writes), l'.w, item);
      ExecuteFirst(l, item, outcome, writes, l');
      ExecuteFirstRecords(l, item, outcome, writes, l');
      ClaimKeepsSent(l, Reply(item, outcome), l');
      assert !Quiet(l.w.phase);
      forall k | k in l'.w.server.rows ensures Cacheable(k.kind) {
        if k == item.key { assert RecordOK(l, item.id); }
      }
    }
  }
}
