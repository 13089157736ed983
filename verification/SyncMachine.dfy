/** The whole system as a state machine: one client, one server, the other devices of the same account, and a
    network that may delay, lose, repeat and reorder everything. A client step is one IndexedDB transaction or one
    request; the awaits of the sync engine are where other steps come in between. */
module SyncMachine {
  import opened Entities
  import opened OfflineClient
  import opened SyncServer

  const BATCH: nat := 100
  const PAGE: nat := 500

  // Where the sync engine is. Idle: no cycle is running.
  datatype Phase =
    | Idle
    | Pushing(queue: seq<Mutation>, pullAfter: bool)
    | Awaiting(batch: seq<Mutation>, rest: seq<Mutation>, pullAfter: bool)
    | Pulling(pushAfter: bool)
    | PageReady(page: Page, at: Server, pushAfter: bool)  // `at` is the server as it was when the page was read
    | Snapshotting(boot: nat, got: seq<(Key, Entity)>, pushAfter: bool)

  datatype Reply = Reply(item: Item, outcome: Outcome)

  datatype World = World(
    server: Server, claims: map<MutationId, Reply>, client: Client, phase: Phase,
    sent: set<Item>, replies: set<Reply>,      // everything ever sent, everything ever answered
    used: map<MutationId, Key>,                // ids drawn so far, each for one entity
    minted: map<Key, MutationId>,              // entities this client has created, with the id of the latest creating mutation
    missed: set<Key>,                          // milestones and tags the last snapshot did not list
    dropped: set<Key>)                         // entities whose creation was dropped since, although the server had them

  datatype Event =
    | EnqueueEdit(edit: Edit)
    | StartPush(queue: seq<Mutation>)
    | SendBatch
    | SettleBatch(results: map<MutationId, Outcome>)
    | FinishPush
    | ReadPage
    | ApplyReadPage(queue: seq<Mutation>)
    | Bootstrap
    | ReadEntity(key: Key)
    | ReplaceAll(order: seq<Mutation>)
    | Fail
    | Execute(item: Item, outcome: Outcome, writes: seq<(Write, nat)>)
    | ExpireClaim(id: MutationId)
    | OthersWrite(writes: seq<(Write, nat)>)

  // ---------- the server's reaction to one item ----------

  /** Unique ids for creates, the expected version for the rest. */
  predicate Clashes(s: Server, item: Item) {
    if item.operation == Create then item.key in s.rows
    else item.key !in s.rows || s.rows[item.key].deleted || Version(s.rows[item.key]) != item.base
  }

  predicate Performs(item: Item, w: Write) {
    w.key == item.key && (if item.operation == Delete then w.Remove? else w.Put?)
  }

  /** Ids are UUIDs: nobody else creates an entity under an id this client has drawn. */
  ghost predicate ForeignIds(w: World, writes: seq<(Write, nat)>) {
    forall x :: x in writes && x.0.Put? && x.0.key !in w.server.rows ==> x.0.key !in w.minted
  }

  ghost predicate Written(writes: seq<(Write, nat)>, k: Key) {
    exists x :: x in writes && x.0.key == k
  }

  /** The response shows entities of this very transaction, and the item's own entity unless it is a delete. */
  ghost predicate Reports(s': Server, item: Item, writes: seq<(Write, nat)>, entities: seq<(Key, Entity)>) {
    && (forall x :: x in entities ==> Written(writes, x.0) && View(s', x.0) == Some(x.1))
    && (item.operation != Delete ==> exists x :: x in entities && x.0 == item.key)
  }

  ghost predicate Executes(w: World, item: Item, outcome: Outcome, writes: seq<(Write, nat)>, w': World) {
    && item in w.sent
    && if item.id in w.claims then
         // the idempotency table answers: the stored response, or a refusal if the request differs
         && outcome == (if w.claims[item.id].item == item then w.claims[item.id].outcome else Refused("IDEMPOTENCY_CONFLICT"))
         && w' == w.(replies := w.replies + {Reply(item, outcome)})
       else if outcome.Success? then
         && !Clashes(w.server, item)
         && writes != [] && Performs(item, writes[0].0)
         && (forall i :: 0 < i < |writes| ==> writes[i].0.key != item.key)
         && ForeignIds(w, writes[1..])
         && CanCommitAll(w.server, writes)
         && Reports(CommitAll(w.server, writes), item, writes, outcome.entities)
         && w' == w.(server := CommitAll(w.server, writes),
                     claims := w.claims[item.id := Reply(item, outcome)],
                     replies := w.replies + {Reply(item, outcome)})
       else
         // any failure rolls the transaction back, the claim with it
         && (outcome.VersionConflict? ==> Clashes(w.server, item))
         && w' == w.(replies := w.replies + {Reply(item, outcome)})
  }

  // ---------- the client's steps ----------

  ghost predicate FreshEdit(w: World, edit: Edit) {
    Cacheable(edit.key.kind) && edit.id !in w.used
  }

  /** The server as the page in hand shows it, or as it is. */
  function Seen(w: World): Server {
    if w.phase.PageReady? then w.phase.at else w.server
  }

  /** The edit is the opening create of an entity. */
  ghost predicate Opens(w: World, edit: Edit) {
    edit.operation == Create && PendingId(w.client.mutations, edit.key).None?
  }

  /** The edit deletes an entity with a pending create, so that compaction drops both; but the server has the entity,
      and no entry about it is still to come. */
  ghost predicate DropsLive(w: World, edit: Edit) {
    && edit.operation == Delete && w.client.cursor.Some?
    && PendingId(w.client.mutations, edit.key).Some?
    && w.client.mutations[PendingId(w.client.mutations, edit.key).value].operation == Create
    && View(Seen(w), edit.key).Some? && !HasAfter(Seen(w), edit.key, w.client.cursor.value)
  }

  ghost predicate Enqueues(w: World, edit: Edit, w': World) {
    && FreshEdit(w, edit)
    && w' == w.(client := Enqueue(w.client, edit),
                used := w.used[edit.id := edit.key],
                minted := if Opens(w, edit) then w.minted[edit.key := edit.id] else w.minted,
                dropped := if DropsLive(w, edit) then w.dropped + {edit.key} else w.dropped)
  }

  /** The pending records, in sequence order. */
  ghost predicate IsQueue(c: Client, queue: seq<Mutation>) {
    && (forall m :: m in queue ==> m.id in c.mutations && c.mutations[m.id] == m && m.status == Pending)
    && (forall id :: id in c.mutations && c.mutations[id].status == Pending ==> c.mutations[id] in queue)
    && (forall i, j :: 0 <= i < j < |queue| ==> queue[i].sequence < queue[j].sequence)
  }

  function BatchSize(queue: seq<Mutation>): nat {
    if |queue| < BATCH then |queue| else BATCH
  }

  function Outbounds(batch: seq<Mutation>): set<Item> {
    set m | m in batch :: Outbound(m)
  }

  ghost predicate Answers(w: World, batch: seq<Mutation>, results: map<MutationId, Outcome>) {
    forall m :: m in batch ==> m.id in results && Reply(Outbound(m), results[m.id]) in w.replies
  }

  /** Kinds a snapshot can leave out: milestones hang on the listing of their goals, tags are listed to a limit. */
  predicate Leaky(kind: Kind) {
    kind == Milestone || kind == Tag
  }

  /** Keyset paging reads every live row that stays put; Snapshot proves this of the listings. */
  ghost predicate SnapshotDone(s: Server, boot: nat, got: seq<(Key, Entity)>) {
    forall k :: k in s.rows && Cacheable(k.kind) && View(s, k).Some? && !HasAfter(s, k, boot) && !Leaky(k.kind) ==>
      exists x :: x in got && x.0 == k
  }

  ghost function Unlisted(s: Server, boot: nat, got: seq<(Key, Entity)>): set<Key> {
    set k | k in s.rows && Leaky(k.kind) && View(s, k).Some? && !HasAfter(s, k, boot)
            && (forall x :: x in got ==> x.0 != k)
  }

  ghost predicate Next(w: World, e: Event, w': World) {
    match e
    case EnqueueEdit(edit) => Enqueues(w, edit, w')
    case StartPush(queue) =>
      && w.phase == Idle && w.client.cursor.Some? && IsQueue(w.client, queue)
      && w' == w.(phase := Pushing(queue, true))
    case SendBatch =>
      && w.phase.Pushing? && w.phase.queue != []
      && (var n := BatchSize(w.phase.queue);
          w' == w.(phase := Awaiting(w.phase.queue[..n], w.phase.queue[n..], w.phase.pullAfter),
                   sent := w.sent + Outbounds(w.phase.queue[..n])))
    case SettleBatch(results) =>
      && w.phase.Awaiting? && Answers(w, w.phase.batch, results)
      && w' == w.(client := Settle(w.client, w.phase.batch, results),
                  phase := Pushing(w.phase.rest, w.phase.pullAfter))
    case FinishPush =>
      && w.phase.Pushing? && w.phase.queue == []
      && w' == w.(phase := if w.phase.pullAfter then Pulling(false) else Idle)
    case ReadPage =>
      && w.phase.Pulling? && w.client.cursor.Some?
      && w' == w.(phase := PageReady(PageOf(w.server, w.client.cursor.value, PAGE), w.server, w.phase.pushAfter))
    case ApplyReadPage(queue) =>
      && w.phase.PageReady?
      && (var c := ApplyPage(w.client, w.phase.page);
          && IsQueue(c, queue)
          && w' == w.(client := c,
                      phase := if w.phase.page.hasMore then Pulling(w.phase.pushAfter)
                               else if w.phase.pushAfter then Pushing(queue, false) else Idle))
    case Bootstrap =>
      // the first cycle, or a pull that is told to start over
      && ((w.phase == Idle && w.client.cursor.None?) || w.phase.Pulling?)
      && w' == w.(phase := Snapshotting(LastSequence(w.server), [], if w.phase.Pulling? then w.phase.pushAfter else true))
    case ReadEntity(k) =>
      && w.phase.Snapshotting? && Cacheable(k.kind) && View(w.server, k).Some?
      && w' == w.(phase := w.phase.(got := w.phase.got + [(k, View(w.server, k).value)]))
    case ReplaceAll(order) =>
      && w.phase.Snapshotting? && Enumerates(order, w.client.mutations)
      && SnapshotDone(w.server, w.phase.boot, w.phase.got)
      && w' == w.(client := Replace(w.client, w.phase.boot, w.phase.got, order),
                  phase := Pulling(w.phase.pushAfter),
                  missed := Unlisted(w.server, w.phase.boot, w.phase.got),
                  dropped := {})
    case Fail => w' == w.(phase := Idle)
    case Execute(item, outcome, writes) => Executes(w, item, outcome, writes, w')
    case ExpireClaim(id) => w' == w.(claims := w.claims - {id})
    case OthersWrite(writes) =>
      && ForeignIds(w, writes) && CanCommitAll(w.server, writes)
      && w' == w.(server := CommitAll(w.server, writes))
  }

  ghost predicate Initial(w: World) {
    && Consistent(w.server)
    && w.client == Client(map[], map[], None, 1)
    && w.phase == Idle
    && w.claims == map[] && w.sent == {} && w.replies == {}
    && w.used == map[] && w.minted == map[] && w.missed == {} && w.dropped == {}
  }

  ghost predicate IsRun(worlds: seq<World>, events: seq<Event>) {
    && |worlds| == |events| + 1
    && Initial(worlds[0])
    && (forall i :: 0 <= i < |events| ==> Next(worlds[i], events[i], worlds[i + 1]))
  }
}
