/** What each IndexedDB transaction of the client does to the three account stores, as functions on values.
    The methods of OfflineStore are proved against these functions; the protocol proofs reason about them. */
module OfflineClient {
  import opened Entities

  datatype Status = Pending | Conflict | Rejected

  datatype LocalCopy = OfEntity(entity: Entity) | OfPayload(payload: Body)

  datatype Mutation = Mutation(
    id: MutationId, sequence: nat, key: Key, operation: Operation, base: nat, payload: Body,
    optimistic: Option<Entity>, status: Status, attempts: nat,
    errorCode: Option<string>, serverData: Option<Entity>, localCopy: Option<LocalCopy>)

  // A UI edit. `id` is the UUID that a new record would draw.
  datatype Edit = Edit(
    id: MutationId, key: Key, operation: Operation, base: Option<nat>, payload: Body, optimistic: Option<Entity>)

  // One feed entry as the client receives it: non-deletes always carry the entity.
  datatype Change =
    | Upsert(sequence: nat, key: Key, version: nat, data: Entity)
    | Removal(sequence: nat, key: Key, version: nat)

  datatype Page = Page(changes: seq<Change>, next: nat, hasMore: bool)

  datatype Client = Client(
    entities: map<Key, Entity>, mutations: map<MutationId, Mutation>, cursor: Option<nat>, nextSequence: nat)

  /** Records are stored under their own id. */
  ghost predicate Keyed(mutations: map<MutationId, Mutation>) {
    forall id :: id in mutations ==> mutations[id].id == id
  }

  ghost predicate DistinctIds(ms: seq<Mutation>) {
    forall i, j :: 0 <= i < j < |ms| ==> ms[i].id != ms[j].id
  }

  predicate PendingOn(m: Mutation, k: Key) {
    m.status == Pending && m.key == k
  }

  ghost predicate OnePendingPerKey(mutations: map<MutationId, Mutation>) {
    forall i, j ::
      (i in mutations && j in mutations && mutations[i].status == Pending && mutations[j].status == Pending
       && mutations[i].key == mutations[j].key) ==> i == j
  }

  ghost predicate RecordFree(c: Client, k: Key) {
    forall id :: id in c.mutations ==> c.mutations[id].key != k
  }

  // ---------- enqueue ----------

  function Compact(existing: Mutation, edit: Edit): Option<Mutation> {
    if existing.operation == Create && edit.operation == Delete then None
    else if existing.operation == Update && edit.operation == Delete then
      Some(existing.(operation := Delete, payload := "{}", optimistic := None))
    else if existing.operation == Delete && edit.operation != Delete then
      Some(existing.(operation := Update, payload := edit.payload, optimistic := edit.optimistic))
    else
      Some(existing.(payload := edit.payload, optimistic := edit.optimistic))
  }

  function NewRecord(edit: Edit, sequence: nat): Mutation {
    var base := if edit.base.Some? then edit.base.value
                else if edit.optimistic.Some? then edit.optimistic.value.version else 0;
    Mutation(edit.id, sequence, edit.key, edit.operation, base, edit.payload, edit.optimistic,
             Pending, 0, None, None, None)
  }

  function Touch(entities: map<Key, Entity>, operation: Operation, k: Key, optimistic: Option<Entity>): map<Key, Entity> {
    if operation == Delete then entities - {k}
    else if optimistic.Some? then entities[k := optimistic.value]
    else entities
  }

  ghost function PendingId(mutations: map<MutationId, Mutation>, k: Key): (r: Option<MutationId>)
    ensures r.Some? ==> r.value in mutations && PendingOn(mutations[r.value], k)
    ensures r.None? ==> forall id :: id in mutations ==> !PendingOn(mutations[id], k)
  {
    if exists id :: id in mutations && PendingOn(mutations[id], k)
    then var id :| id in mutations && PendingOn(mutations[id], k); Some(id)
    else None
  }

  ghost function Enqueue(c: Client, edit: Edit): Client {
    var entities := Touch(c.entities, edit.operation, edit.key, edit.optimistic);
    match PendingId(c.mutations, edit.key)
    case Some(id) => (
      match Compact(c.mutations[id], edit)
      case Some(m) => c.(entities := entities, mutations := c.mutations[id := m])
      case None => c.(entities := entities, mutations := c.mutations - {id}))
    case None =>
      c.(entities := entities,
         mutations := c.mutations[edit.id := NewRecord(edit, c.nextSequence)],
         nextSequence := c.nextSequence + 1)
  }

  ghost function EnqueueAll(c: Client, edits: seq<Edit>): Client {
    if edits == [] then c else Enqueue(EnqueueAll(c, edits[..|edits| - 1]), edits[|edits| - 1])
  }

  // ---------- pull ----------

  function ConflictCopy(m: Mutation): LocalCopy {
    if m.optimistic.Some? then OfEntity(m.optimistic.value) else OfPayload(m.payload)
  }

  predicate Holds(m: Mutation, k: Key) {
    m.key == k && m.status != Rejected
  }

  function MarkConflict(m: Mutation, change: Change): Mutation {
    m.(status := Conflict,
       errorCode := Some(if change.Removal? then "ENTITY_DELETED" else "ENTITY_VERSION_CONFLICT"),
       serverData := if change.Removal? then None else Some(change.data),
       localCopy := Some(ConflictCopy(m)),
       attempts := m.attempts + 1)
  }

  ghost predicate Held(c: Client, k: Key) {
    exists id :: id in c.mutations && Holds(c.mutations[id], k)
  }

  ghost function MarkAll(mutations: map<MutationId, Mutation>, change: Change): map<MutationId, Mutation> {
    map id | id in mutations :: if Holds(mutations[id], change.key) then MarkConflict(mutations[id], change) else mutations[id]
  }

  ghost function ApplyChange(c: Client, change: Change): Client {
    if !Cacheable(change.key.kind) then c
    else if Held(c, change.key) then c.(mutations := MarkAll(c.mutations, change))
    else if change.Removal? then c.(entities := c.entities - {change.key})
    else if change.key in c.entities && c.entities[change.key].version >= change.version then c
    else c.(entities := c.entities[change.key := change.data])
  }

  ghost function ApplyChanges(c: Client, changes: seq<Change>): Client {
    if changes == [] then c else ApplyChange(ApplyChanges(c, changes[..|changes| - 1]), changes[|changes| - 1])
  }

  ghost function ApplyPage(c: Client, page: Page): Client {
    ApplyChanges(c, page.changes).(cursor := Some(page.next))
  }

  // ---------- push ----------

  function Outbound(m: Mutation): Item {
    Item(m.id, m.sequence, m.key, m.operation, m.base, m.payload)
  }

  function SettleOne(c: Client, m: Mutation, outcome: Outcome): Client {
    match outcome
    case Success(entities) =>
      c.(entities := if m.operation != Delete then PutAll(c.entities, entities) else c.entities,
         mutations := c.mutations - {m.id})
    case VersionConflict(code, current) =>
      c.(mutations := c.mutations[m.id := m.(status := Conflict, errorCode := Some(code), serverData := current,
                                             localCopy := Some(ConflictCopy(m)), attempts := m.attempts + 1)])
    case Refused(code) =>
      c.(mutations := c.mutations[m.id := m.(status := Rejected, errorCode := Some(code), serverData := None,
                                             attempts := m.attempts + 1)])
  }

  // Mutations without a result stay as they are.
  function Settle(c: Client, batch: seq<Mutation>, results: map<MutationId, Outcome>): Client {
    if batch == [] then c
    else
      var m := batch[|batch| - 1];
      var before := Settle(c, batch[..|batch| - 1], results);
      if m.id in results then SettleOne(before, m, results[m.id]) else before
  }

  // ---------- rebuild ----------

  function Overlay(entities: map<Key, Entity>, order: seq<Mutation>): map<Key, Entity> {
    if order == [] then entities
    else
      var m := order[|order| - 1];
      Touch(Overlay(entities, order[..|order| - 1]), m.operation, m.key, m.optimistic)
  }

  // `order` is the order in which the mutation index returns the records.
  ghost predicate Enumerates(order: seq<Mutation>, mutations: map<MutationId, Mutation>) {
    && (forall m :: m in order ==> m.id in mutations && mutations[m.id] == m)
    && (forall id :: id in mutations ==> mutations[id] in order)
    && (forall i, j :: 0 <= i < j < |order| ==> order[i].id != order[j].id)
  }

  function Replace(c: Client, cursor: nat, snapshot: seq<(Key, Entity)>, order: seq<Mutation>): Client {
    c.(entities := Overlay(PutAll(map[], snapshot), order), cursor := Some(cursor))
  }
}
