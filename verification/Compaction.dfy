/** What a compacted queue means: replaying it does to the server's map what replaying the raw edits would do, and
    the cache is the last server state overlaid with it. */
module Compaction {
  import opened Entities
  import opened OfflineClient
  import opened SyncMachine
  import Queue
  import OfflineStore

  // ---------- replaying ----------

  function Effect(operation: Operation, payload: Body): Option<Body> {
    if operation == Delete then None else Some(payload)
  }

  function Assign(m: map<Key, Body>, k: Key, value: Option<Body>): map<Key, Body> {
    if value.Some? then m[k := value.value] else m - {k}
  }

  /** The user's edits, one after the other, on a plain map. */
  function ReplayEdits(m: map<Key, Body>, edits: seq<Edit>): map<Key, Body> {
    if edits == [] then m
    else
      var last := edits[|edits| - 1];
      Assign(ReplayEdits(m, edits[..|edits| - 1]), last.key, Effect(last.operation, last.payload))
  }

  /** The records of a queue, one after the other, on a plain map. */
  function ReplayQueue(m: map<Key, Body>, queue: seq<Mutation>): map<Key, Body> {
    if queue == [] then m
    else
      var last := queue[|queue| - 1];
      Assign(ReplayQueue(m, queue[..|queue| - 1]), last.key, Effect(last.operation, last.payload))
  }

  /** What the server will hold for k once the pending records are applied to m. */
  ghost function Meaning(m: map<Key, Body>, mutations: map<MutationId, Mutation>, k: Key): Option<Body> {
    match PendingId(mutations, k)
    case None => Lookup(m, k)
    case Some(id) => Effect(mutations[id].operation, mutations[id].payload)
  }

  /** Dropping a pending create together with its delete; wrong if the server has the entity after all. */
  ghost predicate DropsKnown(m: map<Key, Body>, c: Client, edit: Edit) {
    && edit.operation == Delete && edit.key in m
    && PendingId(c.mutations, edit.key).Some?
    && c.mutations[PendingId(c.mutations, edit.key).value].operation == Create
  }

  ghost predicate Sound(c: Client) {
    Keyed(c.mutations) && OnePendingPerKey(c.mutations)
  }

  /** The pending record of every entity after one edit. */
  lemma PendingAfter(c: Client, edit: Edit, k: Key)
    requires Sound(c) && edit.id !in c.mutations
    ensures var c' := Enqueue(c, edit);
            && Sound(c')
            && (k != edit.key ==>
                  && PendingId(c'.mutations, k) == PendingId(c.mutations, k)
                  && (PendingId(c.mutations, k).Some? ==>
                        c'.mutations[PendingId(c.mutations, k).value] == c.mutations[PendingId(c.mutations, k).value]))
            && (k == edit.key ==>
                  match PendingId(c.mutations, k)
                  case None =>
                    && PendingId(c'.mutations, k) == Some(edit.id)
                    && c'.mutations[edit.id] == NewRecord(edit, c.nextSequence)
                  case Some(id) =>
                    match Compact(c.mutations[id], edit)
                    case None => PendingId(c'.mutations, k) == None
                    case Some(r) => PendingId(c'.mutations, k) == Some(id) && c'.mutations[id] == r)
  {
    Queue.EnqueueOnePending(c, edit);
    var c' := Enqueue(c, edit);
    var found := PendingId(c.mutations, k);
    if k != edit.key {
      if found.Some? {
        assert c'.mutations[found.value] == c.mutations[found.value];
        assert PendingOn(c'.mutations[found.value], k);
      } else {
        forall id | id in c'.mutations ensures !PendingOn(c'.mutations[id], k) {
          if id in c.mutations { assert !PendingOn(c.mutations[id], k); }
        }
      }
    } else if found.None? {
      assert PendingOn(c'.mutations[edit.id], k);
    } else if Compact(c.mutations[found.value], edit).Some? {
      assert PendingOn(c'.mutations[found.value], k);
    } else {
      forall id | id in c'.mutations ensures !PendingOn(c'.mutations[id], k) {
        assert id != found.value;
      }
    }
  }

  /** One edit changes the meaning of the queue as the edit says, unless it drops a create the server knows. */
  lemma EditMeansItself(m: map<Key, Body>, c: Client, edit: Edit)
    requires Sound(c) && edit.id !in c.mutations
    ensures (forall k :: Meaning(m, Enqueue(c, edit).mutations, k)
                         == if k == edit.key then Effect(edit.operation, edit.payload) else Meaning(m, c.mutations, k))
            <==> !DropsKnown(m, c, edit)
  {
    PendingAfter(c, edit, edit.key);
    if DropsKnown(m, c, edit) {
      assert Meaning(m, Enqueue(c, edit).mutations, edit.key) == Lookup(m, edit.key);
      assert Effect(edit.operation, edit.payload) == None;
    } else {
      forall k
        ensures Meaning(m, Enqueue(c, edit).mutations, k)
                == if k == edit.key then Effect(edit.operation, edit.payload) else Meaning(m, c.mutations, k)
      {
        PendingAfter(c, edit, k);
      }
    }
  }

  ghost predicate NeverDropsKnown(m: map<Key, Body>, c: Client, edits: seq<Edit>) {
    forall i :: 0 <= i < |edits| ==> !DropsKnown(m, EnqueueAll(c, edits[..i]), edits[i])
  }

  ghost predicate Means(m: map<Key, Body>, c: Client, result: map<Key, Body>) {
    forall k :: Meaning(m, c.mutations, k) == Lookup(result, k)
  }

  lemma {:induction false} CompactionMeaning(m: map<Key, Body>, c: Client, start: map<Key, Body>, edits: seq<Edit>, n: nat)
    requires Sound(c) && OfflineStore.FreshIds(c, edits) && NeverDropsKnown(m, c, edits)
    requires Means(m, c, start) && n <= |edits|
    ensures Sound(EnqueueAll(c, edits[..n]))
    ensures Means(m, EnqueueAll(c, edits[..n]), ReplayEdits(start, edits[..n]))
  {
    if n > 0 {
      CompactionMeaning(m, c, start, edits, n - 1);
      assert edits[..n][..n - 1] == edits[..n - 1];
      var mid := EnqueueAll(c, edits[..n - 1]);
      OfflineStore.EnqueuePrefix(c, edits, n - 1);
      EditMeansItself(m, mid, edits[n - 1]);
      PendingAfter(mid, edits[n - 1], edits[n - 1].key);
      forall k
        ensures Meaning(m, EnqueueAll(c, edits[..n]).mutations, k) == Lookup(ReplayEdits(start, edits[..n]), k)
      {
        assert Meaning(m, mid.mutations, k) == Lookup(ReplayEdits(start, edits[..n - 1]), k);
      }
    }
  }

  ghost predicate PendingCreatesNew<V>(m: map<Key, V>, c: Client) {
    forall id :: id in c.mutations && c.mutations[id].status == Pending && c.mutations[id].operation == Create ==>
      c.mutations[id].key !in m
  }

  ghost predicate CreatesNew(m: map<Key, Body>, edits: seq<Edit>) {
    forall i :: 0 <= i < |edits| && edits[i].operation == Create ==> edits[i].key !in m
  }

  lemma EditKeepsCreatesNew<V>(m: map<Key, V>, c: Client, edit: Edit)
    requires Sound(c) && edit.id !in c.mutations && PendingCreatesNew(m, c)
    requires edit.operation == Create ==> edit.key !in m
    ensures PendingCreatesNew(m, Enqueue(c, edit))
  {
  }

  lemma EnqueueOneMore(c: Client, edits: seq<Edit>, n: nat)
    requires 0 < n <= |edits|
    ensures EnqueueAll(c, edits[..n]) == Enqueue(EnqueueAll(c, edits[..n - 1]), edits[n - 1])
  {
    assert edits[..n][..n - 1] == edits[..n - 1];
  }

  lemma {:induction false} CreatesStayNew(m: map<Key, Body>, c: Client, edits: seq<Edit>, n: nat)
    requires Sound(c) && OfflineStore.FreshIds(c, edits) && n <= |edits|
    requires PendingCreatesNew(m, c) && CreatesNew(m, edits)
    ensures PendingCreatesNew(m, EnqueueAll(c, edits[..n]))
  {
    if n > 0 {
      CreatesStayNew(m, c, edits, n - 1);
      OfflineStore.EnqueuePrefix(c, edits, n - 1);
      EnqueueOneMore(c, edits, n);
      EditKeepsCreatesNew(m, EnqueueAll(c, edits[..n - 1]), edits[n - 1]);
    }
  }

  /** Creates draw new ids, so nothing the server knows is ever dropped. */
  lemma NewCreatesDropNothing(m: map<Key, Body>, c: Client, edits: seq<Edit>)
    requires Sound(c) && OfflineStore.FreshIds(c, edits)
    requires PendingCreatesNew(m, c) && CreatesNew(m, edits)
    ensures NeverDropsKnown(m, c, edits)
  {
    forall i | 0 <= i < |edits| ensures !DropsKnown(m, EnqueueAll(c, edits[..i]), edits[i]) {
      CreatesStayNew(m, c, edits, i);
    }
  }

  lemma {:induction false} QueueEffect(m: map<Key, Body>, queue: seq<Mutation>, k: Key)
    requires forall i, j :: 0 <= i < j < |queue| ==> queue[i].key != queue[j].key
    ensures forall i :: 0 <= i < |queue| && queue[i].key == k ==>
              Lookup(ReplayQueue(m, queue), k) == Effect(queue[i].operation, queue[i].payload)
    ensures (forall i :: 0 <= i < |queue| ==> queue[i].key != k) ==> Lookup(ReplayQueue(m, queue), k) == Lookup(m, k)
  {
    if queue != [] {
      QueueEffect(m, queue[..|queue| - 1], k);
    }
  }

  lemma QueueKeys(c: Client, queue: seq<Mutation>)
    requires Sound(c) && IsQueue(c, queue)
    ensures forall i, j :: 0 <= i < j < |queue| ==> queue[i].key != queue[j].key
  {
    forall i, j | 0 <= i < j < |queue| ensures queue[i].key != queue[j].key {
      assert queue[i] in queue && queue[j] in queue;
      assert queue[i].id != queue[j].id;
    }
  }

  /** The pending queue, replayed, has the queue's meaning. */
  lemma QueueMeans(m: map<Key, Body>, c: Client, queue: seq<Mutation>)
    requires Sound(c) && IsQueue(c, queue)
    ensures Means(m, c, ReplayQueue(m, queue))
  {
    QueueKeys(c, queue);
    forall k ensures Meaning(m, c.mutations, k) == Lookup(ReplayQueue(m, queue), k) {
      QueueEffect(m, queue, k);
      match PendingId(c.mutations, k)
      case Some(id) =>
        assert c.mutations[id] in queue;
        var i :| 0 <= i < |queue| && queue[i] == c.mutations[id];
      case None =>
        forall i | 0 <= i < |queue| ensures queue[i].key != k {
          assert queue[i] in queue;
          assert !PendingOn(c.mutations[queue[i].id], k);
        }
    }
  }

  /** Compaction preserves meaning: any edits, on any number of entities, over any queue already there. */
  lemma CompactionPreservesMeaning(m: map<Key, Body>, c: Client, before: seq<Mutation>, edits: seq<Edit>, after: seq<Mutation>)
    requires Sound(c) && OfflineStore.FreshIds(c, edits) && NeverDropsKnown(m, c, edits)
    requires IsQueue(c, before) && IsQueue(EnqueueAll(c, edits), after)
    ensures ReplayQueue(m, after) == ReplayEdits(ReplayQueue(m, before), edits)
  {
    var start := ReplayQueue(m, before);
    QueueMeans(m, c, before);
    CompactionMeaning(m, c, start, edits, |edits|);
    assert edits[..|edits|] == edits;
    QueueMeans(m, EnqueueAll(c, edits), after);
    forall k ensures Lookup(ReplayQueue(m, after), k) == Lookup(ReplayEdits(start, edits), k) {
      assert Meaning(m, EnqueueAll(c, edits).mutations, k) == Lookup(ReplayQueue(m, after), k);
    }
    SameMap(ReplayQueue(m, after), ReplayEdits(start, edits));
  }

  /** What one edit leaves pending on its entity: a record with the edit's payload and optimistic entity, emptied if a
      delete comes over an update; nothing exactly if a delete comes over a create; and an update if anything comes over
      a delete. Whatever the record has met so far, and its place in the queue, stays. */
  lemma EditDecidesRecord(c: Client, edit: Edit)
    requires Sound(c) && edit.id !in c.mutations
    ensures var was, now := PendingRecord(c, edit.key), PendingRecord(Enqueue(c, edit), edit.key);
            match was
            case None =>
              && now.Some? && now.value.id == edit.id && now.value.sequence == c.nextSequence && now.value.operation == edit.operation
              && now.value.payload == edit.payload && now.value.optimistic == edit.optimistic
              && now.value.attempts == 0 && now.value.errorCode.None? && now.value.serverData.None? && now.value.localCopy.None?
            case Some(m) =>
              && (now.None? <==> m.operation == Create && edit.operation == Delete)
              && (now.Some? ==>
                    && now.value == m.(operation := now.value.operation, payload := now.value.payload, optimistic := now.value.optimistic)
                    && now.value.operation == (if edit.operation == Delete then Delete else if m.operation == Delete then Update else m.operation)
                    && (now.value.payload, now.value.optimistic)
                       == if edit.operation == Delete && m.operation == Update then ("{}", None) else (edit.payload, edit.optimistic))
    ensures Enqueue(c, edit).nextSequence == c.nextSequence + if PendingRecord(c, edit.key).None? then 1 else 0
  {
    PendingAfter(c, edit, edit.key);
  }

  ghost function PendingRecord(c: Client, k: Key): Option<Mutation> {
    match PendingId(c.mutations, k)
    case None => None
    case Some(id) => Some(c.mutations[id])
  }

  // ---------- base versions ----------

  /** The record with id `id` was opened by the i-th edit, when its entity had no pending record. */
  ghost predicate OpenedBy(c: Client, edits: seq<Edit>, i: nat, id: MutationId)
    requires i < |edits|
  {
    edits[i].id == id && PendingId(EnqueueAll(c, edits[..i]).mutations, edits[i].key).None?
  }

  /** Every surviving record keeps the base version, sequence and entity it was opened with: those of the server
      state that the first of its edits was made on. */
  lemma {:induction false} SurvivorsKeepFirstBase(c: Client, edits: seq<Edit>, n: nat, id: MutationId)
    requires Sound(c) && OfflineStore.FreshIds(c, edits) && n <= |edits|
    requires id in EnqueueAll(c, edits[..n]).mutations
    ensures var r := EnqueueAll(c, edits[..n]).mutations[id];
            if id in c.mutations then
              r.base == c.mutations[id].base && r.sequence == c.mutations[id].sequence && r.key == c.mutations[id].key
            else
              exists i :: 0 <= i < n && OpenedBy(c, edits, i, id)
                          && r.base == (if edits[i].base.Some? then edits[i].base.value
                                        else if edits[i].optimistic.Some? then edits[i].optimistic.value.version else 0)
                          && r.key == edits[i].key
                          && r.sequence == EnqueueAll(c, edits[..i]).nextSequence
  {
    if n > 0 {
      var mid, edit := EnqueueAll(c, edits[..n - 1]), edits[n - 1];
      EnqueueOneMore(c, edits, n);
      OfflineStore.EnqueuePrefix(c, edits, n - 1);
      RecordSurvives(mid, edit, id);
      if id != edit.id {
        SurvivorsKeepFirstBase(c, edits, n - 1, id);
      } else {
        assert OpenedBy(c, edits, n - 1, id);
      }
    }
  }

  /** A record after an edit is the one the edit opened, or has the base, sequence and entity it had. */
  lemma RecordSurvives(c: Client, edit: Edit, id: MutationId)
    requires Sound(c) && edit.id !in c.mutations && id in Enqueue(c, edit).mutations
    ensures var r := Enqueue(c, edit).mutations[id];
            if id == edit.id then r == NewRecord(edit, c.nextSequence) && PendingId(c.mutations, edit.key).None?
            else id in c.mutations && r.base == c.mutations[id].base && r.sequence == c.mutations[id].sequence && r.key == c.mutations[id].key
  {
  }
}
