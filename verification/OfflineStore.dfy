/** The client's account stores, and the transactions on them as the browser runs them: loops over puts and
    deletes. Each is proved against the function of OfflineClient that the protocol proofs reason about. */
module OfflineStore {
  import opened Entities
  import opened OfflineClient
  import opened SyncMachine
  import PullSteps
  import Queue

  /** The map from entity to its pending record that an enqueue transaction builds and keeps up to date. */
  ghost predicate Indexes(pending: map<Key, Mutation>, mutations: map<MutationId, Mutation>) {
    && (forall k :: k in pending ==> pending[k].id in mutations && mutations[pending[k].id] == pending[k] && PendingOn(pending[k], k))
    && (forall id :: id in mutations && mutations[id].status == Pending ==> mutations[id].key in pending)
  }

  lemma IndexFinds(pending: map<Key, Mutation>, mutations: map<MutationId, Mutation>, k: Key)
    requires Keyed(mutations) && OnePendingPerKey(mutations) && Indexes(pending, mutations)
    ensures PendingId(mutations, k) == if k in pending then Some(pending[k].id) else None
  {
    if k in pending { assert PendingOn(mutations[pending[k].id], k); }
  }

  lemma CompactedStaysIndexed(pending: map<Key, Mutation>, mutations: map<MutationId, Mutation>, k: Key, edit: Edit)
    requires Keyed(mutations) && OnePendingPerKey(mutations) && Indexes(pending, mutations)
    requires k in pending && edit.key == k
    ensures match Compact(pending[k], edit)
            case Some(m) => Indexes(pending[k := m], mutations[m.id := m])
            case None => Indexes(pending - {k}, mutations - {pending[k].id})
  {
    var id := pending[k].id;
    if Compact(pending[k], edit).None? {
      forall other | other in mutations - {id} && mutations[other].status == Pending
        ensures mutations[other].key in pending - {k}
      {
        assert other != id;
      }
    }
  }

  lemma NewStaysIndexed(pending: map<Key, Mutation>, mutations: map<MutationId, Mutation>, m: Mutation)
    requires Keyed(mutations) && Indexes(pending, mutations) && m.id !in mutations && m.key !in pending && m.status == Pending
    ensures Indexes(pending[m.key := m], mutations[m.id := m])
  {
  }

  ghost predicate FreshIds(c: Client, inputs: seq<Edit>) {
    && (forall i :: 0 <= i < |inputs| ==> inputs[i].id !in c.mutations)
    && (forall i, j :: 0 <= i < j < |inputs| ==> inputs[i].id != inputs[j].id)
  }

  lemma {:induction false} EnqueuedIds(c: Client, inputs: seq<Edit>, id: MutationId)
    requires Keyed(c.mutations) && id in EnqueueAll(c, inputs).mutations
    ensures id in c.mutations || exists i :: 0 <= i < |inputs| && inputs[i].id == id
  {
    if inputs != [] {
      var init := inputs[..|inputs| - 1];
      if id in EnqueueAll(c, init).mutations {
        EnqueuedIds(c, init, id);
        if id !in c.mutations {
          var i :| 0 <= i < |init| && init[i].id == id;
          assert inputs[i].id == id;
        }
      } else {
        EnqueueAddsOnly(EnqueueAll(c, init), inputs[|inputs| - 1], id);
        assert inputs[|inputs| - 1].id == id;
      }
    }
  }

  lemma EnqueueAddsOnly(c: Client, edit: Edit, id: MutationId)
    requires id in Enqueue(c, edit).mutations && id !in c.mutations
    ensures id == edit.id || exists held :: held in c.mutations && c.mutations[held].id == id
  {
  }

  /** The state after the first edits of a batch, as the loop sees it before the next one. */
  lemma {:induction false} EnqueuePrefix(c: Client, inputs: seq<Edit>, n: nat)
    requires Keyed(c.mutations) && OnePendingPerKey(c.mutations) && FreshIds(c, inputs) && n <= |inputs|
    ensures var mid := EnqueueAll(c, inputs[..n]);
            && Keyed(mid.mutations) && OnePendingPerKey(mid.mutations)
            && (n < |inputs| ==> inputs[n].id !in mid.mutations)
  {
    if n > 0 {
      EnqueuePrefix(c, inputs, n - 1);
      assert inputs[..n][..n - 1] == inputs[..n - 1];
      Queue.EnqueueOnePending(EnqueueAll(c, inputs[..n - 1]), inputs[n - 1]);
    }
    if n < |inputs| && inputs[n].id in EnqueueAll(c, inputs[..n]).mutations {
      EnqueuedIds(c, inputs[..n], inputs[n].id);
      assert false;
    }
  }

  lemma EnqueueNext(c: Client, inputs: seq<Edit>, n: nat)
    requires Keyed(c.mutations) && OnePendingPerKey(c.mutations) && FreshIds(c, inputs) && n < |inputs|
    ensures var mid, next := EnqueueAll(c, inputs[..n]), EnqueueAll(c, inputs[..n + 1]);
            && inputs[n].id !in mid.mutations && next == Enqueue(mid, inputs[n])
            && Keyed(next.mutations) && OnePendingPerKey(next.mutations)
  {
    EnqueuePrefix(c, inputs, n);
    EnqueuePrefix(c, inputs, n + 1);
    assert inputs[..n + 1][..n] == inputs[..n];
  }

  function Marked(m: Mutation, change: Change): Mutation {
    if Holds(m, change.key) then MarkConflict(m, change) else m
  }

  ghost predicate MarkedUpTo(records: seq<Mutation>, marked: seq<Mutation>, change: Change, x: int) {
    && |marked| == |records|
    && (forall y :: 0 <= y < x && y < |records| ==> marked[y] == Marked(records[y], change))
    && (forall y :: 0 <= x <= y < |records| ==> marked[y] == records[y])
  }

  lemma MarkedOne(before: map<MutationId, Mutation>, after: map<MutationId, Mutation>,
                  records: seq<Mutation>, marked: seq<Mutation>, change: Change, id: MutationId)
    requires Enumerates(records, before) && Enumerates(marked, after) && Keyed(before)
    requires MarkedUpTo(records, marked, change, |records|)
    ensures id in before ==> id in after && after[id] == Marked(before[id], change)
  {
    if id in before {
      var x :| 0 <= x < |records| && records[x] == before[id];
      assert marked[x] in marked;
    }
  }

  lemma MarkedDomain(before: map<MutationId, Mutation>, after: map<MutationId, Mutation>,
                     records: seq<Mutation>, marked: seq<Mutation>, change: Change, id: MutationId)
    requires Enumerates(records, before) && Enumerates(marked, after) && Keyed(after)
    requires MarkedUpTo(records, marked, change, |records|)
    ensures id in after ==> id in before
  {
    if id in after {
      var x :| 0 <= x < |marked| && marked[x] == after[id];
      assert records[x] in records;
    }
  }

  lemma MarkAllIs(before: map<MutationId, Mutation>, after: map<MutationId, Mutation>, change: Change)
    requires forall id :: id in before ==> id in after && after[id] == Marked(before[id], change)
    requires forall id :: id in after ==> id in before
    ensures after == MarkAll(before, change)
  {
  }

  /** Marking record after record amounts to marking them all. */
  lemma MarkedAll(before: map<MutationId, Mutation>, after: map<MutationId, Mutation>,
                  records: seq<Mutation>, marked: seq<Mutation>, change: Change)
    requires Enumerates(records, before) && Enumerates(marked, after) && Keyed(before) && Keyed(after)
    requires MarkedUpTo(records, marked, change, |records|)
    ensures after == MarkAll(before, change)
  {
    assert forall id :: id in before ==> id in after && after[id] == Marked(before[id], change) by {
      forall id | id in before ensures id in after && after[id] == Marked(before[id], change) {
        MarkedOne(before, after, records, marked, change, id);
      }
    }
    assert forall id :: id in after ==> id in before by {
      forall id | id in after ensures id in before { MarkedDomain(before, after, records, marked, change, id); }
    }
    MarkAllIs(before, after, change);
  }

  ghost predicate HolderBefore(records: seq<Mutation>, k: Key, x: int) {
    exists y :: 0 <= y < x && y < |records| && Holds(records[y], k)
  }

  lemma HolderStep(records: seq<Mutation>, k: Key, x: nat)
    requires x < |records|
    ensures HolderBefore(records, k, x + 1) <==> HolderBefore(records, k, x) || Holds(records[x], k)
  {
  }

  lemma MarkStaysEnumerated(records: seq<Mutation>, mutations: map<MutationId, Mutation>, x: nat, m: Mutation)
    requires Enumerates(records, mutations) && Keyed(mutations) && x < |records| && m.id == records[x].id
    ensures Enumerates(records[x := m], mutations[m.id := m]) && Keyed(mutations[m.id := m])
  {
    var records', mutations' := records[x := m], mutations[m.id := m];
    assert records[x] in records;
    forall r | r in records' ensures r.id in mutations' && mutations'[r.id] == r {
      var y :| 0 <= y < |records'| && records'[y] == r;
      if y != x {
        assert records[y] == r && records[y] in records;
        assert records[if x < y then x else y].id != records[if x < y then y else x].id;
      }
    }
    forall id | id in mutations' ensures mutations'[id] in records' {
      if id == m.id {
        assert records'[x] == m;
      } else {
        var y :| 0 <= y < |records| && records[y] == mutations[id];
        assert records'[y] == mutations[id];
      }
    }
  }

  lemma MarkedUpToStep(records: seq<Mutation>, marked: seq<Mutation>, change: Change, x: nat)
    requires x < |records| && MarkedUpTo(records, marked, change, x)
    ensures marked[x] == records[x]
    ensures MarkedUpTo(records, marked[x := Marked(records[x], change)], change, x + 1)
    ensures marked[x := marked[x]] == marked
  {
  }

  /** The marking loop before its x-th turn. */
  ghost predicate Marking(before: map<MutationId, Mutation>, after: map<MutationId, Mutation>,
                          records: seq<Mutation>, marked: seq<Mutation>, change: Change, x: int) {
    && Keyed(before) && Enumerates(records, before)
    && Keyed(after) && Enumerates(marked, after)
    && MarkedUpTo(records, marked, change, x)
  }

  lemma MarkStep(before: map<MutationId, Mutation>, after: map<MutationId, Mutation>,
                 records: seq<Mutation>, marked: seq<Mutation>, change: Change, x: nat)
    requires x < |records| && Marking(before, after, records, marked, change, x)
    ensures x < |marked| && marked[x] == records[x]
    ensures !Holds(marked[x], change.key) ==> Marking(before, after, records, marked, change, x + 1)
    ensures Holds(marked[x], change.key) ==>
              var updated := MarkConflict(marked[x], change);
              Marking(before, after[updated.id := updated], records, marked[x := updated], change, x + 1)
  {
    MarkedUpToStep(records, marked, change, x);
    if Holds(marked[x], change.key) {
      MarkStaysEnumerated(marked, after, x, MarkConflict(marked[x], change));
    }
  }

  lemma MarkingDone(c: Client, after: map<MutationId, Mutation>, records: seq<Mutation>, marked: seq<Mutation>, change: Change)
    requires Marking(c.mutations, after, records, marked, change, |records|)
    ensures Keyed(after) && Enumerates(marked, after) && after == MarkAll(c.mutations, change)
    ensures HolderBefore(records, change.key, |records|) == Held(c, change.key)
  {
    MarkedAll(c.mutations, after, records, marked, change);
    NoHolder(c, records, change.key);
  }

  lemma NoHolder(c: Client, records: seq<Mutation>, k: Key)
    requires Enumerates(records, c.mutations)
    ensures Held(c, k) <==> HolderBefore(records, k, |records|)
  {
    if Held(c, k) {
      var id :| id in c.mutations && Holds(c.mutations[id], k);
      var x :| 0 <= x < |records| && records[x] == c.mutations[id];
      assert Holds(records[x], k);
    }
    if x :| 0 <= x < |records| && Holds(records[x], k) {
      assert records[x] in records;
      assert Holds(c.mutations[records[x].id], k);
    }
  }

  lemma PageStaysValid(c: Client, changes: seq<Change>)
    requires Keyed(c.mutations) && OnePendingPerKey(c.mutations)
    ensures Keyed(ApplyChanges(c, changes).mutations) && OnePendingPerKey(ApplyChanges(c, changes).mutations)
  {
    PullSteps.PageRecords(c, changes);
  }

  lemma {:induction false} SettleStaysValid(c: Client, batch: seq<Mutation>, results: map<MutationId, Outcome>)
    requires Keyed(c.mutations) && OnePendingPerKey(c.mutations)
    ensures Keyed(Settle(c, batch, results).mutations) && OnePendingPerKey(Settle(c, batch, results).mutations)
  {
    if batch != [] {
      SettleStaysValid(c, batch[..|batch| - 1], results);
    }
  }

  class AccountStores {
    var entities: map<Key, Entity>
    var mutations: map<MutationId, Mutation>
    var cursor: Option<nat>
    var nextSequence: nat

    constructor ()
      ensures Contents() == Client(map[], map[], None, 1) && Valid()
    {
      entities, mutations, cursor, nextSequence := map[], map[], None, 1;
    }

    function Contents(): Client
      reads this
    {
      Client(entities, mutations, cursor, nextSequence)
    }

    ghost predicate Valid()
      reads this
    {
      Keyed(mutations) && OnePendingPerKey(mutations)
    }

    /** All records, in whatever order the index has them. */
    method GetAll() returns (all: seq<Mutation>)
      requires Keyed(mutations)
      ensures Enumerates(all, mutations)
    {
      all := [];
      var ids := mutations.Keys;
      while ids != {}
        invariant ids <= mutations.Keys
        invariant forall m :: m in all ==> m.id in mutations && mutations[m.id] == m && m.id !in ids
        invariant forall id :: id in mutations && id !in ids ==> mutations[id] in all
        invariant forall i, j :: 0 <= i < j < |all| ==> all[i].id != all[j].id
        decreases |ids|
      {
        var id :| id in ids;
        assert forall i :: 0 <= i < |all| ==> all[i] in all;
        all := all + [mutations[id]];
        ids := ids - {id};
      }
    }

    method PendingByEntity() returns (pending: map<Key, Mutation>)
      requires Valid()
      ensures Indexes(pending, mutations)
    {
      var all := GetAll();
      pending := map[];
      for i := 0 to |all|
        invariant forall k :: k in pending ==> pending[k].id in mutations && mutations[pending[k].id] == pending[k] && PendingOn(pending[k], k)
        invariant forall j :: 0 <= j < i && all[j].status == Pending ==> all[j].key in pending
      {
        assert all[i] in all;
        if all[i].status == Pending {
          pending := pending[all[i].key := all[i]];
        }
      }
    }

    /** One input of an enqueue transaction; `sequence` counts what will be the next one. */
    method EnqueueOne(input: Edit, pending: map<Key, Mutation>, sequence: nat)
      returns (pending': map<Key, Mutation>, sequence': nat)
      requires Valid() && Indexes(pending, mutations) && input.id !in mutations
      modifies `entities, `mutations
      ensures Contents().(nextSequence := sequence') == Enqueue(old(Contents()).(nextSequence := sequence), input)
      ensures Indexes(pending', mutations)
    {
      IndexFinds(pending, mutations, input.key);
      pending', sequence' := pending, sequence;
      if input.operation == Delete {
        entities := entities - {input.key};
      } else if input.optimistic.Some? {
        entities := entities[input.key := input.optimistic.value];
      }
      if input.key in pending {
        var existing := pending[input.key];
        CompactedStaysIndexed(pending, mutations, input.key, input);
        var compacted := Compact(existing, input);
        if compacted.Some? {
          mutations := mutations[existing.id := compacted.value];
          pending' := pending[input.key := compacted.value];
        } else {
          mutations := mutations - {existing.id};
          pending' := pending - {input.key};
        }
      } else {
        var mutation := NewRecord(input, sequence);
        NewStaysIndexed(pending, mutations, mutation);
        mutations := mutations[input.id := mutation];
        pending' := pending[input.key := mutation];
        sequence' := sequence + 1;
      }
    }

    method EnqueueMutations(inputs: seq<Edit>)
      requires Valid() && FreshIds(Contents(), inputs)
      modifies this
      ensures Valid()
      ensures Contents() == EnqueueAll(old(Contents()), inputs)
    {
      if |inputs| < 1 { return; }
      ghost var start := Contents();
      var pending := PendingByEntity();
      var sequence := nextSequence;
      for i := 0 to |inputs|
        invariant Valid() && Indexes(pending, mutations)
        invariant Contents().(nextSequence := sequence) == EnqueueAll(start, inputs[..i])
      {
        EnqueueNext(start, inputs, i);
        pending, sequence := EnqueueOne(inputs[i], pending, sequence);
      }
      assert inputs[..|inputs|] == inputs;
      nextSequence := sequence;
    }

    /** Marks every record that is not rejected and is about the change's entity; says whether there was one. */
    method MarkConflicts(records: seq<Mutation>, change: Change) returns (marked: seq<Mutation>, held: bool)
      requires Keyed(mutations) && Enumerates(records, mutations)
      modifies this
      ensures Contents() == old(Contents()).(mutations := MarkAll(old(mutations), change))
      ensures Keyed(mutations) && Enumerates(marked, mutations)
      ensures held == Held(old(Contents()), change.key)
    {
      marked, held := records, false;
      for x := 0 to |records|
        invariant Contents() == old(Contents()).(mutations := mutations)
        invariant Marking(old(mutations), mutations, records, marked, change, x)
        invariant held == HolderBefore(records, change.key, x)
      {
        HolderStep(records, change.key, x);
        MarkStep(old(mutations), mutations, records, marked, change, x);
        if Holds(marked[x], change.key) {
          var updated := MarkConflict(marked[x], change);
          mutations := mutations[updated.id := updated];
          marked := marked[x := updated];
          held := true;
        }
      }
      MarkingDone(old(Contents()), mutations, records, marked, change);
    }

    method ApplySyncChangesPage(page: Page)
      requires Valid()
      modifies this
      ensures Valid()
      ensures Contents() == ApplyPage(old(Contents()), page)
    {
      PageStaysValid(Contents(), page.changes);
      var records := GetAll();
      for i := 0 to |page.changes|
        invariant Keyed(mutations) && Enumerates(records, mutations)
        invariant Contents() == ApplyChanges(old(Contents()), page.changes[..i])
      {
        var change := page.changes[i];
        assert page.changes[..i + 1][..i] == page.changes[..i];
        if Cacheable(change.key.kind) {
          ghost var before := Contents();
          var held;
          records, held := MarkConflicts(records, change);
          if held { continue; }
          MarkNone(before, change);
          if change.Removal? {
            entities := entities - {change.key};
            continue;
          }
          if change.key in entities && entities[change.key].version >= change.version { continue; }
          entities := entities[change.key := change.data];
        }
      }
      assert page.changes[..|page.changes|] == page.changes;
      cursor := Some(page.next);
    }

    method ApplyPushResponse(batch: seq<Mutation>, results: map<MutationId, Outcome>)
      requires Valid()
      modifies this
      ensures Valid()
      ensures Contents() == Settle(old(Contents()), batch, results)
    {
      SettleStaysValid(Contents(), batch, results);
      for i := 0 to |batch|
        invariant Contents() == Settle(old(Contents()), batch[..i], results)
      {
        var m := batch[i];
        assert batch[..i + 1][..i] == batch[..i];
        if m.id !in results { continue; }
        match results[m.id] {
          case Success(values) =>
            if m.operation != Delete {
              PutEntities(values);
            }
            mutations := mutations - {m.id};
          case VersionConflict(code, current) =>
            mutations := mutations[m.id := m.(status := Conflict, errorCode := Some(code), serverData := current,
                                              localCopy := Some(ConflictCopy(m)), attempts := m.attempts + 1)];
          case Refused(code) =>
            mutations := mutations[m.id := m.(status := Rejected, errorCode := Some(code), serverData := None,
                                              attempts := m.attempts + 1)];
        }
      }
      assert batch[..|batch|] == batch;
    }

    method PutEntities(values: seq<(Key, Entity)>)
      modifies `entities
      ensures entities == PutAll(old(entities), values)
    {
      for i := 0 to |values|
        invariant entities == PutAll(old(entities), values[..i])
      {
        assert values[..i + 1][..i] == values[..i];
        entities := entities[values[i].0 := values[i].1];
      }
      assert values[..|values|] == values;
    }

    method ClearEntities()
      modifies `entities
      ensures entities == map[]
    {
      var keys := entities.Keys;
      while keys != {}
        invariant entities.Keys == keys
        decreases |keys|
      {
        var key :| key in keys;
        entities := entities - {key};
        keys := keys - {key};
      }
    }

    method OverlayMutations(order: seq<Mutation>)
      modifies `entities
      ensures entities == Overlay(old(entities), order)
    {
      for i := 0 to |order|
        invariant entities == Overlay(old(entities), order[..i])
      {
        var m := order[i];
        assert order[..i + 1][..i] == order[..i];
        if m.operation == Delete {
          entities := entities - {m.key};
        } else if m.optimistic.Some? {
          entities := entities[m.key := m.optimistic.value];
        }
      }
      assert order[..|order|] == order;
    }

    /** `order` is the order in which the index returned the records. */
    method ReplaceAccountEntities(boot: nat, snapshot: seq<(Key, Entity)>) returns (order: seq<Mutation>)
      requires Valid()
      modifies this
      ensures Valid() && Enumerates(order, old(mutations))
      ensures Contents() == Replace(old(Contents()), boot, snapshot, order)
    {
      ClearEntities();
      PutEntities(snapshot);
      order := GetAll();
      OverlayMutations(order);
      cursor := Some(boot);
    }

    /** The pending records, in sequence order. */
    method PendingQueue() returns (queue: seq<Mutation>)
      requires Valid()
      requires forall a, b :: a in mutations && b in mutations && mutations[a].sequence == mutations[b].sequence ==> a == b
      ensures IsQueue(Contents(), queue)
    {
      var all := GetAll();
      queue := [];
      for i := 0 to |all|
        invariant Queue.Increasing(queue)
        invariant forall m :: m in queue <==> m.status == Pending && m in all[..i]
      {
        assert all[i] in all;
        if all[i].status == Pending {
          forall m | m in queue ensures m.sequence != all[i].sequence {
            var x :| 0 <= x < i && all[x] == m;
            assert all[x] in all && all[x].id != all[i].id;
          }
          queue := InsertBySequence(queue, all[i]);
        }
      }
      assert all[..|all|] == all;
    }
  }

  lemma MarkNone(c: Client, change: Change)
    requires !Held(c, change.key)
    ensures MarkAll(c.mutations, change) == c.mutations
  {
  }

  function InsertBySequence(queue: seq<Mutation>, m: Mutation): (r: seq<Mutation>)
    requires Queue.Increasing(queue) && forall n :: n in queue ==> n.sequence != m.sequence
    ensures Queue.Increasing(r)
    ensures forall n :: n in r <==> n == m || n in queue
  {
    if queue == [] then [m]
    else
      var init, last := queue[..|queue| - 1], queue[|queue| - 1];
      assert queue == init + [last];
      if last.sequence < m.sequence then queue + [m]
      else
        var r := InsertBySequence(init, m);
        assert forall i :: 0 <= i < |r| ==> r[i] in r;
        r + [last]
  }

  lemma FlattenAppend(batches: seq<seq<Mutation>>, batch: seq<Mutation>)
    ensures Flatten(batches + [batch]) == Flatten(batches) + batch
  {
    assert (batches + [batch])[..|batches|] == batches;
  }

  /** The slices in which a queue is pushed: in order, complete, and as the protocol's send step takes them. */
  method PushBatches(queued: seq<Mutation>) returns (batches: seq<seq<Mutation>>)
    ensures Flatten(batches) == queued
    ensures forall i :: 0 <= i < |batches| ==> 1 <= |batches[i]| <= 100
    ensures forall i :: 0 <= i < |batches| - 1 ==> |batches[i]| == 100
  {
    batches := [];
    var offset := 0;
    while offset < |queued|
      invariant offset <= |queued| ==> Flatten(batches) == queued[..offset]
      invariant offset > |queued| ==> Flatten(batches) == queued
      invariant forall i :: 0 <= i < |batches| ==> 1 <= |batches[i]| <= BATCH && (offset <= |queued| || i < |batches| - 1 ==> |batches[i]| == BATCH)
    {
      var end := if offset + BATCH < |queued| then offset + BATCH else |queued|;
      var batch := queued[offset..end];
      FlattenAppend(batches, batch);
      assert queued[..offset] + batch == queued[..end];
      assert queued[..|queued|] == queued;
      batches := batches + [batch];
      offset := offset + BATCH;
    }
    assert queued[..|queued|] == queued;
  }
}
