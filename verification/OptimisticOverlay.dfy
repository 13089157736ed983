/** The optimistic cache: after any edits it is the last server state overlaid with the pending records, and a
    rebuild lays the same records over the new state. */
module OptimisticOverlay {
  import opened Entities
  import opened OfflineClient
  import OfflineStore
  import Compaction

  /** What laying one record over a base does to its entity. */
  function Laid(base: map<Key, Entity>, m: Mutation): Option<Entity> {
    if m.operation == Delete then None
    else if m.optimistic.Some? then m.optimistic
    else if m.key in base then Some(base[m.key]) else None
  }

  ghost function Shown(base: map<Key, Entity>, mutations: map<MutationId, Mutation>, k: Key): Option<Entity> {
    match PendingId(mutations, k)
    case None => Lookup(base, k)
    case Some(id) => Laid(base, mutations[id])
  }

  /** The cache is the base overlaid with the pending records. */
  ghost predicate Overlaid(base: map<Key, Entity>, c: Client) {
    forall k :: Lookup(c.entities, k) == Shown(base, c.mutations, k)
  }

  /** An edit that leaves the cache at odds with its record: it drops a create of an entity the base has, or brings
      no optimistic entity for a cached copy that is not the base's. */
  ghost predicate Unlays(base: map<Key, Entity>, c: Client, edit: Edit) {
    if edit.operation == Delete then
      && PendingId(c.mutations, edit.key).Some?
      && c.mutations[PendingId(c.mutations, edit.key).value].operation == Create
      && edit.key in base
    else edit.optimistic.None? && Lookup(c.entities, edit.key) != Lookup(base, edit.key)
  }

  /** One edit keeps the cache overlaid exactly when it does not unlay. */
  lemma EditKeepsOverlayExactly(base: map<Key, Entity>, c: Client, edit: Edit)
    requires Compaction.Sound(c) && edit.id !in c.mutations && Overlaid(base, c)
    ensures Overlaid(base, Enqueue(c, edit)) <==> !Unlays(base, c, edit)
  {
    var c' := Enqueue(c, edit);
    assert Lookup(c.entities, edit.key) == Shown(base, c.mutations, edit.key);
    Compaction.PendingAfter(c, edit, edit.key);
    forall k | k != edit.key ensures Lookup(c'.entities, k) == Shown(base, c'.mutations, k) {
      assert Lookup(c.entities, k) == Shown(base, c.mutations, k);
      Compaction.PendingAfter(c, edit, k);
    }
    if Unlays(base, c, edit) {
      assert Lookup(c'.entities, edit.key) != Shown(base, c'.mutations, edit.key);
    } else {
      assert Lookup(c'.entities, edit.key) == Shown(base, c'.mutations, edit.key);
    }
  }

  /** The edits the store layer prepares: every non-delete shows an optimistic entity, creates are of new entities. */
  ghost predicate Showing(base: map<Key, Entity>, edits: seq<Edit>) {
    forall i :: 0 <= i < |edits| ==>
      && (edits[i].operation != Delete ==> edits[i].optimistic.Some?)
      && (edits[i].operation == Create ==> edits[i].key !in base)
  }

  /** After any such edits, the cache is still the last server state overlaid with the pending records. */
  lemma {:induction false} EditsKeepOverlay(base: map<Key, Entity>, c: Client, edits: seq<Edit>, n: nat)
    requires Compaction.Sound(c) && OfflineStore.FreshIds(c, edits) && n <= |edits|
    requires Overlaid(base, c) && Compaction.PendingCreatesNew(base, c) && Showing(base, edits)
    ensures var c' := EnqueueAll(c, edits[..n]);
            Compaction.Sound(c') && Overlaid(base, c') && Compaction.PendingCreatesNew(base, c')
  {
    if n > 0 {
      EditsKeepOverlay(base, c, edits, n - 1);
      assert edits[..n][..n - 1] == edits[..n - 1];
      var mid, edit := EnqueueAll(c, edits[..n - 1]), edits[n - 1];
      OfflineStore.EnqueuePrefix(c, edits, n - 1);
      Compaction.PendingAfter(mid, edit, edit.key);
      Compaction.EditKeepsCreatesNew(base, mid, edit);
      assert !Unlays(base, mid, edit);
      EditKeepsOverlayExactly(base, mid, edit);
    }
  }

  // ---------- the order of the mutation index ----------

  predicate Touches(m: Mutation) {
    m.operation == Delete || m.optimistic.Some?
  }

  /** Records that, about the same entity, lay the same thing over any base. */
  predicate Agree(a: Mutation, b: Mutation) {
    a.key == b.key && Touches(a) && Touches(b) ==>
      (a.operation == Delete <==> b.operation == Delete) && (a.operation != Delete ==> a.optimistic == b.optimistic)
  }

  ghost predicate AllAgree(mutations: map<MutationId, Mutation>) {
    forall i, j :: i in mutations && j in mutations ==> Agree(mutations[i], mutations[j])
  }

  /** The last record to touch k decides. */
  lemma {:induction false} LastDecides(base: map<Key, Entity>, order: seq<Mutation>, k: Key)
    requires forall i, j :: 0 <= i < j < |order| ==> Agree(order[i], order[j])
    ensures forall i :: 0 <= i < |order| && order[i].key == k && Touches(order[i]) ==>
              Lookup(Overlay(base, order), k) == Laid(base, order[i])
    ensures (forall i :: 0 <= i < |order| ==> order[i].key != k || !Touches(order[i])) ==>
              Lookup(Overlay(base, order), k) == Lookup(base, k)
  {
    if order != [] {
      LastDecides(base, order[..|order| - 1], k);
    }
  }

  lemma EnumeratedAgree(order: seq<Mutation>, mutations: map<MutationId, Mutation>)
    requires Enumerates(order, mutations) && AllAgree(mutations)
    ensures forall i, j :: 0 <= i < j < |order| ==> Agree(order[i], order[j])
  {
    forall i, j | 0 <= i < j < |order| ensures Agree(order[i], order[j]) {
      assert order[i] in order && order[j] in order;
    }
  }

  /** What a rebuild shows for k, whatever order the index returns. */
  lemma OverlayAt(base: map<Key, Entity>, mutations: map<MutationId, Mutation>, order: seq<Mutation>, k: Key)
    requires Enumerates(order, mutations) && AllAgree(mutations)
    ensures forall id :: id in mutations && mutations[id].key == k && Touches(mutations[id]) ==>
              Lookup(Overlay(base, order), k) == Laid(base, mutations[id])
    ensures (forall id :: id in mutations ==> mutations[id].key != k || !Touches(mutations[id])) ==>
              Lookup(Overlay(base, order), k) == Lookup(base, k)
  {
    EnumeratedAgree(order, mutations);
    LastDecides(base, order, k);
    forall id | id in mutations && mutations[id].key == k && Touches(mutations[id])
      ensures Lookup(Overlay(base, order), k) == Laid(base, mutations[id])
    {
      var i :| 0 <= i < |order| && order[i] == mutations[id];
    }
    if forall id :: id in mutations ==> mutations[id].key != k || !Touches(mutations[id]) {
      forall i | 0 <= i < |order| ensures order[i].key != k || !Touches(order[i]) { assert order[i] in order; }
    }
  }

  lemma SameOverlay(base: map<Key, Entity>, mutations: map<MutationId, Mutation>, one: seq<Mutation>, other: seq<Mutation>)
    requires Enumerates(one, mutations) && Enumerates(other, mutations) && AllAgree(mutations)
    ensures Overlay(base, one) == Overlay(base, other)
  {
    forall k ensures Lookup(Overlay(base, one), k) == Lookup(Overlay(base, other), k) {
      OverlayAt(base, mutations, one, k);
      OverlayAt(base, mutations, other, k);
    }
    SameMap(Overlay(base, one), Overlay(base, other));
  }

  /** An enumeration that ends with a given record. */
  function Ending(order: seq<Mutation>, i: nat): seq<Mutation>
    requires i < |order|
  {
    order[..i] + order[i + 1..] + [order[i]]
  }

  lemma EndingEnumerates(order: seq<Mutation>, mutations: map<MutationId, Mutation>, i: nat)
    requires Enumerates(order, mutations) && i < |order|
    ensures Enumerates(Ending(order, i), mutations)
  {
    var moved, n := Ending(order, i), |order|;
    forall x | 0 <= x < n ensures moved[x] == (if x < i then order[x] else if x < n - 1 then order[x + 1] else order[i]) { }
    forall m | m in moved ensures m in order { }
    forall id | id in mutations ensures mutations[id] in moved {
      var x :| 0 <= x < n && order[x] == mutations[id];
      assert moved[if x < i then x else if x == i then n - 1 else x - 1] == order[x];
    }
    forall x, y | 0 <= x < y < n ensures moved[x].id != moved[y].id {
      var x' := if x < i then x else x + 1;
      var y' := if y < i then y else if y < n - 1 then y + 1 else i;
      assert order[if x' < y' then x' else y'].id != order[if x' < y' then y' else x'].id;
    }
  }

  /** The order of the mutation index does not matter exactly when no two records about one entity lay different
      things over it. One record per entity suffices; a rejected or conflicting record beside a pending one does
      not. */
  lemma IndexOrderIrrelevantExactly(base: map<Key, Entity>, mutations: map<MutationId, Mutation>, order: seq<Mutation>)
    requires Keyed(mutations) && Enumerates(order, mutations)
    ensures (forall one, other :: Enumerates(one, mutations) && Enumerates(other, mutations) ==>
               Overlay(base, one) == Overlay(base, other))
            <==> AllAgree(mutations)
  {
    if AllAgree(mutations) {
      forall one, other | Enumerates(one, mutations) && Enumerates(other, mutations)
        ensures Overlay(base, one) == Overlay(base, other)
      {
        SameOverlay(base, mutations, one, other);
      }
    } else {
      var a, b :| a in mutations && b in mutations && !Agree(mutations[a], mutations[b]);
      var i :| 0 <= i < |order| && order[i] == mutations[a];
      var j :| 0 <= j < |order| && order[j] == mutations[b];
      EndingEnumerates(order, mutations, i);
      EndingEnumerates(order, mutations, j);
      EndingShows(base, order, i);
      EndingShows(base, order, j);
      assert Overlay(base, Ending(order, i)) != Overlay(base, Ending(order, j));
    }
  }

  lemma EndingShows(base: map<Key, Entity>, order: seq<Mutation>, i: nat)
    requires i < |order| && Touches(order[i])
    ensures Lookup(Overlay(base, Ending(order, i)), order[i].key) == Laid(base, order[i])
  {
    var moved := Ending(order, i);
    assert moved[..|moved| - 1] == order[..i] + order[i + 1..];
  }

  /** A rebuild keeps the cache overlaid: on the new snapshot instead of the old base, if all records are pending. */
  lemma RebuildKeepsOverlay(c: Client, boot: nat, snapshot: seq<(Key, Entity)>, order: seq<Mutation>)
    requires Compaction.Sound(c) && Enumerates(order, c.mutations)
    requires forall id :: id in c.mutations ==> c.mutations[id].status == Pending
    ensures Overlaid(PutAll(map[], snapshot), Replace(c, boot, snapshot, order))
  {
    var base, c' := PutAll(map[], snapshot), Replace(c, boot, snapshot, order);
    assert AllAgree(c.mutations) by {
      forall i, j | i in c.mutations && j in c.mutations ensures Agree(c.mutations[i], c.mutations[j]) {
        if c.mutations[i].key == c.mutations[j].key { assert i == j; }
      }
    }
    forall k ensures Lookup(c'.entities, k) == Shown(base, c'.mutations, k) {
      OverlayAt(base, c.mutations, order, k);
      if PendingId(c.mutations, k).None? {
        forall id | id in c.mutations ensures c.mutations[id].key != k { assert !PendingOn(c.mutations[id], k); }
      } else {
        var id := PendingId(c.mutations, k).value;
        if !Touches(c.mutations[id]) {
          forall other | other in c.mutations && c.mutations[other].key == k ensures !Touches(c.mutations[other]) {
            assert other == id;
          }
        }
      }
    }
  }
}
