/** What applying one feed page guarantees entity by entity: nothing is silently dropped, no queued payload is lost,
    cached versions only go down by a delete, and a page applied again leaves the cache alone. */
module PullPages {
  import opened Entities
  import opened OfflineClient
  import opened SyncServer

  // ---------- one change, one entity ----------

  function Effect(current: Option<Entity>, change: Change): Option<Entity> {
    if change.Removal? then None
    else if current.Some? && current.value.version >= change.version then current
    else Some(change.data)
  }

  function PageEffect(current: Option<Entity>, changes: seq<Change>, k: Key): Option<Entity> {
    if changes == [] then current
    else
      var before, last := PageEffect(current, changes[..|changes| - 1], k), changes[|changes| - 1];
      if last.key == k then Effect(before, last) else before
  }

  lemma ChangeAt(c: Client, change: Change, k: Key)
    ensures Held(ApplyChange(c, change), k) == Held(c, k)
    ensures Lookup(ApplyChange(c, change).entities, k)
            == if change.key == k && Cacheable(k.kind) && !Held(c, k) then Effect(Lookup(c.entities, k), change)
               else Lookup(c.entities, k)
  {
    var c' := ApplyChange(c, change);
    if Held(c, k) {
      var id :| id in c.mutations && Holds(c.mutations[id], k);
      assert Holds(c'.mutations[id], k);
    }
    if Held(c', k) {
      var id :| id in c'.mutations && Holds(c'.mutations[id], k);
      assert Holds(c.mutations[id], k);
    }
  }

  lemma {:induction false} PageAt(c: Client, changes: seq<Change>, k: Key)
    ensures Held(ApplyChanges(c, changes), k) == Held(c, k)
    ensures Lookup(ApplyChanges(c, changes).entities, k)
            == if Cacheable(k.kind) && !Held(c, k) then PageEffect(Lookup(c.entities, k), changes, k)
               else Lookup(c.entities, k)
  {
    if changes != [] {
      PageAt(c, changes[..|changes| - 1], k);
      ChangeAt(ApplyChanges(c, changes[..|changes| - 1]), changes[|changes| - 1], k);
    }
  }

  // ---------- records ----------

  /** A record as the page leaves it keeps all the user's work. */
  predicate KeepsWork(before: Mutation, after: Mutation) {
    && after.id == before.id && after.sequence == before.sequence && after.key == before.key
    && after.operation == before.operation && after.base == before.base
    && after.payload == before.payload && after.optimistic == before.optimistic
  }

  /** The record tells the user about this change, with their own copy beside it. */
  predicate Reports(before: Mutation, after: Mutation, change: Change) {
    && after.status == Conflict
    && after.errorCode == Some(if change.Removal? then "ENTITY_DELETED" else "ENTITY_VERSION_CONFLICT")
    && after.serverData == (if change.Removal? then None else Some(change.data))
    && after.localCopy == Some(if before.optimistic.Some? then OfEntity(before.optimistic.value) else OfPayload(before.payload))
    && after.attempts > before.attempts
  }

  predicate LastAbout(changes: seq<Change>, n: nat)
    requires n < |changes|
  {
    forall j :: n < j < |changes| ==> changes[j].key != changes[n].key
  }

  lemma ChangeRecord(c: Client, change: Change, id: MutationId)
    requires id in c.mutations
    ensures id in ApplyChange(c, change).mutations
    ensures var m, m' := c.mutations[id], ApplyChange(c, change).mutations[id];
            && KeepsWork(m, m')
            && (m.status == Rejected || m.key != change.key || !Cacheable(m.key.kind) ==> m' == m)
            && (m.status != Rejected && m.key == change.key && Cacheable(m.key.kind) ==> Reports(m, m', change))
  {
    if Holds(c.mutations[id], change.key) { assert Held(c, change.key); }
  }

  lemma {:induction false} PageRecord(c: Client, changes: seq<Change>, id: MutationId)
    requires id in c.mutations
    ensures id in ApplyChanges(c, changes).mutations
    ensures var m, m' := c.mutations[id], ApplyChanges(c, changes).mutations[id];
            && KeepsWork(m, m') && m'.attempts >= m.attempts && (m.status == Rejected <==> m'.status == Rejected)
            && (m.status != Rejected && Cacheable(m.key.kind) ==>
                  forall n :: 0 <= n < |changes| && changes[n].key == m.key && LastAbout(changes, n) ==> Reports(m, m', changes[n]))
  {
    if changes != [] {
      var init, last := changes[..|changes| - 1], changes[|changes| - 1];
      PageRecord(c, init, id);
      ChangeRecord(ApplyChanges(c, init), last, id);
      var m, m' := c.mutations[id], ApplyChanges(c, changes).mutations[id];
      if m.status != Rejected && Cacheable(m.key.kind) {
        forall n | 0 <= n < |changes| && changes[n].key == m.key && LastAbout(changes, n)
          ensures Reports(m, m', changes[n])
        {
          if n < |init| {
            assert last.key != m.key;
            assert init[n] == changes[n] && LastAbout(init, n);
          }
        }
      }
    }
  }

  /** The cache reflects the change. */
  predicate Reflected(cached: Option<Entity>, change: Change) {
    if change.Removal? then cached.None?
    else cached.Some? && (cached.value == change.data || cached.value.version >= change.version)
  }

  lemma {:induction false} LastChangeReflected(current: Option<Entity>, changes: seq<Change>, n: nat)
    requires n < |changes| && LastAbout(changes, n)
    ensures Reflected(PageEffect(current, changes, changes[n].key), changes[n])
  {
    var init := changes[..|changes| - 1];
    if n < |init| {
      assert changes[|changes| - 1].key != changes[n].key;
      assert init[n] == changes[n] && LastAbout(init, n);
      LastChangeReflected(current, init, n);
    }
  }

  /** Nothing is silently dropped: of every cached-type entity in the page, the last change is either reflected in
      the cache, or is told by every record the user still has on it, while the cached copy stays as it was. */
  lemma NothingDropped(c: Client, page: Page, n: nat)
    requires n < |page.changes| && LastAbout(page.changes, n) && Cacheable(page.changes[n].key.kind)
    ensures var change, c' := page.changes[n], ApplyPage(c, page);
            if Held(c, change.key) then
              && Lookup(c'.entities, change.key) == Lookup(c.entities, change.key)
              && forall id :: id in c.mutations && Holds(c.mutations[id], change.key) ==>
                   id in c'.mutations && Reports(c.mutations[id], c'.mutations[id], change)
            else Reflected(Lookup(c'.entities, change.key), change)
  {
    var change := page.changes[n];
    PageAt(c, page.changes, change.key);
    if Held(c, change.key) {
      forall id | id in c.mutations && Holds(c.mutations[id], change.key)
        ensures id in ApplyChanges(c, page.changes).mutations
        ensures Reports(c.mutations[id], ApplyChanges(c, page.changes).mutations[id], change)
      {
        PageRecord(c, page.changes, id);
      }
    } else {
      LastChangeReflected(Lookup(c.entities, change.key), page.changes, n);
    }
  }

  /** No queued work is lost, added or rewritten by a page, and the cursor and the sequence counter are the page's
      and the old one. */
  lemma QueuedWorkKept(c: Client, page: Page)
    ensures ApplyPage(c, page).mutations.Keys == c.mutations.Keys
    ensures forall id :: id in c.mutations ==> KeepsWork(c.mutations[id], ApplyPage(c, page).mutations[id])
    ensures ApplyPage(c, page).cursor == Some(page.next) && ApplyPage(c, page).nextSequence == c.nextSequence
  {
    forall id | id in c.mutations
      ensures id in ApplyChanges(c, page.changes).mutations
      ensures KeepsWork(c.mutations[id], ApplyChanges(c, page.changes).mutations[id])
    {
      PageRecord(c, page.changes, id);
    }
    NoNewRecords(c, page.changes);
  }

  lemma {:induction false} NoNewRecords(c: Client, changes: seq<Change>)
    ensures ApplyChanges(c, changes).mutations.Keys <= c.mutations.Keys
    ensures ApplyChanges(c, changes).nextSequence == c.nextSequence
  {
    if changes != [] { NoNewRecords(c, changes[..|changes| - 1]); }
  }

  // ---------- the pages a server makes ----------

  /** All changes of one entity in a page agree on deleted or same data, and the data is no older than its entry. */
  predicate Coherent(changes: seq<Change>) {
    && (forall i, j :: 0 <= i < |changes| && 0 <= j < |changes| && changes[i].key == changes[j].key ==>
          && (changes[i].Removal? <==> changes[j].Removal?)
          && (changes[i].Upsert? ==> changes[i].data == changes[j].data))
    && (forall i :: 0 <= i < |changes| && changes[i].Upsert? ==> changes[i].data.version >= changes[i].version)
  }

  lemma ServerPagesCohere(s: Server, cursor: nat, size: nat)
    requires Consistent(s) && size > 0
    ensures Coherent(PageOf(s, cursor, size).changes)
  {
    var changes, start := PageOf(s, cursor, size).changes, FirstAfter(s.feed, cursor);
    forall n | 0 <= n < |changes|
      ensures start + n < |s.feed| && changes[n] == Resolve(s, s.feed[start + n]) && Grounded(s.rows, s.feed[start + n])
    {
      PageOnly(s, cursor, size, n);
    }
  }

  // ---------- versions ----------

  lemma {:induction false} UpsertsOnly(current: Option<Entity>, changes: seq<Change>, k: Key)
    requires Coherent(changes)
    requires forall i :: 0 <= i < |changes| && changes[i].key == k ==> changes[i].Upsert?
    ensures var result := PageEffect(current, changes, k);
            && (current.Some? ==> result.Some? && result.value.version >= current.value.version)
            && (result == current || exists i :: 0 <= i < |changes| && changes[i].key == k && result == Some(changes[i].data))
  {
    if changes != [] {
      var init := changes[..|changes| - 1];
      UpsertsOnly(current, init, k);
      var before := PageEffect(current, init, k);
      if before != current {
        var i :| 0 <= i < |init| && init[i].key == k && before == Some(init[i].data);
        assert changes[i].key == k && before == Some(changes[i].data);
      }
      assert changes[|changes| - 1] == changes[|changes| - 1];
    }
  }

  /** A cached version never goes down, except that a delete removes the copy. */
  lemma VersionsNeverDecrease(c: Client, page: Page, k: Key)
    requires Coherent(page.changes) && k in c.entities
    ensures k in ApplyPage(c, page).entities ==> ApplyPage(c, page).entities[k].version >= c.entities[k].version
    ensures k !in ApplyPage(c, page).entities ==>
              exists i :: 0 <= i < |page.changes| && page.changes[i].key == k && page.changes[i].Removal?
  {
    PageAt(c, page.changes, k);
    if Cacheable(k.kind) && !Held(c, k) {
      if forall i :: 0 <= i < |page.changes| && page.changes[i].key == k ==> page.changes[i].Upsert? {
        UpsertsOnly(Lookup(c.entities, k), page.changes, k);
      } else {
        var i :| 0 <= i < |page.changes| && page.changes[i].key == k && page.changes[i].Removal?;
        AllRemoved(Lookup(c.entities, k), page.changes, k, i);
      }
    }
  }

  lemma {:induction false} AllRemoved(current: Option<Entity>, changes: seq<Change>, k: Key, i: nat)
    requires Coherent(changes) && i < |changes| && changes[i].key == k && changes[i].Removal?
    ensures PageEffect(current, changes, k) == None
  {
    var init, last := changes[..|changes| - 1], changes[|changes| - 1];
    if last.key == k {
      assert last.Removal?;
    } else {
      assert init[i] == changes[i];
      AllRemoved(current, init, k, i);
    }
  }

  // ---------- applying a page again ----------

  /** A copy that every change of the page about it reflects stays. */
  lemma {:induction false} ReflectedStays(current: Option<Entity>, changes: seq<Change>, k: Key)
    requires forall i :: 0 <= i < |changes| && changes[i].key == k ==>
               if changes[i].Removal? then current.None? else current.Some? && current.value.version >= changes[i].version
    ensures PageEffect(current, changes, k) == current
  {
    if changes != [] {
      var init := changes[..|changes| - 1];
      forall i | 0 <= i < |init| && init[i].key == k
        ensures if init[i].Removal? then current.None? else current.Some? && current.value.version >= init[i].version
      {
        assert init[i] == changes[i];
      }
      ReflectedStays(current, init, k);
    }
  }

  lemma {:induction false} AllReflected(current: Option<Entity>, changes: seq<Change>, k: Key, i: nat)
    requires Coherent(changes) && i < |changes| && changes[i].key == k
    ensures var result := PageEffect(current, changes, k);
            if changes[i].Removal? then result.None? else result.Some? && result.value.version >= changes[i].version
  {
    if changes[i].Removal? {
      AllRemoved(current, changes, k, i);
    } else {
      UpsertReflected(current, changes, k, i);
    }
  }

  lemma {:induction false} UpsertReflected(current: Option<Entity>, changes: seq<Change>, k: Key, i: nat)
    requires Coherent(changes) && i < |changes| && changes[i].key == k && changes[i].Upsert?
    ensures var result := PageEffect(current, changes, k);
            result.Some? && result.value.version >= changes[i].version
  {
    var init, last := changes[..|changes| - 1], changes[|changes| - 1];
    if i < |init| {
      assert init[i] == changes[i];
      UpsertReflected(current, init, k, i);
      if last.key == k { assert last.data == changes[i].data; }
    }
  }

  /** A page that was applied but not acknowledged can be applied again: the entity store does not move. */
  lemma PageIdempotent(c: Client, page: Page)
    requires Coherent(page.changes)
    ensures ApplyPage(ApplyPage(c, page), page).entities == ApplyPage(c, page).entities
  {
    var once := ApplyPage(c, page);
    forall k ensures Lookup(ApplyPage(once, page).entities, k) == Lookup(once.entities, k) {
      PageAt(c, page.changes, k);
      PageAt(once, page.changes, k);
      assert Held(once, k) == Held(ApplyChanges(c, page.changes), k);
      if Cacheable(k.kind) && !Held(c, k) {
        var result := Lookup(once.entities, k);
        forall i | 0 <= i < |page.changes| && page.changes[i].key == k
          ensures if page.changes[i].Removal? then result.None? else result.Some? && result.value.version >= page.changes[i].version
        {
          AllReflected(Lookup(c.entities, k), page.changes, k, i);
        }
        ReflectedStays(result, page.changes, k);
      }
    }
    SameMap(ApplyPage(once, page).entities, once.entities);
  }
}
