/** Applying a feed page, and rebuilding from a snapshot, keep the protocol invariant. */
module PullSteps {
  import opened Entities
  import opened OfflineClient
  import opened SyncServer
  import opened SyncMachine
  import opened SyncInvariant
  import ClientSteps
  import PullPages

  // ---------- what a page does to the records ----------

  /** A change never adds, drops or rekeys a record; it settles every non-rejected record it meets as a conflict. */
  lemma ChangeRecords(c: Client, change: Change)
    requires Keyed(c.mutations)
    ensures var c' := ApplyChange(c, change);
            && Keyed(c'.mutations) && c'.mutations.Keys == c.mutations.Keys
            && c'.cursor == c.cursor && c'.nextSequence == c.nextSequence
            && (forall id :: id in c.mutations ==>
                  && c'.mutations[id].key == c.mutations[id].key
                  && (c'.mutations[id].status == Pending ==> c'.mutations[id] == c.mutations[id])
                  && (Cacheable(change.key.kind) && change.key == c.mutations[id].key ==> c'.mutations[id].status != Pending))
  {
  }

  lemma {:induction false} PageRecords(c: Client, changes: seq<Change>)
    requires Keyed(c.mutations)
    ensures var c' := ApplyChanges(c, changes);
            && Keyed(c'.mutations) && c'.mutations.Keys == c.mutations.Keys
            && c'.cursor == c.cursor && c'.nextSequence == c.nextSequence
            && (forall id :: id in c.mutations ==>
                  && c'.mutations[id].key == c.mutations[id].key
                  && (c'.mutations[id].status == Pending ==> c'.mutations[id] == c.mutations[id])
                  && ((exists change :: change in changes && Cacheable(change.key.kind) && change.key == c.mutations[id].key) ==>
                        c'.mutations[id].status != Pending))
  {
    if changes != [] {
      var init, last := changes[..|changes| - 1], changes[|changes| - 1];
      assert changes == init + [last];
      PageRecords(c, init);
      ChangeRecords(ApplyChanges(c, init), last);
    }
  }

  lemma PageRecordFree(c: Client, changes: seq<Change>, k: Key)
    requires Keyed(c.mutations)
    ensures RecordFree(ApplyChanges(c, changes), k) <==> RecordFree(c, k)
  {
    PageRecords(c, changes);
    var c' := ApplyChanges(c, changes);
    if RecordFree(c', k) {
      forall id | id in c.mutations ensures c.mutations[id].key != k { assert c'.mutations[id].key == c.mutations[id].key; }
    }
  }

  // ---------- what a page does to one entity ----------

  /** The last feed entry about k after a cursor. */
  lemma {:induction false} LastEntry(s: Server, k: Key, from: nat) returns (i: nat)
    requires from < |s.feed| && s.feed[from].key == k
    ensures from <= i < |s.feed| && s.feed[i].key == k && Latest(s.feed, i)
    decreases |s.feed| - from
  {
    if j :| from < j < |s.feed| && s.feed[j].key == k {
      i := LastEntry(s, k, j);
    } else {
      i := from;
    }
  }

  /** A truthful copy stays truthful, and the entry that carries the current version makes it the current view. */
  lemma EffectOfEntry(s: Server, i: nat, cur: Option<Entity>)
    requires Consistent(s) && i < |s.feed| && Cacheable(s.feed[i].key.kind) && Faithful(s, s.feed[i].key, cur)
    ensures var cur' := PullPages.Effect(cur, Resolve(s, s.feed[i]));
            && Faithful(s, s.feed[i].key, cur')
            && (Latest(s.feed, i) ==> cur' == View(s, s.feed[i].key))
  {
    assert Grounded(s.rows, s.feed[i]);
  }

  /** The copy of k after the entries from..to of the feed, resolved, have been applied. */
  function EffectOf(s: Server, cur: Option<Entity>, k: Key, from: nat, to: nat): Option<Entity>
    requires from <= to <= |s.feed|
  {
    if from == to then cur
    else
      var before := EffectOf(s, cur, k, from, to - 1);
      if s.feed[to - 1].key == k then PullPages.Effect(before, Resolve(s, s.feed[to - 1])) else before
  }

  lemma PageEffectOneMore(s: Server, cur: Option<Entity>, k: Key, entries: seq<FeedEntry>, last: FeedEntry)
    ensures PullPages.PageEffect(cur, ResolveAll(s, entries + [last]), k)
            == var before := PullPages.PageEffect(cur, ResolveAll(s, entries), k);
               if last.key == k then PullPages.Effect(before, Resolve(s, last)) else before
  {
    var all := ResolveAll(s, entries + [last]);
    assert (entries + [last])[..|entries|] == entries;
    assert all == ResolveAll(s, entries) + [Resolve(s, last)];
    assert all[..|all| - 1] == ResolveAll(s, entries);
  }

  lemma {:induction false} EffectOfIs(s: Server, cur: Option<Entity>, k: Key, from: nat, to: nat)
    requires from <= to <= |s.feed|
    ensures EffectOf(s, cur, k, from, to) == PullPages.PageEffect(cur, ResolveAll(s, s.feed[from..to]), k)
  {
    if from < to {
      EffectOfIs(s, cur, k, from, to - 1);
      SliceOneMore(s.feed, from, to);
      PageEffectOneMore(s, cur, k, s.feed[from..to - 1], s.feed[to - 1]);
    }
  }

  lemma SliceOneMore(feed: seq<FeedEntry>, from: nat, to: nat)
    requires from < to <= |feed|
    ensures feed[from..to] == feed[from..to - 1] + [feed[to - 1]]
  {
  }

  lemma {:induction false} EffectOfFaithful(s: Server, cur: Option<Entity>, k: Key, from: nat, to: nat, tip: nat)
    requires Consistent(s) && Cacheable(k.kind) && Faithful(s, k, cur)
    requires from <= to <= |s.feed| && tip < |s.feed| && s.feed[tip].key == k && Latest(s.feed, tip)
    ensures Faithful(s, k, EffectOf(s, cur, k, from, to))
    ensures from <= tip < to ==> EffectOf(s, cur, k, from, to) == View(s, k)
  {
    if from < to {
      EffectOfFaithful(s, cur, k, from, to - 1, tip);
      if s.feed[to - 1].key == k {
        EffectOfEntry(s, to - 1, EffectOf(s, cur, k, from, to - 1));
      }
    }
  }

  lemma {:induction false} EffectOfNothing(s: Server, cur: Option<Entity>, k: Key, from: nat, to: nat)
    requires from <= to <= |s.feed| && forall i :: from <= i < to ==> s.feed[i].key != k
    ensures EffectOf(s, cur, k, from, to) == cur
  {
    if from < to { EffectOfNothing(s, cur, k, from, to - 1); }
  }

  /** What a page does to a record-free entity. */
  lemma PageEffectAt(at: Server, c: Client, k: Key, cursor: nat)
    requires RecordFree(c, k) && Cacheable(k.kind)
    ensures Lookup(ApplyPage(c, PageOf(at, cursor, PAGE)).entities, k)
            == EffectOf(at, Lookup(c.entities, k), k, FirstAfter(at.feed, cursor), PageEnd(at, cursor, PAGE))
  {
    PullPages.PageAt(c, PageOf(at, cursor, PAGE).changes, k);
    EffectOfIs(at, Lookup(c.entities, k), k, FirstAfter(at.feed, cursor), PageEnd(at, cursor, PAGE));
  }

  lemma PageTouches(at: Server, c: Client, k: Key, cursor: nat, from: nat)
    requires Consistent(at) && RecordFree(c, k) && Cacheable(k.kind)
    requires Faithful(at, k, Lookup(c.entities, k))
    requires from < |at.feed| && at.feed[from].key == k && at.feed[from].sequence > cursor
    ensures var page := PageOf(at, cursor, PAGE);
            && Faithful(at, k, Lookup(ApplyPage(c, page).entities, k))
            && (HasAfter(at, k, page.next) || Lookup(ApplyPage(c, page).entities, k) == View(at, k))
  {
    var page := PageOf(at, cursor, PAGE);
    var tip := LastEntry(at, k, from);
    PageEffectAt(at, c, k, cursor);
    EffectOfFaithful(at, Lookup(c.entities, k), k, FirstAfter(at.feed, cursor), PageEnd(at, cursor, PAGE), tip);
    assert at.feed[tip].sequence >= at.feed[from].sequence;
    if at.feed[tip].sequence <= page.next {
      PageHasAll(at, cursor, PAGE, tip);
    }
  }

  lemma PageSkips(at: Server, c: Client, k: Key, cursor: nat)
    requires Ordered(at.feed) && RecordFree(c, k) && Cacheable(k.kind)
    requires !HasAfter(at, k, cursor)
    ensures Lookup(ApplyPage(c, PageOf(at, cursor, PAGE)).entities, k) == Lookup(c.entities, k)
  {
    FirstAfterSplits(at.feed, cursor);
    PageEffectAt(at, c, k, cursor);
    EffectOfNothing(at, Lookup(c.entities, k), k, FirstAfter(at.feed, cursor), PageEnd(at, cursor, PAGE));
  }

  /** After the page, a record-free entity is faithful, and current unless a later entry about it exists. */
  lemma PageAt(at: Server, c: Client, k: Key, missed: set<Key>)
    requires Consistent(at) && Keyed(c.mutations) && RecordFree(c, k) && Cacheable(k.kind)
    requires c.cursor.Some? && ViewOK(c, at, missed, k) && Faithful(at, k, Lookup(c.entities, k))
    ensures var page := PageOf(at, c.cursor.value, PAGE);
            && Faithful(at, k, Lookup(ApplyPage(c, page).entities, k))
            && ViewOK(ApplyPage(c, page), at, missed, k)
  {
    var cursor := c.cursor.value;
    if HasAfter(at, k, cursor) {
      var from :| 0 <= from < |at.feed| && at.feed[from].key == k && at.feed[from].sequence > cursor;
      PageTouches(at, c, k, cursor, from);
    } else {
      PageSkips(at, c, k, cursor);
    }
  }

  lemma ApplyPageViews(w: World)
    requires Inv(w) && w.phase.PageReady?
    ensures var c' := ApplyPage(w.client, w.phase.page);
            && Views(c', w.phase.at, Lost(w)) && Copies(c', w.phase.at)
  {
    var c, c', at := w.client, ApplyPage(w.client, w.phase.page), w.phase.at;
    forall k ensures ViewOK(c', at, Lost(w), k) {
      PageRecordFree(c, w.phase.page.changes, k);
      if Cacheable(k.kind) && RecordFree(c, k) {
        assert ViewOK(c, at, Lost(w), k);
        PageAt(at, c, k, Lost(w));
      }
    }
    forall k | RecordFree(c', k) ensures Faithful(at, k, Lookup(c'.entities, k)) {
      PageRecordFree(c, w.phase.page.changes, k);
      if Cacheable(k.kind) {
        assert ViewOK(c, at, Lost(w), k);
        PageAt(at, c, k, Lost(w));
      } else {
        UncacheableUntouched(c, w.phase.page.changes, k);
      }
    }
  }

  lemma {:induction false} UncacheableUntouched(c: Client, changes: seq<Change>, k: Key)
    requires !Cacheable(k.kind)
    ensures Lookup(ApplyChanges(c, changes).entities, k) == Lookup(c.entities, k)
  {
    if changes != [] { UncacheableUntouched(c, changes[..|changes| - 1], k); }
  }

  // ---------- the steps ----------

  /** In a quiet phase no pending record was ever sent; this survives any step that keeps pending records as they are. */
  lemma QuietStep(w: World, w': World)
    requires Inv(w) && Quiet(w.phase)
    requires w'.server == w.server && w'.sent == w.sent && w'.replies == w.replies
    requires Keyed(w'.client.mutations)
    requires forall id :: id in w'.client.mutations && w'.client.mutations[id].status == Pending ==>
               id in w.client.mutations && w'.client.mutations[id] == w.client.mutations[id]
    requires forall m :: Captured(w'.phase, m) ==>
               m.id in w'.client.mutations && w'.client.mutations[m.id] == m && m.status == Pending
    ensures OpenRepliesAhead(w') && PendingTracked(w')
  {
    forall id | id in w'.client.mutations && w'.client.mutations[id].status == Pending
      ensures !IsSent(w', id)
    {
      assert IsSent(w', id) <==> IsSent(w, id);
    }
    forall r | r in w'.replies ensures !Open(w', r.item.id) {
      assert r.item in w'.sent;
      assert IsSent(w', r.item.id);
    }
  }

  lemma ReadPageKeeps(w: World, w': World)
    requires Inv(w) && Next(w, ReadPage, w')
    ensures Inv(w')
  {
    ReadPageOK(w, w');
    QuietStep(w, w');
  }

  lemma ReadPageOK(w: World, w': World)
    requires Inv(w) && Next(w, ReadPage, w')
    ensures PageOK(w')
  {
    ExtendsRefl(w.server);
  }

  lemma ApplyReadPageKeeps(w: World, queue: seq<Mutation>, w': World)
    requires Inv(w) && Next(w, ApplyReadPage(queue), w')
    ensures Inv(w')
    ensures Views(w'.client, w.phase.at, Lost(w'))
  {
    PageRecords(w.client, w.phase.page.changes);
    AppliedPageViews(w, queue, w');
    LastSequenceGrows(w.phase.at, w.server);
    QuietStep(w, w');
  }

  lemma AppliedPageViews(w: World, queue: seq<Mutation>, w': World)
    requires Inv(w) && Next(w, ApplyReadPage(queue), w')
    ensures Views(w'.client, w.phase.at, Lost(w')) && Views(w'.client, w'.server, Lost(w')) && Copies(w'.client, w'.server)
    ensures w'.client.cursor.Some? && w'.client.cursor.value <= LastSequence(w.phase.at)
  {
    var at := w.phase.at;
    ApplyPageViews(w);
    PageBounds(at, w.client.cursor.value, PAGE);
    ViewsGrow(w'.client, at, w.server, Lost(w));
    CopiesGrow(w'.client, at, w.server);
  }

  lemma BootstrapKeeps(w: World, w': World)
    requires Inv(w) && Next(w, Bootstrap, w')
    ensures Inv(w')
  {
    if Quiet(w.phase) {
      QuietStep(w, w');
    } else {
      ClientSteps.SamePending(w, w');
      assert PendingTracked(w');
    }
  }

  lemma ReadEntityKeeps(w: World, k: Key, w': World)
    requires Inv(w) && Next(w, ReadEntity(k), w')
    ensures Inv(w')
  {
    QuietStep(w, w');
  }

  lemma FailKeeps(w: World, w': World)
    requires Inv(w) && Next(w, Fail, w')
    ensures Inv(w')
  {
    ClientSteps.SamePending(w, w');
    assert PendingTracked(w');
  }

  // ---------- rebuild ----------

  /** The overlay leaves entities without a record as the snapshot has them. */
  lemma {:induction false} OverlayUntouched(entities: map<Key, Entity>, order: seq<Mutation>, k: Key)
    requires forall m :: m in order ==> m.key != k
    ensures Lookup(Overlay(entities, order), k) == Lookup(entities, k)
  {
    if order != [] { OverlayUntouched(entities, order[..|order| - 1], k); }
  }

  lemma ReplaceAt(w: World, order: seq<Mutation>, k: Key)
    requires Inv(w) && w.phase.Snapshotting? && Enumerates(order, w.client.mutations)
    requires SnapshotDone(w.server, w.phase.boot, w.phase.got) && RecordFree(w.client, k)
    ensures var c' := Replace(w.client, w.phase.boot, w.phase.got, order);
            && Faithful(w.server, k, Lookup(c'.entities, k))
            && ViewOK(c', w.server, Unlisted(w.server, w.phase.boot, w.phase.got), k)
  {
    var s, boot, got := w.server, w.phase.boot, w.phase.got;
    var put := PutAll(map[], got);
    var c' := Replace(w.client, boot, got, order);
    OverlayUntouched(put, order, k);
    assert Lookup(c'.entities, k) == Lookup(put, k);
    if k in put {
      assert (k, put[k]) in got;
      assert Historical(s, k, put[k]) && (HasAfter(s, k, boot) || View(s, k) == Some(put[k]));
    } else {
      assert forall x :: x in got ==> x.0 != k;
      if Cacheable(k.kind) && View(s, k).Some? && !HasAfter(s, k, boot) {
        assert Leaky(k.kind);
        assert k in Unlisted(s, boot, got);
      }
    }
  }

  lemma ReplaceAllKeeps(w: World, order: seq<Mutation>, w': World)
    requires Inv(w) && Next(w, ReplaceAll(order), w')
    ensures Inv(w')
  {
    forall k ensures ViewOK(w'.client, w'.server, Lost(w'), k) {
      if RecordFree(w'.client, k) { ReplaceAt(w, order, k); }
    }
    forall k | RecordFree(w'.client, k) ensures Faithful(w'.server, k, Lookup(w'.client.entities, k)) {
      ReplaceAt(w, order, k);
    }
    QuietStep(w, w');
  }
}
