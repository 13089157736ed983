/** Runs of a rebuild that another device writes into: the first sync of a device without work of its own bootstraps,
    reads entities one by one, loses a race with one write, replaces its cache and catches up. */
module RebuildRuns {
  import opened Entities
  import opened OfflineClient
  import opened SyncServer
  import opened SyncMachine
  import opened Snapshot
  import opened SnapshotHoles

  function Unstarted(s: Server, client: Client, phase: Phase, missed: set<Key>): World {
    World(s, map[], client, phase, {}, {}, map[], map[], missed, {})
  }

  const NEW: Client := Client(map[], map[], None, 1)

  function Got(s: Server, read: seq<Key>): (r: seq<(Key, Entity)>)
    requires forall k :: k in read ==> View(s, k).Some?
    ensures |r| == |read| && forall i :: 0 <= i < |r| ==> r[i] == (read[i], View(s, read[i]).value)
  {
    seq(|read|, i requires 0 <= i < |read| => (read[i], View(s, read[i]).value))
  }

  function Reading(s: Server, read: seq<Key>): World
    requires forall k :: k in read ==> View(s, k).Some?
  {
    Unstarted(s, NEW, Snapshotting(LastSequence(s), Got(s, read), true), {})
  }

  ghost predicate StepAt(worlds: seq<World>, events: seq<Event>, i: nat)
    requires i < |events| < |worlds|
  {
    Next(worlds[i], events[i], worlds[i + 1])
  }

  ghost predicate Sound(worlds: seq<World>, events: seq<Event>) {
    && |worlds| == |events| + 1 && Initial(worlds[0])
    && forall i :: 0 <= i < |events| ==> StepAt(worlds, events, i)
  }

  lemma SoundIsRun(worlds: seq<World>, events: seq<Event>)
    requires Sound(worlds, events)
    ensures IsRun(worlds, events)
  {
    forall i | 0 <= i < |events| ensures Next(worlds[i], events[i], worlds[i + 1]) { assert StepAt(worlds, events, i); }
  }

  lemma Extended(worlds: seq<World>, events: seq<Event>, e: Event, w: World)
    requires Sound(worlds, events) && Next(worlds[|events|], e, w)
    ensures Sound(worlds + [w], events + [e]) && (worlds + [w])[|events| + 1] == w
  {
    var worlds', events' := worlds + [w], events + [e];
    forall i | 0 <= i < |events'| ensures StepAt(worlds', events', i) {
      if i < |events| { assert StepAt(worlds, events, i); }
    }
  }

  lemma StartsReading(s: Server)
    requires Consistent(s)
    ensures Initial(Unstarted(s, NEW, Idle, {}))
    ensures Next(Unstarted(s, NEW, Idle, {}), Bootstrap, Reading(s, []))
  {
  }

  lemma ReadsOne(s: Server, read: seq<Key>, k: Key)
    requires forall x :: x in read ==> View(s, x).Some?
    requires Cacheable(k.kind) && View(s, k).Some?
    ensures Next(Reading(s, read), ReadEntity(k), Reading(s, read + [k]))
  {
    assert Got(s, read + [k]) == Got(s, read) + [(k, View(s, k).value)];
  }

  lemma {:induction false} ReadsAll(s: Server, read: seq<Key>) returns (worlds: seq<World>, events: seq<Event>)
    requires Consistent(s) && forall k :: k in read ==> Cacheable(k.kind) && View(s, k).Some?
    ensures Sound(worlds, events) && worlds[|events|] == Reading(s, read)
  {
    if read == [] {
      worlds, events := [Unstarted(s, NEW, Idle, {}), Reading(s, [])], [Bootstrap];
      StartsReading(s);
    } else {
      var n := |read| - 1;
      assert read == read[..n] + [read[n]];
      worlds, events := ReadsAll(s, read[..n]);
      ReadsOne(s, read[..n], read[n]);
      Extended(worlds, events, ReadEntity(read[n]), Reading(s, read));
      worlds, events := worlds + [Reading(s, read)], events + [ReadEntity(read[n])];
    }
  }

  // ---------- the race, and the catch-up ----------

  function Raced(s: Server, g: Key, body: Body): Server {
    Commit(s, Put(g, body), LastSequence(s) + 1)
  }

  function Replaced(s: Server, read: seq<Key>): Client
    requires forall k :: k in read ==> View(s, k).Some?
  {
    NEW.(entities := PutAll(map[], Got(s, read)), cursor := Some(LastSequence(s)))
  }

  ghost function Caught(s: Server, s': Server, read: seq<Key>, phase: Phase): World
    requires forall k :: k in read ==> View(s, k).Some?
  {
    Unstarted(s', Replaced(s, read), phase, Unlisted(s', LastSequence(s), Got(s, read)))
  }

  lemma RacedGrows(s: Server, g: Key, body: Body)
    requires Consistent(s) && View(s, g).Some?
    ensures Consistent(Raced(s, g, body)) && |Raced(s, g, body).feed| == |s.feed| + 1
    ensures Raced(s, g, body).feed[|s.feed|].key == g && LastSequence(Raced(s, g, body)) == LastSequence(s) + 1
    ensures HasAfter(Raced(s, g, body), g, LastSequence(s))
    ensures forall k :: k != g ==> (k in Raced(s, g, body).rows <==> k in s.rows) && View(Raced(s, g, body), k) == View(s, k)
  {
    CommitConsistent(s, Put(g, body), LastSequence(s) + 1);
    var s' := Raced(s, g, body);
    assert s'.feed[|s.feed|].key == g && s'.feed[|s.feed|].sequence == LastSequence(s) + 1;
  }

  lemma RaceStep(s: Server, read: seq<Key>, g: Key, body: Body)
    requires Consistent(s) && View(s, g).Some? && forall k :: k in read ==> View(s, k).Some?
    ensures Next(Reading(s, read), OthersWrite([(Put(g, body), LastSequence(s) + 1)]), Reading(s, read).(server := Raced(s, g, body)))
  {
    var writes, none: seq<(Write, nat)> := [(Put(g, body), LastSequence(s) + 1)], [];
    assert writes[..0] == none;
    assert CanCommitAll(s, none) && CommitAll(s, none) == s;
  }

  lemma ReplaceStep(s: Server, s': Server, read: seq<Key>)
    requires forall k :: k in read ==> View(s, k).Some?
    requires SnapshotDone(s', LastSequence(s), Got(s, read))
    ensures Next(Reading(s, read).(server := s'), ReplaceAll([]), Caught(s, s', read, Pulling(true)))
  {
    assert Enumerates([], map[]);
  }

  /** The page after the bootstrap has the one new entry, and no successor. */
  lemma OneNewEntry(s: Server, g: Key, body: Body)
    requires Consistent(s) && View(s, g).Some?
    ensures var s' := Raced(s, g, body); var page := PageOf(s', LastSequence(s), PAGE);
            page.changes == [Resolve(s', s'.feed[|s.feed|])] && !page.hasMore
  {
    var s', n := Raced(s, g, body), |s.feed|;
    RacedGrows(s, g, body);
    FirstAfterSplits(s'.feed, LastSequence(s));
    assert n > 0 ==> s'.feed[n - 1].sequence == LastSequence(s);
    assert s'.feed[n].sequence > LastSequence(s);
    assert FirstAfter(s'.feed, LastSequence(s)) == n;
    assert s'.feed[n..n + 1] == [s'.feed[n]];
  }

  lemma PageMoves(c: Client, page: Page, change: Change)
    requires page.changes == [change] && c.mutations == map[]
    ensures ApplyPage(c, page).mutations == map[]
    ensures forall k :: k != change.key && k !in c.entities ==> k !in ApplyPage(c, page).entities
  {
    var nothing: seq<Change> := [];
    assert page.changes[..0] == nothing;
    assert ApplyChanges(c, nothing) == c;
    assert ApplyChanges(c, page.changes) == ApplyChange(c, change);
  }

  /** The rebuild and the catch-up complete, without any work queued. Whatever the snapshot did not list is then live
      on the server, among the missed, and absent from the cache. */
  lemma RebuildCompletes(s: Server, read: seq<Key>, g: Key, body: Body) returns (worlds: seq<World>, events: seq<Event>)
    requires Consistent(s) && Cacheable(g.kind) && View(s, g).Some?
    requires forall k :: k in read ==> Cacheable(k.kind) && View(s, k).Some?
    requires SnapshotDone(Raced(s, g, body), LastSequence(s), Got(s, read))
    ensures Sound(worlds, events) && CatchesUp(worlds, events) && exists i :: RebuildsWith(worlds, events, i, Got(s, read))
    ensures worlds[|events|].server == Raced(s, g, body) && worlds[|events|].client.mutations == map[]
    ensures forall k :: k in Unlisted(Raced(s, g, body), LastSequence(s), Got(s, read)) ==> IsMissed(worlds[|events|], k)
  {
    var s' := Raced(s, g, body);
    worlds, events := ReadsAll(s, read);
    RaceStep(s, read, g, body);
    Extended(worlds, events, OthersWrite([(Put(g, body), LastSequence(s) + 1)]), Reading(s, read).(server := s'));
    worlds, events := worlds + [Reading(s, read).(server := s')], events + [OthersWrite([(Put(g, body), LastSequence(s) + 1)])];
    ReplaceStep(s, s', read);
    Extended(worlds, events, ReplaceAll([]), Caught(s, s', read, Pulling(true)));
    var n := |events|;
    worlds, events := CatchUp(worlds + [Caught(s, s', read, Pulling(true))], events + [ReplaceAll([])], s, read, g, body);
    assert RebuildsWith(worlds, events, n, Got(s, read));
  }

  lemma CatchUp(worlds: seq<World>, events: seq<Event>, s: Server, read: seq<Key>, g: Key, body: Body)
    returns (worlds': seq<World>, events': seq<Event>)
    requires Consistent(s) && View(s, g).Some? && forall k :: k in read ==> View(s, k).Some?
    requires Sound(worlds, events) && worlds[|events|] == Caught(s, Raced(s, g, body), read, Pulling(true))
    ensures Sound(worlds', events') && CatchesUp(worlds', events') && worlds <= worlds' && events <= events'
    ensures worlds'[|events'|].server == Raced(s, g, body) && worlds'[|events'|].client.mutations == map[]
    ensures forall k :: k in Unlisted(Raced(s, g, body), LastSequence(s), Got(s, read)) ==> IsMissed(worlds'[|events'|], k)
  {
    var s', c := Raced(s, g, body), Replaced(s, read);
    var page := PageOf(s', LastSequence(s), PAGE);
    NewPageMoves(s, read, g, body, page);
    PullingSteps(s, s', read, page);
    var ready, done := Ready(s, s', read, page), Done(s, s', read, page);
    Extended(worlds, events, ReadPage, ready);
    Extended(worlds + [ready], events + [ReadPage], ApplyReadPage([]), done);
    worlds', events' := worlds + [ready] + [done], events + [ReadPage] + [ApplyReadPage([])];
    forall k | k in Unlisted(s', LastSequence(s), Got(s, read)) ensures IsMissed(done, k) {
      UnlistedStaysOut(s, s', read, g, k);
    }
  }

  ghost function Ready(s: Server, s': Server, read: seq<Key>, page: Page): World
    requires forall k :: k in read ==> View(s, k).Some?
  {
    Caught(s, s', read, PageReady(page, s', true))
  }

  ghost function Done(s: Server, s': Server, read: seq<Key>, page: Page): World
    requires forall k :: k in read ==> View(s, k).Some?
  {
    Ready(s, s', read, page).(client := ApplyPage(Replaced(s, read), page), phase := Pushing([], false))
  }

  lemma PullingSteps(s: Server, s': Server, read: seq<Key>, page: Page)
    requires forall k :: k in read ==> View(s, k).Some?
    requires page == PageOf(s', LastSequence(s), PAGE) && !page.hasMore && ApplyPage(Replaced(s, read), page).mutations == map[]
    ensures Next(Caught(s, s', read, Pulling(true)), ReadPage, Ready(s, s', read, page))
    ensures Next(Ready(s, s', read, page), ApplyReadPage([]), Done(s, s', read, page))
  {
  }

  lemma NewPageMoves(s: Server, read: seq<Key>, g: Key, body: Body, page: Page)
    requires Consistent(s) && View(s, g).Some? && forall k :: k in read ==> View(s, k).Some?
    requires page == PageOf(Raced(s, g, body), LastSequence(s), PAGE)
    ensures !page.hasMore && ApplyPage(Replaced(s, read), page).mutations == map[]
    ensures forall k :: k != g && k !in Replaced(s, read).entities ==> k !in ApplyPage(Replaced(s, read), page).entities
    ensures HasAfter(Raced(s, g, body), g, LastSequence(s))
  {
    RacedGrows(s, g, body);
    OneNewEntry(s, g, body);
    PageMoves(Replaced(s, read), page, page.changes[0]);
  }

  lemma UnlistedStaysOut(s: Server, s': Server, read: seq<Key>, g: Key, k: Key)
    requires forall x :: x in read ==> View(s, x).Some?
    requires k in Unlisted(s', LastSequence(s), Got(s, read)) && HasAfter(s', g, LastSequence(s))
    ensures k != g && View(s', k).Some? && k !in Replaced(s, read).entities
  {
    assert k !in PutAll(map[], Got(s, read));
  }

  /** The last step applies a page without a successor. */
  predicate CatchesUp(worlds: seq<World>, events: seq<Event>) {
    && |worlds| == |events| + 1 && events != [] && events[|events| - 1].ApplyReadPage?
    && worlds[|events| - 1].phase.PageReady? && !worlds[|events| - 1].phase.page.hasMore
  }

  /** The i-th step replaces the cache by this snapshot. */
  predicate RebuildsWith(worlds: seq<World>, events: seq<Event>, i: nat, got: seq<(Key, Entity)>) {
    i < |events| && i < |worlds| && events[i].ReplaceAll? && worlds[i].phase.Snapshotting? && worlds[i].phase.got == got
  }

  predicate IsMissed(w: World, k: Key) {
    View(w.server, k).Some? && k in w.missed && k !in w.client.entities
  }

  // ---------- the two holes ----------

  lemma GotIsRead(size: nat)
    requires size >= 1
    ensures forall k :: k in GotKeys(size) ==> Cacheable(k.kind) && k != Mover(size) && View(First(size), k).Some?
  {
    Servers(size);
    AccountIs(size);
    forall k | k in GotKeys(size) ensures Cacheable(k.kind) && k != Mover(size) && k in Account(size) {
      NamesHold(Goal, size, k);
      NamesHold(Goal, size + 1, k);
      NamesHold(Tag, TAG_LIMIT, k);
      NamesHold(Tag, TAG_LIMIT + 1, k);
    }
  }

  lemma KeysGot(size: nat)
    requires size >= 1 && forall k :: k in GotKeys(size) ==> View(First(size), k).Some?
    ensures (set x | x in Got(First(size), GotKeys(size)) :: x.0) == (set k | k in GotKeys(size))
  {
    var got := Got(First(size), GotKeys(size));
    forall k | k in GotKeys(size) ensures k in set x | x in got :: x.0 {
      var i :| 0 <= i < |got| && GotKeys(size)[i] == k;
      assert got[i] in got;
    }
  }

  lemma HoleGuard(size: nat, got: seq<(Key, Entity)>)
    requires size >= 1 && (set x | x in got :: x.0) == (set k | k in GotKeys(size))
    ensures SnapshotDone(Ended(size), LastSequence(First(size)), got)
    ensures MILESTONE in Unlisted(Ended(size), LastSequence(First(size)), got)
    ensures LAST_TAG in Unlisted(Ended(size), LastSequence(First(size)), got)
  {
    SnapshotHere(size);
    forall k ensures Hierarchy(ReadsOf(size), First(size), Ended(size), k) { HierarchyHere(size, k); }
    SnapshotMeetsGuard(ReadsOf(size), First(size), Ended(size), size, got);
    IsUnlisted(size, got, MILESTONE);
    IsUnlisted(size, got, LAST_TAG);
  }

  lemma IsUnlisted(size: nat, got: seq<(Key, Entity)>, k: Key)
    requires size >= 1 && (set x | x in got :: x.0) == (set k | k in GotKeys(size)) && (k == MILESTONE || k == LAST_TAG)
    ensures k in Unlisted(Ended(size), LastSequence(First(size)), got)
  {
    Servers(size);
    AccountIs(size);
    OnlyMoverWritten(size, k);
    assert Names(Tag, TAG_LIMIT + 1)[TAG_LIMIT] == LAST_TAG;
    NamesHold(Tag, TAG_LIMIT, k);
    assert k !in GotKeys(size) && k in Account(size);
    var keys := set x | x in got :: x.0;
    assert k !in keys;
    forall x | x in got ensures x.0 != k { assert x.0 in keys; }
  }

  lemma Racing(size: nat)
    ensures Consistent(First(size)) && View(First(size), Mover(size)).Some?
    ensures Raced(First(size), Mover(size), "y") == Ended(size)
  {
    Servers(size);
    MoverIsLive(size);
  }

  lemma HoleRun(size: nat) returns (worlds: seq<World>, events: seq<Event>, got: seq<(Key, Entity)>)
    requires size >= 1
    ensures Sound(worlds, events) && CatchesUp(worlds, events) && exists i :: RebuildsWith(worlds, events, i, got)
    ensures (set x | x in got :: x.0) == (set k | k in GotKeys(size))
    ensures worlds[|events|].server == Ended(size) && worlds[|events|].client.mutations == map[]
    ensures IsMissed(worlds[|events|], MILESTONE) && IsMissed(worlds[|events|], LAST_TAG)
  {
    GotIsRead(size);
    got := Got(First(size), GotKeys(size));
    KeysGot(size);
    HoleGuard(size, got);
    Racing(size);
    worlds, events := RebuildCompletes(First(size), GotKeys(size), Mover(size), "y");
  }

  /** For every page size there is a run with a snapshot read as the rebuild reads it, in which the last page has been
      applied and nothing is queued, and yet a milestone whose goal was updated between two pages, and a tag behind
      the first 500, are live on the server and absent from the cache. */
  lemma HolesInRun(size: nat) returns (worlds: seq<World>, events: seq<Event>, r: Reads, got: seq<(Key, Entity)>)
    requires size >= 1
    ensures IsRun(worlds, events) && CatchesUp(worlds, events)
    ensures SnapshotOf(r, First(size), worlds[|events|].server, size, set x | x in got :: x.0)
    ensures exists i :: RebuildsWith(worlds, events, i, got)
    ensures worlds[|events|].client.mutations == map[]
    ensures IsMissed(worlds[|events|], MILESTONE) && IsMissed(worlds[|events|], LAST_TAG)
  {
    worlds, events, got := HoleRun(size);
    SoundIsRun(worlds, events);
    r := ReadsOf(size);
    SnapshotHere(size);
  }
}
