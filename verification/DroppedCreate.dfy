/** A run in which compaction drops a creation that the server knows of: an entity that is cached and live is created
    once more, as an import over a stale memory does, and deleted before the next push. Both edits vanish, and with
    them the cached copy; the cycles that follow never bring it back. */
module DroppedCreate {
  import opened Entities
  import opened OfflineClient
  import opened SyncServer
  import opened SyncMachine
  import opened RebuildRuns
  import LocalCycles
  import SnapshotHoles

  const K: Key := Key(Kind.Task, "t")
  const CREATE: Edit := Edit("m", K, Create, Some(0), "y", Some(Entity(0, "y")))
  const DELETE: Edit := Edit("n", K, Delete, Some(0), "{}", None)

  function Account(): (s: Server) {
    SnapshotHoles.Stock([K])
  }

  lemma AccountIs()
    ensures Consistent(Account()) && LastSequence(Account()) == 1
    ensures forall k :: View(Account(), k) == if k == K then Some(Entity(1, "x")) else None
    ensures forall k :: !HasAfter(Account(), k, 1)
  {
    SnapshotHoles.StockIs([K]);
    forall k ensures View(Account(), k) == if k == K then Some(Entity(1, "x")) else None { SnapshotHoles.StockView([K], k); }
    forall k ensures !HasAfter(Account(), k, 1) { LocalCycles.NothingAfterLast(Account(), k); }
  }

  const CACHED: Client := Client(map[K := Entity(1, "x")], map[], Some(1), 1)
  const CREATED: Client := Client(map[K := Entity(0, "y")], map["m" := NewRecord(CREATE, 1)], Some(1), 2)
  const EMPTIED: Client := Client(map[], map[], Some(1), 2)

  function Synced(phase: Phase): World {
    World(Account(), map[], CACHED, phase, {}, {}, map[], map[], {}, {})
  }

  function Created(): World {
    Synced(Idle).(client := CREATED, used := map["m" := K], minted := map[K := "m"])
  }

  function Emptied(phase: Phase): World {
    Synced(phase).(client := EMPTIED, used := map["m" := K, "n" := K], minted := map[K := "m"], dropped := {K})
  }

  const NOTHING: Page := Page([], 1, false)

  lemma NothingNew()
    ensures PageOf(Account(), 1, PAGE) == NOTHING
    ensures forall c: Client :: c.cursor == Some(1) ==> ApplyPage(c, NOTHING) == c
  {
    AccountIs();
    LocalCycles.NothingNew(Account(), 1);
  }

  lemma ReplacedIsCached()
    ensures View(Account(), K).Some? && SnapshotDone(Account(), LastSequence(Account()), Got(Account(), [K]))
    ensures Caught(Account(), Account(), [K], Pulling(true)) == Synced(Pulling(true))
  {
    AccountIs();
    var got, none: seq<(Key, Entity)> := Got(Account(), [K]), [];
    assert got == [(K, Entity(1, "x"))] && got[..0] == none;
    assert got[0] in got;
    assert PutAll(map[], got) == PutAll(map[], none)[K := Entity(1, "x")];
    forall k | View(Account(), k).Some? ensures k == K { }
    assert Unlisted(Account(), 1, got) == {};
  }

  lemma FirstCycle() returns (worlds: seq<World>, events: seq<Event>)
    ensures Sound(worlds, events) && worlds[|events|] == Synced(Idle)
  {
    ReplacedIsCached();
    AccountIs();
    worlds, events := ReadsAll(Account(), [K]);
    ReplaceStep(Account(), Account(), [K]);
    Extended(worlds, events, ReplaceAll([]), Synced(Pulling(true)));
    worlds, events := worlds + [Synced(Pulling(true))], events + [ReplaceAll([])];
    NothingNew();
    worlds, events := Pulls(worlds, events, Synced(Idle), true);
    Extended(worlds, events, FinishPush, Synced(Idle));
    worlds, events := worlds + [Synced(Idle)], events + [FinishPush];
  }

  /** A pull that finds nothing new. */
  lemma Pulls(worlds: seq<World>, events: seq<Event>, w: World, push: bool) returns (worlds': seq<World>, events': seq<Event>)
    requires Sound(worlds, events) && worlds[|events|] == w.(phase := Pulling(push))
    requires w.server == Account() && w.client.cursor == Some(1) && w.client.mutations == map[]
    ensures Sound(worlds', events') && CatchesUp(worlds', events')
    ensures worlds'[|events'|] == w.(phase := if push then Pushing([], false) else Idle)
  {
    NothingNew();
    var ready := w.(phase := PageReady(NOTHING, Account(), push));
    var done := w.(phase := if push then Pushing([], false) else Idle);
    Extended(worlds, events, ReadPage, ready);
    Extended(worlds + [ready], events + [ReadPage], ApplyReadPage([]), done);
    worlds', events' := worlds + [ready] + [done], events + [ReadPage] + [ApplyReadPage([])];
  }

  lemma CreateStep()
    ensures Next(Synced(Idle), EnqueueEdit(CREATE), Created())
  {
    assert PendingId(CACHED.mutations, K) == None;
  }

  lemma DeleteStep()
    ensures DropsLive(Created(), DELETE) && Next(Created(), EnqueueEdit(DELETE), Emptied(Idle))
  {
    AccountIs();
    assert PendingOn(CREATED.mutations["m"], K);
    assert PendingId(CREATED.mutations, K) == Some("m");
    var none: map<MutationId, Mutation> := map[];
    assert CREATED.mutations - {"m"} == none;
    var nothing: map<Key, Entity> := map[];
    assert CREATED.entities - {K} == nothing;
  }

  lemma PushNothing(w: World)
    requires w.phase == Idle && w.client.cursor.Some? && w.client.mutations == map[]
    ensures Next(w, StartPush([]), w.(phase := Pushing([], true)))
    ensures Next(w.(phase := Pushing([], true)), FinishPush, w.(phase := Pulling(false)))
  {
  }

  /** The client catches up with nothing queued, and lacks an entity that is live on the server and of which no entry
      is to come. */
  lemma DroppedCreateIsLost() returns (worlds: seq<World>, events: seq<Event>)
    ensures IsRun(worlds, events) && CatchesUp(worlds, events)
    ensures var w := worlds[|events|];
            && w.client.mutations == map[] && w.missed == {} && w.dropped == {K}
            && View(w.server, K).Some? && K !in w.client.entities && !HasAfter(w.server, K, w.client.cursor.value)
  {
    worlds, events := FirstCycle();
    CreateStep();
    Extended(worlds, events, EnqueueEdit(CREATE), Created());
    worlds, events := worlds + [Created()], events + [EnqueueEdit(CREATE)];
    DeleteStep();
    Extended(worlds, events, EnqueueEdit(DELETE), Emptied(Idle));
    worlds, events := worlds + [Emptied(Idle)], events + [EnqueueEdit(DELETE)];
    PushNothing(Emptied(Idle));
    Extended(worlds, events, StartPush([]), Emptied(Pushing([], true)));
    worlds, events := worlds + [Emptied(Pushing([], true))], events + [StartPush([])];
    Extended(worlds, events, FinishPush, Emptied(Pulling(false)));
    worlds, events := worlds + [Emptied(Pulling(false))], events + [FinishPush];
    worlds, events := Pulls(worlds, events, Emptied(Idle), false);
    SoundIsRun(worlds, events);
    AccountIs();
  }
}
