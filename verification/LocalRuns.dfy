/** Runs of one device that is alone on its account. A task is created offline, the first sync bootstraps and pushes
    it, and the reply is lost. If nothing else happens, the next cycle repairs everything. If the guard of the
    refinement is broken at a single step, a cycle completes and leaves a record behind. */
module LocalRuns {
  import opened Entities
  import opened OfflineClient
  import opened SyncServer
  import opened SyncMachine
  import opened SyncInvariant
  import opened LocalFirst
  import opened OnceByVersion
  import PullSteps

  const K: Key := Key(Kind.Task, "t")
  const M: Mutation := Mutation("m", 1, K, Create, 0, "x", Some(Entity(0, "x")), Pending, 0, None, None, None)
  const EDIT: Edit := Edit("m", K, Create, Some(0), "x", Some(Entity(0, "x")))
  const OUTCOME: Outcome := Success([(K, Entity(1, "x"))])

  const EMPTY: Server := Server(map[], [])
  const FULL: Server := Server(map[K := Row(["x"], false)], [FeedEntry(1, K, Create, 1)])

  const OFFLINE: Client := Client(map[K := Entity(0, "x")], map["m" := M], None, 2)
  const BOOTED: Client := OFFLINE.(cursor := Some(0))
  const SYNCED: Client := Client(map[K := Entity(1, "x")], map[], Some(0), 2)

  const NOTHING: Page := Page([], 0, false)
  const ONE: Page := Page([Upsert(1, K, 1, Entity(1, "x"))], 1, false)

  const START: Local := Local(World(EMPTY, map[], Client(map[], map[], None, 1), Idle, {}, {}, map[], map[], {}, {}), map[], map[])

  function Started(client: Client, phase: Phase): Local {
    Local(World(EMPTY, map[], client, phase, {}, {}, map["m" := K], map[K := "m"], {}, {}), map[K := "x"], map[K := Entity(0, "x")])
  }

  function Sent(): Local {
    var l := Started(BOOTED, Awaiting([M], [], false));
    l.(w := l.w.(sent := {Outbound(M)}))
  }

  function Executed(): Local {
    var done := Reply(Outbound(M), OUTCOME);
    Sent().(w := Sent().w.(server := FULL, claims := map["m" := done], replies := {done}))
  }

  function InPhase(l: Local, phase: Phase): Local {
    l.(w := l.w.(phase := phase))
  }

  // ---------- runs ----------

  datatype Run = Run(locals: seq<Local>, events: seq<Event>)

  function Last(r: Run): Local
    requires r.locals != []
  {
    r.locals[|r.locals| - 1]
  }

  function Then(r: Run, e: Event, l: Local): Run {
    Run(r.locals + [l], r.events + [e])
  }

  ghost predicate StepOK(r: Run, n: nat, i: nat)
    requires i < |r.events| < |r.locals|
  {
    Possible(r.locals[i], r.events[i], r.locals[i + 1]) && (Guarded(r.locals[i], r.events[i], r.locals[i + 1]) <==> i != n)
  }

  /** A possible run that keeps the guard at every step but the n-th, and breaks it there. */
  ghost predicate GuardedBut(r: Run, n: nat) {
    && |r.locals| == |r.events| + 1 && LocalInitial(r.locals[0])
    && forall i :: 0 <= i < |r.events| ==> StepOK(r, n, i)
  }

  lemma GuardKept(r: Run, n: nat)
    requires GuardedBut(r, n) && n >= |r.events|
    ensures IsLocalRun(r.locals, r.events)
  {
    forall i | 0 <= i < |r.events| ensures LocalNext(r.locals[i], r.events[i], r.locals[i + 1]) { assert StepOK(r, n, i); }
  }

  /** The last step completes a cycle. */
  ghost predicate EndsCycle(r: Run) {
    && |r.locals| == |r.events| + 1 && r.events != []
    && Completes(r.locals[|r.events| - 1].w, r.events[|r.events| - 1])
  }

  lemma Steps(r: Run, n: nat, e: Event, l: Local)
    requires GuardedBut(r, n) && Possible(Last(r), e, l) && (Guarded(Last(r), e, l) <==> |r.events| != n)
    ensures GuardedBut(Then(r, e, l), n) && Last(Then(r, e, l)) == l
  {
    var r' := Then(r, e, l);
    forall i | 0 <= i < |r'.events| ensures StepOK(r', n, i) {
      if i < |r.events| { assert StepOK(r, n, i); }
    }
  }

  ghost predicate Continues(r: Run, r': Run) {
    r.events <= r'.events
  }

  /** The n-th step is not among the next ones. */
  predicate Clear(r: Run, n: nat, next: nat) {
    n < |r.events| || n >= |r.events| + next
  }

  // ---------- the common beginning ----------

  lemma EditStep()
    ensures LocalNext(START, EnqueueEdit(EDIT), Started(OFFLINE, Idle))
  {
    assert PendingId(START.w.client.mutations, K) == None;
    assert NewRecord(EDIT, 1) == M;
  }

  lemma RebuildSteps()
    ensures LocalNext(Started(OFFLINE, Idle), Bootstrap, Started(OFFLINE, Snapshotting(0, [], true)))
    ensures LocalNext(Started(OFFLINE, Snapshotting(0, [], true)), ReplaceAll([M]), Started(BOOTED, Pulling(true)))
  {
    var none: seq<Mutation> := [];
    assert [M][..0] == none;
    assert Overlay(PutAll(map[], []), [M]) == Touch(Overlay(PutAll(map[], []), none), Create, K, Some(Entity(0, "x")));
    assert M in [M];
    assert Unlisted(EMPTY, 0, []) == {};
  }

  lemma FirstPullSteps()
    ensures LocalNext(Started(BOOTED, Pulling(true)), ReadPage, Started(BOOTED, PageReady(NOTHING, EMPTY, true)))
    ensures LocalNext(Started(BOOTED, PageReady(NOTHING, EMPTY, true)), ApplyReadPage([M]), Started(BOOTED, Pushing([M], false)))
  {
    assert PageOf(EMPTY, 0, PAGE) == NOTHING;
    assert M in [M];
    assert IsQueue(BOOTED, [M]);
  }

  lemma SendStep(l: Local, m: Mutation, pullAfter: bool)
    requires l.w.phase == Pushing([m], pullAfter)
    ensures LocalNext(l, SendBatch, l.(w := l.w.(phase := Awaiting([m], [], pullAfter), sent := l.w.sent + {Outbound(m)})))
  {
    assert BatchSize([m]) == 1 && [m][..1] == [m] && [m][1..] == [];
    assert Outbounds([m]) == {Outbound(m)};
  }

  lemma CommittedIsFull()
    ensures var writes := [(Put(K, "x"), 1)];
            && CommitAll(EMPTY, writes) == FULL && CanCommitAll(EMPTY, writes) && Written(writes, K)
  {
    var writes, none: seq<(Write, nat)> := [(Put(K, "x"), 1)], [];
    assert writes[..0] == none;
    assert CanCommitAll(EMPTY, none) && CommitAll(EMPTY, none) == EMPTY;
    assert writes[0] in writes;
    var log: seq<Body> := [];
    assert WrittenRow(EMPTY, Put(K, "x")) == Row(log + ["x"], false) == Row(["x"], false);
    assert Commit(EMPTY, Put(K, "x"), 1) == FULL;
    SingleWrite(EMPTY, writes);
  }

  lemma ExecuteStep()
    ensures LocalNext(Sent(), Execute(Outbound(M), OUTCOME, [(Put(K, "x"), 1)]), Executed())
  {
    var writes, none: seq<(Write, nat)> := [(Put(K, "x"), 1)], [];
    CommittedIsFull();
    assert writes[1..] == none;
    assert View(FULL, K) == Some(Entity(1, "x"));
    assert OUTCOME.entities[0] in OUTCOME.entities;
  }

  lemma Rebuilt(n: nat) returns (r: Run)
    requires n >= 8
    ensures GuardedBut(r, n) && |r.events| == 3 && Last(r) == Started(BOOTED, Pulling(true))
  {
    r := Run([START], []);
    EditStep();
    Steps(r, n, EnqueueEdit(EDIT), Started(OFFLINE, Idle));
    r := Then(r, EnqueueEdit(EDIT), Started(OFFLINE, Idle));
    RebuildSteps();
    Steps(r, n, Bootstrap, Started(OFFLINE, Snapshotting(0, [], true)));
    r := Then(r, Bootstrap, Started(OFFLINE, Snapshotting(0, [], true)));
    Steps(r, n, ReplaceAll([M]), Started(BOOTED, Pulling(true)));
    r := Then(r, ReplaceAll([M]), Started(BOOTED, Pulling(true)));
  }

  lemma Begun(n: nat) returns (r: Run)
    requires n >= 8
    ensures GuardedBut(r, n) && |r.events| == 5 && Last(r) == Started(BOOTED, Pushing([M], false))
  {
    r := Rebuilt(n);
    FirstPullSteps();
    Steps(r, n, ReadPage, Started(BOOTED, PageReady(NOTHING, EMPTY, true)));
    r := Then(r, ReadPage, Started(BOOTED, PageReady(NOTHING, EMPTY, true)));
    Steps(r, n, ApplyReadPage([M]), Started(BOOTED, Pushing([M], false)));
    r := Then(r, ApplyReadPage([M]), Started(BOOTED, Pushing([M], false)));
  }

  /** Created offline, bootstrapped, pushed and executed; the reply is lost, and the cycle fails. */
  lemma ReplyIsLost(n: nat) returns (r: Run)
    requires n >= 8
    ensures GuardedBut(r, n) && |r.events| == 8 && r.events[7] == Fail && Last(r) == InPhase(Executed(), Idle)
  {
    r := Begun(n);
    SendStep(Last(r), M, false);
    Steps(r, n, SendBatch, Sent());
    r := Then(r, SendBatch, Sent());
    ExecuteStep();
    Steps(r, n, Execute(Outbound(M), OUTCOME, [(Put(K, "x"), 1)]), Executed());
    r := Then(r, Execute(Outbound(M), OUTCOME, [(Put(K, "x"), 1)]), Executed());
    Steps(r, n, Fail, InPhase(Executed(), Idle));
    r := Then(r, Fail, InPhase(Executed(), Idle));
  }

  // ---------- the next cycle ----------

  lemma SentAgain(r: Run, n: nat, m: Mutation) returns (r': Run)
    requires GuardedBut(r, n) && Clear(r, n, 2)
    requires Last(r).w.phase == Idle && Last(r).w.client.cursor.Some?
    requires m.status == Pending && Last(r).w.client.mutations == map[m.id := m]
    ensures GuardedBut(r', n) && |r'.events| == |r.events| + 2 && Continues(r, r')
    ensures Last(r') == Last(r).(w := Last(r).w.(phase := Awaiting([m], [], true), sent := Last(r).w.sent + {Outbound(m)}))
  {
    var l := InPhase(Last(r), Pushing([m], true));
    assert IsQueue(Last(r).w.client, [m]) by { assert m in [m]; }
    Steps(r, n, StartPush([m]), l);
    r' := Then(r, StartPush([m]), l);
    SendStep(l, m, true);
    var sent := l.(w := l.w.(phase := Awaiting([m], [], true), sent := l.w.sent + {Outbound(m)}));
    Steps(r', n, SendBatch, sent);
    r' := Then(r', SendBatch, sent);
  }

  lemma SettlesOne(c: Client, m: Mutation, outcome: Outcome)
    ensures Settle(c, [m], map[m.id := outcome]) == SettleOne(c, m, outcome)
  {
    var none: seq<Mutation> := [];
    assert [m][..0] == none;
    assert Settle(c, none, map[m.id := outcome]) == c;
  }

  lemma PageIsOne()
    ensures PageOf(FULL, 0, PAGE) == ONE
  {
    var none: seq<FeedEntry> := [];
    assert FirstAfter(FULL.feed, 0) == 0;
    assert FULL.feed[0..1] == FULL.feed && FULL.feed[..0] == none;
    assert ResolveAll(FULL, FULL.feed) == ResolveAll(FULL, none) + [Resolve(FULL, FULL.feed[0])];
  }

  lemma OneIsApplied(c: Client)
    ensures ApplyPage(c, ONE) == ApplyChange(c, ONE.changes[0]).(cursor := Some(1))
  {
    var nothing: seq<Change> := [];
    assert ONE.changes[..0] == nothing;
    assert ApplyChanges(c, ONE.changes) == ApplyChange(ApplyChanges(c, nothing), ONE.changes[0]);
  }

  /** The answer is settled, and the push is over. */
  lemma Answered(r: Run, n: nat, m: Mutation, outcome: Outcome) returns (r': Run)
    requires GuardedBut(r, n) && Clear(r, n, 2)
    requires Last(r).w.phase == Awaiting([m], [], true) && Reply(Outbound(m), outcome) in Last(r).w.replies
    ensures GuardedBut(r', n) && |r'.events| == |r.events| + 2 && Continues(r, r')
    ensures Last(r') == Last(r).(w := Last(r).w.(client := SettleOne(Last(r).w.client, m, outcome), phase := Pulling(false)))
  {
    var l := Last(r).(w := Last(r).w.(client := SettleOne(Last(r).w.client, m, outcome), phase := Pushing([], true)));
    SettlesOne(Last(r).w.client, m, outcome);
    Steps(r, n, SettleBatch(map[m.id := outcome]), l);
    r' := Then(r, SettleBatch(map[m.id := outcome]), l);
    Steps(r', n, FinishPush, InPhase(l, Pulling(false)));
    r' := Then(r', FinishPush, InPhase(l, Pulling(false)));
  }

  /** The page with the task is read and applied, which completes the cycle. */
  lemma Pulled(r: Run, n: nat) returns (r': Run)
    requires GuardedBut(r, n) && Clear(r, n, 2)
    requires Last(r).w.phase == Pulling(false) && Last(r).w.server == FULL && Last(r).w.client.cursor == Some(0)
    requires IsQueue(ApplyPage(Last(r).w.client, ONE), [])
    ensures GuardedBut(r', n) && EndsCycle(r') && Continues(r, r') && |r'.events| == |r.events| + 2
    ensures var c := ApplyPage(Last(r).w.client, ONE);
            Last(r') == Last(r).(w := Last(r).w.(client := c, phase := Idle), shown := c.entities)
  {
    PageIsOne();
    var l := InPhase(Last(r), PageReady(ONE, FULL, false));
    Steps(r, n, ReadPage, l);
    r' := Then(r, ReadPage, l);
    var c := ApplyPage(l.w.client, ONE);
    var l' := l.(w := l.w.(client := c, phase := Idle), shown := c.entities);
    Steps(r', n, ApplyReadPage([]), l');
    r' := Then(r', ApplyReadPage([]), l');
  }

  lemma SettledIsSynced()
    ensures SettleOne(BOOTED, M, OUTCOME) == SYNCED
  {
    var nothing: seq<(Key, Entity)> := [];
    assert OUTCOME.entities[..0] == nothing;
    assert PutAll(BOOTED.entities, OUTCOME.entities) == PutAll(BOOTED.entities, nothing)[K := Entity(1, "x")];
  }

  /** The repeated request is answered from the table, and the answer settled; the pull is still to come. */
  lemma Repaired(n: nat) returns (r: Run)
    requires n >= 13
    ensures GuardedBut(r, n) && |r.events| == 13
    ensures r.events[7] == Fail && Last(r) == Executed().(w := Executed().w.(client := SYNCED, phase := Pulling(false)))
  {
    r := ReplyIsLost(n);
    r := SentAgain(r, n, M);
    assert Last(r).w.sent == {Outbound(M)};
    Steps(r, n, Execute(Outbound(M), OUTCOME, []), InPhase(Executed(), Awaiting([M], [], true)));
    r := Then(r, Execute(Outbound(M), OUTCOME, []), InPhase(Executed(), Awaiting([M], [], true)));
    r := Answered(r, n, M, OUTCOME);
    SettledIsSynced();
  }

  /** With the guard kept, the cycle after the lost reply completes in sync. */
  lemma LostReplyIsRepaired() returns (r: Run)
    ensures IsLocalRun(r.locals, r.events) && EndsCycle(r) && |r.events| > 7 && r.events[7] == Fail
    ensures Last(r).w.client.entities == map[K := Entity(1, "x")] && Last(r).w.client.mutations == map[]
  {
    r := Repaired(100);
    OneIsApplied(SYNCED);
    r := Pulled(r, 100);
    GuardKept(r, 100);
  }

  // ---------- what the guard is for ----------

  const CONFLICT: Outcome := VersionConflict("ENTITY_VERSION_CONFLICT", Some(Entity(1, "x")))

  function Forgotten(): Local {
    var l := InPhase(Executed(), Idle);
    l.(w := l.w.(claims := map[]))
  }

  lemma ConflictStep(l: Local, m: Mutation, l': Local)
    requires l.w.server == FULL && m.id !in l.w.claims && m.key == K && m.operation == Create && Outbound(m) in l.w.sent
    requires l' == l.(w := l.w.(replies := l.w.replies + {Reply(Outbound(m), CONFLICT)}))
    ensures LocalNext(l, Execute(Outbound(m), CONFLICT, []), l')
  {
    assert Clashes(FULL, Outbound(m));
  }

  lemma ExpireStep()
    ensures Possible(InPhase(Executed(), Idle), ExpireClaim("m"), Forgotten())
    ensures !Guarded(InPhase(Executed(), Idle), ExpireClaim("m"), Forgotten())
  {
    var claims: map<MutationId, Reply> := map[];
    assert Executed().w.claims - {"m"} == claims;
  }

  lemma ClaimExpires() returns (r: Run)
    ensures GuardedBut(r, 8) && |r.events| == 9 && r.events[8] == ExpireClaim("m") && Last(r) == Forgotten()
  {
    r := ReplyIsLost(8);
    ExpireStep();
    Steps(r, 8, ExpireClaim("m"), Forgotten());
    r := Then(r, ExpireClaim("m"), Forgotten());
  }

  lemma RepeatConflicts() returns (r: Run)
    ensures GuardedBut(r, 8) && |r.events| == 12 && r.events[8] == ExpireClaim("m")
    ensures Last(r) == InPhase(Forgotten(), Awaiting([M], [], true)).(
                         w := InPhase(Forgotten(), Awaiting([M], [], true)).w.(replies := Forgotten().w.replies + {Reply(Outbound(M), CONFLICT)}))
  {
    r := ClaimExpires();
    r := SentAgain(r, 8, M);
    var l := Last(r);
    assert l.w.sent == {Outbound(M)};
    var l' := l.(w := l.w.(replies := l.w.replies + {Reply(Outbound(M), CONFLICT)}));
    ConflictStep(l, M, l');
    Steps(r, 8, Execute(Outbound(M), CONFLICT, []), l');
    r := Then(r, Execute(Outbound(M), CONFLICT, []), l');
  }

  lemma ConflictStays()
    ensures var c := ApplyPage(SettleOne(BOOTED, M, CONFLICT), ONE);
            IsQueue(c, []) && "m" in c.mutations && c.mutations["m"].status == Conflict
  {
    OneIsApplied(SettleOne(BOOTED, M, CONFLICT));
  }

  /** The claim of an unsettled mutation expires, the device being offline for long enough. The repeat of the request
      is a version conflict with its own first execution: the record stays, as a conflict, although cache, server and
      wish are all equal. */
  lemma ExpiredClaimStrands() returns (r: Run)
    ensures GuardedBut(r, 8) && |r.events| > 8 && r.events[8] == ExpireClaim("m")
    ensures EndsCycle(r) && "m" in Last(r).w.client.mutations && Last(r).w.client.mutations["m"].status == Conflict
    ensures Last(r).wish == map[K := "x"] && View(Last(r).w.server, K) == Some(Entity(1, "x"))
  {
    r := RepeatConflicts();
    r := Answered(r, 8, M, CONFLICT);
    ConflictStays();
    r := Pulled(r, 8);
  }

  const M2: Mutation := M.(payload := "y", optimistic := Some(Entity(0, "y")))
  const EDIT2: Edit := EDIT.(id := "n", payload := "y", optimistic := Some(Entity(0, "y")))
  const CLASH: Outcome := Refused("IDEMPOTENCY_CONFLICT")

  function Edited(): Local {
    var l := InPhase(Executed(), Idle);
    var c := BOOTED.(entities := map[K := Entity(0, "y")], mutations := map["m" := M2]);
    l.(w := l.w.(client := c, used := map["m" := K, "n" := K]), wish := map[K := "y"], shown := map[K := Entity(0, "y")])
  }

  lemma EditSentStep()
    ensures Possible(InPhase(Executed(), Idle), EnqueueEdit(EDIT2), Edited())
    ensures !Editable(InPhase(Executed(), Idle), K)
  {
    var l := InPhase(Executed(), Idle);
    assert PendingOn(l.w.client.mutations["m"], K);
    assert PendingId(l.w.client.mutations, K) == Some("m");
    assert Compact(M, EDIT2) == Some(M2);
    assert Outbound(M) in l.w.sent && IsSent(l.w, "m");
  }

  lemma ClashStep(l: Local, l': Local)
    requires "m" in l.w.claims && l.w.claims["m"].item == Outbound(M) && Outbound(M2) in l.w.sent
    requires l' == l.(w := l.w.(replies := l.w.replies + {Reply(Outbound(M2), CLASH)}))
    ensures LocalNext(l, Execute(Outbound(M2), CLASH, []), l')
  {
  }

  lemma SentIsEdited() returns (r: Run)
    ensures GuardedBut(r, 8) && |r.events| == 9 && r.events[8] == EnqueueEdit(EDIT2) && Last(r) == Edited()
  {
    r := ReplyIsLost(8);
    EditSentStep();
    Steps(r, 8, EnqueueEdit(EDIT2), Edited());
    r := Then(r, EnqueueEdit(EDIT2), Edited());
  }

  lemma EditIsRefused() returns (r: Run)
    ensures GuardedBut(r, 8) && |r.events| == 12 && r.events[8] == EnqueueEdit(EDIT2)
    ensures Last(r) == InPhase(Edited(), Awaiting([M2], [], true)).(
                         w := InPhase(Edited(), Awaiting([M2], [], true)).w.(
                                sent := Edited().w.sent + {Outbound(M2)}, replies := Edited().w.replies + {Reply(Outbound(M2), CLASH)}))
  {
    r := SentIsEdited();
    r := SentAgain(r, 8, M2);
    var l := Last(r);
    var l' := l.(w := l.w.(replies := l.w.replies + {Reply(Outbound(M2), CLASH)}));
    ClashStep(l, l');
    Steps(r, 8, Execute(Outbound(M2), CLASH, []), l');
    r := Then(r, Execute(Outbound(M2), CLASH, []), l');
  }

  lemma RejectionStays()
    ensures var c := ApplyPage(SettleOne(Edited().w.client, M2, CLASH), ONE);
            IsQueue(c, []) && "m" in c.mutations && c.mutations["m"].status == Rejected && Lookup(c.entities, K) == Some(Entity(1, "x"))
  {
    OneIsApplied(SettleOne(Edited().w.client, M2, CLASH));
  }

  /** An entity is edited whose mutation was executed but not settled. Compaction keeps the mutation id, so the edited
      request is refused under the id of the first one: the record is rejected, and the cycle ends with the old
      payload in cache and on the server. */
  lemma EditedSentIsRejected() returns (r: Run)
    ensures GuardedBut(r, 8) && |r.events| > 8 && r.events[8] == EnqueueEdit(EDIT2)
    ensures EndsCycle(r) && "m" in Last(r).w.client.mutations && Last(r).w.client.mutations["m"].status == Rejected
    ensures Last(r).wish == map[K := "y"]
    ensures Lookup(Last(r).w.client.entities, K) == View(Last(r).w.server, K) == Some(Entity(1, "x"))
  {
    r := EditIsRefused();
    r := Answered(r, 8, M2, CLASH);
    RejectionStays();
    r := Pulled(r, 8);
  }

  const M3: Mutation := Mutation("n", 2, K, Update, 1, "y", Some(Entity(1, "y")), Pending, 0, None, None, None)
  const EDIT3: Edit := Edit("n", K, Update, Some(1), "y", Some(Entity(1, "y")))

  const TORN: Client := Client(map[K := Entity(1, "y")], map["n" := M3], Some(0), 3)

  lemma EchoConflicts()
    ensures var c := ApplyPage(TORN, ONE);
            IsQueue(c, []) && "n" in c.mutations && c.mutations["n"].status == Conflict && c.mutations["n"].base == 1
  {
    OneIsApplied(TORN);
    assert "n" in TORN.mutations && Holds(TORN.mutations["n"], K);
  }

  lemma EditPullStep(l: Local, l': Local)
    requires l.w.client == SYNCED && l.w.used == map["m" := K] && l.shown == SYNCED.entities
    requires l' == l.(w := l.w.(client := TORN, used := map["m" := K, "n" := K]), wish := l.wish[K := "y"], shown := TORN.entities)
    ensures Possible(l, EnqueueEdit(EDIT3), l')
  {
    assert PendingId(SYNCED.mutations, K) == None;
    assert NewRecord(EDIT3, 2) == M3;
  }

  /** After the cycle that settled the task has failed, the app starts anew, and the next cycle finds nothing to push. */
  lemma Restarted(n: nat) returns (r: Run)
    requires n >= 16
    ensures GuardedBut(r, n) && |r.events| == 16
    ensures Last(r) == Executed().(w := Executed().w.(client := SYNCED, phase := Pulling(false)), shown := SYNCED.entities)
  {
    r := Repaired(n);
    var l := InPhase(Last(r), Idle).(shown := SYNCED.entities);
    Steps(r, n, Fail, l);
    r := Then(r, Fail, l);
    Steps(r, n, StartPush([]), InPhase(l, Pushing([], true)));
    r := Then(r, StartPush([]), InPhase(l, Pushing([], true)));
    Steps(r, n, FinishPush, InPhase(l, Pulling(false)));
    r := Then(r, FinishPush, InPhase(l, Pulling(false)));
  }

  /** An entity is edited between the push and the pull of a cycle. The page brings the echo of an earlier push, which
      makes the new record a conflict, although its base is the very version in the page. */
  lemma EditedMidCycleConflicts() returns (r: Run)
    ensures GuardedBut(r, 16) && |r.events| > 16 && r.events[16] == EnqueueEdit(EDIT3)
    ensures EndsCycle(r) && "n" in Last(r).w.client.mutations && Last(r).w.client.mutations["n"].status == Conflict
    ensures Last(r).w.client.mutations["n"].base == 1 && View(Last(r).w.server, K) == Some(Entity(1, "x"))
  {
    r := Restarted(16);
    var l := Last(r);
    var l' := l.(w := l.w.(client := TORN, used := map["m" := K, "n" := K]), wish := l.wish[K := "y"], shown := TORN.entities);
    EditPullStep(l, l');
    Steps(r, 16, EnqueueEdit(EDIT3), l');
    r := Then(r, EnqueueEdit(EDIT3), l');
    EchoConflicts();
    r := Pulled(r, 16);
  }

  // ---------- edits from a stale memory ----------

  const M4: Mutation := Mutation("n", 2, K, Create, 0, "y", Some(Entity(0, "y")), Pending, 0, None, None, None)
  const STALE: Client := Client(map[K := Entity(0, "y")], map["n" := M4], Some(0), 3)

  function Stale(l: Local): Local {
    l.(w := l.w.(client := STALE, used := map["m" := K, "n" := K], minted := map[K := "n"]),
       wish := map[K := "y"], shown := STALE.entities)
  }

  lemma StaleStep(l: Local)
    requires l == Executed().(w := Executed().w.(client := SYNCED, phase := Idle))
    ensures Possible(l, EnqueueEdit(EDIT2), Stale(l)) && Editable(l, K) && !UpToDate(l, EDIT2)
  {
    assert PendingId(SYNCED.mutations, K) == None;
    assert NewRecord(EDIT2, 2) == M4;
  }

  lemma StaleStays()
    ensures var c := ApplyPage(SettleOne(STALE, M4, CONFLICT), ONE);
            IsQueue(c, []) && "n" in c.mutations && c.mutations["n"].status == Conflict
  {
    OneIsApplied(SettleOne(STALE, M4, CONFLICT));
  }

  lemma StaleEdited() returns (r: Run)
    ensures GuardedBut(r, 14) && |r.events| == 15 && r.events[13] == Fail && r.events[14] == EnqueueEdit(EDIT2)
    ensures Last(r) == InPhase(Stale(Executed()), Idle)
  {
    r := Repaired(14);
    var l := InPhase(Last(r), Idle);
    Steps(r, 14, Fail, l);
    r := Then(r, Fail, l);
    StaleStep(l);
    Steps(r, 14, EnqueueEdit(EDIT2), Stale(l));
    r := Then(r, EnqueueEdit(EDIT2), Stale(l));
  }

  lemma StaleIsPushed() returns (r: Run)
    ensures GuardedBut(r, 14) && |r.events| == 18 && r.events[13] == Fail && r.events[14] == EnqueueEdit(EDIT2)
    ensures var l := Stale(Executed());
            Last(r) == l.(w := l.w.(phase := Awaiting([M4], [], true), sent := {Outbound(M), Outbound(M4)},
                                    replies := l.w.replies + {Reply(Outbound(M4), CONFLICT)}))
  {
    r := StaleEdited();
    r := SentAgain(r, 14, M4);
    assert Last(r).w.sent == {Outbound(M), Outbound(M4)};
    var sent := Last(r);
    var l' := sent.(w := sent.w.(replies := sent.w.replies + {Reply(Outbound(M4), CONFLICT)}));
    ConflictStep(sent, M4, l');
    Steps(r, 14, Execute(Outbound(M4), CONFLICT, []), l');
    r := Then(r, Execute(Outbound(M4), CONFLICT, []), l');
  }

  /** The push of a task is settled, but the pull fails, so that memory still shows the task as never synchronised. The
      next edit of it is a create once more, which clashes: the cycle that follows completes with a conflict. */
  lemma StaleEditConflicts() returns (r: Run)
    ensures GuardedBut(r, 14) && |r.events| > 14 && r.events[13] == Fail && r.events[14] == EnqueueEdit(EDIT2)
    ensures EndsCycle(r) && "n" in Last(r).w.client.mutations && Last(r).w.client.mutations["n"].status == Conflict
    ensures Last(r).wish == map[K := "y"] && View(Last(r).w.server, K) == Some(Entity(1, "x"))
  {
    r := StaleIsPushed();
    r := Answered(r, 14, M4, CONFLICT);
    StaleStays();
    r := Pulled(r, 14);
  }

  /** In general: an edit that opens a record clashes with the server as it is exactly if it is not up to date, that is,
      neither made on the version in the cache nor of an entity that is new. */
  lemma OpeningEditClashesExactly(l: Local, edit: Edit, l': Local)
    requires LocalInv(l) && Possible(l, EnqueueEdit(edit), l')
    requires RecordFree(l.w.client, edit.key) && l.w.client.cursor.Some?
    ensures edit.id in l'.w.client.mutations && l'.w.server == l.w.server
    ensures Clashes(l.w.server, Outbound(l'.w.client.mutations[edit.id])) <==> !UpToDate(l, edit)
  {
    assert FreeOK(l, edit.key);
  }

  /** In general: whenever the claim of an unsettled mutation expires after its execution, the mutation clashes with
      every later state of the server. */
  lemma ExpiryStrands(l: Local, id: MutationId, s: Server)
    requires LocalInv(l) && id in l.w.client.mutations && id in l.w.claims && Extends(l.w.server, s)
    ensures Clashes(s, Outbound(l.w.client.mutations[id]))
  {
    var item := l.w.claims[id].item;
    assert RecordOK(l, id) && l.w.claims[id] in l.w.replies;
    assert ItemOK(l, item);
    SpentForever(l.w.server, s, item);
    SpentClashes(s, item);
  }

  /** And whenever an executed, unsettled mutation is edited, the server refuses it exactly if the edit changed the
      operation or the payload; it changes nothing either way. */
  lemma ReEditRefusedExactly(l: Local, edit: Edit, l': Local, held: MutationId,
                             w: World, outcome: Outcome, writes: seq<(Write, nat)>, w': World)
    requires LocalInv(l) && Possible(l, EnqueueEdit(edit), l')
    requires PendingId(l.w.client.mutations, edit.key) == Some(held) && held in l.w.claims
    requires Compact(l.w.client.mutations[held], edit).Some?
    requires w.claims == l'.w.claims && Executes(w, Outbound(l'.w.client.mutations[held]), outcome, writes, w')
    ensures w'.server == w.server
    ensures var before, after := l.w.client.mutations[held], l'.w.client.mutations[held];
            outcome == CLASH <==> after.operation != before.operation || after.payload != before.payload
  {
    assert RecordOK(l, held);
  }

  /** The feed has an entry about k after the cursor and up to the next one. */
  ghost predicate Covers(at: Server, cursor: nat, next: nat, k: Key) {
    exists i :: 0 <= i < |at.feed| && at.feed[i].key == k && cursor < at.feed[i].sequence <= next
  }

  ghost predicate Mentions(changes: seq<Change>, k: Key) {
    exists n :: 0 <= n < |changes| && changes[n].key == k
  }

  lemma ChangeIsCovered(at: Server, cursor: nat, page: Page, n: nat)
    requires Ordered(at.feed) && page == PageOf(at, cursor, PAGE) && n < |page.changes|
    ensures Covers(at, cursor, page.next, page.changes[n].key)
  {
    PageOnly(at, cursor, PAGE, n);
    var i := FirstAfter(at.feed, cursor) + n;
    assert at.feed[i].key == page.changes[n].key;
  }

  lemma EntryIsMentioned(at: Server, cursor: nat, page: Page, i: nat)
    requires Ordered(at.feed) && page == PageOf(at, cursor, PAGE)
    requires i < |at.feed| && cursor < at.feed[i].sequence <= page.next
    ensures Mentions(page.changes, at.feed[i].key)
  {
    PageHasAll(at, cursor, PAGE, i);
    var n := i - FirstAfter(at.feed, cursor);
    assert page.changes[n].key == at.feed[i].key;
  }

  lemma PageMentionsExactly(at: Server, cursor: nat, page: Page, k: Key)
    requires Ordered(at.feed) && page == PageOf(at, cursor, PAGE)
    ensures Mentions(page.changes, k) <==> Covers(at, cursor, page.next, k)
  {
    if Mentions(page.changes, k) {
      var n :| 0 <= n < |page.changes| && page.changes[n].key == k;
      ChangeIsCovered(at, cursor, page, n);
    }
    if Covers(at, cursor, page.next, k) {
      var i :| 0 <= i < |at.feed| && at.feed[i].key == k && cursor < at.feed[i].sequence <= page.next;
      EntryIsMentioned(at, cursor, page, i);
    }
  }

  /** And a pending record, made whenever, becomes a conflict by a page exactly if the page covers a feed entry about its
      entity. */
  lemma PageConflictsExactly(c: Client, id: MutationId, at: Server, cursor: nat)
    requires Keyed(c.mutations) && id in c.mutations && c.mutations[id].status == Pending && Cacheable(c.mutations[id].key.kind)
    requires Ordered(at.feed)
    ensures var page := PageOf(at, cursor, PAGE);
            && id in ApplyPage(c, page).mutations
            && (ApplyPage(c, page).mutations[id].status == Conflict <==> Covers(at, cursor, page.next, c.mutations[id].key))
  {
    var page := PageOf(at, cursor, PAGE);
    ChangesConflictExactly(c, id, page.changes);
    PageMentionsExactly(at, cursor, page, c.mutations[id].key);
  }

  lemma {:induction false} ChangesConflictExactly(c: Client, id: MutationId, changes: seq<Change>)
    requires Keyed(c.mutations) && id in c.mutations && c.mutations[id].status == Pending && Cacheable(c.mutations[id].key.kind)
    ensures var c' := ApplyChanges(c, changes);
            && Keyed(c'.mutations) && id in c'.mutations && c'.mutations[id].key == c.mutations[id].key
            && c'.mutations[id].status == if Mentions(changes, c.mutations[id].key) then Conflict else Pending
  {
    if changes != [] {
      var init, last := changes[..|changes| - 1], changes[|changes| - 1];
      ChangesConflictExactly(c, id, init);
      PullSteps.ChangeRecords(ApplyChanges(c, init), last);
      MentionsOneMore(init, last, c.mutations[id].key);
      assert changes == init + [last];
    }
  }

  lemma MentionsOneMore(init: seq<Change>, last: Change, k: Key)
    ensures Mentions(init + [last], k) <==> Mentions(init, k) || last.key == k
  {
    var all := init + [last];
    if Mentions(all, k) {
      var n :| 0 <= n < |all| && all[n].key == k;
      assert n < |init| ==> init[n].key == k;
    }
    if Mentions(init, k) {
      var n :| 0 <= n < |init| && init[n].key == k;
      assert all[n].key == k;
    }
    assert all[|init|].key == last.key;
  }
}
