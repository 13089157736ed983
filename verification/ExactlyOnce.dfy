/** Commands take effect once: over every run of attempts, retries and failures, by the idempotency table for as long
    as its claims live, and by the versions of the entities for ever after. */
module ExactlyOnce {
  import opened Entities
  import opened Commands

  // ---------- one attempt ----------

  predicate Commits(fault: Fault) {
    fault.Clear? || fault.CommitUnconfirmed?
  }

  /** The attempt commits a first execution. */
  predicate TakesEffect(db: Db, request: Request, operation: Rows -> Performed, at: Attempt) {
    && Commits(at.fault)
    && Transact(db, request, operation, at).Go?
    && !Transact(db, request, operation, at).answer.duplicate
  }

  /** All or nothing: an attempt either leaves the committed state as it was, or commits rows, claim, response, a
      non-empty stretch of the feed and of the audit trail, and the outbox, together. */
  lemma AllOrNothing(db: Db, request: Request, operation: Rows -> Performed, at: Attempt)
    ensures var (db', result) := Attempted(db, request, operation, at);
            if TakesEffect(db, request, operation, at) then
              var done := operation(db.rows);
              && done.Performed?
              && db'.rows == done.rows && db'.devices == db.devices
              && request.key in db'.claims && db'.claims[request.key].response == Some(done.result.response)
              && db'.claims[request.key].hash == FingerprintOf(request)
              && (forall k :: k != request.key ==> (k in db'.claims <==> k in db.claims) && (k in db.claims ==> db'.claims[k] == db.claims[k]))
              && |db'.feed| > |db.feed| && db.feed <= db'.feed
              && |db'.audits| > |db.audits| && db.audits <= db'.audits
              && db.outbox <= db'.outbox && |db'.outbox| == |db.outbox| + |done.result.outbox|
              && result == (if at.fault.Clear? then Answered(Answer(done.result.response, false)) else Failed(Storage(false)))
            else db' == db && (result.Answered? ==> result.answer.duplicate)
  {
  }

  /** Nothing is lost on the way: feed, audit trail and outbox grow by exactly what the operation reports, in order,
      under the requesting user; audits without a request id get the request's. */
  lemma EverythingRecorded(db: Db, request: Request, operation: Rows -> Performed, at: Attempt)
    requires TakesEffect(db, request, operation, at)
    ensures operation(db.rows).Performed?
    ensures var db', result, user := Attempted(db, request, operation, at).0, operation(db.rows).result, request.key.user;
            && db.feed <= db'.feed && |db'.feed| == |db.feed| + |result.changes|
            && (forall i :: 0 <= i < |result.changes| ==> db'.feed[|db.feed| + i] == (user, result.changes[i]))
            && db.audits <= db'.audits && |db'.audits| == |db.audits| + |result.audits|
            && (forall i :: 0 <= i < |result.audits| ==>
                  && db'.audits[|db.audits| + i].0 == user
                  && Attributed(db'.audits[|db.audits| + i].1, result.audits[i], request.requestId))
            && db.outbox <= db'.outbox && |db'.outbox| == |db.outbox| + |result.outbox|
            && (forall i :: 0 <= i < |result.outbox| ==> db'.outbox[|db.outbox| + i] == (user, result.outbox[i]))
  {
  }

  predicate Attributed(audit: Audit, draft: Audit, requestId: Uuid) {
    && audit.requestId == (if draft.requestId == NIL then requestId else draft.requestId)
    && audit.action == draft.action && audit.actorType == draft.actorType && audit.storable == draft.storable
  }

  /** What the operation reports can be recorded: something changed and was audited, and every part is in shape. */
  predicate Reportable(result: CommandResult) {
    && |result.changes| > 0 && |result.audits| > 0
    && (forall i :: 0 <= i < |result.changes| ==> result.changes[i].key.id != "" && result.changes[i].version > 0)
    && (forall i :: 0 <= i < |result.audits| ==>
          && 1 <= |result.audits[i].action| <= 120 && result.audits[i].storable
          && result.audits[i].actorType in {"", "user", "agent", "system"})
    && (forall i :: 0 <= i < |result.outbox| ==>
          1 <= |result.outbox[i].eventType| <= 120 && 1 <= |result.outbox[i].aggregateType| <= 32 && result.outbox[i].aggregate != 0)
    && 100 <= result.response.status <= 599 && result.wellFormed
  }

  lemma ReportableIs(result: CommandResult)
    ensures Recordable(result) <==> Reportable(result)
  {
    assert forall i :: 0 <= i < |result.changes| ==> result.changes[i] in result.changes;
    assert forall i :: 0 <= i < |result.audits| ==> result.audits[i] in result.audits;
    assert forall i :: 0 <= i < |result.outbox| ==> result.outbox[i] in result.outbox;
  }

  /** When an attempt that reaches its commit takes effect, and what it is refused as otherwise. */
  lemma TakesEffectExactly(db: Db, request: Request, operation: Rows -> Performed, at: Attempt)
    requires at.fault.Clear?
    ensures var active := (request.key.user, request.key.device) in db.devices;
            var done, result := operation(db.rows), Attempted(db, request, operation, at).1;
            var first := request.key !in db.claims || db.claims[request.key].expires <= at.dbNow;
            && (TakesEffect(db, request, operation, at) <==> active && first && done.Performed? && Reportable(done.result))
            && (!active ==> result == Failed(DeviceNotActive))
            && (active && first && done.Declined? ==> result == Failed(done.failure))
            && (active && first && done.Performed? && !Reportable(done.result) ==> result == Failed(Invalid))
  {
    var done := operation(db.rows);
    if done.Performed? { ReportableIs(done.result); }
  }

  /** One command, with its retries: at most one effect; a first answer means exactly one; a failure means none,
      unless the commit was left unconfirmed. */
  lemma {:induction false} RetriesCommitOnce(db: Db, request: Request, operation: Rows -> Performed, weather: seq<Attempt>, n: nat)
    requires 1 <= n <= ATTEMPTS && |weather| == ATTEMPTS
    ensures var (db', result) := AttemptsFrom(db, request, operation, weather, n);
            && (db' == db || exists i :: n - 1 <= i < ATTEMPTS && TakesEffect(db, request, operation, weather[i])
                                         && db' == Attempted(db, request, operation, weather[i]).0)
            && (result.Answered? && !result.answer.duplicate ==>
                  exists i :: n - 1 <= i < ATTEMPTS && TakesEffect(db, request, operation, weather[i])
                              && db' == Attempted(db, request, operation, weather[i]).0)
            && (result.Failed? && db' != db ==> exists i :: n - 1 <= i < ATTEMPTS && weather[i].fault.CommitUnconfirmed?)
    decreases ATTEMPTS - n
  {
    var at := weather[n - 1];
    AllOrNothing(db, request, operation, at);
    var (db', result) := Attempted(db, request, operation, at);
    if result.Failed? && Retryable(result.failure) && n < ATTEMPTS && !at.interrupted {
      assert db' == db;
      RetriesCommitOnce(db, request, operation, weather, n + 1);
    }
  }

  /** The caller sees the first attempt that is not a retryable failure, or else the third, or that the wait for the
      next one was interrupted; all attempts before that were retryable failures that left nothing behind. */
  lemma {:induction false} FirstDecisiveAttempt(db: Db, request: Request, operation: Rows -> Performed, weather: seq<Attempt>, n: nat)
    returns (last: nat)
    requires 1 <= n <= ATTEMPTS && |weather| == ATTEMPTS
    ensures n <= last <= 3
    ensures forall i :: n - 1 <= i < last - 1 ==> Transient(db, request, operation, weather[i]) && !weather[i].interrupted
    ensures AttemptsFrom(db, request, operation, weather, n)
            == if last < 3 && Transient(db, request, operation, weather[last - 1]) then (db, Failed(Interrupted))
               else Attempted(db, request, operation, weather[last - 1])
    ensures last < 3 && Transient(db, request, operation, weather[last - 1]) ==> weather[last - 1].interrupted
    decreases ATTEMPTS - n
  {
    last := n;
    AllOrNothing(db, request, operation, weather[n - 1]);
    if Transient(db, request, operation, weather[n - 1]) && n < ATTEMPTS && !weather[n - 1].interrupted {
      last := FirstDecisiveAttempt(db, request, operation, weather, n + 1);
    }
  }

  /** The attempt fails in a way that is worth another try, and leaves nothing behind. */
  predicate Transient(db: Db, request: Request, operation: Rows -> Performed, at: Attempt) {
    Attempted(db, request, operation, at) == (db, Failed(Storage(true)))
  }

  // ---------- runs ----------

  datatype Effect = Effect(key: MutationKey, hash: Fingerprint, response: Response, appNow: int, dbNow: int)

  datatype State = State(db: Db, effects: seq<Effect>)

  /** One attempt of any command, by anyone. */
  ghost predicate Attempts(s: State, request: Request, operation: Rows -> Performed, at: Attempt, s': State) {
    && FreshClaim(s.db, at.claimId)
    && s'.db == Attempted(s.db, request, operation, at).0
    && s'.effects == s.effects + (
         if TakesEffect(s.db, request, operation, at)
         then [Effect(request.key, FingerprintOf(request), operation(s.db.rows).result.response, at.appNow, at.dbNow)] else [])
  }

  /** Everything else that touches the database leaves the claims alone: other transactions, device changes. */
  ghost predicate Others(s: State, s': State) {
    s'.effects == s.effects && s'.db.claims == s.db.claims
  }

  // The process and the database clocks of an attempt differ by less than the retention time.
  predicate ClocksClose(at: Attempt) {
    at.appNow - RETENTION <= at.dbNow <= at.appNow + RETENTION
  }

  ghost predicate Next(s: State, s': State) {
    || Others(s, s')
    || exists request, operation, at :: ClocksClose(at) && Attempts(s, request, operation, at, s')
  }

  ghost predicate IsRun(states: seq<State>) {
    && |states| > 0 && states[0].db.claims == map[] && states[0].effects == []
    && forall i :: 0 <= i < |states| - 1 ==> Next(states[i], states[i + 1])
  }

  ghost predicate LatestFor(effects: seq<Effect>, i: int, key: MutationKey) {
    && 0 <= i < |effects| && effects[i].key == key
    && forall j :: i < j < |effects| ==> effects[j].key != key
  }

  /** The claim of a key is that of its latest effect. */
  ghost predicate ClaimIs(claim: Claim, e: Effect) {
    claim.hash == e.hash && claim.response == Some(e.response) && claim.expires == e.appNow + RETENTION
  }

  ghost predicate Recorded(s: State, key: MutationKey) {
    && (key in s.db.claims ==> exists i :: LatestFor(s.effects, i, key) && ClaimIs(s.db.claims[key], s.effects[i]))
    && (key !in s.db.claims ==> forall i :: 0 <= i < |s.effects| ==> s.effects[i].key != key)
  }

  ghost predicate Spaced(effects: seq<Effect>) {
    forall i, j :: 0 <= i < j < |effects| && effects[i].key == effects[j].key ==>
      effects[j].dbNow >= effects[i].appNow + RETENTION
  }

  ghost predicate Inv(s: State) {
    && (forall key :: Recorded(s, key))
    && Spaced(s.effects)
    && (forall i :: 0 <= i < |s.effects| ==> s.effects[i].appNow - RETENTION <= s.effects[i].dbNow <= s.effects[i].appNow + RETENTION)
  }

  lemma AttemptRecorded(s: State, request: Request, operation: Rows -> Performed, at: Attempt, s': State, key: MutationKey)
    requires Recorded(s, key) && Attempts(s, request, operation, at, s')
    ensures Recorded(s', key)
  {
    AllOrNothing(s.db, request, operation, at);
    if TakesEffect(s.db, request, operation, at) {
      var n := |s.effects|;
      if key == request.key {
        assert LatestFor(s'.effects, n, key) && ClaimIs(s'.db.claims[key], s'.effects[n]);
      } else if key in s.db.claims {
        var i :| LatestFor(s.effects, i, key) && ClaimIs(s.db.claims[key], s.effects[i]);
        assert LatestFor(s'.effects, i, key) && ClaimIs(s'.db.claims[key], s'.effects[i]);
      }
    } else {
      assert s'.effects == s.effects;
    }
  }

  lemma AttemptSpaced(s: State, request: Request, operation: Rows -> Performed, at: Attempt, s': State)
    requires Inv(s) && ClocksClose(at) && Attempts(s, request, operation, at, s')
    ensures Spaced(s'.effects)
  {
    if TakesEffect(s.db, request, operation, at) {
      var n, key := |s.effects|, request.key;
      assert Recorded(s, key);
      forall i | 0 <= i < n && s.effects[i].key == key ensures at.dbNow >= s.effects[i].appNow + RETENTION {
        assert key in s.db.claims;
        var last :| LatestFor(s.effects, last, key) && ClaimIs(s.db.claims[key], s.effects[last]);
        assert Claimable(s.db, key, at.dbNow);
        if i < last {
          assert s.effects[last].dbNow >= s.effects[i].appNow + RETENTION;
        }
      }
    } else {
      assert s'.effects == s.effects;
    }
  }

  lemma StepKeeps(s: State, s': State)
    requires Inv(s) && Next(s, s')
    ensures Inv(s')
  {
    if Others(s, s') {
      forall key ensures Recorded(s', key) { assert Recorded(s, key); }
    } else {
      var request, operation, at :| ClocksClose(at) && Attempts(s, request, operation, at, s');
      forall key ensures Recorded(s', key) {
        assert Recorded(s, key);
        AttemptRecorded(s, request, operation, at, s', key);
      }
      AttemptSpaced(s, request, operation, at, s');
    }
  }

  lemma {:induction false} RunsKeep(states: seq<State>, n: nat)
    requires IsRun(states) && n < |states|
    ensures Inv(states[n])
  {
    if n > 0 {
      RunsKeep(states, n - 1);
      StepKeeps(states[n - 1], states[n]);
    }
  }

  /** Over any run, two effects under one (user, device, mutation id) are at least the retention time apart: within
      it, 30 days in seconds, a mutation takes effect at most once. */
  lemma EffectsAreApart(states: seq<State>, n: nat, i: nat, j: nat)
    requires IsRun(states) && n < |states|
    requires i < j < |states[n].effects| && states[n].effects[i].key == states[n].effects[j].key
    ensures states[n].effects[j].dbNow >= states[n].effects[i].appNow + 2_592_000
  {
    RunsKeep(states, n);
  }

  /** Every committed claim has its response, so no attempt ever finds an incomplete one. */
  lemma NeverIncomplete(states: seq<State>, n: nat, request: Request, operation: Rows -> Performed, at: Attempt)
    requires IsRun(states) && n < |states|
    requires forall rows :: operation(rows).Declined? ==> operation(rows).failure != IdempotencyIncomplete
    ensures forall key :: key in states[n].db.claims ==> states[n].db.claims[key].response.Some?
    ensures Attempted(states[n].db, request, operation, at).1 != Failed(IdempotencyIncomplete)
  {
    RunsKeep(states, n);
    forall key | key in states[n].db.claims ensures states[n].db.claims[key].response.Some? {
      assert Recorded(states[n], key);
    }
  }

  /** A repeat within the life of the claim is answered with the first response and changes nothing; the same
      mutation id with a different request is refused and changes nothing. */
  lemma RepeatsAreAnswered(states: seq<State>, n: nat, i: nat, request: Request, operation: Rows -> Performed, at: Attempt)
    requires IsRun(states) && n < |states|
    requires LatestFor(states[n].effects, i, request.key) && at.dbNow < states[n].effects[i].appNow + RETENTION
    requires (request.key.user, request.key.device) in states[n].db.devices && at.fault.Clear?
    ensures Attempted(states[n].db, request, operation, at)
            == (states[n].db,
                if FingerprintOf(request) == states[n].effects[i].hash
                then Answered(Answer(states[n].effects[i].response, true)) else Failed(IdempotencyConflict))
  {
    RunsKeep(states, n);
    var s := states[n];
    assert Recorded(s, request.key);
    assert request.key in s.db.claims;
    var last :| LatestFor(s.effects, last, request.key) && ClaimIs(s.db.claims[request.key], s.effects[last]);
    assert last == i;
  }

  /** The operation, run on these rows, does what a command has to do. */
  predicate Succeeds(operation: Rows -> Performed, rows: Rows) {
    operation(rows).Performed? && Recordable(operation(rows).result)
  }

  /** An attempt under a mutation id that has taken effect takes effect again exactly if the retention time has passed
      on the database's clock, whatever it asks for: a claim protects its mutation id that long and no longer. */
  lemma RepeatTakesEffectExactly(states: seq<State>, n: nat, i: nat, request: Request, operation: Rows -> Performed, at: Attempt)
    requires IsRun(states) && n < |states| && LatestFor(states[n].effects, i, request.key)
    requires (request.key.user, request.key.device) in states[n].db.devices && Commits(at.fault)
    requires Succeeds(operation, states[n].db.rows)
    ensures TakesEffect(states[n].db, request, operation, at) <==> at.dbNow >= states[n].effects[i].appNow + 2_592_000
  {
    RunsKeep(states, n);
    var s := states[n];
    assert Recorded(s, request.key);
    assert request.key in s.db.claims;
    var last :| LatestFor(s.effects, last, request.key) && ClaimIs(s.db.claims[request.key], s.effects[last]);
    assert last == i;
  }

  // ---------- a mutation that takes effect twice ----------

  const KEY: MutationKey := MutationKey(1, 1, 1)
  const REQUEST: Request := Request(KEY, 1, [1], [])
  const ENTITY: Key := Key(Kind.Task, "t")

  /** A command that writes the next version of one entity. */
  function Bumps(rows: Rows): Performed {
    var version := if ENTITY in rows then rows[ENTITY].version + 1 else 1;
    Performed(rows[ENTITY := Entity(version, "x")],
              CommandResult(Response(200, []), true, [ChangeDraft(ENTITY, Update, version)], [Audit(1, "bump", "user", true)], []))
  }

  const FIRST: Attempt := Attempt(0, 0, 1, Clear, false)
  const AGAIN: Attempt := Attempt(RETENTION, RETENTION, 2, Clear, false)

  const EMPTY: State := State(Db(map[], {(1, 1)}, map[], [], [], []), [])

  function After(s: State, at: Attempt): State {
    State(Attempted(s.db, REQUEST, Bumps, at).0,
          s.effects + [Effect(KEY, FingerprintOf(REQUEST), Response(200, []), at.appNow, at.dbNow)])
  }

  lemma FirstEffect()
    ensures TakesEffect(EMPTY.db, REQUEST, Bumps, FIRST) && Attempts(EMPTY, REQUEST, Bumps, FIRST, After(EMPTY, FIRST))
    ensures var db := After(EMPTY, FIRST).db;
            db.rows == map[ENTITY := Entity(1, "x")] && db.devices == {(1, 1)}
            && db.claims == map[KEY := Claim(1, FingerprintOf(REQUEST), Some(Response(200, [])), RETENTION)]
  {
  }

  lemma SecondEffect()
    ensures var s := After(EMPTY, FIRST);
            && TakesEffect(s.db, REQUEST, Bumps, AGAIN) && Attempts(s, REQUEST, Bumps, AGAIN, After(s, AGAIN))
            && After(s, AGAIN).db.rows == map[ENTITY := Entity(2, "x")]
  {
    FirstEffect();
  }

  /** A run in which one request takes effect twice: its repeat arrives as the claim expires. */
  lemma ExpiredRepeatsTakeEffect() returns (states: seq<State>)
    ensures IsRun(states) && |states| == 3
    ensures |states[2].effects| == 2 && states[2].effects[0].key == states[2].effects[1].key
    ensures states[2].effects[0].hash == states[2].effects[1].hash
    ensures states[1].db.rows == map[ENTITY := Entity(1, "x")] && states[2].db.rows == map[ENTITY := Entity(2, "x")]
  {
    FirstEffect();
    SecondEffect();
    states := [EMPTY, After(EMPTY, FIRST), After(After(EMPTY, FIRST), AGAIN)];
    assert ClocksClose(FIRST) && Attempts(states[0], REQUEST, Bumps, FIRST, states[1]);
    assert ClocksClose(AGAIN) && Attempts(states[1], REQUEST, Bumps, AGAIN, states[2]);
  }
}
