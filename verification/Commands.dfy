/** The server's command pipeline: one transaction for the idempotency claim, the effect, the feed, the audit trail,
    the outbox and the stored response, retried a bounded number of times. */
module Commands {
  import opened Entities

  type Uuid = nat
  const NIL: Uuid := 0

  // 30 days, in seconds.
  const RETENTION: nat := 30 * 24 * 60 * 60
  const ATTEMPTS: nat := 3

  datatype MutationKey = MutationKey(user: Uuid, device: Uuid, mutation: Uuid)

  // The hash is kept as the bytes hashed: different requests have different hashes.
  type Fingerprint = seq<bv8>

  datatype Request = Request(key: MutationKey, requestId: Uuid, name: seq<bv8>, body: seq<bv8>)

  datatype Response = Response(status: int, body: seq<bv8>)

  datatype Claim = Claim(id: Uuid, hash: Fingerprint, response: Option<Response>, expires: int)

  datatype ChangeDraft = ChangeDraft(key: Key, operation: Operation, version: int)
  // Whether the entities and snapshots of an audit draft can be stored is left to `storable`.
  datatype Audit = Audit(requestId: Uuid, action: string, actorType: string, storable: bool)
  datatype Outbox = Outbox(eventType: string, aggregateType: string, aggregate: Uuid)

  type Rows = map<Key, Entity>

  datatype Db = Db(
    claims: map<MutationKey, Claim>, devices: set<(Uuid, Uuid)>, rows: Rows,
    feed: seq<(Uuid, ChangeDraft)>, audits: seq<(Uuid, Audit)>, outbox: seq<(Uuid, Outbox)>)

  datatype CommandResult = CommandResult(response: Response, wellFormed: bool, changes: seq<ChangeDraft>, audits: seq<Audit>, outbox: seq<Outbox>)

  // What the resource operation does inside the transaction.
  datatype Performed = Performed(rows: Rows, result: CommandResult) | Declined(failure: Failure)

  datatype Failure =
    | Invalid
    | DeviceNotActive
    | IdempotencyConflict
    | IdempotencyIncomplete
    | Interrupted
    | Rejected(code: string)
    | Storage(retryable: bool)

  // What befalls one attempt: the clocks of the process and of the database, the id drawn, what goes wrong, and
  // whether the wait before the next attempt is cut short.
  datatype Fault = Clear | BeginFails | StatementFails(retryable: bool) | CommitFails(retryable: bool) | CommitUnconfirmed
  datatype Attempt = Attempt(appNow: int, dbNow: int, claimId: Uuid, fault: Fault, interrupted: bool)

  datatype Answer = Answer(response: Response, duplicate: bool)
  datatype Result = Answered(answer: Answer) | Failed(failure: Failure)

  function FingerprintOf(request: Request): Fingerprint {
    request.name + [0] + request.body
  }

  /** The fingerprint tells requests apart; command names hold no zero byte. */
  lemma FingerprintInjective(a: Request, b: Request)
    requires 0 !in a.name && 0 !in b.name && FingerprintOf(a) == FingerprintOf(b)
    ensures a.name == b.name && a.body == b.body
  {
    FirstZeroAt(a.name, a.body);
    FirstZeroAt(b.name, b.body);
    var f := FingerprintOf(a);
    assert a.name == f[..|a.name|] && b.name == f[..|b.name|];
    assert a.body == f[|a.name| + 1..] && b.body == f[|b.name| + 1..];
  }

  function FirstZero(f: Fingerprint): nat {
    if f == [] || f[0] == 0 then 0 else 1 + FirstZero(f[1..])
  }

  lemma {:induction false} FirstZeroAt(name: seq<bv8>, body: seq<bv8>)
    requires 0 !in name
    ensures FirstZero(name + [0] + body) == |name|
  {
    if name != [] {
      assert (name + [0] + body)[1..] == name[1..] + [0] + body;
      FirstZeroAt(name[1..], body);
    }
  }

  // ---------- the transaction, as a function ----------

  /** A claim row can be taken if there is none or it has expired. */
  predicate Claimable(db: Db, key: MutationKey, dbNow: int) {
    key !in db.claims || db.claims[key].expires <= dbNow
  }

  predicate ValidChange(change: ChangeDraft) {
    change.key.id != "" && change.version >= 1
  }

  predicate ValidAudit(audit: Audit) {
    1 <= |audit.action| <= 120 && audit.actorType in ["", "user", "agent", "system"] && audit.storable
  }

  predicate ValidOutbox(draft: Outbox) {
    1 <= |draft.eventType| <= 120 && 1 <= |draft.aggregateType| <= 32 && draft.aggregate != NIL
  }

  predicate ValidRequest(request: Request) {
    && request.key.user != NIL && request.key.device != NIL && request.key.mutation != NIL
    && 1 <= |request.name| <= 120
  }

  predicate Recordable(result: CommandResult) {
    && result.changes != [] && result.audits != []
    && (forall a :: a in result.audits ==> ValidAudit(a))
    && (forall d :: d in result.outbox ==> ValidOutbox(d))
    && (forall c :: c in result.changes ==> ValidChange(c))
    && 100 <= result.response.status <= 599 && result.wellFormed
  }

  function Signed(audits: seq<Audit>, requestId: Uuid): (r: seq<Audit>)
    ensures |r| == |audits|
    ensures forall i :: 0 <= i < |r| ==> r[i] == if audits[i].requestId == NIL then audits[i].(requestId := requestId) else audits[i]
  {
    seq(|audits|, i requires 0 <= i < |audits| =>
      if audits[i].requestId == NIL then audits[i].(requestId := requestId) else audits[i])
  }

  function Owned<T>(user: Uuid, items: seq<T>): (r: seq<(Uuid, T)>)
    ensures |r| == |items| && forall i :: 0 <= i < |r| ==> r[i] == (user, items[i])
  {
    seq(|items|, i requires 0 <= i < |items| => (user, items[i]))
  }

  /** The database after a first execution: rows, claim with response, feed, audits and outbox together. */
  function Applied(db: Db, request: Request, at: Attempt, done: Performed): Db
    requires done.Performed?
  {
    var user := request.key.user;
    var claim := Claim(at.claimId, FingerprintOf(request), Some(done.result.response), at.appNow + RETENTION);
    db.(rows := done.rows,
        claims := db.claims[request.key := claim],
        feed := db.feed + Owned(user, done.result.changes),
        audits := db.audits + Owned(user, Signed(done.result.audits, request.requestId)),
        outbox := db.outbox + Owned(user, done.result.outbox))
  }

  datatype Step = Stop(failure: Failure) | Go(db: Db, answer: Answer)

  /** The body of the transaction, on the committed state it starts from. */
  function Transact(db: Db, request: Request, operation: Rows -> Performed, at: Attempt): Step {
    if (request.key.user, request.key.device) !in db.devices then Stop(DeviceNotActive)
    else if !Claimable(db, request.key, at.dbNow) then
      var claim := db.claims[request.key];
      if claim.hash != FingerprintOf(request) then Stop(IdempotencyConflict)
      else if claim.response.None? then Stop(IdempotencyIncomplete)
      else Go(db, Answer(claim.response.value, true))
    else
      var done := operation(db.rows);
      if done.Declined? then Stop(done.failure)
      else if !Recordable(done.result) then Stop(Invalid)
      else Go(Applied(db, request, at, done), Answer(done.result.response, false))
  }

  predicate Retryable(failure: Failure) {
    failure.Storage? && failure.retryable
  }

  /** One attempt: the committed state after it, and what the caller sees of it. */
  function Attempted(db: Db, request: Request, operation: Rows -> Performed, at: Attempt): (Db, Result) {
    match at.fault
    case BeginFails => (db, Failed(Storage(false)))
    case StatementFails(retryable) => (db, Failed(Storage(retryable)))
    case _ =>
      match Transact(db, request, operation, at)
      case Stop(failure) => (db, Failed(failure))
      case Go(db', answer) =>
        match at.fault
        case CommitFails(retryable) => (db, Failed(Storage(retryable)))
        case CommitUnconfirmed => (db', Failed(Storage(false)))
        case _ => (db', Answered(answer))
  }

  /** Attempts from the n-th on, with nobody else writing in between. */
  function AttemptsFrom(db: Db, request: Request, operation: Rows -> Performed, weather: seq<Attempt>, n: nat): (Db, Result)
    requires 1 <= n <= ATTEMPTS && |weather| == ATTEMPTS
    decreases ATTEMPTS - n
  {
    var (db', result) := Attempted(db, request, operation, weather[n - 1]);
    if result.Failed? && Retryable(result.failure) && n < ATTEMPTS
    then if weather[n - 1].interrupted then (db', Failed(Interrupted)) else AttemptsFrom(db', request, operation, weather, n + 1)
    else (db', result)
  }

  predicate AwaitsResponse(k: MutationKey, claim: Claim, user: Uuid, id: Uuid) {
    k.user == user && claim.id == id && claim.response.None?
  }

  /** The table after a response was stored under a claim's id. */
  function Completed(claims: map<MutationKey, Claim>, user: Uuid, id: Uuid, response: Response): map<MutationKey, Claim> {
    map k | k in claims :: if AwaitsResponse(k, claims[k], user, id) then claims[k].(response := Some(response)) else claims[k]
  }

  /** Under the fresh id of a claim just taken, exactly the claimed row gains the response, and storing another
      response under that id does nothing. */
  lemma CompletedOnce(db: Db, key: MutationKey, draft: Claim, response: Response, another: Response)
    requires FreshClaim(db, draft.id) && draft.response.None?
    ensures var claims := db.claims[key := draft];
            && Completed(claims, key.user, draft.id, response) == claims[key := draft.(response := Some(response))]
            && Completed(claims[key := draft.(response := Some(response))], key.user, draft.id, another)
               == claims[key := draft.(response := Some(response))]
  {
    var claims := db.claims[key := draft];
    var done := claims[key := draft.(response := Some(response))];
    forall k | k in done ensures !AwaitsResponse(k, done[k], key.user, draft.id) {
      if k != key { assert db.claims[k].id != draft.id; }
    }
    assert Completed(done, key.user, draft.id, another) == done;
  }

  // ---------- the transaction, as it runs ----------

  /** An open transaction: its own view, which a commit makes the committed one. */
  class Tx {
    var db: Db

    constructor (committed: Db)
      ensures db == committed
    {
      db := committed;
    }

    method Claim(draft: Claim, key: MutationKey, dbNow: int) returns (row: Option<Claim>, claimed: bool)
      modifies this
      ensures (key.user, key.device) !in old(db).devices ==> row.None? && db == old(db)
      ensures (key.user, key.device) in old(db).devices ==>
                && claimed == Claimable(old(db), key, dbNow)
                && row == Some(if claimed then draft else old(db).claims[key])
                && db == if claimed then old(db).(claims := old(db).claims[key := draft]) else old(db)
    {
      if (key.user, key.device) !in db.devices {
        return None, false;
      }
      if key !in db.claims {
        db := db.(claims := db.claims[key := draft]);
        return Some(draft), true;
      }
      if db.claims[key].expires <= dbNow {
        db := db.(claims := db.claims[key := draft]);
        return Some(draft), true;
      }
      return Some(db.claims[key]), false;
    }

    /** Stores the response in the row with this id, if it has none yet. */
    method Complete(user: Uuid, id: Uuid, response: Response) returns (completed: bool)
      modifies this
      ensures db == old(db).(claims := Completed(old(db).claims, user, id, response))
      ensures completed <==> db.claims != old(db).claims
    {
      completed := exists k :: k in db.claims && AwaitsResponse(k, db.claims[k], user, id);
      db := db.(claims := map k | k in db.claims ::
        if k.user == user && db.claims[k].id == id && db.claims[k].response.None?
        then db.claims[k].(response := Some(response)) else db.claims[k]);
    }

    method RecordChanges(user: Uuid, changes: seq<ChangeDraft>) returns (ok: bool)
      modifies this
      ensures ok == forall c :: c in changes ==> ValidChange(c)
      ensures db == if ok then old(db).(feed := old(db).feed + Owned(user, changes)) else old(db)
    {
      for i := 0 to |changes|
        invariant db == old(db)
        invariant forall j :: 0 <= j < i ==> ValidChange(changes[j])
      {
        if !ValidChange(changes[i]) { return false; }
      }
      for i := 0 to |changes|
        invariant db == old(db).(feed := old(db).feed + Owned(user, changes[..i]))
      {
        assert Owned(user, changes[..i + 1]) == Owned(user, changes[..i]) + [(user, changes[i])];
        db := db.(feed := db.feed + [(user, changes[i])]);
      }
      assert changes[..|changes|] == changes;
      ok := true;
    }
  }

  /** Draws are fresh: no claim row has the id yet. */
  predicate FreshClaim(db: Db, id: Uuid) {
    forall k :: k in db.claims ==> db.claims[k].id != id
  }

  /** The rows in which the audits have been signed, in place. */
  method SignAudits(audits: array<Audit>, requestId: Uuid)
    modifies audits
    ensures audits[..] == Signed(old(audits[..]), requestId)
  {
    for i := 0 to audits.Length
      invariant forall j :: 0 <= j < i ==> audits[j] == Signed(old(audits[..]), requestId)[j]
      invariant forall j :: i <= j < audits.Length ==> audits[j] == old(audits[j])
    {
      if audits[i].requestId == NIL {
        audits[i] := audits[i].(requestId := requestId);
      }
    }
  }

  method ValidateOutbox(drafts: seq<Outbox>) returns (ok: bool)
    ensures ok == forall d :: d in drafts ==> ValidOutbox(d)
  {
    for i := 0 to |drafts|
      invariant forall j :: 0 <= j < i ==> ValidOutbox(drafts[j])
    {
      if !ValidOutbox(drafts[i]) { return false; }
    }
    ok := true;
  }

  lemma AuditsStayValid(audits: seq<Audit>, requestId: Uuid)
    ensures (forall a :: a in Signed(audits, requestId) ==> ValidAudit(a)) <==> (forall a :: a in audits ==> ValidAudit(a))
  {
    var signed := Signed(audits, requestId);
    forall i | 0 <= i < |audits| ensures ValidAudit(signed[i]) <==> ValidAudit(audits[i]) {
      assert signed[i] in signed && audits[i] in audits;
    }
  }

  method ValidateAudits(audits: array<Audit>) returns (ok: bool)
    ensures ok == forall a :: a in audits[..] ==> ValidAudit(a)
  {
    for i := 0 to audits.Length
      invariant forall j :: 0 <= j < i ==> ValidAudit(audits[j])
    {
      if !ValidAudit(audits[i]) {
        assert audits[i] in audits[..];
        return false;
      }
    }
    ok := true;
  }

  /** The closure that a command runs inside its transaction. */
  method RunBody(tx: Tx, request: Request, operation: Rows -> Performed, at: Attempt) returns (result: Result)
    requires FreshClaim(tx.db, at.claimId)
    modifies tx
    ensures match Transact(old(tx.db), request, operation, at)
            case Stop(failure) => result == Failed(failure)
            case Go(db', answer) => result == Answered(answer) && tx.db == db'
  {
    ghost var before := tx.db;
    var draft := Claim(at.claimId, FingerprintOf(request), None, at.appNow + RETENTION);
    var row, claimed := tx.Claim(draft, request.key, at.dbNow);
    if row.None? { return Failed(DeviceNotActive); }
    if !claimed {
      if row.value.hash != FingerprintOf(request) { return Failed(IdempotencyConflict); }
      if row.value.response.None? { return Failed(IdempotencyIncomplete); }
      return Answered(Answer(row.value.response.value, true));
    }
    var done := operation(tx.db.rows);
    if done.Declined? { return Failed(done.failure); }
    tx.db := tx.db.(rows := done.rows);
    if |done.result.changes| == 0 || |done.result.audits| == 0 { return Failed(Invalid); }
    var audits := new Audit[|done.result.audits|](i requires 0 <= i < |done.result.audits| => done.result.audits[i]);
    assert audits[..] == done.result.audits;
    SignAudits(audits, request.requestId);
    var outboxOk := ValidateOutbox(done.result.outbox);
    if !outboxOk { return Failed(Invalid); }
    var changesOk := tx.RecordChanges(request.key.user, done.result.changes);
    if !changesOk { return Failed(Invalid); }
    var auditsOk := ValidateAudits(audits);
    AuditsStayValid(done.result.audits, request.requestId);
    if !auditsOk { return Failed(Invalid); }
    tx.db := tx.db.(audits := tx.db.audits + Owned(request.key.user, audits[..]),
                    outbox := tx.db.outbox + Owned(request.key.user, done.result.outbox));
    if done.result.response.status < 100 || done.result.response.status > 599 || !done.result.wellFormed {
      return Failed(Invalid);
    }
    assert tx.db.claims[request.key].id == at.claimId;
    var completed := tx.Complete(request.key.user, at.claimId, done.result.response);
    CompletedOnce(before, request.key, draft, done.result.response, done.result.response);
    result := Answered(Answer(done.result.response, false));
  }

  class Database {
    var committed: Db

    constructor (db: Db)
      ensures committed == db
    {
      committed := db;
    }

    /** One command with its bounded retries; `weather` is what befalls its attempts. */
    method Execute(request: Request, operation: Rows -> Performed, weather: seq<Attempt>) returns (result: Result)
      requires |weather| == ATTEMPTS
      requires forall i :: 0 <= i < ATTEMPTS ==> FreshClaim(committed, weather[i].claimId)
      modifies this
      ensures if request.key.user != NIL && request.key.device != NIL && request.key.mutation != NIL && 1 <= |request.name| <= 120
              then (committed, result) == AttemptsFrom(old(committed), request, operation, weather, 1)
              else committed == old(committed) && result == Failed(Invalid)
    {
      if !ValidRequest(request) { return Failed(Invalid); }
      var n := 1;
      while n <= ATTEMPTS
        invariant 1 <= n <= ATTEMPTS
        invariant committed == old(committed)
        invariant AttemptsFrom(old(committed), request, operation, weather, 1)
                  == AttemptsFrom(committed, request, operation, weather, n)
        decreases ATTEMPTS - n
      {
        var at := weather[n - 1];
        if at.fault.BeginFails? { return Failed(Storage(false)); }
        var tx := new Tx(committed);
        result := Failed(Storage(at.fault.StatementFails? && at.fault.retryable));
        if !at.fault.StatementFails? {
          result := RunBody(tx, request, operation, at);
          if result.Answered? {
            if at.fault.CommitFails? {
              result := Failed(Storage(at.fault.retryable));
            } else {
              committed := tx.db;
              if at.fault.CommitUnconfirmed? { return Failed(Storage(false)); }
              return result;
            }
          }
        }
        // rolled back
        if !Retryable(result.failure) || n == ATTEMPTS { return result; }
        if at.interrupted { return Failed(Interrupted); }
        n := n + 1;
      }
    }
  }
}
