/** Executing a queue on the server, which deletes the milestones of a deleted goal and detaches its tasks. A queue whose
    records fit the server one by one conflicts with itself exactly where a record comes after the deletion of its
    entity's goal; and what the queue leaves is what the edits meant, but for the milestones and tasks of deleted goals. */
module QueueCascade {
  import opened Entities
  import opened OfflineClient
  import opened SyncServer
  import opened SyncMachine
  import opened Compaction
  import OfflineStore

  // How the body of a milestone or task refers to its goal, and what detaching does to it.
  datatype Goals = Goals(of: Body -> Option<string>, detach: Body -> Body)

  ghost predicate Detaches(g: Goals) {
    forall b :: g.of(g.detach(b)).None?
  }

  predicate Hangs(kind: Kind) {
    kind == Kind.Milestone || kind == Kind.Task
  }

  predicate DeletesGoal(m: Mutation, goal: Option<string>) {
    m.operation == Delete && m.key.kind == Kind.Goal && goal == Some(m.key.id)
  }

  // ---------- executing one record ----------

  predicate LiveRow(row: Row) {
    !row.deleted && |row.log| > 0
  }

  function Last(row: Row): Body
    requires |row.log| > 0
  {
    row.log[|row.log| - 1]
  }

  /** The deletion concerns this row: it is a live milestone or task of the goal. */
  predicate Hit(g: Goals, kind: Kind, row: Row, m: Mutation) {
    Hangs(kind) && LiveRow(row) && DeletesGoal(m, g.of(Last(row)))
  }

  /** Milestones are deleted, tasks detached; either way one version on. */
  function CascadedRow(g: Goals, kind: Kind, row: Row): Row
    requires |row.log| > 0
  {
    if kind == Kind.Milestone then Row(row.log, true) else Row(row.log + [g.detach(Last(row))], false)
  }

  function Settled(g: Goals, kind: Kind, row: Row, m: Mutation): Row {
    if Hit(g, kind, row, m) then CascadedRow(g, kind, row) else row
  }

  function WriteOf(m: Mutation): Write {
    if m.operation == Delete then Remove(m.key) else Put(m.key, m.payload)
  }

  /** A clashing record changes nothing; any other is written, with the cascade of a goal's deletion. The feed plays no
      part here. */
  function Run(g: Goals, s: Server, m: Mutation): Server {
    if Clashes(s, Outbound(m)) then s
    else
      var rows := s.rows[m.key := WrittenRow(s, WriteOf(m))];
      s.(rows := map k | k in rows :: Settled(g, k.kind, rows[k], m))
  }

  function Executed(g: Goals, s: Server, queue: seq<Mutation>): Server {
    if queue == [] then s else Run(g, Executed(g, s, queue[..|queue| - 1]), queue[|queue| - 1])
  }

  // ---------- one entity ----------

  function RowOf(s: Server, k: Key): Option<Row> {
    Lookup(s.rows, k)
  }

  /** A record of another entity touches a row only by the cascade. */
  lemma RunElsewhere(g: Goals, s: Server, m: Mutation, k: Key)
    requires m.key != k
    ensures RowOf(Run(g, s, m), k)
            == if !Clashes(s, Outbound(m)) && k in s.rows then Some(Settled(g, k.kind, s.rows[k], m)) else RowOf(s, k)
  {
  }

  lemma RunHere(g: Goals, s: Server, m: Mutation)
    requires !Clashes(s, Outbound(m))
    ensures RowOf(Run(g, s, m), m.key) == Some(WrittenRow(s, WriteOf(m)))
  {
  }

  ghost predicate DistinctKeys(queue: seq<Mutation>) {
    forall i, j :: 0 <= i < j < |queue| ==> queue[i].key != queue[j].key
  }

  ghost predicate AllFit(s: Server, queue: seq<Mutation>) {
    forall i :: 0 <= i < |queue| ==> !Clashes(s, Outbound(queue[i]))
  }

  /** The goal of the milestone or task k, as a body of it says, is deleted by a record of queue[from..to]. */
  ghost predicate GoalDeleted(g: Goals, k: Key, body: Body, queue: seq<Mutation>, from: nat, to: nat)
    requires from <= to <= |queue|
  {
    Hangs(k.kind) && exists i :: from <= i < to && DeletesGoal(queue[i], g.of(body))
  }

  lemma GoalDeletedOneMore(g: Goals, k: Key, body: Body, queue: seq<Mutation>, from: nat, to: nat)
    requires from < to <= |queue|
    ensures GoalDeleted(g, k, body, queue, from, to)
            <==> GoalDeleted(g, k, body, queue, from, to - 1) || (Hangs(k.kind) && DeletesGoal(queue[to - 1], g.of(body)))
  {
  }

  lemma ExecutedOneMore(g: Goals, s: Server, queue: seq<Mutation>, n: nat)
    requires 0 < n <= |queue|
    ensures Executed(g, s, queue[..n]) == Run(g, Executed(g, s, queue[..n - 1]), queue[n - 1])
  {
    assert queue[..n][..n - 1] == queue[..n - 1];
  }

  /** What a stretch of the queue leaves of a live row that none of its records is about. */
  ghost function CascadeOf(g: Goals, k: Key, row: Row, queue: seq<Mutation>, from: nat, to: nat): Row
    requires from <= to <= |queue| && LiveRow(row)
  {
    if GoalDeleted(g, k, Last(row), queue, from, to) then CascadedRow(g, k.kind, row) else row
  }

  lemma CascadeStep(g: Goals, k: Key, row: Row, queue: seq<Mutation>, from: nat, to: nat)
    requires Detaches(g) && from < to <= |queue| && LiveRow(row)
    ensures CascadeOf(g, k, row, queue, from, to) == Settled(g, k.kind, CascadeOf(g, k, row, queue, from, to - 1), queue[to - 1])
  {
    GoalDeletedOneMore(g, k, Last(row), queue, from, to);
  }

  /** A goal's record is executed as it fits: no cascade touches a goal. */
  lemma {:induction false} GoalsStay(g: Goals, s: Server, queue: seq<Mutation>, n: nat, k: Key)
    requires n <= |queue| && !Hangs(k.kind) && forall i :: 0 <= i < n ==> queue[i].key != k
    ensures RowOf(Executed(g, s, queue[..n]), k) == RowOf(s, k)
  {
    if n > 0 {
      GoalsStay(g, s, queue, n - 1, k);
      ExecutedOneMore(g, s, queue, n);
      RunElsewhere(g, Executed(g, s, queue[..n - 1]), queue[n - 1], k);
    }
  }

  lemma GoalRecordFits(g: Goals, s: Server, queue: seq<Mutation>, i: nat)
    requires DistinctKeys(queue) && AllFit(s, queue) && i < |queue| && !Hangs(queue[i].key.kind)
    ensures !Clashes(Executed(g, s, queue[..i]), Outbound(queue[i]))
  {
    GoalsStay(g, s, queue, i, queue[i].key);
    SameRowSameClash(s, Executed(g, s, queue[..i]), Outbound(queue[i]));
  }

  lemma SameRowSameClash(s: Server, s': Server, item: Item)
    requires RowOf(s, item.key) == RowOf(s', item.key)
    ensures Clashes(s, item) <==> Clashes(s', item)
  {
  }

  /** A live row changes over a stretch of the queue that is not about it exactly if its goal is deleted there. */
  lemma {:induction false} RowAfter(g: Goals, s: Server, queue: seq<Mutation>, from: nat, n: nat, k: Key, row: Row)
    requires Detaches(g) && DistinctKeys(queue) && AllFit(s, queue) && from <= n <= |queue|
    requires forall i :: from <= i < n ==> queue[i].key != k
    requires LiveRow(row) && RowOf(Executed(g, s, queue[..from]), k) == Some(row)
    ensures RowOf(Executed(g, s, queue[..n]), k) == Some(CascadeOf(g, k, row, queue, from, n))
  {
    if from < n {
      RowAfter(g, s, queue, from, n - 1, k, row);
      ExecutedOneMore(g, s, queue, n);
      CascadeStep(g, k, row, queue, from, n);
      RecordCascades(g, s, queue, n - 1, k);
    }
  }

  /** A record of another entity always has its cascade: if it deletes a goal, it fits. */
  lemma RecordCascades(g: Goals, s: Server, queue: seq<Mutation>, i: nat, k: Key)
    requires DistinctKeys(queue) && AllFit(s, queue) && i < |queue| && queue[i].key != k
    ensures var before := Executed(g, s, queue[..i]);
            k in before.rows ==> RowOf(Run(g, before, queue[i]), k) == Some(Settled(g, k.kind, before.rows[k], queue[i]))
  {
    RunElsewhere(g, Executed(g, s, queue[..i]), queue[i], k);
    if queue[i].key.kind == Kind.Goal { GoalRecordFits(g, s, queue, i); }
  }

  /** A missing or deleted row stays as it is. */
  lemma {:induction false} DeadAfter(g: Goals, s: Server, queue: seq<Mutation>, from: nat, n: nat, k: Key)
    requires from <= n <= |queue| && forall i :: from <= i < n ==> queue[i].key != k
    requires var row := RowOf(Executed(g, s, queue[..from]), k); row.None? || !LiveRow(row.value)
    ensures RowOf(Executed(g, s, queue[..n]), k) == RowOf(Executed(g, s, queue[..from]), k)
  {
    if from < n {
      DeadAfter(g, s, queue, from, n - 1, k);
      ExecutedOneMore(g, s, queue, n);
      RunElsewhere(g, Executed(g, s, queue[..n - 1]), queue[n - 1], k);
    }
  }

  // ---------- clashes ----------

  /** The record is about a milestone or task that the server has, and an earlier record deletes its goal. */
  ghost predicate Overtaken(g: Goals, s: Server, queue: seq<Mutation>, n: nat)
    requires n < |queue|
  {
    View(s, queue[n].key).Some? && GoalDeleted(g, queue[n].key, View(s, queue[n].key).value.body, queue, 0, n)
  }

  /** If every record of a queue fits the server it was made on, one clashes while the queue is executed exactly if an
      earlier record deletes the goal of its milestone or task. */
  lemma QueueClashesExactly(g: Goals, s: Server, c: Client, queue: seq<Mutation>, n: nat)
    requires Detaches(g) && Sound(c) && IsQueue(c, queue) && n < |queue| && AllFit(s, queue)
    requires forall k :: k in s.rows ==> |s.rows[k].log| > 0
    ensures Clashes(Executed(g, s, queue[..n]), Outbound(queue[n])) <==> Overtaken(g, s, queue, n)
  {
    QueueKeys(c, queue);
    var k := queue[n].key;
    assert queue[..0] == [];
    if k in s.rows && LiveRow(s.rows[k]) {
      RowAfter(g, s, queue, 0, n, k, s.rows[k]);
    } else {
      DeadAfter(g, s, queue, 0, n, k);
    }
  }

  // ---------- what arrives ----------

  function Bodies(s: Server): map<Key, Body> {
    map k | k in s.rows && View(s, k).Some? :: View(s, k).value.body
  }

  function BodyOf(row: Option<Row>): Option<Body> {
    if row.Some? && LiveRow(row.value) then Some(Last(row.value)) else None
  }

  /** What the deletion of its goal, by a record of the queue from there on, leaves of an entity. */
  ghost function AfterDeletion(g: Goals, k: Key, value: Option<Body>, queue: seq<Mutation>, from: nat): Option<Body>
    requires from <= |queue|
  {
    if value.Some? && GoalDeleted(g, k, value.value, queue, from, |queue|) then
      if k.kind == Kind.Milestone then None else Some(g.detach(value.value))
    else value
  }

  lemma LiveArrives(g: Goals, s: Server, queue: seq<Mutation>, from: nat, k: Key, row: Row)
    requires Detaches(g) && DistinctKeys(queue) && AllFit(s, queue) && from <= |queue|
    requires forall i :: from <= i < |queue| ==> queue[i].key != k
    requires LiveRow(row) && RowOf(Executed(g, s, queue[..from]), k) == Some(row)
    ensures BodyOf(RowOf(Executed(g, s, queue), k)) == AfterDeletion(g, k, Some(Last(row)), queue, from)
  {
    RowAfter(g, s, queue, from, |queue|, k, row);
    assert queue[..|queue|] == queue;
  }

  lemma DeadArrives(g: Goals, s: Server, queue: seq<Mutation>, from: nat, k: Key)
    requires from <= |queue| && forall i :: from <= i < |queue| ==> queue[i].key != k
    requires BodyOf(RowOf(Executed(g, s, queue[..from]), k)) == None
    ensures BodyOf(RowOf(Executed(g, s, queue), k)) == None
  {
    DeadAfter(g, s, queue, from, |queue|, k);
    assert queue[..|queue|] == queue;
  }

  /** An entity that no record is about is as the server had it, but for its goal's deletion. */
  lemma UnrecordedArrives(g: Goals, s: Server, queue: seq<Mutation>, k: Key)
    requires Detaches(g) && DistinctKeys(queue) && AllFit(s, queue) && forall i :: 0 <= i < |queue| ==> queue[i].key != k
    ensures BodyOf(RowOf(Executed(g, s, queue), k)) == AfterDeletion(g, k, BodyOf(RowOf(s, k)), queue, 0)
  {
    assert queue[..0] == [];
    if BodyOf(RowOf(s, k)).Some? {
      LiveArrives(g, s, queue, 0, k, s.rows[k]);
    } else {
      DeadArrives(g, s, queue, 0, k);
    }
  }

  /** A record that fits when its turn comes leaves its effect, but for its goal's deletion later on. */
  lemma FittingArrives(g: Goals, s: Server, queue: seq<Mutation>, n: nat)
    requires Detaches(g) && DistinctKeys(queue) && AllFit(s, queue) && n < |queue|
    requires !Clashes(Executed(g, s, queue[..n]), Outbound(queue[n]))
    ensures BodyOf(RowOf(Executed(g, s, queue), queue[n].key))
            == AfterDeletion(g, queue[n].key, Effect(queue[n].operation, queue[n].payload), queue, n + 1)
  {
    var k, before := queue[n].key, Executed(g, s, queue[..n]);
    ExecutedOneMore(g, s, queue, n + 1);
    RunHere(g, before, queue[n]);
    var row := WrittenRow(before, WriteOf(queue[n]));
    if queue[n].operation == Delete {
      DeadArrives(g, s, queue, n + 1, k);
    } else {
      LiveArrives(g, s, queue, n + 1, k, row);
    }
  }

  /** An overtaken record leaves nothing: its entity is as the server had it, after its goal's deletion. */
  lemma OvertakenArrives(g: Goals, s: Server, queue: seq<Mutation>, n: nat)
    requires Detaches(g) && DistinctKeys(queue) && AllFit(s, queue) && n < |queue| && Overtaken(g, s, queue, n)
    requires Clashes(Executed(g, s, queue[..n]), Outbound(queue[n]))
    ensures BodyOf(RowOf(Executed(g, s, queue), queue[n].key)) == AfterDeletion(g, queue[n].key, BodyOf(RowOf(s, queue[n].key)), queue, 0)
  {
    var k := queue[n].key;
    var row := s.rows[k];
    assert queue[..0] == [];
    RowAfter(g, s, queue, 0, n, k, row);
    ExecutedOneMore(g, s, queue, n + 1);
    GoalDeletedLonger(g, k, Last(row), queue, n);
    var left := CascadedRow(g, k.kind, row);
    if k.kind == Kind.Milestone {
      DeadArrives(g, s, queue, n + 1, k);
    } else {
      LiveArrives(g, s, queue, n + 1, k, left);
      assert g.of(Last(left)).None?;
    }
  }

  lemma GoalDeletedLonger(g: Goals, k: Key, body: Body, queue: seq<Mutation>, n: nat)
    requires n <= |queue| && GoalDeleted(g, k, body, queue, 0, n)
    ensures GoalDeleted(g, k, body, queue, 0, |queue|)
  {
    var i :| 0 <= i < n && DeletesGoal(queue[i], g.of(body));
  }

  /** The place of the record about k, if there is one. */
  ghost function RecordOf(queue: seq<Mutation>, k: Key): (r: Option<nat>)
    ensures r.Some? ==> r.value < |queue| && queue[r.value].key == k
    ensures r.None? ==> forall i :: 0 <= i < |queue| ==> queue[i].key != k
  {
    if n :| 0 <= n < |queue| && queue[n].key == k then Some(n) else None
  }

  /** What the queue leaves of an entity: what its record, if any, means, or the server's body if that record is
      overtaken; either way as the deletion of its goal by a record behind leaves it. */
  ghost function Arrived(g: Goals, s: Server, queue: seq<Mutation>, meant: Option<Body>, k: Key): Option<Body> {
    match RecordOf(queue, k)
    case None => AfterDeletion(g, k, meant, queue, 0)
    case Some(n) =>
      if Overtaken(g, s, queue, n) then AfterDeletion(g, k, BodyOf(RowOf(s, k)), queue, 0)
      else AfterDeletion(g, k, meant, queue, n + 1)
  }

  lemma BodyAt(s: Server, k: Key)
    ensures Lookup(Bodies(s), k) == BodyOf(RowOf(s, k))
  {
  }

  /** What the raw edits mean for k is what its record means, or what the server has. */
  lemma MeantByRecord(s: Server, c: Client, edits: seq<Edit>, queue: seq<Mutation>, k: Key)
    requires c.mutations == map[] && OfflineStore.FreshIds(c, edits) && NeverDropsKnown(Bodies(s), c, edits)
    requires IsQueue(EnqueueAll(c, edits), queue)
    ensures Sound(EnqueueAll(c, edits)) && DistinctKeys(queue)
    ensures Lookup(ReplayEdits(Bodies(s), edits), k)
            == match RecordOf(queue, k)
               case None => Lookup(Bodies(s), k)
               case Some(n) => Effect(queue[n].operation, queue[n].payload)
  {
    CompactionPreservesMeaning(Bodies(s), c, [], edits, queue);
    assert edits[..|edits|] == edits;
    OfflineStore.EnqueuePrefix(c, edits, |edits|);
    QueueKeys(EnqueueAll(c, edits), queue);
    QueueEffect(Bodies(s), queue, k);
  }

  lemma RecordArrives(g: Goals, s: Server, c: Client, queue: seq<Mutation>, n: nat)
    requires Detaches(g) && Sound(c) && IsQueue(c, queue) && DistinctKeys(queue) && n < |queue| && AllFit(s, queue)
    requires forall k :: k in s.rows ==> |s.rows[k].log| > 0
    ensures BodyOf(RowOf(Executed(g, s, queue), queue[n].key))
            == if Overtaken(g, s, queue, n) then AfterDeletion(g, queue[n].key, BodyOf(RowOf(s, queue[n].key)), queue, 0)
               else AfterDeletion(g, queue[n].key, Effect(queue[n].operation, queue[n].payload), queue, n + 1)
  {
    QueueClashesExactly(g, s, c, queue, n);
    if Overtaken(g, s, queue, n) { OvertakenArrives(g, s, queue, n); } else { FittingArrives(g, s, queue, n); }
  }

  /** Offline work end to end: edits compacted into an empty queue, and executed, leave of every entity what the raw
      edits mean, but for the records that the deletion of a goal overtakes, and for what that deletion cascades to. */
  lemma OfflineWorkArrives(g: Goals, s: Server, c: Client, edits: seq<Edit>, queue: seq<Mutation>, k: Key)
    requires c.mutations == map[] && OfflineStore.FreshIds(c, edits) && NeverDropsKnown(Bodies(s), c, edits)
    requires IsQueue(EnqueueAll(c, edits), queue) && AllFit(s, queue) && Detaches(g)
    requires forall x :: x in s.rows ==> |s.rows[x].log| > 0
    ensures Lookup(Bodies(Executed(g, s, queue)), k) == Arrived(g, s, queue, Lookup(ReplayEdits(Bodies(s), edits), k), k)
  {
    MeantByRecord(s, c, edits, queue, k);
    BodyAt(Executed(g, s, queue), k);
    BodyAt(s, k);
    match RecordOf(queue, k)
    case Some(n) => RecordArrives(g, s, EnqueueAll(c, edits), queue, n);
    case None => UnrecordedArrives(g, s, queue, k);
  }
}
