/** Executing the diff of two states on the server that the old state was read from, with versions and the cascade of
    goal deletions: which mutations are refused, and what arrives. */
module DiffExecution {
  import opened Entities
  import opened StateDiff
  import opened GoalDeletion

  // The live entities of a server. The ids it deleted before stay taken; a diff does not create what it deletes.
  type Rows = map<Key, Snapshot>

  /** What the server has of a state: all that was ever synchronised. */
  function Synchronised(m: map<Key, Snapshot>): Rows {
    map k | k in m && m[k].version >= 1 :: m[k]
  }

  predicate Hangs(k: Key, row: Snapshot, goal: Key) {
    (k.kind == Kind.Milestone || k.kind == Kind.Task) && goal.kind == Kind.Goal && row.payload.goal == Some(goal.id)
  }

  /** What the deletion of its goal leaves of a milestone or task. */
  function Uprooted(k: Key, row: Snapshot): Option<Snapshot> {
    if k.kind == Kind.Milestone then None else Some(Snapshot(row.version + 1, row.payload.(goal := None)))
  }

  predicate Accepted(rows: Rows, spent: set<Key>, m: Prepared) {
    if m.operation == Create then m.base == 0 && m.key !in rows && m.key !in spent
    else m.base >= 1 && m.key in rows && rows[m.key].version == m.base
  }

  function Execute(rows: Rows, spent: set<Key>, m: Prepared): Rows {
    if !Accepted(rows, spent, m) then rows
    else if m.operation != Delete then (if m.payload.Some? then rows[m.key := Snapshot(m.base + 1, m.payload.value)] else rows)
    else
      map k | k in rows && k != m.key && (Hangs(k, rows[k], m.key) ==> Uprooted(k, rows[k]).Some?) ::
        if Hangs(k, rows[k], m.key) then Uprooted(k, rows[k]).value else rows[k]
  }

  function ExecuteAll(rows: Rows, spent: set<Key>, ms: seq<Prepared>): Rows {
    if ms == [] then rows else Execute(ExecuteAll(rows, spent, ms[..|ms| - 1]), spent, ms[|ms| - 1])
  }

  // ---------- entity by entity ----------

  function RowAt(rows: Rows, spent: set<Key>, ms: seq<Prepared>, n: nat, k: Key): Option<Snapshot>
    requires n <= |ms|
  {
    Lookup(ExecuteAll(rows, spent, ms[..n]), k)
  }

  lemma OneMore(rows: Rows, spent: set<Key>, ms: seq<Prepared>, n: nat)
    requires 0 < n <= |ms|
    ensures ExecuteAll(rows, spent, ms[..n]) == Execute(ExecuteAll(rows, spent, ms[..n - 1]), spent, ms[n - 1])
  {
    assert ms[..n][..n - 1] == ms[..n - 1];
  }

  /** Of the rows at hand, k is one that the mutation uproots. */
  predicate Drops(rows: Rows, m: Prepared, k: Key) {
    k in rows && m.operation == Delete && Accepted(rows, {}, m) && Hangs(k, rows[k], m.key)
  }

  lemma ExecuteElsewhere(rows: Rows, spent: set<Key>, m: Prepared, k: Key)
    requires m.key != k
    ensures Lookup(Execute(rows, spent, m), k) == if Drops(rows, m, k) then Uprooted(k, rows[k]) else Lookup(rows, k)
  {
  }

  ghost predicate Dropped(rows: Rows, ms: seq<Prepared>, n: nat, k: Key)
    requires n <= |ms|
  {
    exists i :: 0 <= i < n && Drops(rows, ms[i], k)
  }

  ghost function Left(rows: Rows, ms: seq<Prepared>, n: nat, k: Key): Option<Snapshot>
    requires n <= |ms|
  {
    if Dropped(rows, ms, n, k) then Uprooted(k, rows[k]) else Lookup(rows, k)
  }

  lemma DroppedOneMore(rows: Rows, ms: seq<Prepared>, n: nat, k: Key)
    requires 0 < n <= |ms|
    ensures Dropped(rows, ms, n, k) <==> Dropped(rows, ms, n - 1, k) || Drops(rows, ms[n - 1], k)
  {
  }

  /** Until its own mutation comes, an entity is as the server had it, but for the deletion of its goal. */
  lemma {:induction false} BeforeItsTurn(rows: Rows, spent: set<Key>, ms: seq<Prepared>, n: nat, k: Key)
    requires DistinctKeys(ms) && n <= |ms| && forall i :: 0 <= i < n ==> ms[i].key != k
    ensures RowAt(rows, spent, ms, n, k) == Left(rows, ms, n, k)
  {
    if n > 0 {
      var m, before := ms[n - 1], ExecuteAll(rows, spent, ms[..n - 1]);
      BeforeItsTurn(rows, spent, ms, n - 1, k);
      BeforeItsTurn(rows, spent, ms, n - 1, m.key);
      OneMore(rows, spent, ms, n);
      ExecuteElsewhere(before, spent, m, k);
      DroppedOneMore(rows, ms, n, k);
      if m.key.kind == Kind.Goal { assert Lookup(before, m.key) == Lookup(rows, m.key); }
    }
  }

  /** After its own mutation no other concerns an entity: goals come first. */
  lemma {:induction false} AfterItsTurn(rows: Rows, spent: set<Key>, ms: seq<Prepared>, i: nat, n: nat)
    requires DistinctKeys(ms) && Ranked(ms) && i < n <= |ms|
    ensures RowAt(rows, spent, ms, n, ms[i].key) == RowAt(rows, spent, ms, i + 1, ms[i].key)
  {
    if i + 1 < n {
      AfterItsTurn(rows, spent, ms, i, n - 1);
      OneMore(rows, spent, ms, n);
      assert Rank(ms[i].key.kind) <= Rank(ms[n - 1].key.kind);
      ExecuteElsewhere(ExecuteAll(rows, spent, ms[..n - 1]), spent, ms[n - 1], ms[i].key);
    }
  }

  // ---------- the diff ----------

  /** The entity is a synchronised milestone or task whose goal, synchronised too, is not in the next state. */
  ghost predicate LosesGoal(previous: map<Key, Snapshot>, next: map<Key, Snapshot>, k: Key) {
    && k in Synchronised(previous)
    && exists goal :: goal in Synchronised(previous) && goal !in next && Hangs(k, previous[k], goal)
  }

  lemma GoalIsDropped(previous: map<Key, Snapshot>, next: map<Key, Snapshot>, deleteGoal: bool, ms: seq<Prepared>, k: Key)
    requires IsDiff(previous, next, deleteGoal, ms) && LosesGoal(previous, next, k)
    ensures Dropped(Synchronised(previous), ms, |ms|, k)
  {
    var goal :| goal in Synchronised(previous) && goal !in next && Hangs(k, previous[k], goal);
    assert Diff(Lookup(previous, goal), Lookup(next, goal), goal, deleteGoal).Some?;
    var m :| m in ms && m.key == goal;
    var i :| 0 <= i < |ms| && ms[i] == m;
    assert Diff(Lookup(previous, m.key), Lookup(next, m.key), m.key, deleteGoal) == Some(m);
    assert Drops(Synchronised(previous), ms[i], k);
  }

  lemma DroppedLosesGoal(previous: map<Key, Snapshot>, next: map<Key, Snapshot>, deleteGoal: bool, ms: seq<Prepared>, k: Key)
    requires IsDiff(previous, next, deleteGoal, ms) && Dropped(Synchronised(previous), ms, |ms|, k)
    ensures LosesGoal(previous, next, k)
  {
    var i :| 0 <= i < |ms| && Drops(Synchronised(previous), ms[i], k);
    var m := ms[i];
    assert m in ms;
    assert Diff(Lookup(previous, m.key), Lookup(next, m.key), m.key, deleteGoal) == Some(m);
    assert m.key in Synchronised(previous) && m.key !in next && Hangs(k, previous[k], m.key);
  }

  /** The deletion of its goal comes before the mutation of a milestone or task. */
  lemma DroppedInTime(rows: Rows, ms: seq<Prepared>, i: nat)
    requires Ranked(ms) && DistinctKeys(ms) && i < |ms|
    ensures Dropped(rows, ms, i, ms[i].key) <==> Dropped(rows, ms, |ms|, ms[i].key)
  {
    if Dropped(rows, ms, |ms|, ms[i].key) {
      var j :| 0 <= j < |ms| && Drops(rows, ms[j], ms[i].key);
      assert j < i;
    }
  }

  lemma RowInTurn(previous: map<Key, Snapshot>, next: map<Key, Snapshot>, deleteGoal: bool, spent: set<Key>,
       ms: seq<Prepared>, i: nat)
    requires IsDiff(previous, next, deleteGoal, ms) && i < |ms|
    ensures var k, rows := ms[i].key, Synchronised(previous);
            RowAt(rows, spent, ms, i, k) == if LosesGoal(previous, next, k) then Uprooted(k, rows[k]) else Lookup(rows, k)
  {
    var k, rows := ms[i].key, Synchronised(previous);
    BeforeItsTurn(rows, spent, ms, i, k);
    DroppedInTime(rows, ms, i);
    if LosesGoal(previous, next, k) { GoalIsDropped(previous, next, deleteGoal, ms, k); }
    if Dropped(rows, ms, |ms|, k) { DroppedLosesGoal(previous, next, deleteGoal, ms, k); }
  }

  /** A mutation of the diff is accepted exactly if it is well shaped, creates under an id the server has not deleted, and is
      not about a milestone or task whose goal the same diff deletes. */
  lemma AcceptedExactly(previous: map<Key, Snapshot>, next: map<Key, Snapshot>, deleteGoal: bool, spent: set<Key>,
       ms: seq<Prepared>, i: nat)
    requires IsDiff(previous, next, deleteGoal, ms) && i < |ms|
    ensures Accepted(ExecuteAll(Synchronised(previous), spent, ms[..i]), spent, ms[i])
            <==> && (ms[i].operation == Create <==> ms[i].base == 0)
                 && !(ms[i].operation == Create && ms[i].key in spent)
                 && !LosesGoal(previous, next, ms[i].key)
  {
    RowInTurn(previous, next, deleteGoal, spent, ms, i);
    assert ms[i] in ms;
    assert Diff(Lookup(previous, ms[i].key), Lookup(next, ms[i].key), ms[i].key, deleteGoal) == Some(ms[i]);
  }

  /** The next state has the entity again that the server has deleted for good. */
  predicate ComesBack(previous: map<Key, Snapshot>, next: map<Key, Snapshot>, deleteGoal: bool, spent: set<Key>, k: Key) {
    k in spent && k in next && k !in Synchronised(previous) && Diff(Lookup(previous, k), Lookup(next, k), k, deleteGoal).Some?
  }

  function PayloadOf(s: Option<Snapshot>): Option<Payload> {
    if s.Some? then Some(s.value.payload) else None
  }

  /** What is on the server once the diff has been executed. */
  lemma Executed(previous: map<Key, Snapshot>, next: map<Key, Snapshot>, deleteGoal: bool, spent: set<Key>,
       ms: seq<Prepared>, k: Key)
    requires IsDiff(previous, next, deleteGoal, ms)
    ensures PayloadOf(Lookup(ExecuteAll(Synchronised(previous), spent, ms), k))
            == if LosesGoal(previous, next, k) then PayloadOf(Uprooted(k, previous[k]))
               else if ComesBack(previous, next, deleteGoal, spent, k) then None
               else if Diff(Lookup(previous, k), Lookup(next, k), k, deleteGoal).Some? then PayloadOf(Lookup(next, k))
               else PayloadOf(Lookup(Synchronised(previous), k))
  {
    assert ms[..|ms|] == ms;
    if m :| m in ms && m.key == k {
      var i :| 0 <= i < |ms| && ms[i] == m;
      MutatedExecuted(previous, next, deleteGoal, spent, ms, i);
    } else {
      UnmutatedExecuted(previous, next, deleteGoal, spent, ms, k);
    }
  }

  lemma MutatedExecuted(previous: map<Key, Snapshot>, next: map<Key, Snapshot>, deleteGoal: bool, spent: set<Key>,
       ms: seq<Prepared>, i: nat)
    requires IsDiff(previous, next, deleteGoal, ms) && i < |ms|
    ensures PayloadOf(RowAt(Synchronised(previous), spent, ms, |ms|, ms[i].key))
            == if LosesGoal(previous, next, ms[i].key) then PayloadOf(Uprooted(ms[i].key, previous[ms[i].key]))
               else if ComesBack(previous, next, deleteGoal, spent, ms[i].key) then None
               else PayloadOf(Lookup(next, ms[i].key))
  {
    var rows, m := Synchronised(previous), ms[i];
    RowInTurn(previous, next, deleteGoal, spent, ms, i);
    AcceptedExactly(previous, next, deleteGoal, spent, ms, i);
    AfterItsTurn(rows, spent, ms, i, |ms|);
    OneMore(rows, spent, ms, i + 1);
    assert m in ms;
    assert Diff(Lookup(previous, m.key), Lookup(next, m.key), m.key, deleteGoal) == Some(m);
  }

  lemma UnmutatedExecuted(previous: map<Key, Snapshot>, next: map<Key, Snapshot>, deleteGoal: bool, spent: set<Key>,
       ms: seq<Prepared>, k: Key)
    requires IsDiff(previous, next, deleteGoal, ms) && forall m :: m in ms ==> m.key != k
    ensures Diff(Lookup(previous, k), Lookup(next, k), k, deleteGoal).None?
    ensures RowAt(Synchronised(previous), spent, ms, |ms|, k)
            == if LosesGoal(previous, next, k) then Uprooted(k, previous[k]) else Lookup(Synchronised(previous), k)
  {
    var rows := Synchronised(previous);
    forall i | 0 <= i < |ms| ensures ms[i].key != k { assert ms[i] in ms; }
    BeforeItsTurn(rows, spent, ms, |ms|, k);
    if LosesGoal(previous, next, k) { GoalIsDropped(previous, next, deleteGoal, ms, k); }
    if Dropped(rows, ms, |ms|, k) { DroppedLosesGoal(previous, next, deleteGoal, ms, k); }
  }

  // ---------- what arrives ----------

  /** An earlier, still pending create is all there is of the entity, and the diff says nothing about it. */
  predicate Waiting(previous: map<Key, Snapshot>, next: map<Key, Snapshot>, deleteGoal: bool, k: Key) {
    k in previous && previous[k].version == 0 && Diff(Lookup(previous, k), Lookup(next, k), k, deleteGoal).None?
  }

  ghost predicate Arrives(previous: map<Key, Snapshot>, next: map<Key, Snapshot>, spent: set<Key>, ms: seq<Prepared>, k: Key) {
    PayloadOf(Lookup(ExecuteAll(Synchronised(previous), spent, ms), k)) == PayloadOf(Lookup(next, k))
  }

  /** For every action but the deletion of a goal: an entity arrives on the server as the next state has it exactly if
      its id was not deleted there before, and it does not lose its goal, or the next state has it as the server's
      cascade leaves it. What waits in the queue still waits. */
  lemma DiffArrivesExactly(previous: map<Key, Snapshot>, next: map<Key, Snapshot>, spent: set<Key>, ms: seq<Prepared>, k: Key)
    requires IsDiff(previous, next, false, ms)
    ensures !Waiting(previous, next, false, k) ==>
              (Arrives(previous, next, spent, ms, k)
               <==> !ComesBack(previous, next, false, spent, k)
                    && (LosesGoal(previous, next, k) ==> PayloadOf(Lookup(next, k)) == PayloadOf(Uprooted(k, previous[k]))))
    ensures Waiting(previous, next, false, k) ==> k !in ExecuteAll(Synchronised(previous), spent, ms)
  {
    Executed(previous, next, false, spent, ms, k);
  }

  /** The deletion of a goal arrives exactly if the goal was synchronised, but for ids the server deleted before. If it
      was not, its synchronised milestones and tasks stay behind. In any case no mutation is about a milestone or task
      of the goal, so that a create still pending goes out naming the goal. */
  lemma GoalDeletionArrivesExactly(data: AppData, id: string, spent: set<Key>, ms: seq<Prepared>, k: Key)
    requires WellFormed(data) && HasGoal(data, id)
    requires IsDiff(ToMap(Entries(data)), ToMap(Entries(DeleteGoal(data, id))), true, ms)
    ensures GoalDeletionArrives(ToMap(Entries(data)), ToMap(Entries(DeleteGoal(data, id))), id, spent, ms, k)
  {
    GoalIsCollected(data, id);
    DeletionTurns(data, id);
    TurnedArrives(ToMap(Entries(data)), ToMap(Entries(DeleteGoal(data, id))), id, spent, ms, k);
  }

  ghost predicate GoalDeletionArrives(previous: map<Key, Snapshot>, next: map<Key, Snapshot>, id: string, spent: set<Key>,
                                      ms: seq<Prepared>, k: Key)
  {
    var goal := Key(Kind.Goal, id);
    && goal in previous
    && (!Waiting(previous, next, true, k) ==>
          (Arrives(previous, next, spent, ms, k)
           <==> !ComesBack(previous, next, true, spent, k)
                && (previous[goal].version >= 1 || !(k in Synchronised(previous) && Hangs(k, previous[k], goal)))))
    && (k in previous && Hangs(k, previous[k], goal) ==> forall m :: m in ms ==> m.key != k)
  }

  lemma TurnedArrives(previous: map<Key, Snapshot>, next: map<Key, Snapshot>, id: string, spent: set<Key>, ms: seq<Prepared>, k: Key)
    requires Turned(previous, next, id) && IsDiff(previous, next, true, ms) && Key(Kind.Goal, id) in previous
    ensures GoalDeletionArrives(previous, next, id, spent, ms, k)
  {
    var goal := Key(Kind.Goal, id);
    TurnedLosesGoal(previous, next, id, k);
    Executed(previous, next, true, spent, ms, k);
    assert Lookup(next, k) == if k in previous then After(k, previous[k], id) else None;
    forall m | m in ms && m.key == k ensures !(k in previous && Hangs(k, previous[k], goal)) {
      assert Diff(Lookup(previous, m.key), Lookup(next, m.key), m.key, true) == Some(m);
    }
  }

  /** Only the milestones and tasks of the goal lose it, and only if it was synchronised. */
  lemma TurnedLosesGoal(previous: map<Key, Snapshot>, next: map<Key, Snapshot>, id: string, k: Key)
    requires Turned(previous, next, id) && Key(Kind.Goal, id) in previous
    ensures var goal := Key(Kind.Goal, id);
            LosesGoal(previous, next, k)
            <==> k in Synchronised(previous) && previous[goal].version >= 1 && Hangs(k, previous[k], goal)
  {
    var goal := Key(Kind.Goal, id);
    assert Lookup(next, goal) == After(goal, previous[goal], id);
    if LosesGoal(previous, next, k) {
      var g :| g in Synchronised(previous) && g !in next && Hangs(k, previous[k], g);
      assert Lookup(next, g) == After(g, previous[g], id);
    }
  }
}
