/** Turning a change of the app state into mutations: the diff of two states, in resource order, and the deletion of a
    goal, which leaves its milestones and tasks to the server's cascade. */
module StateDiff {
  import opened Entities

  // The payload of an entity. `goal` is the goal of a milestone, task or event, `links` the linked entities of a note.
  datatype Payload = Payload(fields: string, goal: Option<string>, links: seq<string>)

  datatype Resource = Resource(id: string, version: nat, payload: Payload)
  datatype GoalItem = GoalItem(item: Resource, milestones: seq<Resource>)

  datatype AppData = AppData(goals: seq<GoalItem>, records: seq<Resource>, tasks: seq<Resource>, events: seq<Resource>,
                             notes: seq<Resource>, reviews: seq<Resource>, settings: Resource)

  datatype Snapshot = Snapshot(version: nat, payload: Payload)
  type Entry = (Key, Snapshot)

  datatype Prepared = Prepared(key: Key, operation: Operation, base: nat, payload: Option<Payload>)

  // ---------- collecting a state ----------

  function EntriesOf(kind: Kind, items: seq<Resource>): (r: seq<Entry>)
    ensures |r| == |items|
    ensures forall i :: 0 <= i < |r| ==> r[i] == (Key(kind, items[i].id), Snapshot(items[i].version, items[i].payload))
  {
    seq(|items|, i requires 0 <= i < |items| => (Key(kind, items[i].id), Snapshot(items[i].version, items[i].payload)))
  }

  function GoalItems(goals: seq<GoalItem>): (r: seq<Resource>)
    ensures |r| == |goals| && forall i :: 0 <= i < |r| ==> r[i] == goals[i].item
  {
    seq(|goals|, i requires 0 <= i < |goals| => goals[i].item)
  }

  function MilestonesOf(goals: seq<GoalItem>): (r: seq<Resource>)
    ensures forall m :: m in r <==> exists i :: 0 <= i < |goals| && m in goals[i].milestones
  {
    if goals == [] then []
    else
      var init, last := goals[..|goals| - 1], goals[|goals| - 1];
      assert forall i :: 0 <= i < |init| ==> init[i] == goals[i];
      MilestonesOf(init) + last.milestones
  }

  function Lists(data: AppData): seq<seq<Entry>> {
    [EntriesOf(Kind.Goal, GoalItems(data.goals)), EntriesOf(Kind.Milestone, MilestonesOf(data.goals)),
     EntriesOf(Kind.Record, data.records), EntriesOf(Kind.Task, data.tasks), EntriesOf(Kind.CalendarEvent, data.events),
     EntriesOf(Kind.Note, data.notes), EntriesOf(Kind.DailyReview, data.reviews), EntriesOf(Kind.Settings, [data.settings])]
  }

  function Entries(data: AppData): seq<Entry> {
    Flatten(Lists(data))
  }

  /** Later entries win. */
  function ToMap(entries: seq<Entry>): (r: map<Key, Snapshot>)
    ensures forall k :: k in r ==> (k, r[k]) in entries
    ensures forall e :: e in entries ==> e.0 in r
  {
    if entries == [] then map[]
    else
      var init, last := entries[..|entries| - 1], entries[|entries| - 1];
      assert entries == init + [last];
      ToMap(init)[last.0 := last.1]
  }

  // ---------- the diff ----------

  function Diff(old_: Option<Snapshot>, new_: Option<Snapshot>, k: Key, deleteGoal: bool): Option<Prepared> {
    if old_.None? && new_.Some? then Some(Prepared(k, Create, 0, Some(new_.value.payload)))
    else if old_.Some? && new_.None? then
      if deleteGoal && (k.kind == Kind.Milestone || k.kind == Kind.Task) then None
      else Some(Prepared(k, Delete, old_.value.version, None))
    else if old_.Some? && new_.Some? && old_.value.payload != new_.value.payload then
      if deleteGoal && k.kind == Kind.Task then None
      else Some(Prepared(k, if old_.value.version == 0 then Create else Update, old_.value.version, Some(new_.value.payload)))
    else None
  }

  function Rank(kind: Kind): nat {
    match kind
    case Goal => 10
    case Milestone => 20
    case Record => 30
    case Task => 40
    case CalendarEvent => 50
    case Reminder => 55
    case Note => 60
    case DailyReview => 70
    case Tag => 75
    case _ => 80
  }

  ghost predicate Ranked(ms: seq<Prepared>) {
    forall i, j :: 0 <= i < j < |ms| ==> Rank(ms[i].key.kind) <= Rank(ms[j].key.kind)
  }

  ghost predicate DistinctKeys(ms: seq<Prepared>) {
    forall i, j :: 0 <= i < j < |ms| ==> ms[i].key != ms[j].key
  }

  /** Exactly the differences, one mutation for each entity, in resource order. */
  ghost predicate IsDiff(previous: map<Key, Snapshot>, next: map<Key, Snapshot>, deleteGoal: bool, ms: seq<Prepared>) {
    && Ranked(ms) && DistinctKeys(ms)
    && (forall m :: m in ms ==> Diff(Lookup(previous, m.key), Lookup(next, m.key), m.key, deleteGoal) == Some(m))
    && (forall k :: Diff(Lookup(previous, k), Lookup(next, k), k, deleteGoal).Some? ==> exists m :: m in ms && m.key == k)
  }

  function InsertRanked(ms: seq<Prepared>, m: Prepared): (r: seq<Prepared>)
    requires Ranked(ms)
    ensures Ranked(r) && |r| == |ms| + 1
    ensures forall x :: x in r <==> x == m || x in ms
  {
    if ms == [] then [m]
    else
      var init, last := ms[..|ms| - 1], ms[|ms| - 1];
      assert ms == init + [last];
      if Rank(last.key.kind) <= Rank(m.key.kind) then ms + [m]
      else
        var r := InsertRanked(init, m);
        assert forall i :: 0 <= i < |r| ==> r[i] in r;
        r + [last]
  }

  lemma AppendKeepsDistinct(ms: seq<Prepared>, m: Prepared)
    requires DistinctKeys(ms) && forall x :: x in ms ==> x.key != m.key
    ensures DistinctKeys(ms + [m])
  {
    forall i | 0 <= i < |ms| ensures ms[i].key != m.key { assert ms[i] in ms; }
  }

  lemma {:induction false} InsertKeepsDistinct(ms: seq<Prepared>, m: Prepared)
    requires Ranked(ms) && DistinctKeys(ms) && forall x :: x in ms ==> x.key != m.key
    ensures DistinctKeys(InsertRanked(ms, m))
  {
    if ms != [] {
      var init, last := ms[..|ms| - 1], ms[|ms| - 1];
      assert ms == init + [last];
      if Rank(last.key.kind) <= Rank(m.key.kind) {
        AppendKeepsDistinct(ms, m);
      } else {
        InsertKeepsDistinct(init, m);
        var r := InsertRanked(init, m);
        forall x | x in r ensures x.key != last.key {
          if x in init {
            var i :| 0 <= i < |init| && init[i] == x;
            assert ms[i] == x;
          }
        }
        AppendKeepsDistinct(r, last);
      }
    }
  }

  /** The diff after some keys have been looked at. */
  ghost predicate IsDiffOf(previous: map<Key, Snapshot>, next: map<Key, Snapshot>, deleteGoal: bool, ms: seq<Prepared>, seen: set<Key>) {
    && Ranked(ms) && DistinctKeys(ms)
    && (forall m :: m in ms ==> m.key in seen && Diff(Lookup(previous, m.key), Lookup(next, m.key), m.key, deleteGoal) == Some(m))
    && (forall k :: k in seen && Diff(Lookup(previous, k), Lookup(next, k), k, deleteGoal).Some? ==> exists m :: m in ms && m.key == k)
  }

  lemma DiffStep(previous: map<Key, Snapshot>, next: map<Key, Snapshot>, deleteGoal: bool, ms: seq<Prepared>, seen: set<Key>, k: Key)
    requires IsDiffOf(previous, next, deleteGoal, ms, seen) && k !in seen
    ensures match Diff(Lookup(previous, k), Lookup(next, k), k, deleteGoal)
            case None => IsDiffOf(previous, next, deleteGoal, ms, seen + {k})
            case Some(m) => IsDiffOf(previous, next, deleteGoal, InsertRanked(ms, m), seen + {k})
  {
    match Diff(Lookup(previous, k), Lookup(next, k), k, deleteGoal)
    case None =>
    case Some(m) =>
      InsertKeepsDistinct(ms, m);
      var r := InsertRanked(ms, m);
      forall x | x in seen + {k} && Diff(Lookup(previous, x), Lookup(next, x), x, deleteGoal).Some?
        ensures exists y :: y in r && y.key == x
      {
        if x == k {
          assert m in r && m.key == k;
        } else {
          var y :| y in ms && y.key == x;
          assert y in r;
        }
      }
  }

  /** The mutations of a state change; each mutation is put in its place as it is made, which gives the order that the
      program's stable sort gives. */
  method PrepareMutations(before: seq<Entry>, after: seq<Entry>, deleteGoal: bool) returns (mutations: seq<Prepared>)
    ensures IsDiff(ToMap(before), ToMap(after), deleteGoal, mutations)
  {
    var previous, next := ToMap(before), ToMap(after);
    var keys := before + after;
    var seen: set<Key> := {};
    mutations := [];
    for i := 0 to |keys|
      invariant IsDiffOf(previous, next, deleteGoal, mutations, seen)
      invariant forall j :: 0 <= j < i ==> keys[j].0 in seen
    {
      var key := keys[i].0;
      if key in seen { continue; }
      DiffStep(previous, next, deleteGoal, mutations, seen, key);
      seen := seen + {key};
      var oldValue, newValue := Lookup(previous, key), Lookup(next, key);
      if oldValue.None? && newValue.Some? {
        mutations := InsertRanked(mutations, Prepared(key, Create, 0, Some(newValue.value.payload)));
        continue;
      }
      if oldValue.Some? && newValue.None? {
        if deleteGoal && (key.kind == Kind.Milestone || key.kind == Kind.Task) { continue; }
        mutations := InsertRanked(mutations, Prepared(key, Delete, oldValue.value.version, None));
        continue;
      }
      if oldValue.Some? && newValue.Some? && oldValue.value.payload != newValue.value.payload {
        if deleteGoal && key.kind == Kind.Task { continue; }
        mutations := InsertRanked(mutations, Prepared(key, if oldValue.value.version == 0 then Create else Update,
                                                      oldValue.value.version, Some(newValue.value.payload)));
      }
    }
    AllSeen(before, after, seen);
  }

  lemma AllSeen(before: seq<Entry>, after: seq<Entry>, seen: set<Key>)
    requires forall j :: 0 <= j < |before + after| ==> (before + after)[j].0 in seen
    ensures forall k :: k in ToMap(before) || k in ToMap(after) ==> k in seen
  {
    forall k | k in ToMap(before) || k in ToMap(after) ensures k in seen {
      if k in ToMap(before) {
        assert (k, ToMap(before)[k]) in before + after;
      } else {
        assert (k, ToMap(after)[k]) in before + after;
      }
    }
  }

  // ---------- replaying ----------

  type Server = map<Key, Payload>

  function Payloads(m: map<Key, Snapshot>): Server {
    map k | k in m :: m[k].payload
  }

  /** What deleting a goal does on the server: the goal and its milestones go, its tasks are detached. */
  function CascadeDelete(s: Server, goal: Key): Server {
    map k | k in s && k != goal && !(k.kind == Kind.Milestone && s[k].goal == Some(goal.id)) ::
      if k.kind == Kind.Task && s[k].goal == Some(goal.id) then s[k].(goal := None) else s[k]
  }

  function Apply(s: Server, m: Prepared): Server {
    if m.operation == Delete then (if m.key.kind == Kind.Goal then CascadeDelete(s, m.key) else s - {m.key})
    else if m.payload.Some? then s[m.key := m.payload.value] else s
  }

  function Replay(s: Server, ms: seq<Prepared>): Server {
    if ms == [] then s else Apply(Replay(s, ms[..|ms| - 1]), ms[|ms| - 1])
  }

  /** Applying a mutation on a plain map, without any cascade. */
  function ApplyPlain(s: Server, m: Prepared): Server {
    if m.operation == Delete then s - {m.key} else if m.payload.Some? then s[m.key := m.payload.value] else s
  }

  function ReplayPlain(s: Server, ms: seq<Prepared>): Server {
    if ms == [] then s else ApplyPlain(ReplayPlain(s, ms[..|ms| - 1]), ms[|ms| - 1])
  }

  lemma {:induction false} ReplayPlainAt(s: Server, ms: seq<Prepared>, k: Key)
    requires DistinctKeys(ms) && forall m :: m in ms && m.operation != Delete ==> m.payload.Some?
    ensures forall i :: 0 <= i < |ms| && ms[i].key == k ==>
              Lookup(ReplayPlain(s, ms), k) == if ms[i].operation == Delete then None else ms[i].payload
    ensures (forall i :: 0 <= i < |ms| ==> ms[i].key != k) ==> Lookup(ReplayPlain(s, ms), k) == Lookup(s, k)
  {
    if ms != [] {
      var init := ms[..|ms| - 1];
      assert ms == init + [ms[|ms| - 1]];
      ReplayPlainAt(s, init, k);
    }
  }

  /** For every action but the deletion of a goal, replaying the diff turns the old state into the new one. */
  lemma DiffReplays(previous: map<Key, Snapshot>, next: map<Key, Snapshot>, ms: seq<Prepared>)
    requires IsDiff(previous, next, false, ms)
    ensures ReplayPlain(Payloads(previous), ms) == Payloads(next)
  {
    forall m | m in ms && m.operation != Delete ensures m.payload.Some? {
      assert Diff(Lookup(previous, m.key), Lookup(next, m.key), m.key, false) == Some(m);
    }
    forall k ensures Lookup(ReplayPlain(Payloads(previous), ms), k) == Lookup(Payloads(next), k) {
      ReplayPlainAt(Payloads(previous), ms, k);
      var d := Diff(Lookup(previous, k), Lookup(next, k), k, false);
      if d.Some? {
        var m :| m in ms && m.key == k;
        var i :| 0 <= i < |ms| && ms[i] == m;
      } else {
        forall i | 0 <= i < |ms| ensures ms[i].key != k {
          assert ms[i] in ms;
          assert Diff(Lookup(previous, ms[i].key), Lookup(next, ms[i].key), ms[i].key, false).Some?;
        }
      }
    }
    SameMap(ReplayPlain(Payloads(previous), ms), Payloads(next));
  }

  /** What others refer to comes before them: goals before milestones, tasks and events, records before tasks, and
      everything that can be linked before notes. */
  lemma ReferencesComeFirst(previous: map<Key, Snapshot>, next: map<Key, Snapshot>, deleteGoal: bool, ms: seq<Prepared>, i: nat, j: nat)
    requires IsDiff(previous, next, deleteGoal, ms) && i < j < |ms|
    ensures ms[j].key.kind == Kind.Goal ==> ms[i].key.kind == Kind.Goal
    ensures ms[j].key.kind == Kind.Record ==> ms[i].key.kind != Kind.Task
    ensures ms[i].key.kind == Kind.Note ==>
              !(ms[j].key.kind in {Kind.Goal, Kind.Milestone, Kind.Record, Kind.Task, Kind.CalendarEvent, Kind.Reminder})
  {
    assert Rank(ms[i].key.kind) <= Rank(ms[j].key.kind);
  }

  /** The mutations have the shape the server demands exactly if nothing is deleted that was never synchronised. */
  lemma ShapedExactly(previous: map<Key, Snapshot>, next: map<Key, Snapshot>, deleteGoal: bool, ms: seq<Prepared>)
    requires IsDiff(previous, next, deleteGoal, ms)
    ensures (forall m :: m in ms ==> (m.operation == Create <==> m.base == 0))
            <==> (forall k :: k in previous && k !in next && !Cascades(k, deleteGoal) ==> previous[k].version >= 1)
  {
    forall m | m in ms
      ensures m.operation == Delete <==> m.key in previous && m.key !in next
      ensures m.operation == Delete ==> !Cascades(m.key, deleteGoal) && m.base == previous[m.key].version
      ensures m.operation != Delete ==> (m.operation == Create <==> m.base == 0)
    {
      assert Diff(Lookup(previous, m.key), Lookup(next, m.key), m.key, deleteGoal) == Some(m);
    }
    forall k | k in previous && k !in next && !Cascades(k, deleteGoal)
      ensures exists m :: m in ms && m.key == k && m.operation == Delete && m.base == previous[k].version
    {
      assert Diff(Lookup(previous, k), Lookup(next, k), k, deleteGoal).Some?;
      var m :| m in ms && m.key == k;
    }
  }

  /** The deletion of a goal leaves these deletions to the server's cascade. */
  predicate Cascades(k: Key, deleteGoal: bool) {
    deleteGoal && (k.kind == Kind.Milestone || k.kind == Kind.Task)
  }
}
