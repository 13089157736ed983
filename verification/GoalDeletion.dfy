/** Deleting a goal in the app: what the reducer does to the state, and why the diff that skips milestones and tasks is
    right once the server's own cascade is added. */
module GoalDeletion {
  import opened Entities
  import opened StateDiff

  // ---------- the reducer ----------

  function WithoutGoal(goals: seq<GoalItem>, id: string): (r: seq<GoalItem>)
    ensures forall g :: g in r <==> g in goals && g.item.id != id
  {
    if goals == [] then []
    else
      var init, last := WithoutGoal(goals[..|goals| - 1], id), goals[|goals| - 1];
      assert goals == goals[..|goals| - 1] + [last];
      if last.item.id == id then init else init + [last]
  }

  function Without(links: seq<string>, id: string): (r: seq<string>)
    ensures forall x :: x in r <==> x in links && x != id
    ensures id !in links ==> r == links
  {
    if links == [] then []
    else
      var init, last := Without(links[..|links| - 1], id), links[|links| - 1];
      assert links == links[..|links| - 1] + [last];
      if last == id then init else init + [last]
  }

  function DetachedPayload(p: Payload, id: string): Payload {
    if p.goal == Some(id) then p.(goal := None) else p
  }

  function UnlinkedPayload(p: Payload, id: string): Payload {
    p.(links := Without(p.links, id))
  }

  function Detached(items: seq<Resource>, id: string): (r: seq<Resource>)
    ensures |r| == |items|
    ensures forall i :: 0 <= i < |r| ==> r[i] == items[i].(payload := DetachedPayload(items[i].payload, id))
  {
    seq(|items|, i requires 0 <= i < |items| => items[i].(payload := DetachedPayload(items[i].payload, id)))
  }

  function Unlinked(items: seq<Resource>, id: string): (r: seq<Resource>)
    ensures |r| == |items|
    ensures forall i :: 0 <= i < |r| ==> r[i] == items[i].(payload := UnlinkedPayload(items[i].payload, id))
  {
    seq(|items|, i requires 0 <= i < |items| => items[i].(payload := UnlinkedPayload(items[i].payload, id)))
  }

  function DeleteGoal(data: AppData, id: string): AppData {
    if exists g :: g in data.goals && g.item.id == id
    then data.(goals := WithoutGoal(data.goals, id), tasks := Detached(data.tasks, id),
               events := Detached(data.events, id), notes := Unlinked(data.notes, id))
    else data
  }

  // ---------- entry by entry ----------

  ghost predicate SingleValued(entries: seq<Entry>) {
    forall e, f :: e in entries && f in entries && e.0 == f.0 ==> e.1 == f.1
  }

  /** Milestones carry the id of the goal they sit in, and no key stands for two different things. */
  ghost predicate WellFormed(data: AppData) {
    MilestonesOwned(data.goals) && SingleValued(Entries(data))
  }

  ghost predicate MilestonesOwned(goals: seq<GoalItem>) {
    forall g, m :: g in goals && m in g.milestones ==> m.payload.goal == Some(g.item.id)
  }

  ghost predicate HasGoal(data: AppData, id: string) {
    exists g :: g in data.goals && g.item.id == id
  }

  /** What the deletion does to one entity. */
  function After(k: Key, s: Snapshot, id: string): Option<Snapshot> {
    match k.kind
    case Goal => if k.id == id then None else Some(s)
    case Milestone => if s.payload.goal == Some(id) then None else Some(s)
    case Task => Some(s.(payload := DetachedPayload(s.payload, id)))
    case CalendarEvent => Some(s.(payload := DetachedPayload(s.payload, id)))
    case Note => Some(s.(payload := UnlinkedPayload(s.payload, id)))
    case _ => Some(s)
  }

  /** The entries of one list before and after. */
  ghost predicate Carried(before: seq<Entry>, after: seq<Entry>, id: string) {
    && (forall e :: e in before && After(e.0, e.1, id).Some? ==> (e.0, After(e.0, e.1, id).value) in after)
    && (forall f :: f in after ==> exists e :: e in before && e.0 == f.0 && After(e.0, e.1, id) == Some(f.1))
  }

  lemma CarriedConcat(a: seq<Entry>, a': seq<Entry>, b: seq<Entry>, b': seq<Entry>, id: string)
    requires Carried(a, a', id) && Carried(b, b', id)
    ensures Carried(a + b, a' + b', id)
  {
    forall f | f in a' + b' ensures exists e :: e in a + b && e.0 == f.0 && After(e.0, e.1, id) == Some(f.1) {
      if f in a' {
        var e :| e in a && e.0 == f.0 && After(e.0, e.1, id) == Some(f.1);
        assert e in a + b;
      } else {
        var e :| e in b && e.0 == f.0 && After(e.0, e.1, id) == Some(f.1);
        assert e in a + b;
      }
    }
  }

  lemma GoalsCarried(goals: seq<GoalItem>, id: string)
    ensures Carried(EntriesOf(Kind.Goal, GoalItems(goals)), EntriesOf(Kind.Goal, GoalItems(WithoutGoal(goals, id))), id)
  {
    var left := WithoutGoal(goals, id);
    var before, after := EntriesOf(Kind.Goal, GoalItems(goals)), EntriesOf(Kind.Goal, GoalItems(left));
    forall e | e in before && After(e.0, e.1, id).Some? ensures (e.0, After(e.0, e.1, id).value) in after {
      var i :| 0 <= i < |before| && before[i] == e;
      assert goals[i] in left;
      var j :| 0 <= j < |left| && left[j] == goals[i];
      assert after[j] == e;
    }
    forall f | f in after ensures exists e :: e in before && e.0 == f.0 && After(e.0, e.1, id) == Some(f.1) {
      var j :| 0 <= j < |after| && after[j] == f;
      assert left[j] in left;
      var i :| 0 <= i < |goals| && goals[i] == left[j];
      assert before[i] == f && f in before;
    }
  }

  lemma KeptMilestones(goals: seq<GoalItem>, id: string, m: Resource)
    requires MilestonesOwned(goals)
    ensures m in MilestonesOf(WithoutGoal(goals, id)) <==> m in MilestonesOf(goals) && m.payload.goal != Some(id)
  {
    var left := WithoutGoal(goals, id);
    if m in MilestonesOf(left) {
      var h :| 0 <= h < |left| && m in left[h].milestones;
      assert left[h] in left;
      var g :| 0 <= g < |goals| && goals[g] == left[h];
    }
    if m in MilestonesOf(goals) && m.payload.goal != Some(id) {
      var g :| 0 <= g < |goals| && m in goals[g].milestones;
      assert goals[g] in left;
      var h :| 0 <= h < |left| && left[h] == goals[g];
    }
  }

  lemma MilestonesCarried(goals: seq<GoalItem>, id: string)
    requires MilestonesOwned(goals)
    ensures Carried(EntriesOf(Kind.Milestone, MilestonesOf(goals)), EntriesOf(Kind.Milestone, MilestonesOf(WithoutGoal(goals, id))), id)
  {
    var ms, ms' := MilestonesOf(goals), MilestonesOf(WithoutGoal(goals, id));
    forall m ensures m in ms' <==> m in ms && m.payload.goal != Some(id) { KeptMilestones(goals, id, m); }
    FilteredCarried(ms, ms', id);
  }

  lemma FilteredCarried(ms: seq<Resource>, ms': seq<Resource>, id: string)
    requires forall m :: m in ms' <==> m in ms && m.payload.goal != Some(id)
    ensures Carried(EntriesOf(Kind.Milestone, ms), EntriesOf(Kind.Milestone, ms'), id)
  {
    var before, after := EntriesOf(Kind.Milestone, ms), EntriesOf(Kind.Milestone, ms');
    forall e | e in before && After(e.0, e.1, id).Some? ensures (e.0, After(e.0, e.1, id).value) in after {
      var i :| 0 <= i < |before| && before[i] == e;
      assert ms[i] in ms';
      var j :| 0 <= j < |ms'| && ms'[j] == ms[i];
      assert after[j] == e;
    }
    forall f | f in after ensures exists e :: e in before && e.0 == f.0 && After(e.0, e.1, id) == Some(f.1) {
      var j :| 0 <= j < |after| && after[j] == f;
      assert ms'[j] in ms';
      var i :| 0 <= i < |ms| && ms[i] == ms'[j];
      assert before[i] == f && f in before;
    }
  }

  /** Lists that are mapped element by element. */
  lemma ItemsCarried(kind: Kind, items: seq<Resource>, items': seq<Resource>, id: string)
    requires |items'| == |items|
    requires forall i :: 0 <= i < |items| ==>
               items'[i].id == items[i].id
               && After(Key(kind, items[i].id), Snapshot(items[i].version, items[i].payload), id)
                  == Some(Snapshot(items'[i].version, items'[i].payload))
    ensures Carried(EntriesOf(kind, items), EntriesOf(kind, items'), id)
  {
    var before, after := EntriesOf(kind, items), EntriesOf(kind, items');
    forall e | e in before && After(e.0, e.1, id).Some? ensures (e.0, After(e.0, e.1, id).value) in after {
      var i :| 0 <= i < |before| && before[i] == e;
      assert after[i] in after;
    }
    forall f | f in after ensures exists e :: e in before && e.0 == f.0 && After(e.0, e.1, id) == Some(f.1) {
      var i :| 0 <= i < |after| && after[i] == f;
      assert before[i] in before;
    }
  }

  lemma CarriedSnoc(a: seq<seq<Entry>>, b: seq<seq<Entry>>, x: seq<Entry>, y: seq<Entry>, id: string)
    requires Carried(Flatten(a), Flatten(b), id) && Carried(x, y, id)
    ensures Carried(Flatten(a + [x]), Flatten(b + [y]), id)
  {
    assert (a + [x])[..|a|] == a && (b + [y])[..|b|] == b;
    CarriedConcat(Flatten(a), Flatten(b), x, y, id);
  }

  lemma FirstTwo(a: seq<seq<Entry>>)
    requires |a| >= 2
    ensures Flatten(a[..2]) == a[0] + a[1]
  {
    var none: seq<seq<Entry>> := [];
    assert a[..2][..1] == [a[0]] && [a[0]][..0] == none;
    assert Flatten([a[0]]) == a[0];
  }

  lemma TwoLists(data: AppData)
    ensures Flatten(Lists(data)[..2]) == EntriesOf(Kind.Goal, GoalItems(data.goals)) + EntriesOf(Kind.Milestone, MilestonesOf(data.goals))
  {
    FirstTwo(Lists(data));
  }

  lemma GoalListsCarried(data: AppData, id: string)
    requires MilestonesOwned(data.goals) && HasGoal(data, id)
    ensures Carried(Flatten(Lists(data)[..2]), Flatten(Lists(DeleteGoal(data, id))[..2]), id)
  {
    var d := DeleteGoal(data, id);
    assert d.goals == WithoutGoal(data.goals, id);
    TwoLists(data);
    TwoLists(d);
    assert Carried(EntriesOf(Kind.Goal, GoalItems(data.goals)) + EntriesOf(Kind.Milestone, MilestonesOf(data.goals)),
                   EntriesOf(Kind.Goal, GoalItems(d.goals)) + EntriesOf(Kind.Milestone, MilestonesOf(d.goals)), id) by {
      TwoCarried(data.goals, id);
    }
  }

  lemma TwoCarried(goals: seq<GoalItem>, id: string)
    requires MilestonesOwned(goals)
    ensures Carried(EntriesOf(Kind.Goal, GoalItems(goals)) + EntriesOf(Kind.Milestone, MilestonesOf(goals)),
                    EntriesOf(Kind.Goal, GoalItems(WithoutGoal(goals, id))) + EntriesOf(Kind.Milestone, MilestonesOf(WithoutGoal(goals, id))), id)
  {
    GoalsCarried(goals, id);
    MilestonesCarried(goals, id);
    CarriedConcat(EntriesOf(Kind.Goal, GoalItems(goals)), EntriesOf(Kind.Goal, GoalItems(WithoutGoal(goals, id))),
                  EntriesOf(Kind.Milestone, MilestonesOf(goals)), EntriesOf(Kind.Milestone, MilestonesOf(WithoutGoal(goals, id))), id);
  }

  lemma {:induction false} ItemListsCarried(data: AppData, id: string, n: nat)
    requires MilestonesOwned(data.goals) && HasGoal(data, id) && 2 <= n <= 8
    ensures Carried(Flatten(Lists(data)[..n]), Flatten(Lists(DeleteGoal(data, id))[..n]), id)
  {
    if n == 2 {
      GoalListsCarried(data, id);
    } else {
      ItemListsCarried(data, id, n - 1);
      var a, b := Lists(data), Lists(DeleteGoal(data, id));
      assert a[..n] == a[..n - 1] + [a[n - 1]] && b[..n] == b[..n - 1] + [b[n - 1]];
      ItemListCarried(data, id, n - 1);
      CarriedSnoc(a[..n - 1], b[..n - 1], a[n - 1], b[n - 1], id);
    }
  }

  lemma DetachedCarried(kind: Kind, items: seq<Resource>, id: string)
    requires kind == Kind.Task || kind == Kind.CalendarEvent
    ensures Carried(EntriesOf(kind, items), EntriesOf(kind, Detached(items, id)), id)
  {
    ItemsCarried(kind, items, Detached(items, id), id);
  }

  lemma UnlinkedCarried(items: seq<Resource>, id: string)
    ensures Carried(EntriesOf(Kind.Note, items), EntriesOf(Kind.Note, Unlinked(items, id)), id)
  {
    ItemsCarried(Kind.Note, items, Unlinked(items, id), id);
  }

  lemma SameCarried(kind: Kind, items: seq<Resource>, id: string)
    requires kind == Kind.Record || kind == Kind.DailyReview || kind == Kind.Settings
    ensures Carried(EntriesOf(kind, items), EntriesOf(kind, items), id)
  {
    ItemsCarried(kind, items, items, id);
  }

  lemma SameListsCarried(a: seq<Entry>, b: seq<Entry>, x: seq<Entry>, y: seq<Entry>, id: string)
    requires Carried(x, y, id) && a == x && b == y
    ensures Carried(a, b, id)
  {
  }

  lemma ListAt(data: AppData, i: nat)
    requires 2 <= i < 8
    ensures Lists(data)[i]
            == if i == 2 then EntriesOf(Kind.Record, data.records) else if i == 3 then EntriesOf(Kind.Task, data.tasks)
               else if i == 4 then EntriesOf(Kind.CalendarEvent, data.events) else if i == 5 then EntriesOf(Kind.Note, data.notes)
               else if i == 6 then EntriesOf(Kind.DailyReview, data.reviews) else EntriesOf(Kind.Settings, [data.settings])
  {
  }

  lemma ItemListCarried(data: AppData, id: string, i: nat)
    requires HasGoal(data, id) && 2 <= i < 8
    ensures Carried(Lists(data)[i], Lists(DeleteGoal(data, id))[i], id)
  {
    var d := DeleteGoal(data, id);
    var a, b := Lists(data)[i], Lists(d)[i];
    ListAt(data, i);
    ListAt(d, i);
    if i == 2 || i == 6 || i == 7 {
      var kind := if i == 2 then Kind.Record else if i == 6 then Kind.DailyReview else Kind.Settings;
      var items := if i == 2 then data.records else if i == 6 then data.reviews else [data.settings];
      SameCarried(kind, items, id);
      SameListsCarried(a, b, EntriesOf(kind, items), EntriesOf(kind, items), id);
    } else if i == 5 {
      UnlinkedCarried(data.notes, id);
      SameListsCarried(a, b, EntriesOf(Kind.Note, data.notes), EntriesOf(Kind.Note, Unlinked(data.notes, id)), id);
    } else {
      var kind, items := if i == 3 then Kind.Task else Kind.CalendarEvent, if i == 3 then data.tasks else data.events;
      DetachedCarried(kind, items, id);
      SameListsCarried(a, b, EntriesOf(kind, items), EntriesOf(kind, Detached(items, id)), id);
    }
  }

  lemma EntriesCarried(data: AppData, id: string)
    requires MilestonesOwned(data.goals) && HasGoal(data, id)
    ensures Carried(Entries(data), Entries(DeleteGoal(data, id)), id)
  {
    ItemListsCarried(data, id, 8);
    assert Lists(data)[..8] == Lists(data) && Lists(DeleteGoal(data, id))[..8] == Lists(DeleteGoal(data, id));
  }

  /** One collected state turns into the other, key by key. */
  ghost predicate Turned(previous: map<Key, Snapshot>, next: map<Key, Snapshot>, id: string) {
    forall k :: Lookup(next, k) == if k in previous then After(k, previous[k], id) else None
  }

  lemma CarriedTurns(before: seq<Entry>, after: seq<Entry>, id: string)
    requires Carried(before, after, id) && SingleValued(before)
    ensures Turned(ToMap(before), ToMap(after), id)
  {
    var m, m' := ToMap(before), ToMap(after);
    forall k ensures Lookup(m', k) == if k in m then After(k, m[k], id) else None {
      if k in m {
        assert (k, m[k]) in before;
        if After(k, m[k], id).Some? { assert (k, After(k, m[k], id).value) in after; }
      }
      if k in m' {
        assert (k, m'[k]) in after;
        var e :| e in before && e.0 == k && After(e.0, e.1, id) == Some(m'[k]);
        assert e in before && (k, m[k]) in before;
      }
    }
  }

  /** The reducer, seen through the collected states. */
  lemma DeletionTurns(data: AppData, id: string)
    requires WellFormed(data) && HasGoal(data, id)
    ensures Turned(ToMap(Entries(data)), ToMap(Entries(DeleteGoal(data, id))), id)
  {
    EntriesCarried(data, id);
    CarriedTurns(Entries(data), Entries(DeleteGoal(data, id)), id);
  }

  lemma GoalIsCollected(data: AppData, id: string)
    requires HasGoal(data, id)
    ensures Key(Kind.Goal, id) in ToMap(Entries(data))
  {
    var g :| g in data.goals && g.item.id == id;
    var i :| 0 <= i < |data.goals| && data.goals[i] == g;
    var entry := EntriesOf(Kind.Goal, GoalItems(data.goals))[i];
    assert entry in Lists(data)[0];
    InFlatten(Lists(data), 0, entry);
  }

  lemma {:induction false} InFlatten(lists: seq<seq<Entry>>, i: nat, e: Entry)
    requires i < |lists| && e in lists[i]
    ensures e in Flatten(lists)
  {
    if i < |lists| - 1 { InFlatten(lists[..|lists| - 1], i, e); }
  }

  // ---------- the diff, replayed with the cascade ----------

  /** Besides the goal itself, a mutation of the diff is about nothing that the cascade touches. */
  ghost predicate Harmless(m: Prepared, goal: Key) {
    if m.key.kind == Kind.Goal then m.key == goal && m.operation == Delete
    else m.operation != Delete && m.payload.Some? && m.key.kind != Kind.Milestone && m.key.kind != Kind.Task
  }

  ghost predicate Mentions(ms: seq<Prepared>, k: Key) {
    exists i :: 0 <= i < |ms| && ms[i].key == k
  }

  lemma CascadeAt(s: Server, t: Server, goal: Key, k: Key)
    requires goal.kind == Kind.Goal
    ensures Lookup(s, k) == Lookup(t, k) ==> Lookup(CascadeDelete(s, goal), k) == Lookup(CascadeDelete(t, goal), k)
    ensures k.kind != Kind.Milestone && k.kind != Kind.Task && k != goal ==> Lookup(CascadeDelete(t, goal), k) == Lookup(t, k)
    ensures Lookup(CascadeDelete(t, goal), goal) == None
  {
  }

  lemma {:induction false} ReplayMentioned(s: Server, ms: seq<Prepared>, goal: Key, i: nat)
    requires DistinctKeys(ms) && goal.kind == Kind.Goal && (forall m :: m in ms ==> Harmless(m, goal)) && i < |ms|
    ensures Lookup(Replay(s, ms), ms[i].key) == if ms[i].key == goal then None else ms[i].payload
  {
    var n := |ms| - 1;
    assert Harmless(ms[n], goal) && Harmless(ms[i], goal);
    if i < n {
      assert forall m :: m in ms[..n] ==> m in ms;
      ReplayMentioned(s, ms[..n], goal, i);
      CascadeAt(s, Replay(s, ms[..n]), goal, ms[i].key);
    } else {
      CascadeAt(s, Replay(s, ms[..n]), goal, goal);
    }
  }

  lemma {:induction false} ReplayUnmentioned(s: Server, ms: seq<Prepared>, goal: Key, k: Key)
    requires DistinctKeys(ms) && goal.kind == Kind.Goal && (forall m :: m in ms ==> Harmless(m, goal)) && !Mentions(ms, k)
    ensures Lookup(Replay(s, ms), k) == if Mentions(ms, goal) then Lookup(CascadeDelete(s, goal), k) else Lookup(s, k)
  {
    if ms != [] {
      var n := |ms| - 1;
      assert forall m :: m in ms[..n] ==> m in ms;
      assert Harmless(ms[n], goal);
      ReplayUnmentioned(s, ms[..n], goal, k);
      MentionsSplit(ms, goal);
      CascadeAt(s, Replay(s, ms[..n]), goal, k);
    }
  }

  lemma MentionsSplit(ms: seq<Prepared>, k: Key)
    requires DistinctKeys(ms) && ms != []
    ensures Mentions(ms, k) <==> Mentions(ms[..|ms| - 1], k) || ms[|ms| - 1].key == k
    ensures ms[|ms| - 1].key == k ==> !Mentions(ms[..|ms| - 1], k)
  {
    if Mentions(ms[..|ms| - 1], k) {
      var i :| 0 <= i < |ms| - 1 && ms[..|ms| - 1][i].key == k;
      assert ms[i].key == k;
    }
    if Mentions(ms, k) {
      var i :| 0 <= i < |ms| && ms[i].key == k;
      if i < |ms| - 1 { assert ms[..|ms| - 1][i].key == k; }
    }
  }

  lemma TurnedDiff(previous: map<Key, Snapshot>, next: map<Key, Snapshot>, id: string, k: Key)
    requires Turned(previous, next, id) && Diff(Lookup(previous, k), Lookup(next, k), k, true).Some?
    ensures Harmless(Diff(Lookup(previous, k), Lookup(next, k), k, true).value, Key(Kind.Goal, id))
  {
    assert Lookup(next, k) == if k in previous then After(k, previous[k], id) else None;
  }

  lemma TurnedReplays(previous: map<Key, Snapshot>, next: map<Key, Snapshot>, id: string, ms: seq<Prepared>)
    requires Turned(previous, next, id) && Key(Kind.Goal, id) in previous && IsDiff(previous, next, true, ms)
    ensures Replay(Payloads(previous), ms) == Payloads(next)
  {
    var goal := Key(Kind.Goal, id);
    forall m | m in ms ensures Harmless(m, goal) {
      assert Diff(Lookup(previous, m.key), Lookup(next, m.key), m.key, true) == Some(m);
      TurnedDiff(previous, next, id, m.key);
    }
    GoalIsMentioned(previous, next, id, ms);
    forall k ensures Lookup(Replay(Payloads(previous), ms), k) == Lookup(Payloads(next), k) {
      TurnedReplaysAt(previous, next, id, ms, k);
    }
    SameMap(Replay(Payloads(previous), ms), Payloads(next));
  }

  lemma GoalIsMentioned(previous: map<Key, Snapshot>, next: map<Key, Snapshot>, id: string, ms: seq<Prepared>)
    requires Turned(previous, next, id) && Key(Kind.Goal, id) in previous && IsDiff(previous, next, true, ms)
    ensures Mentions(ms, Key(Kind.Goal, id))
  {
    var goal := Key(Kind.Goal, id);
    assert Lookup(next, goal) == After(goal, previous[goal], id);
    assert Diff(Lookup(previous, goal), Lookup(next, goal), goal, true).Some?;
    var m :| m in ms && m.key == goal;
  }

  lemma MentionedReplays(previous: map<Key, Snapshot>, next: map<Key, Snapshot>, goal: Key, ms: seq<Prepared>, i: nat)
    requires IsDiff(previous, next, true, ms) && goal.kind == Kind.Goal && (forall m :: m in ms ==> Harmless(m, goal)) && i < |ms|
    ensures Lookup(Replay(Payloads(previous), ms), ms[i].key) == Lookup(Payloads(next), ms[i].key)
  {
    assert ms[i] in ms && Harmless(ms[i], goal);
    ReplayMentioned(Payloads(previous), ms, goal, i);
    assert Diff(Lookup(previous, ms[i].key), Lookup(next, ms[i].key), ms[i].key, true) == Some(ms[i]);
  }

  lemma UnmentionedReplays(previous: map<Key, Snapshot>, next: map<Key, Snapshot>, id: string, k: Key)
    requires Turned(previous, next, id) && Diff(Lookup(previous, k), Lookup(next, k), k, true).None?
    ensures Lookup(CascadeDelete(Payloads(previous), Key(Kind.Goal, id)), k) == Lookup(Payloads(next), k)
  {
    assert Lookup(next, k) == if k in previous then After(k, previous[k], id) else None;
  }

  lemma TurnedReplaysAt(previous: map<Key, Snapshot>, next: map<Key, Snapshot>, id: string, ms: seq<Prepared>, k: Key)
    requires Turned(previous, next, id) && IsDiff(previous, next, true, ms)
    requires (forall m :: m in ms ==> Harmless(m, Key(Kind.Goal, id))) && Mentions(ms, Key(Kind.Goal, id))
    ensures Lookup(Replay(Payloads(previous), ms), k) == Lookup(Payloads(next), k)
  {
    var goal := Key(Kind.Goal, id);
    if Mentions(ms, k) {
      var i :| 0 <= i < |ms| && ms[i].key == k;
      MentionedReplays(previous, next, goal, ms, i);
    } else {
      ReplayUnmentioned(Payloads(previous), ms, goal, k);
      if Diff(Lookup(previous, k), Lookup(next, k), k, true).Some? { DiffIsMentioned(previous, next, ms, k); }
      UnmentionedReplays(previous, next, id, k);
    }
  }

  lemma DiffIsMentioned(previous: map<Key, Snapshot>, next: map<Key, Snapshot>, ms: seq<Prepared>, k: Key)
    requires IsDiff(previous, next, true, ms) && Diff(Lookup(previous, k), Lookup(next, k), k, true).Some?
    ensures Mentions(ms, k)
  {
    var m :| m in ms && m.key == k;
    var i :| 0 <= i < |ms| && ms[i] == m;
  }

  /** For the deletion of a goal on synchronised data, replaying the diff with the server's cascade turns the old state
      into the new one, although the diff says nothing about milestones and tasks. */
  lemma GoalDeletionReplays(data: AppData, id: string, ms: seq<Prepared>)
    requires WellFormed(data) && HasGoal(data, id)
    requires IsDiff(ToMap(Entries(data)), ToMap(Entries(DeleteGoal(data, id))), true, ms)
    ensures Replay(Payloads(ToMap(Entries(data))), ms) == Payloads(ToMap(Entries(DeleteGoal(data, id))))
  {
    DeletionTurns(data, id);
    GoalIsCollected(data, id);
    TurnedReplays(ToMap(Entries(data)), ToMap(Entries(DeleteGoal(data, id))), id, ms);
  }

  lemma TurnedNothingDangles(previous: map<Key, Snapshot>, next: map<Key, Snapshot>, id: string, k: Key)
    requires Turned(previous, next, id) && k in next
    ensures var p := next[k].payload;
            && (k.kind == Kind.Milestone || k.kind == Kind.Task || k.kind == Kind.CalendarEvent ==> p.goal != Some(id))
            && (k.kind == Kind.Note ==> id !in p.links)
            && k != Key(Kind.Goal, id)
  {
    assert Lookup(next, k) == if k in previous then After(k, previous[k], id) else None;
  }

  /** Nothing in the state refers to the goal any more. */
  lemma NothingDangles(data: AppData, id: string, k: Key)
    requires WellFormed(data) && HasGoal(data, id)
    ensures k in ToMap(Entries(DeleteGoal(data, id))) ==>
            var p := ToMap(Entries(DeleteGoal(data, id)))[k].payload;
            && (k.kind == Kind.Milestone || k.kind == Kind.Task || k.kind == Kind.CalendarEvent ==> p.goal != Some(id))
            && (k.kind == Kind.Note ==> id !in p.links)
            && k != Key(Kind.Goal, id)
  {
    DeletionTurns(data, id);
    if k in ToMap(Entries(DeleteGoal(data, id))) {
      TurnedNothingDangles(ToMap(Entries(data)), ToMap(Entries(DeleteGoal(data, id))), id, k);
    }
  }
}
