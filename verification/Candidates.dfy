/** Which tasks the planner considers, and in which order. */
module Candidates {
  import opened Entities
  import opened Planner

  datatype Status = Todo | Doing | Done | Archived
  datatype Health = Stalled | Attention | Normal

  // Times are milliseconds from the start of the local day; `goal` is the health of the task's goal, if it has one.
  datatype Candidate = Candidate(task: Task, status: Status, important: bool, goal: Option<Health>, dueAt: Option<int>, createdAt: int)

  predicate Eligible(c: Candidate) {
    && (c.status == Todo || c.status == Doing)
    && (c.task.scheduledStart.None? || SameDay(c.task.scheduledStart.value) || (c.dueAt.Some? && SameDay(c.dueAt.value)))
  }

  function RankTask(c: Candidate, now: int): (r: nat)
    ensures c.important ==> r >= 40
    ensures c.dueAt.Some? && c.dueAt.value < now ==> r > 12
  {
    (if c.important then 40 else 0)
    + (match c.goal case Some(Stalled) => 24 case Some(Attention) => 16 case Some(Normal) => 8 case None => 0)
    + (if c.dueAt.Some? then Max(0, 12 - (c.dueAt.value - now) / DAY) else 0)
  }

  predicate Future(c: Candidate, now: int) {
    c.task.scheduledStart.Some? && SameDay(c.task.scheduledStart.value) && c.task.scheduledStart.value > now
  }

  function Sign(n: int): int {
    if n < 0 then -1 else if n > 0 then 1 else 0
  }

  // Tasks without a due time come after all that have one.
  function CompareDue(left: Option<int>, right: Option<int>): int {
    if left.Some? && right.Some? then Sign(left.value - right.value)
    else if left.Some? then -1 else if right.Some? then 1 else 0
  }

  /** The comparator of the sort: negative if left comes first. */
  function Compare(left: Candidate, right: Candidate, now: int): int {
    if Future(left, now) && Future(right, now) then Sign(left.task.scheduledStart.value - right.task.scheduledStart.value)
    else if Future(left, now) then -1
    else if Future(right, now) then 1
    else if RankTask(right, now) != RankTask(left, now) then RankTask(right, now) - RankTask(left, now)
    else if CompareDue(left.dueAt, right.dueAt) != 0 then CompareDue(left.dueAt, right.dueAt)
    else Sign(left.createdAt - right.createdAt)
  }

  /** The comparator is a total preorder, so the sort is well defined. */
  lemma ComparatorIsConsistent(a: Candidate, b: Candidate, c: Candidate, now: int)
    ensures Compare(a, a, now) == 0
    ensures Compare(a, b, now) < 0 <==> Compare(b, a, now) > 0
    ensures Compare(a, b, now) <= 0 && Compare(b, c, now) <= 0 ==> Compare(a, c, now) <= 0
  {
  }

  ghost predicate Sorted(cs: seq<Candidate>, now: int) {
    forall i, j :: 0 <= i < j < |cs| ==> Compare(cs[i], cs[j], now) <= 0
  }

  function Insert(cs: seq<Candidate>, c: Candidate, now: int): (r: seq<Candidate>)
    ensures multiset(r) == multiset(cs) + multiset{c}
  {
    if cs == [] then [c]
    else
      var init, last := cs[..|cs| - 1], cs[|cs| - 1];
      assert cs == init + [last];
      if Compare(last, c, now) <= 0 then cs + [c] else Insert(init, c, now) + [last]
  }

  lemma {:induction false} InsertKeepsSorted(cs: seq<Candidate>, c: Candidate, now: int)
    requires Sorted(cs, now)
    ensures Sorted(Insert(cs, c, now), now)
  {
    if cs != [] {
      var init, last := cs[..|cs| - 1], cs[|cs| - 1];
      if Compare(last, c, now) <= 0 {
        forall i | 0 <= i < |cs| ensures Compare(cs[i], c, now) <= 0 { ComparatorIsConsistent(cs[i], last, c, now); }
      } else {
        InsertKeepsSorted(init, c, now);
        var r := Insert(init, c, now);
        assert cs == init + [last];
        forall i | 0 <= i < |r| ensures Compare(r[i], last, now) <= 0 {
          assert r[i] in multiset(r);
          if r[i] == c {
            ComparatorIsConsistent(last, c, c, now);
          } else {
            assert r[i] in init;
            var j :| 0 <= j < |init| && init[j] == r[i];
            assert cs[j] == r[i];
          }
        }
      }
    }
  }

  /** Those that the comparator puts level with c. */
  function Level(cs: seq<Candidate>, c: Candidate, now: int): seq<Candidate> {
    if cs == [] then []
    else
      var init, last := cs[..|cs| - 1], cs[|cs| - 1];
      Level(init, c, now) + if Compare(last, c, now) == 0 then [last] else []
  }

  lemma LevelOneMore(cs: seq<Candidate>, x: Candidate, c: Candidate, now: int)
    ensures Level(cs + [x], c, now) == Level(cs, c, now) + if Compare(x, c, now) == 0 then [x] else []
  {
    assert (cs + [x])[..|cs|] == cs;
  }

  /** The sort is stable: an element goes behind all that are level with it. */
  lemma {:induction false} InsertIsStable(cs: seq<Candidate>, x: Candidate, c: Candidate, now: int)
    ensures Level(Insert(cs, x, now), c, now) == Level(cs + [x], c, now)
  {
    LevelOneMore(cs, x, c, now);
    if cs != [] {
      var init, last := cs[..|cs| - 1], cs[|cs| - 1];
      if Compare(last, x, now) <= 0 {
      } else {
        InsertIsStable(init, x, c, now);
        LevelOneMore(init, x, c, now);
        LevelOneMore(Insert(init, x, now), last, c, now);
        if Compare(last, c, now) == 0 && Compare(x, c, now) == 0 { LevelSame(last, x, c, now); }
      }
    } else {
      assert cs + [x] == [x];
    }
  }

  lemma LevelSame(a: Candidate, b: Candidate, c: Candidate, now: int)
    requires Compare(a, c, now) == 0 && Compare(b, c, now) == 0
    ensures Compare(a, b, now) == 0
  {
  }

  function Filtered(cs: seq<Candidate>): seq<Candidate> {
    if cs == [] then []
    else
      var init, last := Filtered(cs[..|cs| - 1]), cs[|cs| - 1];
      if Eligible(last) then init + [last] else init
  }

  /** The eligible tasks, all of them, in the comparator's order; what is level keeps its order. */
  method Choose(all: seq<Candidate>, now: int) returns (chosen: seq<Candidate>)
    ensures multiset(chosen) == multiset(Filtered(all))
    ensures Sorted(chosen, now)
    ensures forall c :: Level(chosen, c, now) == Level(Filtered(all), c, now)
  {
    chosen := [];
    for i := 0 to |all|
      invariant multiset(chosen) == multiset(Filtered(all[..i])) && Sorted(chosen, now)
      invariant forall c :: Level(chosen, c, now) == Level(Filtered(all[..i]), c, now)
    {
      assert all[..i + 1][..i] == all[..i];
      if Eligible(all[i]) {
        InsertKeepsSorted(chosen, all[i], now);
        forall c ensures Level(Insert(chosen, all[i], now), c, now) == Level(Filtered(all[..i]) + [all[i]], c, now) {
          InsertIsStable(chosen, all[i], c, now);
          LevelOneMore(chosen, all[i], c, now);
          LevelOneMore(Filtered(all[..i]), all[i], c, now);
        }
        chosen := Insert(chosen, all[i], now);
      }
    }
    assert all[..|all|] == all;
  }

  /** The lower, the more a goal needs attention; no goal comes last. */
  function Concern(goal: Option<Health>): nat {
    match goal case Some(Stalled) => 0 case Some(Attention) => 1 case Some(Normal) => 2 case None => 3
  }

  /** Of two tasks not scheduled for later today that are otherwise equal, the important one comes first, the one whose
      goal is in worse health, the one due earlier, the one created earlier. */
  lemma OtherwiseEqual(a: Candidate, b: Candidate, now: int)
    requires !Future(a, now) && !Future(b, now)
    ensures a.important && b == a.(important := false) ==> Compare(a, b, now) < 0
    ensures Concern(a.goal) < Concern(b.goal) && b == a.(goal := b.goal) ==> Compare(a, b, now) < 0
    ensures a.dueAt.Some? && b == a.(dueAt := b.dueAt) && (b.dueAt.Some? ==> a.dueAt.value < b.dueAt.value) ==> Compare(a, b, now) < 0
    ensures a.createdAt < b.createdAt && b == a.(createdAt := b.createdAt) ==> Compare(a, b, now) < 0
  {
  }

  /** How the criteria weigh against each other: a task due at some time against one without due time that has a goal,
      or is important. */
  lemma Weighing(due: Candidate, other: Candidate, now: int)
    requires !Future(due, now) && !Future(other, now) && due.dueAt.Some? && other.dueAt.None? && !due.important
    ensures !other.important && due.goal.None? && other.goal.Some? ==>
              (Compare(due, other, now) < 0
               <==> due.dueAt.value < now + (match other.goal.value case Stalled => -11 case Attention => -3 case Normal => 5) * DAY)
    ensures other.important && other.goal.None? && due.goal.Some? ==>
              (Compare(due, other, now) < 0
               <==> due.dueAt.value < now + (match due.goal.value case Stalled => -3 case Attention => -11 case Normal => -19) * DAY)
  {
  }

  lemma {:induction false} ConsideredExactly(all: seq<Candidate>, c: Candidate)
    ensures multiset(Filtered(all))[c]
            == if (c.status == Todo || c.status == Doing)
                  && (c.task.scheduledStart.None? || 0 <= c.task.scheduledStart.value < DAY || (c.dueAt.Some? && 0 <= c.dueAt.value < DAY))
               then multiset(all)[c] else 0
  {
    if all != [] {
      var init, last := all[..|all| - 1], all[|all| - 1];
      assert all == init + [last];
      ConsideredExactly(init, c);
    }
  }

  /** What is already scheduled for later today comes first, by start; the rest by descending rank. */
  lemma OrderMeans(cs: seq<Candidate>, now: int, i: nat, j: nat)
    requires Sorted(cs, now) && i < j < |cs|
    ensures Future(cs[j], now) ==> Future(cs[i], now) && cs[i].task.scheduledStart.value <= cs[j].task.scheduledStart.value
    ensures !Future(cs[i], now) ==> RankTask(cs[i], now) >= RankTask(cs[j], now)
  {
    assert Compare(cs[i], cs[j], now) <= 0;
  }
}
