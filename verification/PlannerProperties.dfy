/** What a day plan guarantees, and how far its search can be trusted to find room. */
module PlannerProperties {
  import opened Planner

  // ---------- the search ----------

  lemma {:induction false} SearchFindsFree(start: int, duration: int, reservations: set<Window>)
    requires duration > 0
    ensures var found := Search(start, duration, reservations);
            found >= start && (found + duration <= DAY_END ==> !Blocked(Window(found, found + duration), reservations))
    decreases DAY_END - start
  {
    var slot := Window(start, start + duration);
    if start + duration <= DAY_END && Blocked(slot, reservations) {
      SearchFindsFree(Max(start + QUARTER, CollisionEnd(slot, reservations)), duration, reservations);
    }
  }

  predicate Free(gap: Window, reservations: set<Window>) {
    forall r :: r in reservations ==> r.end <= gap.start || r.start >= gap.end
  }

  /** The search finds room at the latest a quarter of an hour into any free stretch that has a quarter to spare. */
  lemma {:induction false} SearchUsesGap(start: int, duration: int, reservations: set<Window>, gap: Window)
    requires duration > 0 && Free(gap, reservations) && gap.end <= DAY_END
    requires gap.end - gap.start >= duration + QUARTER - 1
    requires start <= gap.start + QUARTER - 1
    ensures Search(start, duration, reservations) <= gap.start + QUARTER - 1
    ensures Search(start, duration, reservations) + duration <= DAY_END
    decreases DAY_END - start
  {
    var slot := Window(start, start + duration);
    if start + duration <= DAY_END && Blocked(slot, reservations) {
      var end := CollisionEnd(slot, reservations);
      var c :| Earliest(slot, reservations, c) && c.end == end;
      assert start < gap.start;
      assert end <= gap.start;
      SearchUsesGap(Max(start + QUARTER, end), duration, reservations, gap);
    }
  }

  /** Completeness: with fewer than three plans, a candidate not kept in place is planned whenever some free stretch
      at or after the cursor, ending by 20:00, is at least its duration plus a quarter of an hour long, less a
      millisecond; and the plan is free. */
  lemma PlannedIfRoom(s: State, task: Task, now: int, gap: Window) returns (start: int)
    requires |s.plans| < MAX_PLANS && !CanKeep(task, s.reservations, now)
    requires Free(gap, s.reservations) && s.cursor <= gap.start && gap.end <= DAY_END
    requires gap.end - gap.start >= Duration(task) + QUARTER - 1
    ensures s.cursor <= start < gap.start + QUARTER && !Blocked(Window(start, start + Duration(task)), s.reservations)
    ensures Step(s, task, now).plans == s.plans + [Plan(task, Window(start, start + Duration(task)), false)]
    ensures Step(s, task, now).deferred == s.deferred
  {
    start := Search(s.cursor, Duration(task), s.reservations);
    SearchUsesGap(s.cursor, Duration(task), s.reservations, gap);
    SearchFindsFree(s.cursor, Duration(task), s.reservations);
  }

  /** Two events of the day, and a stretch between them that is a millisecond too short for the search. */
  function TightDay(from: int, duration: int): (r: (seq<Window>, Window)) {
    var later := from + duration + 2 * QUARTER - 1;
    ([Window(from - 2 * QUARTER, from + 1 - QUARTER), Window(later, Max(later, DAY_END))],
     Window(from + 1, from + duration + QUARTER - 1))
  }

  lemma TightReservations(from: int, duration: int)
    requires 8 * HOUR <= from && 0 < duration && from + duration + QUARTER - 1 <= DAY_END
    ensures var later := from + duration + 2 * QUARTER - 1;
            Padded(TightDay(from, duration).0)
            == {Window(from - 3 * QUARTER, from + 1), Window(later - QUARTER, Max(later, DAY_END) + QUARTER)}
  {
    var events := TightDay(from, duration).0;
    assert events[0] in events && events[1] in events;
  }

  lemma SearchSkips(start: int, duration: int, reservations: set<Window>, hit: Window)
    requires duration > 0 && start + duration <= DAY_END && hit in reservations
    requires Overlaps(Window(start, start + duration), hit)
    requires forall r :: r in reservations && r != hit ==> !Overlaps(Window(start, start + duration), r)
    ensures Search(start, duration, reservations) == Search(Max(start + QUARTER, hit.end), duration, reservations)
  {
    var c :| Earliest(Window(start, start + duration), reservations, c)
             && c.end == CollisionEnd(Window(start, start + duration), reservations);
  }

  lemma TightSearch(from: int, duration: int, reservations: set<Window>, first: Window, second: Window)
    requires duration > 0 && reservations == {first, second}
    requires first.start < from && first.end == from + 1
    requires second.start == from + duration + QUARTER - 1 <= DAY_END < second.end
    ensures Search(from, duration, reservations) + duration > DAY_END
  {
    SearchSkips(from, duration, reservations, first);
    var next := from + QUARTER;
    if next + duration <= DAY_END {
      SearchSkips(next, duration, reservations, second);
      SearchFindsFree(Max(next + QUARTER, second.end), duration, reservations);
    }
  }

  lemma SinglePlan(task: Task, events: seq<Window>, now: int)
    ensures Build([], events, now) == Start(events, now)
    ensures Build([task], events, now) == Step(Start(events, now), task, now)
  {
    var none: seq<Task> := [];
    assert [task][..0] == none;
  }

  lemma Overlooked(s: State, task: Task, now: int)
    requires task.scheduledStart.None? && Search(s.cursor, Duration(task), s.reservations) + Duration(task) > DAY_END
    ensures Step(s, task, now) == s.(deferred := s.deferred + [task])
  {
  }

  lemma TightDayOverlooks(task: Task, now: int)
    requires task.scheduledStart.None? && Start([], now).cursor + Duration(task) + QUARTER - 1 <= DAY_END
    ensures var s := Start(TightDay(Start([], now).cursor, Duration(task)).0, now);
            Step(s, task, now) == s.(deferred := s.deferred + [task])
  {
    var from, d := Start([], now).cursor, Duration(task);
    var later := from + d + 2 * QUARTER - 1;
    var s := Start(TightDay(from, d).0, now);
    TightReservations(from, d);
    TightSearch(from, d, s.reservations, Window(from - 3 * QUARTER, from + 1), Window(later - QUARTER, Max(later, DAY_END) + QUARTER));
    Overlooked(s, task, now);
  }

  lemma TightGap(from: int, duration: int)
    requires 8 * HOUR <= from && 0 < duration && from + duration + QUARTER - 1 <= DAY_END
    ensures var (events, gap) := TightDay(from, duration);
            && Free(gap, Padded(events))
            && forall i :: 0 <= i < |events| ==> SameDay(events[i].start) && events[i].start <= events[i].end
  {
    TightReservations(from, duration);
  }

  /** The quarter is needed to the millisecond: on every day with room left there are two events between which a task
      is overlooked although the free stretch falls only a millisecond short of what completeness asks for. */
  lemma QuarterIsNeeded(task: Task, now: int)
    requires task.scheduledStart.None? && SameDay(now)
    requires Start([], now).cursor + Duration(task) + QUARTER - 1 <= DAY_END
    ensures var (events, gap) := TightDay(Start([], now).cursor, Duration(task));
            && (forall i :: 0 <= i < |events| ==> SameDay(events[i].start) && events[i].start <= events[i].end)
            && Build([], events, now).cursor <= gap.start && Free(gap, Build([], events, now).reservations) && gap.end <= DAY_END
            && gap.end - gap.start == Duration(task) + QUARTER - 2
            && Build([task], events, now).plans == [] && Build([task], events, now).deferred == [task]
  {
    var from, d := Start([], now).cursor, Duration(task);
    TightGap(from, d);
    SinglePlan(task, TightDay(from, d).0, now);
    TightDayOverlooks(task, now);
  }

  // ---------- tasks kept in place ----------

  /** The window stored with the task is long enough for its clamped estimate. */
  predicate WindowFits(task: Task) {
    task.scheduledStart.Some? ==> ExistingWindow(task).end - ExistingWindow(task).start >= Duration(task)
  }

  /** A task that may be kept is planned from its stored start but for its estimate: this is safe on every calendar
      exactly when the stored window is long enough. */
  lemma KeptIsSafeExactly(task: Task, now: int)
    requires task.scheduledStart.Some? && now < task.scheduledStart.value && SameDay(task.scheduledStart.value)
    requires ExistingWindow(task).end <= DAY_END
    ensures (forall reservations :: CanKeep(task, reservations, now) ==>
               !Blocked(Window(task.scheduledStart.value, task.scheduledStart.value + Duration(task)), reservations))
            <==> WindowFits(task)
  {
    var stored := ExistingWindow(task);
    var planned := Window(stored.start, stored.start + Duration(task));
    if WindowFits(task) {
      forall reservations | CanKeep(task, reservations, now) ensures !Blocked(planned, reservations) {
        forall r | r in reservations ensures !Overlaps(planned, r) { assert !Overlaps(stored, r); }
      }
    } else {
      var after := Window(Max(stored.start, stored.end), Max(stored.start, stored.end) + HOUR);
      var reservations := {after};
      assert !Overlaps(stored, after) && Overlaps(planned, after);
      assert CanKeep(task, reservations, now) && Blocked(planned, reservations);
    }
  }

  /** Tasks that can be kept are planned from where they are, as long as their estimate fits before 20:00; of all
      other tasks, none is planned before the cursor. */
  lemma KeptInPlace(s: State, task: Task, now: int)
    requires |s.plans| < MAX_PLANS && |Step(s, task, now).plans| > |s.plans|
    ensures var p := Step(s, task, now).plans[|s.plans|];
            && p.task == task && (p.kept <==> CanKeep(task, s.reservations, now))
            && p.window.start >= (if p.kept then task.scheduledStart.value else s.cursor)
            && (p.kept ==> p.window.start == task.scheduledStart.value)
  {
    SearchFindsFree(s.cursor, Duration(task), s.reservations);
  }

  // ---------- safety of whole plans ----------

  ghost predicate Disjoint(a: Window, b: Window) {
    a.end <= b.start || b.end <= a.start
  }

  ghost predicate PlanOK(s: State, events: seq<Window>, now: int, i: int)
    requires 0 <= i < |s.plans|
  {
    var p := s.plans[i];
    && p.window.end == p.window.start + Duration(p.task)
    && now < p.window.start && p.window.end <= DAY_END
    && p.window in s.reservations
    && s.cursor >= p.window.end + BREAK
    && (forall e :: e in Padded(events) ==> !Overlaps(p.window, e))
    && (forall j :: 0 <= j < i ==> Disjoint(s.plans[j].window, p.window))
    && (!p.kept ==> forall j :: 0 <= j < i ==> s.plans[j].window.end + BREAK <= p.window.start)
  }

  function TasksOf(plans: seq<Plan>): (r: seq<Task>)
    ensures |r| == |plans| && forall i :: 0 <= i < |r| ==> r[i] == plans[i].task
  {
    seq(|plans|, i requires 0 <= i < |plans| => plans[i].task)
  }

  ghost predicate Safe(s: State, events: seq<Window>, now: int) {
    && |s.plans| <= MAX_PLANS
    && s.cursor > now
    && Padded(events) <= s.reservations
    && (forall i :: 0 <= i < |s.plans| ==> PlanOK(s, events, now, i))
  }

  /** The window chosen for a candidate meets nothing reserved. */
  lemma ChosenIsFree(s: State, task: Task, now: int)
    requires WindowFits(task) && s.cursor > now
    ensures var start := StartOf(s, task, now);
            && start > now
            && (start + Duration(task) <= DAY_END ==> !Blocked(Window(start, start + Duration(task)), s.reservations))
            && (!CanKeep(task, s.reservations, now) ==> start >= s.cursor)
  {
    if CanKeep(task, s.reservations, now) {
      KeptIsSafeExactly(task, now);
    } else {
      SearchFindsFree(s.cursor, Duration(task), s.reservations);
    }
  }

  lemma StepSafe(s: State, task: Task, events: seq<Window>, now: int)
    requires Safe(s, events, now) && WindowFits(task)
    ensures Safe(Step(s, task, now), events, now)
  {
    var s', n := Step(s, task, now), |s.plans|;
    ChosenIsFree(s, task, now);
    if |s'.plans| > n {
      forall i | 0 <= i <= n ensures PlanOK(s', events, now, i) {
        if i < n {
          assert PlanOK(s, events, now, i);
        } else {
          NewPlanOK(s, task, events, now);
        }
      }
    } else {
      forall i | 0 <= i < n ensures PlanOK(s', events, now, i) { assert PlanOK(s, events, now, i); }
    }
  }

  lemma NewPlanOK(s: State, task: Task, events: seq<Window>, now: int)
    requires Safe(s, events, now) && WindowFits(task) && |Step(s, task, now).plans| > |s.plans|
    ensures PlanOK(Step(s, task, now), events, now, |s.plans|)
  {
    var s', n := Step(s, task, now), |s.plans|;
    ChosenIsFree(s, task, now);
    var p := s'.plans[n];
    forall j | 0 <= j < n
      ensures Disjoint(s'.plans[j].window, p.window)
      ensures !p.kept ==> s'.plans[j].window.end + BREAK <= p.window.start
    {
      assert PlanOK(s, events, now, j);
      assert !Overlaps(p.window, s.plans[j].window);
    }
  }

  lemma {:induction false} BuildSafe(candidates: seq<Task>, events: seq<Window>, now: int)
    requires SameDay(now) && forall task :: task in candidates ==> WindowFits(task)
    ensures Safe(Build(candidates, events, now), events, now)
  {
    if candidates != [] {
      BuildSafe(candidates[..|candidates| - 1], events, now);
      StepSafe(Build(candidates[..|candidates| - 1], events, now), candidates[|candidates| - 1], events, now);
    }
  }

  /** For any candidates in any order: at most three plans, each as long as its clamped estimate, starting after now
      and ending by 20:00, clear of every event of the day by a quarter of an hour, and pairwise disjoint; a plan
      that was searched for starts at least ten minutes after all plans made before it. */
  lemma DayPlanIsSafe(candidates: seq<Task>, events: seq<Window>, now: int, i: nat)
    requires SameDay(now) && forall task :: task in candidates ==> WindowFits(task)
    requires i < |Build(candidates, events, now).plans|
    ensures var plans := Build(candidates, events, now).plans;
            var w := plans[i].window;
            && |plans| <= 3
            && w.end - w.start == Duration(plans[i].task) && now < w.start && w.end <= 20 * HOUR
            && (forall e :: e in events && 0 <= e.start < 24 * HOUR ==>
                  w.end <= e.start - 15 * MINUTE || e.end + 15 * MINUTE <= w.start || e.end + 15 * MINUTE <= e.start - 15 * MINUTE)
            && (forall j :: 0 <= j < i ==> Disjoint(plans[j].window, w))
            && (!plans[i].kept ==> forall j :: 0 <= j < i ==> plans[j].window.end + 10 * MINUTE <= w.start)
  {
    BuildSafe(candidates, events, now);
    var s := Build(candidates, events, now);
    assert PlanOK(s, events, now, i);
    forall e | e in events && SameDay(e.start) ensures !Overlaps(s.plans[i].window, Window(e.start - QUARTER, e.end + QUARTER)) {
      assert Window(e.start - QUARTER, e.end + QUARTER) in Padded(events);
    }
  }

  // ---------- in clock time ----------

  /** The time at hand is late enough for a search after these plans. */
  ghost predicate LateEnough(plans: seq<Plan>, now: int, t: int) {
    && 8 * HOUR <= t && (now / (15 * MINUTE) + 1) * (15 * MINUTE) <= t
    && forall i :: 0 <= i < |plans| ==> plans[i].window.end + 10 * MINUTE <= t
  }

  /** The cursor is the earliest time that is late enough. */
  lemma {:induction false} CursorIsEarliest(candidates: seq<Task>, events: seq<Window>, now: int, t: int)
    ensures var s := Build(candidates, events, now); s.cursor <= t <==> LateEnough(s.plans, now, t)
  {
    if candidates != [] {
      var init, last := candidates[..|candidates| - 1], candidates[|candidates| - 1];
      CursorIsEarliest(init, events, now, t);
      CursorStep(Build(init, events, now), last, now, t);
    }
  }

  lemma CursorStep(s: State, task: Task, now: int, t: int)
    requires s.cursor <= t <==> LateEnough(s.plans, now, t)
    ensures Step(s, task, now).cursor <= t <==> LateEnough(Step(s, task, now).plans, now, t)
  {
    var s' := Step(s, task, now);
    if |s'.plans| > |s.plans| {
      assert s'.plans[..|s.plans|] == s.plans;
      assert LateEnough(s'.plans, now, t) <==> LateEnough(s.plans, now, t) && s'.plans[|s.plans|].window.end + 10 * MINUTE <= t;
    }
  }

  /** The window keeps a quarter of an hour from every event of the day, and meets no plan. */
  ghost predicate Clear(w: Window, plans: seq<Plan>, events: seq<Window>) {
    && (forall e :: e in events && 0 <= e.start < 24 * HOUR ==> !(w.start < e.end + 15 * MINUTE && e.start - 15 * MINUTE < w.end))
    && forall i :: 0 <= i < |plans| ==> !(w.start < plans[i].window.end && plans[i].window.start < w.end)
  }

  lemma {:induction false} ClearIsUnblocked(candidates: seq<Task>, events: seq<Window>, now: int, w: Window)
    ensures var s := Build(candidates, events, now); Blocked(w, s.reservations) <==> !Clear(w, s.plans, events)
  {
    if candidates == [] {
      PaddedBlocks(events, w);
    } else {
      var init, last := candidates[..|candidates| - 1], candidates[|candidates| - 1];
      ClearIsUnblocked(init, events, now, w);
      ClearStep(Build(init, events, now), last, events, now, w);
    }
  }

  lemma PaddedBlocks(events: seq<Window>, w: Window)
    ensures Blocked(w, Padded(events)) <==> !Clear(w, [], events)
  {
    forall e | e in events && SameDay(e.start) ensures Window(e.start - QUARTER, e.end + QUARTER) in Padded(events) { }
    if !Clear(w, [], events) {
      var e :| e in events && SameDay(e.start) && w.start < e.end + 15 * MINUTE && e.start - 15 * MINUTE < w.end;
      assert Overlaps(w, Window(e.start - QUARTER, e.end + QUARTER));
    }
  }

  lemma ClearStep(s: State, task: Task, events: seq<Window>, now: int, w: Window)
    requires Blocked(w, s.reservations) <==> !Clear(w, s.plans, events)
    ensures var s' := Step(s, task, now); Blocked(w, s'.reservations) <==> !Clear(w, s'.plans, events)
  {
    var s' := Step(s, task, now);
    if |s'.plans| > |s.plans| {
      var plan := s'.plans[|s.plans|];
      assert s'.plans[..|s.plans|] == s.plans;
      assert Clear(w, s'.plans, events) <==> Clear(w, s.plans, events) && !Overlaps(w, plan.window);
      assert Blocked(w, s'.reservations) <==> Blocked(w, s.reservations) || Overlaps(w, plan.window);
    }
  }

  /** A task stays where it is scheduled, for its estimate, exactly if that is later today, its stored window ends by
      20:00 and is clear of events and plans, its estimate fits before 20:00, and fewer than three tasks are planned. */
  lemma KeptExactly(candidates: seq<Task>, events: seq<Window>, now: int, task: Task)
    ensures var s, s' := Build(candidates, events, now), Build(candidates + [task], events, now);
            (|s'.plans| == |s.plans| + 1 && s'.plans[|s.plans|].kept)
            <==> && |s.plans| < 3 && task.scheduledStart.Some?
                 && var start := task.scheduledStart.value;
                    var end := if task.scheduledEnd.Some? then task.scheduledEnd.value else start + Duration(task);
                    && now < start && 0 <= start < 24 * HOUR && end <= 20 * HOUR && start + Duration(task) <= 20 * HOUR
                    && Clear(Window(start, end), s.plans, events)
  {
    BuildOneMore(candidates, events, now, task);
    if task.scheduledStart.Some? { ClearIsUnblocked(candidates, events, now, ExistingWindow(task)); }
  }

  lemma BuildOneMore(candidates: seq<Task>, events: seq<Window>, now: int, task: Task)
    ensures Build(candidates + [task], events, now) == Step(Build(candidates, events, now), task, now)
  {
    assert (candidates + [task])[..|candidates|] == candidates;
  }

  lemma {:induction false} ReservedKeepClear(candidates: seq<Task>, events: seq<Window>, now: int, gap: Window, r: Window)
    requires Gap(gap, Build(candidates, events, now).plans, events)
    requires r in Build(candidates, events, now).reservations
    ensures r.end <= gap.start || r.start >= gap.end
  {
    if candidates != [] {
      var init, last := candidates[..|candidates| - 1], candidates[|candidates| - 1];
      var s, s' := Build(init, events, now), Build(candidates, events, now);
      assert s.plans == s'.plans[..|s.plans|];
      if r in s.reservations {
        ReservedKeepClear(init, events, now, gap, r);
      } else {
        assert r == s'.plans[|s.plans|].window;
      }
    }
  }

  /** A stretch of time free of the day's events, a quarter of an hour around them, and of the plans. */
  ghost predicate Gap(gap: Window, plans: seq<Plan>, events: seq<Window>) {
    && (forall e :: e in events && 0 <= e.start < 24 * HOUR ==> e.end + 15 * MINUTE <= gap.start || gap.end <= e.start - 15 * MINUTE)
    && forall i :: 0 <= i < |plans| ==> plans[i].window.end <= gap.start || gap.end <= plans[i].window.start
  }

  lemma GapIsFree(candidates: seq<Task>, events: seq<Window>, now: int, gap: Window)
    requires Gap(gap, Build(candidates, events, now).plans, events)
    ensures Free(gap, Build(candidates, events, now).reservations)
  {
    forall r | r in Build(candidates, events, now).reservations ensures r.end <= gap.start || r.start >= gap.end {
      ReservedKeepClear(candidates, events, now, gap, r);
    }
  }

  /** Completeness in clock time: with fewer than three plans, a task not kept in place is planned whenever there is
      such a stretch of its duration plus a quarter of an hour, less a millisecond, that ends by 20:00 and starts no
      earlier than 08:00, than the next quarter of an hour, and than ten minutes after every plan. It then starts less
      than a quarter of an hour into that stretch, or before it. */
  lemma PlannedByTheClock(candidates: seq<Task>, events: seq<Window>, now: int, task: Task, gap: Window)
    requires |Build(candidates, events, now).plans| < 3
    requires !CanKeep(task, Build(candidates, events, now).reservations, now)
    requires Gap(gap, Build(candidates, events, now).plans, events) && LateEnough(Build(candidates, events, now).plans, now, gap.start)
    requires gap.end <= 20 * HOUR && gap.end - gap.start >= Duration(task) + 15 * MINUTE - 1
    ensures var s, s' := Build(candidates, events, now), Build(candidates + [task], events, now);
            && |s'.plans| == |s.plans| + 1 && s'.deferred == s.deferred
            && var w := s'.plans[|s.plans|].window;
               && s'.plans == s.plans + [Plan(task, w, false)] && w.end == w.start + Duration(task)
               && LateEnough(s.plans, now, w.start) && w.start < gap.start + 15 * MINUTE && Clear(w, s.plans, events)
  {
    var s := Build(candidates, events, now);
    BuildOneMore(candidates, events, now, task);
    CursorIsEarliest(candidates, events, now, gap.start);
    GapIsFree(candidates, events, now, gap);
    var start := PlannedIfRoom(s, task, now, gap);
    CursorIsEarliest(candidates, events, now, start);
    ClearIsUnblocked(candidates, events, now, Window(start, start + Duration(task)));
  }

  // ---------- every candidate, once ----------

  /** `whole` is an in-order merge of the two. */
  predicate Merges(whole: seq<Task>, left: seq<Task>, right: seq<Task>) {
    if whole == [] then left == [] && right == []
    else
      var init, last := whole[..|whole| - 1], whole[|whole| - 1];
      || (left != [] && left[|left| - 1] == last && Merges(init, left[..|left| - 1], right))
      || (right != [] && right[|right| - 1] == last && Merges(init, left, right[..|right| - 1]))
  }

  /** Every candidate is planned or deferred, once, and both lists keep the candidates' order. */
  lemma PlansAndDeferredPartition(candidates: seq<Task>, events: seq<Window>, now: int)
    ensures var s := Build(candidates, events, now);
            && Merges(candidates, TasksOf(s.plans), s.deferred)
            && multiset(candidates) == multiset(TasksOf(s.plans)) + multiset(s.deferred)
  {
    BuildMerges(candidates, events, now);
    MergeCounts(candidates, TasksOf(Build(candidates, events, now).plans), Build(candidates, events, now).deferred);
  }

  lemma {:induction false} BuildMerges(candidates: seq<Task>, events: seq<Window>, now: int)
    ensures var s := Build(candidates, events, now);
            Merges(candidates, TasksOf(s.plans), s.deferred)
  {
    if candidates != [] {
      var init, last := candidates[..|candidates| - 1], candidates[|candidates| - 1];
      BuildMerges(init, events, now);
      var before, s := Build(init, events, now), Build(candidates, events, now);
      if |s.plans| > |before.plans| {
        assert TasksOf(s.plans)[..|before.plans|] == TasksOf(before.plans);
      } else {
        assert s.deferred[..|before.deferred|] == before.deferred;
      }
    }
  }

  lemma {:induction false} MergeCounts(whole: seq<Task>, left: seq<Task>, right: seq<Task>)
    requires Merges(whole, left, right)
    ensures multiset(whole) == multiset(left) + multiset(right)
  {
    if whole != [] {
      var init, last := whole[..|whole| - 1], whole[|whole| - 1];
      LastCounts(whole);
      if left != [] && left[|left| - 1] == last && Merges(init, left[..|left| - 1], right) {
        LastCounts(left);
        MergeCounts(init, left[..|left| - 1], right);
      } else {
        LastCounts(right);
        MergeCounts(init, left, right[..|right| - 1]);
      }
    }
  }

  lemma LastCounts(tasks: seq<Task>)
    requires tasks != []
    ensures multiset(tasks) == multiset(tasks[..|tasks| - 1]) + multiset{tasks[|tasks| - 1]}
  {
    assert tasks == tasks[..|tasks| - 1] + [tasks[|tasks| - 1]];
  }
}
