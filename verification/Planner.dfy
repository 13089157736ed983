/** The daily planner: a greedy interval scheduler with buffers, a moving cursor and a search that skips over
    collisions. Times are milliseconds from the start of the local day. */
module Planner {
  import opened Entities

  const MINUTE: int := 60_000
  const HOUR: int := 60 * MINUTE
  const DAY: int := 24 * HOUR
  const DAY_END: int := 20 * HOUR
  const QUARTER: int := 15 * MINUTE
  const BREAK: int := 10 * MINUTE
  const MAX_PLANS: nat := 3

  datatype Task = Task(id: string, estimate: int, scheduledStart: Option<int>, scheduledEnd: Option<int>)

  datatype Window = Window(start: int, end: int)

  datatype Plan = Plan(task: Task, window: Window, kept: bool)

  datatype State = State(plans: seq<Plan>, deferred: seq<Task>, reservations: set<Window>, cursor: int)

  predicate Overlaps(left: Window, right: Window) {
    left.start < right.end && left.end > right.start
  }

  predicate Blocked(w: Window, reservations: set<Window>) {
    exists r :: r in reservations && Overlaps(w, r)
  }

  predicate SameDay(t: int) {
    0 <= t < DAY
  }

  function Max(a: int, b: int): int {
    if a < b then b else a
  }

  function Duration(task: Task): (r: int)
    ensures 5 * MINUTE <= r <= 120 * MINUTE
    ensures 5 <= task.estimate <= 120 ==> r == task.estimate * MINUTE
    ensures task.estimate == 0 ==> r == 30 * MINUTE
    ensures task.estimate > 120 ==> r == 120 * MINUTE
    ensures task.estimate < 5 && task.estimate != 0 ==> r == 5 * MINUTE
  {
    var minutes := if task.estimate == 0 then 30 else task.estimate;
    (if minutes < 5 then 5 else if minutes > 120 then 120 else minutes) * MINUTE
  }

  /** The next quarter of an hour, strictly later than the given time. */
  method RoundUp(value: int) returns (result: int)
    requires value >= 0
    ensures value < result <= value + QUARTER && result % QUARTER == 0
  {
    var minutes := value / MINUTE;
    result := minutes * MINUTE;
    var remainder := minutes % 15;
    if remainder != 0 || result <= value {
      result := result + (if remainder != 0 then 15 - remainder else 15) * MINUTE;
    }
    assert result == (minutes / 15 + 1) * QUARTER;
  }

  function NextQuarter(value: int): int {
    (value / QUARTER + 1) * QUARTER
  }

  // ---------- the search ----------

  ghost predicate Earliest(slot: Window, reservations: set<Window>, c: Window) {
    && c in reservations && Overlaps(slot, c)
    && forall d :: d in reservations && Overlaps(slot, d) ==> c.end <= d.end
  }

  /** The earliest end among the windows a slot collides with. */
  ghost function CollisionEnd(slot: Window, reservations: set<Window>): (r: int)
    requires Blocked(slot, reservations)
    ensures exists c :: Earliest(slot, reservations, c) && c.end == r
  {
    var x :| x in reservations && Overlaps(slot, x);
    EarliestExists(slot, reservations, x);
    var c :| Earliest(slot, reservations, c);
    c.end
  }

  lemma {:induction false} EarliestExists(slot: Window, reservations: set<Window>, x: Window)
    requires x in reservations && Overlaps(slot, x)
    ensures exists c :: Earliest(slot, reservations, c)
    decreases reservations
  {
    if y :| y in reservations && Overlaps(slot, y) && y.end < x.end {
      EarliestExists(slot, reservations - {x}, y);
      var c :| Earliest(slot, reservations - {x}, c);
      forall d | d in reservations && Overlaps(slot, d) ensures c.end <= d.end {
        assert y in reservations - {x};
      }
      assert Earliest(slot, reservations, c);
    } else {
      assert Earliest(slot, reservations, x);
    }
  }

  /** Where the search stops: at a free slot, or at the first start that leaves no room before the day's end. */
  ghost function Search(start: int, duration: int, reservations: set<Window>): int
    requires duration > 0
    decreases DAY_END - start
  {
    var slot := Window(start, start + duration);
    if start + duration <= DAY_END && Blocked(slot, reservations)
    then Search(Max(start + QUARTER, CollisionEnd(slot, reservations)), duration, reservations)
    else start
  }

  method FindCollision(slot: Window, reservations: seq<Window>) returns (found: bool, end: int)
    ensures found == Blocked(slot, Elements(reservations))
    ensures found ==> end == CollisionEnd(slot, Elements(reservations))
  {
    found, end := false, 0;
    for i := 0 to |reservations|
      invariant found == exists j :: 0 <= j < i && Overlaps(slot, reservations[j])
      invariant found ==> exists j :: 0 <= j < i && Overlaps(slot, reservations[j]) && reservations[j].end == end
      invariant forall j :: 0 <= j < i && Overlaps(slot, reservations[j]) ==> end <= reservations[j].end
    {
      if Overlaps(slot, reservations[i]) && (!found || reservations[i].end < end) {
        found, end := true, reservations[i].end;
      }
    }
    if found {
      var j :| 0 <= j < |reservations| && Overlaps(slot, reservations[j]) && reservations[j].end == end;
      forall d | d in Elements(reservations) && Overlaps(slot, d) ensures end <= d.end {
        var x :| 0 <= x < |reservations| && reservations[x] == d;
      }
      assert Earliest(slot, Elements(reservations), reservations[j]);
    }
    assert forall j :: 0 <= j < |reservations| ==> reservations[j] in Elements(reservations);
  }

  function Elements(ws: seq<Window>): set<Window> {
    set w | w in ws
  }

  /** The collision-skipping loop; that it ends is part of the proof. */
  method SearchSlot(from: int, duration: int, reservations: seq<Window>) returns (start: int)
    requires duration > 0
    ensures start == Search(from, duration, Elements(reservations))
  {
    start := from;
    var found, end := FindCollision(Window(start, start + duration), reservations);
    while start + duration <= DAY_END && found
      invariant found == Blocked(Window(start, start + duration), Elements(reservations))
      invariant found ==> end == CollisionEnd(Window(start, start + duration), Elements(reservations))
      invariant Search(from, duration, Elements(reservations)) == Search(start, duration, Elements(reservations))
      decreases DAY_END - start
    {
      start := Max(start + QUARTER, end);
      found, end := FindCollision(Window(start, start + duration), reservations);
    }
  }

  // ---------- one candidate, and all of them ----------

  function ExistingWindow(task: Task): Window
    requires task.scheduledStart.Some?
  {
    var start := task.scheduledStart.value;
    Window(start, if task.scheduledEnd.Some? then task.scheduledEnd.value else start + Duration(task))
  }

  predicate CanKeep(task: Task, reservations: set<Window>, now: int) {
    && task.scheduledStart.Some?
    && task.scheduledStart.value > now && SameDay(task.scheduledStart.value)
    && ExistingWindow(task).end <= DAY_END
    && !Blocked(ExistingWindow(task), reservations)
  }

  ghost function StartOf(s: State, task: Task, now: int): int {
    if CanKeep(task, s.reservations, now) then task.scheduledStart.value
    else Search(s.cursor, Duration(task), s.reservations)
  }

  ghost function Step(s: State, task: Task, now: int): State {
    var start := StartOf(s, task, now);
    var window := Window(start, start + Duration(task));
    if |s.plans| >= MAX_PLANS || window.end > DAY_END then s.(deferred := s.deferred + [task])
    else
      State(s.plans + [Plan(task, window, CanKeep(task, s.reservations, now))], s.deferred,
            s.reservations + {window}, Max(s.cursor, window.end + BREAK))
  }

  function Padded(events: seq<Window>): set<Window> {
    set e | e in events && SameDay(e.start) :: Window(e.start - QUARTER, e.end + QUARTER)
  }

  function Start(events: seq<Window>, now: int): State {
    State([], [], Padded(events), Max(8 * HOUR, NextQuarter(now)))
  }

  ghost function Build(candidates: seq<Task>, events: seq<Window>, now: int): State {
    if candidates == [] then Start(events, now)
    else Step(Build(candidates[..|candidates| - 1], events, now), candidates[|candidates| - 1], now)
  }

  lemma PaddedGrows(events: seq<Window>, e: Window)
    ensures Padded(events + [e]) == Padded(events) + (if SameDay(e.start) then {Window(e.start - QUARTER, e.end + QUARTER)} else {})
  {
    forall w ensures w in Padded(events + [e]) <==> w in Padded(events) || (SameDay(e.start) && w == Window(e.start - QUARTER, e.end + QUARTER)) {
      assert e in events + [e];
    }
  }

  method Reserve(events: seq<Window>) returns (reservations: seq<Window>)
    ensures Elements(reservations) == Padded(events)
  {
    reservations := [];
    for i := 0 to |events|
      invariant Elements(reservations) == Padded(events[..i])
    {
      assert events[..i + 1] == events[..i] + [events[i]];
      PaddedGrows(events[..i], events[i]);
      if SameDay(events[i].start) {
        var window := Window(events[i].start - QUARTER, events[i].end + QUARTER);
        ElementsAppend(reservations, window);
        reservations := reservations + [window];
      }
    }
    assert events[..|events|] == events;
  }

  /** One candidate: kept in place, placed by the search, or deferred. */
  method PlanOne(s: State, reservations: seq<Window>, task: Task, now: int) returns (s': State, reservations': seq<Window>)
    requires s.reservations == Elements(reservations)
    ensures s' == Step(s, task, now) && s'.reservations == Elements(reservations')
  {
    s', reservations' := s.(deferred := s.deferred + [task]), reservations;
    if |s.plans| >= MAX_PLANS {
      return;
    }
    var duration := Duration(task);
    var canKeep := false;
    if task.scheduledStart.Some? {
      var existing := ExistingWindow(task);
      var collides, _ := FindCollision(existing, reservations);
      canKeep := existing.start > now && SameDay(existing.start) && existing.end <= DAY_END && !collides;
    }
    var start;
    if canKeep {
      start := task.scheduledStart.value;
    } else {
      start := SearchSlot(s.cursor, duration, reservations);
    }
    if start + duration > DAY_END {
      return;
    }
    var window := Window(start, start + duration);
    reservations' := reservations + [window];
    ElementsAppend(reservations, window);
    s' := State(s.plans + [Plan(task, window, canKeep)], s.deferred, s.reservations + {window}, Max(s.cursor, window.end + BREAK));
  }

  lemma ElementsAppend(ws: seq<Window>, w: Window)
    ensures Elements(ws + [w]) == Elements(ws) + {w}
  {
  }

  /** The reservations are also kept sorted by the program, which no later step depends on. */
  method BuildTodayPlan(candidates: seq<Task>, events: seq<Window>, now: int) returns (plans: seq<Plan>, deferred: seq<Task>)
    requires SameDay(now)
    ensures plans == Build(candidates, events, now).plans
    ensures deferred == Build(candidates, events, now).deferred
  {
    var rounded := RoundUp(now);
    assert rounded == NextQuarter(now);
    var reservations := Reserve(events);
    var s := State([], [], Elements(reservations), Max(8 * HOUR, rounded));
    for i := 0 to |candidates|
      invariant s == Build(candidates[..i], events, now) && s.reservations == Elements(reservations)
    {
      assert candidates[..i + 1][..i] == candidates[..i];
      s, reservations := PlanOne(s, reservations, candidates[i], now);
    }
    assert candidates[..|candidates|] == candidates;
    plans, deferred := s.plans, s.deferred;
  }
}
