/** When an agent change is applied and what it writes, read off the patch; and when an undo goes through, over any run
    of changes, undos and other writes in between. */
module AgentDecisions {
  import opened Entities
  import opened AgentChanges
  import opened AgentUndo
  import NoteLinks

  // ---------- patches ----------

  predicate OnSchedule(op: PatchOp) {
    && (op.path == "/scheduledStart" || op.path == "/scheduledEnd") && !op.op.OtherOp?
    && (op.op.Remove? || op.value.NullValue? || op.value.TimeValue?)
  }

  function Says(op: PatchOp): Option<int> {
    if !op.op.Remove? && op.value.TimeValue? then Some(op.value.t) else None
  }

  ghost predicate IsLast(ops: seq<PatchOp>, path: string, i: int) {
    0 <= i < |ops| && ops[i].path == path && forall j :: i < j < |ops| ==> ops[j].path != path
  }

  /** What the last operation on a path says, or what was there if there is none. */
  ghost function Ends(ops: seq<PatchOp>, path: string, before: Option<int>): Option<int> {
    if i :| IsLast(ops, path, i) then Says(ops[i]) else before
  }

  lemma EndsOneMore(ops: seq<PatchOp>, path: string, before: Option<int>)
    requires ops != []
    ensures Ends(ops, path, before)
            == if ops[|ops| - 1].path == path then Says(ops[|ops| - 1]) else Ends(ops[..|ops| - 1], path, before)
  {
    var n := |ops| - 1;
    if ops[n].path == path {
      assert IsLast(ops, path, n);
    } else {
      forall i ensures IsLast(ops, path, i) <==> IsLast(ops[..n], path, i) {
        if IsLast(ops[..n], path, i) { assert forall j :: i < j < n ==> ops[..n][j].path == ops[j].path; }
        if IsLast(ops, path, i) { assert i < n; }
      }
      LastIsUnique(ops, path);
    }
  }

  lemma LastIsUnique(ops: seq<PatchOp>, path: string)
    ensures forall i, j :: IsLast(ops, path, i) && IsLast(ops, path, j) ==> i == j
  {
  }

  /** A patch of a schedule is taken exactly if every operation is well formed; on each end the last one counts. */
  lemma {:induction false} PatchExactly(ops: seq<PatchOp>, start: Option<int>, end: Option<int>)
    ensures PatchedSchedule(ops, start, end)
            == if forall i :: 0 <= i < |ops| ==> OnSchedule(ops[i])
               then Some((Ends(ops, "/scheduledStart", start), Ends(ops, "/scheduledEnd", end))) else None
  {
    if ops != [] {
      var n := |ops| - 1;
      PatchExactly(ops[..n], start, end);
      EndsOneMore(ops, "/scheduledStart", start);
      EndsOneMore(ops, "/scheduledEnd", end);
      assert (forall i :: 0 <= i < |ops| ==> OnSchedule(ops[i]))
             <==> (forall i :: 0 <= i < n ==> OnSchedule(ops[..n][i])) && OnSchedule(ops[n]);
    }
  }

  // ---------- applying ----------

  /** The row that the change is about stands at the version it was proposed for. */
  predicate Addressed(rows: map<Id, Row>, c: AgentChange) {
    && c.target.Some? && c.base.Some? && c.target.value in rows && !rows[c.target.value].deleted
    && |rows[c.target.value].log| > 0 && |rows[c.target.value].log| == c.base.value
  }

  /** A task is rescheduled exactly if the patch is well formed and leaves no end without a start, or before it. It then
      has the ends that the patch says, and is otherwise as it was. */
  lemma RescheduledExactly(rows: map<Id, Row>, c: AgentChange, newId: Id, targets: seq<Id>)
    requires c.change.RescheduleTask? && Addressed(rows, c)
    ensures var row, r := rows[c.target.value], ApplyTarget(rows, c, newId, targets);
            match row.log[|row.log| - 1]
            case TaskOf(fields, start, end) =>
              var s, e := Ends(c.ops, "/scheduledStart", start), Ends(c.ops, "/scheduledEnd", end);
              r == if c.ops != [] && (forall i :: 0 <= i < |c.ops| ==> OnSchedule(c.ops[i]))
                      && (e.Some? ==> s.Some? && s.value <= e.value)
                   then Some(Target(c.target.value, Row(row.log + [TaskOf(fields, s, e)], false),
                                    Some(Whole(c.target.value, TaskOf(fields, start, end)))))
                   else None
            case _ => r == None
  {
    var row := rows[c.target.value];
    match row.log[|row.log| - 1]
    case TaskOf(fields, start, end) => PatchExactly(c.ops, start, end);
    case _ =>
  }

  /** A record is archived exactly by a single operation that gives it an archive time. */
  lemma ArchivedExactly(rows: map<Id, Row>, c: AgentChange, newId: Id, targets: seq<Id>)
    requires c.change.ArchiveRecord? && Addressed(rows, c)
    ensures var row, r := rows[c.target.value], ApplyTarget(rows, c, newId, targets);
            match row.log[|row.log| - 1]
            case RecordOf(fields, at) =>
              r == if |c.ops| == 1 && c.ops[0].path == "/archivedAt" && !c.ops[0].op.Remove? && c.ops[0].value.TimeValue?
                   then Some(Target(c.target.value, Row(row.log + [RecordOf(fields, Some(c.ops[0].value.t))], false),
                                    Some(Whole(c.target.value, RecordOf(fields, at)))))
                   else None
            case _ => r == None
  {
  }

  /** A note is linked exactly by a single operation that adds a live entity other than the note, not linked yet, to
      fewer than fifty links. */
  lemma LinkedExactly(rows: map<Id, Row>, c: AgentChange, newId: Id, targets: seq<Id>)
    requires c.change.LinkNote? && Addressed(rows, c)
    ensures var row, r := rows[c.target.value], ApplyTarget(rows, c, newId, targets);
            match row.log[|row.log| - 1]
            case NoteOf(fields, body, links) =>
              if && |c.ops| == 1 && c.ops[0].op.Add? && c.ops[0].path == "/linkedEntityIds/-" && c.ops[0].value.IdValue?
                 && c.ops[0].value.id != c.target.value && Live(rows, c.ops[0].value.id)
                 && (forall k :: k in links ==> k.target != c.ops[0].value.id) && |links| < 50
              then
                var relation := NoteLinks.Relation(TypeName(Current(rows[c.ops[0].value.id])), c.ops[0].value.id, "references");
                r == Some(Target(c.target.value, Row(row.log + [NoteOf(fields, body, links[relation := newId])], false),
                                 Some(NoteShot(c.target.value, fields, targets))))
              else r == None
            case _ => r == None
  {
    var row := rows[c.target.value];
    match row.log[|row.log| - 1]
    case NoteOf(fields, body, links) =>
      if |c.ops| == 1 && c.ops[0].value.IdValue? {
        assert c.ops[0].value.id in TargetsOf(links) <==> exists k :: k in links && k.target == c.ops[0].value.id;
      }
    case _ =>
  }

  /** Without a row at the proposed version nothing but a creation is applied, and that exactly for a decoded task or
      event. */
  lemma UnaddressedExactly(rows: map<Id, Row>, c: AgentChange, newId: Id, targets: seq<Id>)
    requires c.change.CreateTarget? || c.change.OtherType? || !Addressed(rows, c)
    ensures ApplyTarget(rows, c, newId, targets)
            == if c.change.CreateTarget? && c.ops != [] && c.change.created.Some?
                  && (c.change.created.value.TaskOf? || c.change.created.value.EventOf?)
               then Some(Target(newId, Row([c.change.created.value], false), None)) else None
  {
  }

  /** A change is applied exactly if it is pending at the version the user saw, its run waits, and its target takes it.
      It is then marked, one version on, all others stay, and its run goes on waiting exactly for another pending change
      of it. */
  lemma AcceptedExactly(s: Store, x: Accept)
    ensures Accepted(s, x).Some?
            <==> && x.changeId in s.changes && s.changes[x.changeId].version == x.expected
                 && s.changes[x.changeId].status == Pending && s.changes[x.changeId].run in s.waiting
                 && ApplyTarget(s.rows, s.changes[x.changeId], x.newId, x.targets).Some?
    ensures Accepted(s, x).Some? ==>
              var s', c := Accepted(s, x).value, s.changes[x.changeId];
              var t := ApplyTarget(s.rows, c, x.newId, x.targets).value;
              && s'.rows == s.rows[t.id := t.row]
              && s'.changes == s.changes[x.changeId := c.(status := Applied, version := x.expected + 1)]
              && (forall run :: run in s'.waiting <==>
                    && run in s.waiting
                    && (run == c.run ==> exists id :: id in s.changes && id != x.changeId && s.changes[id].run == run && s.changes[id].status == Pending))
              && s'.audits == s.audits[x.auditId := s'.audits[x.auditId]]
  {
    if Accepted(s, x).Some? {
      var changes, run := Accepted(s, x).value.changes, s.changes[x.changeId].run;
      forall id | id in s.changes && id != x.changeId ensures changes[id] == s.changes[id] { }
      assert (exists id :: id in changes && changes[id].run == run && changes[id].status == Pending)
             <==> (exists id :: id in s.changes && id != x.changeId && s.changes[id].run == run && s.changes[id].status == Pending);
    }
  }

  // ---------- undoing ----------

  /** Where the change went. */
  function TargetId(c: AgentChange, newId: Id): Id {
    if c.change.CreateTarget? || c.target.None? then newId else c.target.value
  }

  /** The target has not moved since the change, and this is its version. */
  predicate Unmoved(was: map<Id, Row>, now: map<Id, Row>, id: Id, expected: nat) {
    id in was && id in now && now[id] == was[id] && expected == Version(was[id])
  }

  /** All entities that the note linked before the change are live. */
  ghost predicate LinkedLive(rows: map<Id, Row>, before: Content) {
    before.NoteOf? ==> forall k :: k in before.links ==> Live(rows, k.target)
  }

  /** The content before the change, of an existing target. */
  function Before(s: Store, c: AgentChange): Option<Content> {
    if c.change.CreateTarget? || c.target.None? || !Live(s.rows, c.target.value) then None
    else Some(Current(s.rows[c.target.value]))
  }

  /** What the change leaves for its undo. */
  ghost predicate Leaves(s: Store, x: Accept, c: AgentChange, s': Store) {
    var id, before := TargetId(c, x.newId), Before(s, c);
    && id in s'.rows && !s'.rows[id].deleted && |s'.rows[id].log| > 0
    && x.auditId in s'.audits
    && var e := s'.audits[x.auditId];
       && e.action == "agent.change.apply"
       && |e.entities| == 2 && e.entities[0] == (TypeName(Current(s'.rows[id])), id) && e.entities[1].0 == "agent_run"
       && Undoable(e.entities[0].0)
       && e.afterVersion == (if x.fits.after then Some(Version(s'.rows[id])) else None)
       && (match before
           case None => e.before.None? && (e.entities[0].0 == "task" || e.entities[0].0 == "calendar_event")
           case Some(content) =>
             && TypeName(content) == e.entities[0].0
             && e.before == Some(if !x.fits.before then Truncated
                                 else match content
                                      case NoteOf(fields, _, _) => NoteShot(id, fields, x.targets)
                                      case _ => Whole(id, content))
             && (content.NoteOf? <==> e.entities[0].0 == "note") && (content.NoteOf? <==> Current(s'.rows[id]).NoteOf?)
             && (content.NoteOf? ==> Lists(x.targets, content.links)))
  }

  lemma LeavesAudit(s: Store, x: Accept, s': Store)
    requires Inv(s) && Sensible(s, x) && Accepted(s, x) == Some(s')
    ensures Leaves(s, x, s.changes[x.changeId], s')
  {
    var c := s.changes[x.changeId];
    if c.change.RescheduleTask? {
      RescheduledExactly(s.rows, c, x.newId, x.targets);
    } else if c.change.ArchiveRecord? {
      ArchivedExactly(s.rows, c, x.newId, x.targets);
    } else if c.change.LinkNote? {
      LinkedExactly(s.rows, c, x.newId, x.targets);
    }
  }

  /** Links can be resolved exactly if all their targets are live. */
  lemma {:induction false} ResolvedExactly(rows: map<Id, Row>, targets: seq<Id>, ids: seq<Id>)
    requires |targets| <= |ids|
    ensures Resolved(rows, targets, ids).Some? <==> forall t :: t in targets ==> Live(rows, t)
  {
    if targets != [] {
      var n := |targets| - 1;
      assert targets == targets[..n] + [targets[n]];
      ResolvedExactly(rows, targets[..n], ids);
    }
  }

  lemma ListedLive(rows: map<Id, Row>, targets: seq<Id>, links: Links)
    requires Lists(targets, links)
    ensures (forall t :: t in targets ==> Live(rows, t)) <==> (forall k :: k in links ==> Live(rows, k.target))
  {
  }

  /** The undo of a change, on any later store that still has its audit event. */
  lemma UndoneExactly(s: Store, x: Accept, c: AgentChange, s': Store, now: Store, expected: nat, ids: seq<Id>)
    requires Leaves(s, x, c, s') && RowGrown(s', now, TargetId(c, x.newId))
    requires x.auditId in now.audits && now.audits[x.auditId] == s'.audits[x.auditId] && EnoughIds(now, x.auditId, ids)
    ensures ApplyUndo(now, x.auditId, expected, ids).Some?
            <==> && x.fits.after && Unmoved(s'.rows, now.rows, TargetId(c, x.newId), expected)
                 && (Before(s, c).Some? ==> x.fits.before && LinkedLive(now.rows, Before(s, c).value))
  {
    var id, e := TargetId(c, x.newId), now.audits[x.auditId];
    UndoTargetOf(e);
    assert UndoTarget(e.entities) == (true, [e.entities[0]]);
    assert CanUpdate(now.rows, id, expected) && x.fits.after && e.afterVersion == Some(expected)
           <==> x.fits.after && Unmoved(s'.rows, now.rows, id, expected);
    if x.fits.after && Unmoved(s'.rows, now.rows, id, expected) {
      if Before(s, c).Some? && x.fits.before { RestoredExactly(s, x, c, s', now, ids); }
    }
  }

  ghost predicate RowGrown(s: Store, now: Store, id: Id) {
    id in s.rows && id in now.rows && RowGrows(s.rows[id], now.rows[id])
  }

  lemma RestoredExactly(s: Store, x: Accept, c: AgentChange, s': Store, now: Store, ids: seq<Id>)
    requires Leaves(s, x, c, s') && Before(s, c).Some? && x.fits.before
    requires TargetId(c, x.newId) in now.rows && now.rows[TargetId(c, x.newId)] == s'.rows[TargetId(c, x.newId)]
    requires s'.audits[x.auditId].before.value.NoteShot? ==> |x.targets| <= |ids|
    ensures var id, e := TargetId(c, x.newId), s'.audits[x.auditId];
            Restored(now.rows, id, e.entities[0].0, e.before.value, ids).Some? <==> LinkedLive(now.rows, Before(s, c).value)
  {
    var content := Before(s, c).value;
    if content.NoteOf? {
      ResolvedExactly(now.rows, x.targets, ids);
      ListedLive(now.rows, x.targets, content.links);
    }
  }

  /** Nothing but an applied change of a single undoable entity is undone, and only at the version the user saw. */
  lemma OnlyChangesAreUndone(s: Store, auditId: Id, expected: nat, ids: seq<Id>)
    requires EnoughIds(s, auditId, ids) && ApplyUndo(s, auditId, expected, ids).Some?
    ensures auditId in s.audits && s.audits[auditId].action == "agent.change.apply" && s.audits[auditId].afterVersion == Some(expected)
    ensures var targets := UndoTarget(s.audits[auditId].entities).1; |targets| == 1 && Live(s.rows, targets[0].1)
  {
  }

  /** Whatever happens between a change and its undo, the undo goes through exactly if the audited snapshots fitted, the
      target is where the change left it and the user saw that version, and, of a note, what it linked before is live.
      A created target needs no snapshot from before. */
  lemma UndoExactly(states: seq<Store>, events: seq<Event>, i: nat, j: nat, x: Accept, expected: nat, ids: seq<Id>)
    requires IsRun(states, events) && i < |events| && i < j < |states|
    requires events[i] == Apply(x) && Accepted(states[i], x).Some? && EnoughIds(states[j], x.auditId, ids)
    ensures x.changeId in states[i].changes
    ensures var c := states[i].changes[x.changeId];
            ApplyUndo(states[j], x.auditId, expected, ids).Some?
            <==> && x.fits.after && Unmoved(states[i + 1].rows, states[j].rows, TargetId(c, x.newId), expected)
                 && (Before(states[i], c).Some? ==> x.fits.before && LinkedLive(states[j].rows, Before(states[i], c).value))
  {
    RunsKeep(states, events, i, i);
    RunsKeep(states, events, i + 1, j);
    assert Next(states[i], events[i], states[i + 1]);
    var c := states[i].changes[x.changeId];
    LeavesAudit(states[i], x, states[i + 1]);
    assert RowGrown(states[i + 1], states[j], TargetId(c, x.newId));
    UndoneExactly(states[i], x, c, states[i + 1], states[j], expected, ids);
  }
}
