/** Undoing an agent change: over any run of changes, undos and other writes, an undo either fails and changes nothing,
    or brings back exactly what was there before the change; and it does so once. */
module AgentUndo {
  import opened Entities
  import opened AgentChanges

  // ---------- what the rest of the server keeps ----------

  ghost predicate RowGrows(a: Row, b: Row) {
    a.log <= b.log && (a.deleted ==> a == b)
  }

  ghost predicate Grows(a: map<Id, Row>, b: map<Id, Row>) {
    forall id :: id in a ==> id in b && RowGrows(a[id], b[id])
  }

  /** A row never changes its kind. */
  ghost predicate KindKept(row: Row) {
    |row.log| > 0 && forall v :: 0 <= v < |row.log| ==> TypeName(row.log[v]) == TypeName(row.log[0])
  }

  /** The links of a note are references, each under the type of its target. */
  ghost predicate References(rows: map<Id, Row>, links: Links) {
    forall k :: k in links ==>
      && k.relationType == "references"
      && k.target in rows && |rows[k.target].log| > 0 && k.targetType == TypeName(rows[k.target].log[0])
  }

  ghost predicate RowOK(rows: map<Id, Row>, row: Row) {
    KindKept(row) && forall v :: 0 <= v < |row.log| && row.log[v].NoteOf? ==> References(rows, row.log[v].links)
  }

  /** The audited state is the content one version before the change. */
  ghost predicate ShotOf(shot: Snapshot, id: Id, before: Content, after: Content) {
    match shot
    case Truncated => true
    case Whole(sid, content) => sid == id && content == before
    case NoteShot(sid, fields, targets) =>
      && sid == id && before.NoteOf? && after.NoteOf?
      && fields == before.fields && after.body == before.body && Lists(targets, before.links)
      && before.links.Keys <= after.links.Keys && forall k :: k in before.links ==> after.links[k] == before.links[k]
  }

  ghost predicate AuditOK(rows: map<Id, Row>, e: AuditEvent) {
    e.action == "agent.change.apply" ==>
      && |e.entities| == 2 && e.entities[1].0 == "agent_run" && e.entities[0].0 != "agent_run"
      && (e.afterVersion.Some? ==>
            var id, v := e.entities[0].1, e.afterVersion.value;
            && id in rows && 1 <= v <= |rows[id].log|
            && (e.before.None? ==> v == 1)
            && (e.before.Some? ==> v >= 2 && ShotOf(e.before.value, id, rows[id].log[v - 2], rows[id].log[v - 1])))
  }

  ghost predicate Inv(s: Store) {
    && (forall id :: id in s.rows ==> RowOK(s.rows, s.rows[id]))
    && (forall a :: a in s.audits ==> AuditOK(s.rows, s.audits[a]))
  }

  // ---------- growth ----------

  lemma ReferencesGrow(a: map<Id, Row>, b: map<Id, Row>, links: Links)
    requires References(a, links) && Grows(a, b)
    ensures References(b, links)
  {
    forall k | k in links ensures k.target in b && |b[k.target].log| > 0 && k.targetType == TypeName(b[k.target].log[0]) {
      assert RowGrows(a[k.target], b[k.target]);
    }
  }

  lemma RowStaysOK(a: map<Id, Row>, b: map<Id, Row>, row: Row)
    requires RowOK(a, row) && Grows(a, b)
    ensures RowOK(b, row)
  {
    forall v | 0 <= v < |row.log| && row.log[v].NoteOf? ensures References(b, row.log[v].links) {
      ReferencesGrow(a, b, row.log[v].links);
    }
  }

  lemma AuditStaysOK(a: map<Id, Row>, b: map<Id, Row>, e: AuditEvent)
    requires AuditOK(a, e) && Grows(a, b)
    ensures AuditOK(b, e)
  {
    if e.action == "agent.change.apply" && e.afterVersion.Some? {
      assert RowGrows(a[e.entities[0].1], b[e.entities[0].1]);
    }
  }

  // ---------- applying ----------

  datatype Accept = Accept(changeId: Id, expected: nat, newId: Id, auditId: Id, targets: seq<Id>, fits: Fits)

  function Accepted(s: Store, x: Accept): Option<Store> {
    ApplyChange(s, x.changeId, x.expected, x.newId, x.auditId, x.targets, x.fits)
  }

  /** Ids are drawn afresh, and `targets` lists the links of the note the change is about. */
  ghost predicate Sensible(s: Store, x: Accept) {
    && Draws(s, x.newId, x.auditId)
    && (x.changeId in s.changes && s.changes[x.changeId].target.Some? && Live(s.rows, s.changes[x.changeId].target.value)
        && Current(s.rows[s.changes[x.changeId].target.value]).NoteOf?
        ==> Lists(x.targets, Current(s.rows[s.changes[x.changeId].target.value]).links))
  }

  /** The target row is new, or has one content more, of the same kind, and the snapshot is of the one before. */
  ghost predicate TargetOK(rows: map<Id, Row>, t: Target) {
    && RowOK(rows[t.id := t.row], t.row) && !t.row.deleted
    && TypeName(Current(t.row)) != "agent_run"
    && (if t.before.None? then t.id !in rows && |t.row.log| == 1
        else
          && t.id in rows && !rows[t.id].deleted && |rows[t.id].log| > 0
          && t.row == Updated(rows[t.id], Current(t.row))
          && ShotOf(t.before.value, t.id, Current(rows[t.id]), Current(t.row)))
  }

  lemma UpdatedRowOK(rows: map<Id, Row>, id: Id, content: Content)
    requires id in rows && RowOK(rows, rows[id]) && !rows[id].deleted
    requires TypeName(content) == TypeName(Current(rows[id]))
    requires content.NoteOf? ==> References(rows, content.links)
    ensures Grows(rows, rows[id := Updated(rows[id], content)])
    ensures RowOK(rows[id := Updated(rows[id], content)], Updated(rows[id], content))
  {
    var row := Updated(rows[id], content);
    var rows' := rows[id := row];
    assert Grows(rows, rows');
    RowStaysOK(rows, rows', rows[id]);
    forall v | 0 <= v < |row.log| && row.log[v].NoteOf? ensures References(rows', row.log[v].links) {
      if v == |rows[id].log| { ReferencesGrow(rows, rows', content.links); } else { assert row.log[v] == rows[id].log[v]; }
    }
  }

  lemma ScheduleOK(rows: map<Id, Row>, id: Id, ops: seq<PatchOp>)
    requires Live(rows, id) && RowOK(rows, rows[id]) && ApplyTaskSchedule(id, rows[id], ops).Some?
    ensures TargetOK(rows, ApplyTaskSchedule(id, rows[id], ops).value)
    ensures ApplyTaskSchedule(id, rows[id], ops).value.id == id
  {
    UpdatedRowOK(rows, id, Current(ApplyTaskSchedule(id, rows[id], ops).value.row));
  }

  lemma ArchiveOK(rows: map<Id, Row>, id: Id, ops: seq<PatchOp>)
    requires Live(rows, id) && RowOK(rows, rows[id]) && ApplyRecordArchive(id, rows[id], ops).Some?
    ensures TargetOK(rows, ApplyRecordArchive(id, rows[id], ops).value)
    ensures ApplyRecordArchive(id, rows[id], ops).value.id == id
  {
    UpdatedRowOK(rows, id, Current(ApplyRecordArchive(id, rows[id], ops).value.row));
  }

  lemma LinkOK(rows: map<Id, Row>, id: Id, ops: seq<PatchOp>, newId: Id, targets: seq<Id>)
    requires Live(rows, id) && (forall r :: r in rows ==> RowOK(rows, rows[r]))
    requires ApplyNoteLink(rows, id, ops, newId, targets).Some? && Lists(targets, Current(rows[id]).links)
    ensures TargetOK(rows, ApplyNoteLink(rows, id, ops, newId, targets).value)
    ensures ApplyNoteLink(rows, id, ops, newId, targets).value.id == id
  {
    var t := ApplyNoteLink(rows, id, ops, newId, targets).value;
    var before, after, target := Current(rows[id]), Current(t.row), ops[0].value.id;
    assert RowOK(rows, rows[id]) && RowOK(rows, rows[target]);
    assert References(rows, before.links);
    UpdatedRowOK(rows, id, after);
  }

  lemma ApplyTargetOK(s: Store, x: Accept)
    requires Inv(s) && Sensible(s, x) && x.changeId in s.changes
    requires ApplyTarget(s.rows, s.changes[x.changeId], x.newId, x.targets).Some?
    ensures TargetOK(s.rows, ApplyTarget(s.rows, s.changes[x.changeId], x.newId, x.targets).value)
  {
    var c := s.changes[x.changeId];
    if c.change.RescheduleTask? {
      ScheduleOK(s.rows, c.target.value, c.ops);
    } else if c.change.ArchiveRecord? {
      ArchiveOK(s.rows, c.target.value, c.ops);
    } else if c.change.LinkNote? {
      LinkOK(s.rows, c.target.value, c.ops, x.newId, x.targets);
    }
  }

  lemma AcceptKeeps(s: Store, x: Accept, s': Store)
    requires Inv(s) && Sensible(s, x) && Accepted(s, x) == Some(s')
    ensures Inv(s') && Grows(s.rows, s'.rows)
  {
    ApplyTargetOK(s, x);
    var t := ApplyTarget(s.rows, s.changes[x.changeId], x.newId, x.targets).value;
    assert Grows(s.rows, s'.rows);
    forall id | id in s'.rows ensures RowOK(s'.rows, s'.rows[id]) {
      if id != t.id { RowStaysOK(s.rows, s'.rows, s.rows[id]); }
    }
    forall a | a in s'.audits ensures AuditOK(s'.rows, s'.audits[a]) {
      if a != x.auditId { AuditStaysOK(s.rows, s'.rows, s.audits[a]); }
    }
  }

  /** A change touches what it is about and nothing else: the schedule of a task, the archive time of a record, one
      new reference of a note to a live entity under its type. */
  lemma ChangesOnlyItsPart(rows: map<Id, Row>, c: AgentChange, newId: Id, targets: seq<Id>)
    requires ApplyTarget(rows, c, newId, targets).Some?
    ensures var t := ApplyTarget(rows, c, newId, targets).value;
            if c.change.CreateTarget? then t.id == newId && t.row.log == [c.change.created.value]
            else
              && c.target == Some(t.id) && CanUpdate(rows, t.id, c.base.value) && Version(t.row) == c.base.value + 1
              && var before, after := Current(rows[t.id]), Current(t.row);
                 match after
                 case TaskOf(fields, start, end) =>
                   before.TaskOf? && fields == before.fields && (end.Some? ==> start.Some? && start.value <= end.value)
                 case RecordOf(fields, archivedAt) => before.RecordOf? && fields == before.fields && archivedAt.Some?
                 case NoteOf(fields, body, links) =>
                   && before.NoteOf? && fields == before.fields && body == before.body
                   && exists k :: k !in before.links && links == before.links[k := newId] && k.relationType == "references"
                                  && Live(rows, k.target) && k.targetType == TypeName(Current(rows[k.target])) && k.target != t.id
                 case _ => false
  {
    if c.change.LinkNote? {
      var id := c.ops[0].value.id;
      var k := NoteLinks.Relation(TypeName(Current(rows[id])), id, "references");
      assert k !in Current(rows[c.target.value]).links;
    }
  }

  function End(schedule: (Option<int>, Option<int>), path: string): Option<int> {
    if path == "/scheduledStart" then schedule.0 else schedule.1
  }

  /** In a patch, the last operation on an end of the schedule decides it. */
  lemma {:induction false} LastPatchDecides(ops: seq<PatchOp>, start: Option<int>, end: Option<int>, i: nat)
    requires PatchedSchedule(ops, start, end).Some? && i < |ops| && LastOn(ops, i)
    ensures ops[i].path == "/scheduledStart" || ops[i].path == "/scheduledEnd"
    ensures OptionalTime(ops[i]) == Some(End(PatchedSchedule(ops, start, end).value, ops[i].path))
  {
    var init, last := ops[..|ops| - 1], ops[|ops| - 1];
    if i < |init| {
      assert init[i] == ops[i] && LastOn(init, i);
      LastPatchDecides(init, start, end, i);
      assert last.path != ops[i].path;
    }
  }

  /** An end that no operation is about stays. */
  lemma {:induction false} UnpatchedStays(ops: seq<PatchOp>, start: Option<int>, end: Option<int>, path: string)
    requires PatchedSchedule(ops, start, end).Some? && (path == "/scheduledStart" || path == "/scheduledEnd")
    requires forall i :: 0 <= i < |ops| ==> ops[i].path != path
    ensures End(PatchedSchedule(ops, start, end).value, path) == End((start, end), path)
  {
    if ops != [] { UnpatchedStays(ops[..|ops| - 1], start, end, path); }
  }

  predicate LastOn(ops: seq<PatchOp>, i: int)
    requires 0 <= i < |ops|
  {
    forall j :: i < j < |ops| ==> ops[j].path != ops[i].path
  }

  // ---------- undoing ----------

  /** The reference under which a link to k's target is stored. */
  ghost predicate IsReference(rows: map<Id, Row>, k: NoteLinks.Relation) {
    k.relationType == "references" && k.target in rows && |rows[k.target].log| > 0 && k.targetType == TypeName(rows[k.target].log[0])
  }

  lemma {:induction false} ResolvedKeys(rows: map<Id, Row>, targets: seq<Id>, ids: seq<Id>)
    requires |targets| <= |ids| && Resolved(rows, targets, ids).Some?
    requires forall r :: r in rows ==> RowOK(rows, rows[r])
    ensures forall k :: k in NoteLinks.Desired(Resolved(rows, targets, ids).value) <==> k.target in targets && IsReference(rows, k)
  {
    if targets != [] {
      var n := |targets| - 1;
      ResolvedKeys(rows, targets[..n], ids);
      assert targets == targets[..n] + [targets[n]];
      assert RowOK(rows, rows[targets[n]]);
      var init, all := Resolved(rows, targets[..n], ids).value, Resolved(rows, targets, ids).value;
      assert all[..|init|] == init;
      var last := NoteLinks.Relation(TypeName(rows[targets[n]].log[0]), targets[n], "references");
      assert NoteLinks.Desired(all) == NoteLinks.Desired(init)[last := ids[n]];
      forall k ensures k == last <==> k.target == targets[n] && IsReference(rows, k) { }
    }
  }

  /** Restored links are the links of the version before, row by row. */
  lemma LinksRestored(rows: map<Id, Row>, before: Links, after: Links, targets: seq<Id>, ids: seq<Id>)
    requires forall r :: r in rows ==> RowOK(rows, rows[r])
    requires References(rows, before) && Lists(targets, before)
    requires before.Keys <= after.Keys && forall k :: k in before ==> after[k] == before[k]
    requires |targets| <= |ids| && Resolved(rows, targets, ids).Some?
    ensures NoteLinks.Replaced(after, Resolved(rows, targets, ids).value) == before
  {
    var links := Resolved(rows, targets, ids).value;
    ResolvedKeys(rows, targets, ids);
    forall k ensures k in NoteLinks.Desired(links) <==> k in before {
      if k in NoteLinks.Desired(links) {
        var l :| l in before && l.target == k.target;
        assert l == k;
      }
    }
    assert NoteLinks.Desired(links).Keys == before.Keys;
    NoteLinks.RestoredIs(before, after, links);
  }

  /** The outcome of an undo that goes through. */
  ghost predicate Undone(s: Store, auditId: Id, expected: nat, s': Store) {
    && auditId in s.audits && |s.audits[auditId].entities| == 2
    && var id := s.audits[auditId].entities[0].1;
    && id in s.rows && Version(s.rows[id]) == expected == |s.rows[id].log| && !s.rows[id].deleted
    && s.audits[auditId].afterVersion == Some(expected)
    && s' == s.(rows := s'.rows) && id in s'.rows && s'.rows == s.rows[id := s'.rows[id]]
    && (if s.audits[auditId].before.None? then s'.rows[id] == s.rows[id].(deleted := true)
        else expected >= 2 && s'.rows[id] == Updated(s.rows[id], s.rows[id].log[expected - 2]))
  }

  lemma UndoTargetOf(e: AuditEvent)
    requires |e.entities| == 2 && e.entities[1].0 == "agent_run" && e.entities[0].0 != "agent_run"
    ensures UndoTarget(e.entities) == (Undoable(e.entities[0].0), [e.entities[0]])
  {
    var one, none: seq<(string, Id)> := [e.entities[0]], [];
    assert e.entities[..1] == one && one[..0] == none;
    assert UndoTarget(none) == (true, none);
    assert UndoTarget(one).1 == none + one == one;
    assert UndoTarget(one).0 == Undoable(e.entities[0].0);
    assert UndoTarget(e.entities) == UndoTarget(one);
  }

  /** What a snapshot restores is the content it was taken of. */
  lemma RestoredIsBefore(s: Store, id: Id, name: string, shot: Snapshot, v: nat, ids: seq<Id>)
    requires (forall r :: r in s.rows ==> RowOK(s.rows, s.rows[r])) && Live(s.rows, id) && 2 <= v == |s.rows[id].log|
    requires ShotOf(shot, id, s.rows[id].log[v - 2], s.rows[id].log[v - 1])
    requires shot.NoteShot? ==> |shot.targets| <= |ids|
    requires Restored(s.rows, id, name, shot, ids).Some?
    ensures Restored(s.rows, id, name, shot, ids) == Some(s.rows[id].log[v - 2])
  {
    if shot.NoteShot? {
      var before, after := s.rows[id].log[v - 2], s.rows[id].log[v - 1];
      assert RowOK(s.rows, s.rows[id]);
      assert References(s.rows, before.links);
      LinksRestored(s.rows, before.links, after.links, shot.targets, ids);
    }
  }

  lemma UndoRestores(s: Store, auditId: Id, expected: nat, ids: seq<Id>, s': Store)
    requires Inv(s) && EnoughIds(s, auditId, ids) && ApplyUndo(s, auditId, expected, ids) == Some(s')
    ensures Undone(s, auditId, expected, s')
  {
    var e := s.audits[auditId];
    assert AuditOK(s.rows, e);
    UndoTargetOf(e);
    var id := e.entities[0].1;
    if e.before.Some? {
      RestoredIsBefore(s, id, e.entities[0].0, e.before.value, expected, ids);
    }
  }

  lemma UndoKeeps(s: Store, auditId: Id, expected: nat, s': Store)
    requires Inv(s) && Undone(s, auditId, expected, s')
    ensures Inv(s') && Grows(s.rows, s'.rows)
  {
    var id := s.audits[auditId].entities[0].1;
    assert RowOK(s.rows, s.rows[id]);
    assert Grows(s.rows, s'.rows);
    if s.audits[auditId].before.Some? {
      var content := s.rows[id].log[expected - 2];
      UpdatedRowOK(s.rows, id, content);
    } else {
      RowStaysOK(s.rows, s'.rows, s.rows[id]);
    }
    forall r | r in s'.rows ensures RowOK(s'.rows, s'.rows[r]) {
      if r != id { RowStaysOK(s.rows, s'.rows, s.rows[r]); }
    }
    forall a | a in s'.audits ensures AuditOK(s'.rows, s'.audits[a]) { AuditStaysOK(s.rows, s'.rows, s.audits[a]); }
  }

  // ---------- runs ----------

  datatype Event = Apply(x: Accept) | Undo(auditId: Id, expected: nat, ids: seq<Id>) | Others

  /** Everything else the server does: rows grow, note links stay references, applied changes stay applied, and
      nobody else writes or rewrites apply audits. */
  ghost predicate OthersWrite(s: Store, s': Store) {
    && Grows(s.rows, s'.rows)
    && (forall id :: id in s'.rows ==> RowOK(s'.rows, s'.rows[id]))
    && (forall a :: a in s.audits ==> a in s'.audits && s'.audits[a] == s.audits[a])
    && (forall a :: a in s'.audits && a !in s.audits ==> s'.audits[a].action != "agent.change.apply")
    && (forall c :: c in s.changes && s.changes[c].status == Applied ==> c in s'.changes && s'.changes[c].status == Applied)
  }

  ghost predicate Next(s: Store, e: Event, s': Store) {
    match e
    case Apply(x) => Sensible(s, x) && s' == (match Accepted(s, x) case Some(t) => t case None => s)
    case Undo(a, v, ids) => EnoughIds(s, a, ids) && s' == (match ApplyUndo(s, a, v, ids) case Some(t) => t case None => s)
    case Others => OthersWrite(s, s')
  }

  ghost predicate IsRun(states: seq<Store>, events: seq<Event>) {
    && |states| == |events| + 1 && Inv(states[0])
    && forall i :: 0 <= i < |events| ==> Next(states[i], events[i], states[i + 1])
  }

  lemma GrowsRefl(rows: map<Id, Row>)
    ensures Grows(rows, rows)
  {
  }

  lemma StepKeeps(s: Store, e: Event, s': Store)
    requires Inv(s) && Next(s, e, s')
    ensures Inv(s') && Grows(s.rows, s'.rows)
    ensures forall a :: a in s.audits ==> a in s'.audits && s'.audits[a] == s.audits[a]
    ensures forall c :: c in s.changes && s.changes[c].status == Applied ==> c in s'.changes && s'.changes[c].status == Applied
  {
    GrowsRefl(s.rows);
    match e
    case Apply(x) =>
      if Accepted(s, x).Some? { AcceptKeeps(s, x, s'); }
    case Undo(a, v, ids) =>
      if ApplyUndo(s, a, v, ids).Some? {
        UndoRestores(s, a, v, ids, s');
        UndoKeeps(s, a, v, s');
      }
    case Others =>
      forall a | a in s'.audits ensures AuditOK(s'.rows, s'.audits[a]) {
        if a in s.audits { AuditStaysOK(s.rows, s'.rows, s.audits[a]); }
      }
  }

  lemma GrowsTransitive(a: map<Id, Row>, b: map<Id, Row>, c: map<Id, Row>)
    requires Grows(a, b) && Grows(b, c)
    ensures Grows(a, c)
  {
    forall id | id in a ensures id in c && RowGrows(a[id], c[id]) {
      assert RowGrows(a[id], b[id]) && RowGrows(b[id], c[id]);
    }
  }

  lemma {:induction false} RunsKeep(states: seq<Store>, events: seq<Event>, i: nat, n: nat)
    requires IsRun(states, events) && i <= n < |states|
    ensures Inv(states[n]) && Grows(states[i].rows, states[n].rows)
    ensures forall a :: a in states[i].audits ==> a in states[n].audits && states[n].audits[a] == states[i].audits[a]
    decreases n
  {
    if n == i {
      GrowsRefl(states[i].rows);
      if n > 0 {
        RunsKeep(states, events, n - 1, n - 1);
        StepKeeps(states[n - 1], events[n - 1], states[n]);
      }
    } else {
      RunsKeep(states, events, i, n - 1);
      StepKeeps(states[n - 1], events[n - 1], states[n]);
      GrowsTransitive(states[i].rows, states[n - 1].rows, states[n].rows);
    }
  }

  /** The audit event of an accepted change, and the target row behind it. */
  lemma AcceptedAudit(s: Store, x: Accept, s': Store)
    requires Inv(s) && Sensible(s, x) && Accepted(s, x) == Some(s')
    ensures x.auditId in s'.audits && |s'.audits[x.auditId].entities| == 2
    ensures var e := s'.audits[x.auditId];
            var id := e.entities[0].1;
            && id in s'.rows && |s'.rows[id].log| > 0 && (e.afterVersion.Some? ==> e.afterVersion.value == Version(s'.rows[id]))
            && (id in s.rows ==> e.before.Some? && !s.rows[id].deleted && |s.rows[id].log| > 0
                                 && s'.rows[id] == Updated(s.rows[id], Current(s'.rows[id])))
            && (id !in s.rows && e.afterVersion.Some? ==> e.before.None?)
  {
    ApplyTargetOK(s, x);
  }

  /** Apply, anything, undo: if the undo goes through, the target has, two versions after its state before the change,
      exactly the content it had then, note body and link rows included; a created target is deleted; and nothing
      else has moved. */
  lemma ApplyThenUndo(states: seq<Store>, events: seq<Event>, i: nat, j: nat, x: Accept, expected: nat, ids: seq<Id>)
    requires IsRun(states, events) && i < j < |events|
    requires events[i] == Apply(x) && Accepted(states[i], x).Some? && EnoughIds(states[j], x.auditId, ids)
    requires events[j] == Undo(x.auditId, expected, ids) && ApplyUndo(states[j], x.auditId, expected, ids).Some?
    ensures x.auditId in states[i + 1].audits && |states[i + 1].audits[x.auditId].entities| == 2
    ensures var id := states[i + 1].audits[x.auditId].entities[0].1;
            && id in states[j + 1].rows
            && (if id in states[i].rows then
                  && |states[i].rows[id].log| > 0 && |states[j + 1].rows[id].log| > 0 && !states[j + 1].rows[id].deleted
                  && Version(states[j + 1].rows[id]) == Version(states[i].rows[id]) + 2
                  && Current(states[j + 1].rows[id]) == Current(states[i].rows[id])
                else states[j + 1].rows[id].deleted)
            && states[j + 1].rows == states[j].rows[id := states[j + 1].rows[id]]
  {
    RunsKeep(states, events, i, i);
    RunsKeep(states, events, i + 1, j);
    assert Next(states[i], events[i], states[i + 1]) && Next(states[j], events[j], states[j + 1]);
    AcceptedAudit(states[i], x, states[i + 1]);
    UndoRestores(states[j], x.auditId, expected, ids, states[j + 1]);
    SameAfterBoth(states[i], states[i + 1], states[j], states[j + 1], x, expected);
  }

  lemma SameAfterBoth(s: Store, s1: Store, s2: Store, s3: Store, x: Accept, expected: nat)
    requires x.auditId in s1.audits && x.auditId in s2.audits && s2.audits[x.auditId] == s1.audits[x.auditId]
    requires |s1.audits[x.auditId].entities| == 2
    requires var e := s1.audits[x.auditId];
             var id := e.entities[0].1;
             && id in s1.rows && |s1.rows[id].log| > 0 && (e.afterVersion.Some? ==> e.afterVersion.value == Version(s1.rows[id]))
             && (id in s.rows ==> e.before.Some? && !s.rows[id].deleted && |s.rows[id].log| > 0
                                  && s1.rows[id] == Updated(s.rows[id], Current(s1.rows[id])))
             && (id !in s.rows && e.afterVersion.Some? ==> e.before.None?)
    requires Grows(s1.rows, s2.rows) && Undone(s2, x.auditId, expected, s3)
    ensures var id := s1.audits[x.auditId].entities[0].1;
            && id in s3.rows
            && (if id in s.rows then
                  && |s.rows[id].log| > 0 && |s3.rows[id].log| > 0 && !s3.rows[id].deleted
                  && Version(s3.rows[id]) == Version(s.rows[id]) + 2 && Current(s3.rows[id]) == Current(s.rows[id])
                else s3.rows[id].deleted)
            && s3.rows == s2.rows[id := s3.rows[id]]
  {
    var id := s1.audits[x.auditId].entities[0].1;
    assert RowGrows(s1.rows[id], s2.rows[id]);
  }

  lemma {:induction false} AppliedStays(states: seq<Store>, events: seq<Event>, i: nat, n: nat, changeId: Id)
    requires IsRun(states, events) && i <= n < |states|
    requires changeId in states[i].changes && states[i].changes[changeId].status == Applied
    ensures changeId in states[n].changes && states[n].changes[changeId].status == Applied
    decreases n
  {
    if i < n {
      AppliedStays(states, events, i, n - 1, changeId);
      RunsKeep(states, events, n - 1, n - 1);
      StepKeeps(states[n - 1], events[n - 1], states[n]);
    }
  }

  /** A change is applied at most once. */
  lemma AppliedOnce(states: seq<Store>, events: seq<Event>, i: nat, n: nat, x: Accept, y: Accept)
    requires IsRun(states, events) && i < n < |states| && events[i] == Apply(x) && Accepted(states[i], x).Some?
    requires y.changeId == x.changeId
    ensures Accepted(states[n], y).None?
  {
    assert Next(states[i], events[i], states[i + 1]);
    AppliedStays(states, events, i + 1, n, x.changeId);
  }

  /** No change is undone twice: after an undo that went through, every further undo of that audit event fails. */
  lemma NoSecondUndo(states: seq<Store>, events: seq<Event>, j: nat, k: nat, auditId: Id, expected: nat, ids: seq<Id>,
                     expected': nat, ids': seq<Id>)
    requires IsRun(states, events) && j < k < |states|
    requires events[j] == Undo(auditId, expected, ids) && EnoughIds(states[j], auditId, ids)
    requires ApplyUndo(states[j], auditId, expected, ids).Some?
    requires EnoughIds(states[k], auditId, ids')
    ensures ApplyUndo(states[k], auditId, expected', ids').None?
  {
    RunsKeep(states, events, j, j);
    RunsKeep(states, events, j + 1, k);
    assert Next(states[j], events[j], states[j + 1]);
    UndoRestores(states[j], auditId, expected, ids, states[j + 1]);
    var e := states[j].audits[auditId];
    var id := e.entities[0].1;
    assert RowGrows(states[j + 1].rows[id], states[k].rows[id]);
    assert AuditOK(states[j].rows, e);
    UndoTargetOf(e);
    assert !CanUpdate(states[k].rows, id, expected);
  }
}
