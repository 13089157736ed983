/** Applying a proposed agent change to its target, and undoing it from the audit trail. Rows keep every content they
    had, so an id and a version determine the content. */
module AgentChanges {
  import opened Entities
  import NoteLinks

  type Id = string
  type Links = map<NoteLinks.Relation, NoteLinks.Id>

  const MAX_LINKS: nat := 50

  datatype Content =
    | TaskOf(fields: string, start: Option<int>, end: Option<int>)
    | EventOf(fields: string)
    | RecordOf(fields: string, archivedAt: Option<int>)
    | NoteOf(fields: string, body: string, links: Links)
    | OtherOf(typeName: string, fields: string)

  // Version v has the content log[v - 1]; the soft delete takes one more version.
  datatype Row = Row(log: seq<Content>, deleted: bool)

  datatype Op = Add | Replace | Remove | OtherOp
  datatype Value = NullValue | TimeValue(t: int) | IdValue(id: Id) | Malformed
  datatype PatchOp = PatchOp(op: Op, path: string, value: Value)

  datatype ChangeType = RescheduleTask | CreateTarget(created: Option<Content>) | ArchiveRecord | LinkNote | OtherType

  datatype ChangeStatus = Pending | Applied | Rejected
  datatype AgentChange = AgentChange(version: nat, status: ChangeStatus, run: Id, change: ChangeType,
                                     target: Option<Id>, base: Option<nat>, ops: seq<PatchOp>)

  // The audited state before a change: note bodies are filtered out, and too large a snapshot is dropped.
  datatype Snapshot = Whole(id: Id, content: Content) | NoteShot(id: Id, fields: string, targets: seq<Id>) | Truncated

  datatype AuditEvent = AuditEvent(action: string, entities: seq<(string, Id)>, before: Option<Snapshot>, afterVersion: Option<nat>)

  datatype Store = Store(rows: map<Id, Row>, changes: map<Id, AgentChange>, waiting: set<Id>, audits: map<Id, AuditEvent>)

  function Version(row: Row): nat {
    |row.log| + if row.deleted then 1 else 0
  }

  predicate Live(rows: map<Id, Row>, id: Id) {
    id in rows && !rows[id].deleted && |rows[id].log| > 0
  }

  function Current(row: Row): Content
    requires |row.log| > 0
  {
    row.log[|row.log| - 1]
  }

  function TypeName(c: Content): string {
    match c
    case TaskOf(_, _, _) => "task"
    case EventOf(_) => "calendar_event"
    case RecordOf(_, _) => "record"
    case NoteOf(_, _, _) => "note"
    case OtherOf(name, _) => name
  }

  // ---------- patches ----------

  function OptionalTime(op: PatchOp): Option<Option<int>> {
    if op.op.Remove? || op.value.NullValue? then Some(None)
    else if op.value.TimeValue? then Some(Some(op.value.t))
    else None
  }

  /** The schedule after a list of patch operations, None if one of them is malformed. */
  function PatchedSchedule(ops: seq<PatchOp>, start: Option<int>, end: Option<int>): Option<(Option<int>, Option<int>)> {
    if ops == [] then Some((start, end))
    else
      var op := ops[|ops| - 1];
      match PatchedSchedule(ops[..|ops| - 1], start, end)
      case None => None
      case Some((s, e)) =>
        if op.op.OtherOp? then None
        else if op.path == "/scheduledStart" then (match OptionalTime(op) case None => None case Some(t) => Some((t, e)))
        else if op.path == "/scheduledEnd" then (match OptionalTime(op) case None => None case Some(t) => Some((s, t)))
        else None
  }

  lemma {:induction false} MalformedPrefix(ops: seq<PatchOp>, start: Option<int>, end: Option<int>, n: nat)
    requires n <= |ops| && PatchedSchedule(ops[..n], start, end).None?
    ensures PatchedSchedule(ops, start, end).None?
    decreases |ops|
  {
    if n < |ops| {
      assert ops[..|ops| - 1][..n] == ops[..n];
      MalformedPrefix(ops[..|ops| - 1], start, end, n);
    } else {
      assert ops[..n] == ops;
    }
  }

  method PatchSchedule(ops: seq<PatchOp>, start: Option<int>, end: Option<int>) returns (r: Option<(Option<int>, Option<int>)>)
    ensures r == PatchedSchedule(ops, start, end)
  {
    var s, e := start, end;
    for i := 0 to |ops|
      invariant PatchedSchedule(ops[..i], start, end) == Some((s, e))
    {
      assert ops[..i + 1][..i] == ops[..i];
      var op := ops[i];
      var t := OptionalTime(op);
      if op.op.OtherOp? || (op.path != "/scheduledStart" && op.path != "/scheduledEnd") || t.None? {
        MalformedPrefix(ops, start, end, i + 1);
        return None;
      }
      if op.path == "/scheduledStart" { s := t.value; } else { e := t.value; }
    }
    assert ops[..|ops|] == ops;
    r := Some((s, e));
  }

  // ---------- applying ----------

  datatype Target = Target(id: Id, row: Row, before: Option<Snapshot>)

  predicate CanUpdate(rows: map<Id, Row>, id: Id, expected: nat) {
    Live(rows, id) && Version(rows[id]) == expected
  }

  function Updated(row: Row, content: Content): Row {
    row.(log := row.log + [content])
  }

  function TargetsOf(links: Links): set<Id> {
    set k | k in links :: k.target
  }

  function ApplyTaskSchedule(id: Id, row: Row, ops: seq<PatchOp>): Option<Target>
    requires |row.log| > 0
  {
    var before := Current(row);
    if !before.TaskOf? then None
    else
      match PatchedSchedule(ops, before.start, before.end)
      case None => None
      case Some((s, e)) =>
        if e.Some? && (s.None? || e.value < s.value) then None
        else Some(Target(id, Updated(row, before.(start := s, end := e)), Some(Whole(id, before))))
  }

  function ApplyRecordArchive(id: Id, row: Row, ops: seq<PatchOp>): Option<Target>
    requires |row.log| > 0
  {
    var before := Current(row);
    if !before.RecordOf? || |ops| != 1 || ops[0].path != "/archivedAt" then None
    else if OptionalTime(ops[0]).None? || OptionalTime(ops[0]).value.None? then None
    else Some(Target(id, Updated(row, before.(archivedAt := OptionalTime(ops[0]).value)), Some(Whole(id, before))))
  }

  function ApplyNoteLink(rows: map<Id, Row>, id: Id, ops: seq<PatchOp>, newId: Id, targets: seq<Id>): Option<Target>
    requires Live(rows, id)
  {
    var before := Current(rows[id]);
    if !before.NoteOf? || |ops| != 1 || !ops[0].op.Add? || ops[0].path != "/linkedEntityIds/-" || !ops[0].value.IdValue? then None
    else
      var target := ops[0].value.id;
      if target == id || !Live(rows, target) || target in TargetsOf(before.links) || |before.links| >= MAX_LINKS then None
      else
        var relation := NoteLinks.Relation(TypeName(Current(rows[target])), target, "references");
        Some(Target(id, Updated(rows[id], before.(links := before.links[relation := newId])), Some(NoteShot(id, before.fields, targets))))
  }

  /** The row the change leaves its target with, None if it cannot be applied. `newId` is a drawn id. */
  function ApplyTarget(rows: map<Id, Row>, c: AgentChange, newId: Id, targets: seq<Id>): Option<Target> {
    if c.ops == [] || c.change.OtherType? then None
    else if c.change.CreateTarget? then
      if c.change.created.None? || !(c.change.created.value.TaskOf? || c.change.created.value.EventOf?) then None
      else Some(Target(newId, Row([c.change.created.value], false), None))
    else if c.target.None? || c.base.None? || !CanUpdate(rows, c.target.value, c.base.value) then None
    else if c.change.RescheduleTask? then ApplyTaskSchedule(c.target.value, rows[c.target.value], c.ops)
    else if c.change.ArchiveRecord? then ApplyRecordArchive(c.target.value, rows[c.target.value], c.ops)
    else ApplyNoteLink(rows, c.target.value, c.ops, newId, targets)
  }

  /** The targets of a note's links, in the order in which they are listed. */
  predicate Lists(targets: seq<Id>, links: Links) {
    && (forall k :: k in links ==> k.target in targets)
    && (forall t :: t in targets ==> exists k :: k in links && k.target == t)
  }

  predicate Draws(s: Store, newId: Id, auditId: Id) {
    newId !in s.rows && auditId !in s.audits
  }

  // Which of the two audited snapshots fit the size limit.
  datatype Fits = Fits(before: bool, after: bool)

  /** The waiting runs after a change of one of them was resolved: the run is completed with its last pending change. */
  function StillWaiting(waiting: set<Id>, changes: map<Id, AgentChange>, run: Id): set<Id> {
    if exists id :: id in changes && changes[id].run == run && changes[id].status == Pending then waiting else waiting - {run}
  }

  function ApplyChange(s: Store, changeId: Id, expected: nat, newId: Id, auditId: Id, targets: seq<Id>, fits: Fits): Option<Store> {
    if changeId !in s.changes then None
    else
      var c := s.changes[changeId];
      if c.version != expected || c.status != Pending || c.run !in s.waiting then None
      else
        match ApplyTarget(s.rows, c, newId, targets)
        case None => None
        case Some(t) =>
          var audit := AuditEvent("agent.change.apply", [(TypeName(Current(t.row)), t.id), ("agent_run", c.run)],
                                  if t.before.Some? && !fits.before then Some(Truncated) else t.before,
                                  if fits.after then Some(Version(t.row)) else None);
          var changes := s.changes[changeId := c.(status := Applied, version := c.version + 1)];
          Some(s.(rows := s.rows[t.id := t.row],
                  changes := changes,
                  waiting := StillWaiting(s.waiting, changes, c.run),
                  audits := s.audits[auditId := audit]))
  }

  // ---------- undoing ----------

  predicate Undoable(name: string) {
    name == "task" || name == "calendar_event" || name == "record" || name == "note"
  }

  /** The one entity besides the run. */
  function UndoTarget(entities: seq<(string, Id)>): (r: (bool, seq<(string, Id)>))
  {
    if entities == [] then (true, [])
    else
      var (ok, found) := UndoTarget(entities[..|entities| - 1]);
      var last := entities[|entities| - 1];
      if last.0 == "agent_run" then (ok, found) else (ok && Undoable(last.0), found + [last])
  }

  method AuditUndoTarget(entities: seq<(string, Id)>) returns (target: Option<(string, Id)>)
    ensures var (ok, found) := UndoTarget(entities);
            target == if ok && |found| == 1 then Some(found[0]) else None
  {
    var count, last := 0, ("", "");
    for i := 0 to |entities|
      invariant UndoTarget(entities[..i]).0 && |UndoTarget(entities[..i]).1| == count
      invariant count > 0 ==> last == UndoTarget(entities[..i]).1[count - 1]
    {
      assert entities[..i + 1][..i] == entities[..i];
      if entities[i].0 == "agent_run" { continue; }
      if !Undoable(entities[i].0) {
        NotUndoable(entities, i + 1);
        return None;
      }
      last, count := entities[i], count + 1;
    }
    assert entities[..|entities|] == entities;
    if count != 1 { return None; }
    target := Some(last);
  }

  lemma {:induction false} NotUndoable(entities: seq<(string, Id)>, n: nat)
    requires n <= |entities| && !UndoTarget(entities[..n]).0
    ensures !UndoTarget(entities).0
    decreases |entities|
  {
    if n < |entities| {
      assert entities[..|entities| - 1][..n] == entities[..n];
      NotUndoable(entities[..|entities| - 1], n);
    } else {
      assert entities[..n] == entities;
    }
  }

  /** The links a restored note is given: each target resolved anew, under drawn ids. */
  function Resolved(rows: map<Id, Row>, targets: seq<Id>, ids: seq<Id>): Option<seq<NoteLinks.Link>>
    requires |targets| <= |ids|
  {
    if targets == [] then Some([])
    else
      var n := |targets| - 1;
      var init := Resolved(rows, targets[..n], ids);
      if init.None? || !Live(rows, targets[n]) then None
      else Some(init.value + [NoteLinks.Link(ids[n], NoteLinks.Relation(TypeName(Current(rows[targets[n]])), targets[n], "references"))])
  }

  method ResolveLinks(rows: map<Id, Row>, targets: seq<Id>, ids: seq<Id>) returns (links: Option<seq<NoteLinks.Link>>)
    requires |targets| <= |ids|
    ensures links == Resolved(rows, targets, ids)
  {
    var done: seq<NoteLinks.Link> := [];
    for i := 0 to |targets|
      invariant Resolved(rows, targets[..i], ids) == Some(done)
    {
      assert targets[..i + 1][..i] == targets[..i];
      if !Live(rows, targets[i]) {
        Unresolved(rows, targets, ids, i + 1);
        return None;
      }
      done := done + [NoteLinks.Link(ids[i], NoteLinks.Relation(TypeName(Current(rows[targets[i]])), targets[i], "references"))];
    }
    assert targets[..|targets|] == targets;
    links := Some(done);
  }

  lemma {:induction false} Unresolved(rows: map<Id, Row>, targets: seq<Id>, ids: seq<Id>, n: nat)
    requires |targets| <= |ids| && n <= |targets| && Resolved(rows, targets[..n], ids).None?
    ensures Resolved(rows, targets, ids).None?
    decreases |targets|
  {
    if n < |targets| {
      assert targets[..|targets| - 1][..n] == targets[..n];
      Unresolved(rows, targets[..|targets| - 1], ids, n);
    } else {
      assert targets[..n] == targets;
    }
  }

  /** The content an undo writes back, None if the snapshot does not serve. */
  function Restored(rows: map<Id, Row>, id: Id, name: string, before: Snapshot, ids: seq<Id>): Option<Content>
    requires Live(rows, id)
    requires before.NoteShot? ==> |before.targets| <= |ids|
  {
    var current := Current(rows[id]);
    match before
    case Truncated => None
    case Whole(sid, content) =>
      if sid == id && name != "note" && TypeName(content) == name == TypeName(current) then Some(content) else None
    case NoteShot(sid, fields, targets) =>
      if sid != id || name != "note" || !current.NoteOf? then None
      else
        match Resolved(rows, targets, ids)
        case None => None
        case Some(links) => Some(NoteOf(fields, current.body, NoteLinks.Replaced(current.links, links)))
  }

  function UndoneRow(s: Store, target: (string, Id), before: Option<Snapshot>, expected: nat, ids: seq<Id>): Option<Row>
    requires before.Some? && before.value.NoteShot? ==> |before.value.targets| <= |ids|
  {
    var id := target.1;
    if !CanUpdate(s.rows, id, expected) then None
    else if before.None? then
      if target.0 == "task" || target.0 == "calendar_event" then Some(s.rows[id].(deleted := true)) else None
    else
      match Restored(s.rows, id, target.0, before.value, ids)
      case None => None
      case Some(content) => Some(Updated(s.rows[id], content))
  }

  predicate EnoughIds(s: Store, auditId: Id, ids: seq<Id>) {
    auditId in s.audits && s.audits[auditId].before.Some? && s.audits[auditId].before.value.NoteShot? ==>
      |s.audits[auditId].before.value.targets| <= |ids|
  }

  function ApplyUndo(s: Store, auditId: Id, expected: nat, ids: seq<Id>): Option<Store>
    requires EnoughIds(s, auditId, ids)
  {
    if auditId !in s.audits then None
    else
      var a := s.audits[auditId];
      var (ok, found) := UndoTarget(a.entities);
      if a.action != "agent.change.apply" || !ok || |found| != 1 || a.afterVersion != Some(expected) then None
      else
        match UndoneRow(s, found[0], a.before, expected, ids)
        case None => None
        case Some(row) => Some(s.(rows := s.rows[found[0].1 := row]))
  }

  // ---------- the operations, as they run ----------

  class Repository {
    var store: Store

    constructor (s: Store)
      ensures store == s
    {
      store := s;
    }

    method Accept(changeId: Id, expected: nat, newId: Id, auditId: Id, targets: seq<Id>, fits: Fits) returns (ok: bool)
      modifies this
      ensures match ApplyChange(old(store), changeId, expected, newId, auditId, targets, fits)
              case None => !ok && store == old(store)
              case Some(s') => ok && store == s'
    {
      if changeId !in store.changes { return false; }
      var c := store.changes[changeId];
      if c.version != expected || c.status != Pending { return false; }
      if c.run !in store.waiting { return false; }
      var target := ApplyTargetTo(c, newId, targets);
      if target.None? { return false; }
      var t := target.value;
      store := store.(rows := store.rows[t.id := t.row]);
      store := store.(changes := store.changes[changeId := c.(status := Applied, version := c.version + 1)]);
      if !exists id :: id in store.changes && store.changes[id].run == c.run && store.changes[id].status == Pending {
        store := store.(waiting := store.waiting - {c.run});
      }
      var before, after := t.before, Some(Version(t.row));
      if !fits.after { after := None; }
      if !fits.before && before.Some? { before := Some(Truncated); }
      store := store.(audits := store.audits[auditId :=
        AuditEvent("agent.change.apply", [(TypeName(Current(t.row)), t.id), ("agent_run", c.run)], before, after)]);
      ok := true;
    }

    method ApplyTargetTo(c: AgentChange, newId: Id, targets: seq<Id>) returns (t: Option<Target>)
      ensures t == ApplyTarget(store.rows, c, newId, targets)
    {
      if |c.ops| == 0 || c.change.OtherType? { return None; }
      if c.change.CreateTarget? {
        if c.change.created.None? { return None; }
        var created := c.change.created.value;
        if !created.TaskOf? && !created.EventOf? { return None; }
        return Some(Target(newId, Row([created], false), None));
      }
      if c.target.None? || c.base.None? { return None; }
      var id := c.target.value;
      if !CanUpdate(store.rows, id, c.base.value) { return None; }
      if c.change.RescheduleTask? {
        t := RescheduleTo(id, store.rows[id], c.ops);
      } else if c.change.ArchiveRecord? {
        t := ArchiveTo(id, store.rows[id], c.ops);
      } else {
        t := LinkTo(id, c.ops, newId, targets);
      }
    }

    method ArchiveTo(id: Id, row: Row, ops: seq<PatchOp>) returns (t: Option<Target>)
      requires |row.log| > 0
      ensures t == ApplyRecordArchive(id, row, ops)
    {
      var before := Current(row);
      if !before.RecordOf? || |ops| != 1 || ops[0].path != "/archivedAt" { return None; }
      var archivedAt := OptionalTime(ops[0]);
      if archivedAt.None? || archivedAt.value.None? { return None; }
      t := Some(Target(id, Updated(row, before.(archivedAt := archivedAt.value)), Some(Whole(id, before))));
    }

    /** The links are looked through one by one before another one is added. */
    method LinkTo(id: Id, ops: seq<PatchOp>, newId: Id, targets: seq<Id>) returns (t: Option<Target>)
      requires Live(store.rows, id)
      ensures t == ApplyNoteLink(store.rows, id, ops, newId, targets)
    {
      var before := Current(store.rows[id]);
      if !before.NoteOf? || |ops| != 1 || !ops[0].op.Add? || ops[0].path != "/linkedEntityIds/-" || !ops[0].value.IdValue? {
        return None;
      }
      var target := ops[0].value.id;
      if target == id || !Live(store.rows, target) || |before.links| >= MAX_LINKS { return None; }
      var left := before.links.Keys;
      while left != {}
        invariant left <= before.links.Keys
        invariant forall k :: k in before.links && k !in left ==> k.target != target
        decreases |left|
      {
        var k :| k in left;
        if k.target == target {
          assert k in before.links;
          return None;
        }
        left := left - {k};
      }
      var relation := NoteLinks.Relation(TypeName(Current(store.rows[target])), target, "references");
      var links := before.links[relation := newId];
      t := Some(Target(id, Updated(store.rows[id], before.(links := links)), Some(NoteShot(id, before.fields, targets))));
    }

    method RescheduleTo(id: Id, row: Row, ops: seq<PatchOp>) returns (t: Option<Target>)
      requires |row.log| > 0
      ensures t == ApplyTaskSchedule(id, row, ops)
    {
      var before := Current(row);
      if !before.TaskOf? { return None; }
      var patched := PatchSchedule(ops, before.start, before.end);
      if patched.None? { return None; }
      var (s, e) := patched.value;
      if e.Some? && (s.None? || e.value < s.value) { return None; }
      t := Some(Target(id, Updated(row, before.(start := s, end := e)), Some(Whole(id, before))));
    }

    method Undo(auditId: Id, expected: nat, ids: seq<Id>) returns (ok: bool)
      requires EnoughIds(store, auditId, ids)
      modifies this
      ensures match ApplyUndo(old(store), auditId, expected, ids)
              case None => !ok && store == old(store)
              case Some(s') => ok && store == s'
    {
      if auditId !in store.audits { return false; }
      var a := store.audits[auditId];
      if a.action != "agent.change.apply" { return false; }
      var target := AuditUndoTarget(a.entities);
      if target.None? || a.afterVersion != Some(expected) { return false; }
      var id := target.value.1;
      if !CanUpdate(store.rows, id, expected) { return false; }
      if a.before.None? {
        if target.value.0 != "task" && target.value.0 != "calendar_event" { return false; }
        store := store.(rows := store.rows[id := store.rows[id].(deleted := true)]);
        return true;
      }
      var content := Restored(store.rows, id, target.value.0, a.before.value, ids);
      if a.before.value.NoteShot? && a.before.value.id == id && target.value.0 == "note" && Current(store.rows[id]).NoteOf? {
        var links := ResolveLinks(store.rows, a.before.value.targets, ids);
        if links.None? { return false; }
        var rows := NoteLinks.ReplaceNoteLinks(Current(store.rows[id]).links, links.value);
        content := Some(NoteOf(a.before.value.fields, Current(store.rows[id]).body, rows));
      }
      if content.None? { return false; }
      store := store.(rows := store.rows[id := Updated(store.rows[id], content.value)]);
      ok := true;
    }
  }
}
