/** The writer itself: methods that change the tables statement by statement
    inside a transaction, each proved against its function in StoreSpec. */
module Writer {
  import opened Text
  import opened Records
  import StoreInvariant
  import StoreRuns
  import Spec = StoreSpec

  class Writer {
    var rows: map<int, Row>
    var history: map<(int, int), Entry>
    var receipts: map<string, Acknowledged>
    var index: map<int, Words>
    var sequence: int

    function State(): Tables
      reads this
    {
      Tables(rows, history, receipts, index, sequence)
    }

    /** CreateEmpty: no rows, and so a state every rule holds in. */
    constructor ()
      ensures State() == EMPTY && StoreInvariant.Inv(State())
    {
      rows, history, receipts, index, sequence := map[], map[], map[], map[], 0;
      new;
      StoreRuns.EmptyInv();
    }

    method Rollback(saved: Tables)
      modifies this
      ensures State() == saved
    {
      rows, history, receipts := saved.rows, saved.history, saved.receipts;
      index, sequence := saved.index, saved.sequence;
    }

    /** INSERT OR IGNORE of the row's present revision. */
    method Snapshot(id: int)
      requires id in rows
      modifies this`history
      ensures history == Spec.Snapshot(old(history), rows[id])
    {
      var row := rows[id];
      var at := (row.record.id, row.record.revision);
      if at !in history {
        history := history[at := Entry(row.record, row.embedding, row.model)];
      }
    }

    method Acknowledge(request: string, payload: Payload, receipt: Receipt) returns (outcome: Outcome)
      modifies this`receipts
      ensures (State(), outcome) == Spec.Acknowledge(old(State()), request, payload, receipt)
    {
      if request in receipts {
        return Refused(ConstraintFired);
      }
      receipts := receipts[request := Acknowledged(payload, receipt)];
      outcome := Done(receipt);
    }

    /** UPDATE archived, revision, time and provenance of one row; false when a
        unique index refuses it. */
    method SetArchived(id: int, archived: bool, provenance: Provenance, now: int) returns (ok: bool)
      requires id in rows
      modifies this`rows
      ensures ok == Spec.IndexesAccept(old(rows)[id := Spec.Revisited(old(rows)[id], archived, provenance, now)])
      ensures rows == if ok then old(rows)[id := Spec.Revisited(old(rows)[id], archived, provenance, now)]
              else old(rows)
    {
      var was := rows[id];
      var next := was.(record := was.record.(archived := archived, revision := was.record.revision + 1, updated := now,
                                             provenance := provenance));
      ok := Spec.IndexesAccept(rows[id := next]);
      if ok {
        rows := rows[id := next];
      }
    }

    method RetireOne(id: int, note: Provenance, now: int) returns (ok: bool)
      requires id in rows
      modifies this`rows, this`history
      ensures var spec := Spec.RetireOne(old(State()), id, note, now);
              ok == Spec.IndexesAccept(spec.rows) && (ok ==> State() == spec)
    {
      hide Spec.IndexesAccept;
      Snapshot(id);
      ok := SetArchived(id, true, note, now);
      if ok {
        Snapshot(id);
      }
    }

    method RetireHandoffs(scope: Scope, replacement: int, actor: Provenance, now: int) returns (failure: Option<Error>)
      modifies this`rows, this`history
      ensures var spec := Spec.RetireHandoffs(old(State()), scope, replacement, actor, now);
              failure == spec.1 && (failure.None? ==> State() == spec.0)
    {
      hide Spec.IndexesAccept, Spec.RetireOne;
      var ids := Spec.Select(rows, Spec.OtherHandoffs(scope, replacement), sequence);
      var note := Spec.Replacing(replacement, actor);
      assert ids[0..] == ids;
      var i := 0;
      while i < |ids|
        invariant 0 <= i <= |ids|
        invariant forall id | id in ids :: id in rows
        invariant Spec.RetireEach(State(), ids[i..], note, now) == Spec.RetireEach(old(State()), ids, note, now)
      {
        assert ids[i..][0] == ids[i] && ids[i..][1..] == ids[i + 1..];
        ghost var before := State();
        RetireKeepsIds(before, ids, ids[i], note, now);
        var ok := RetireOne(ids[i], note, now);
        if !ok {
          return Some(ConstraintFired);
        }
        i := i + 1;
      }
      failure := None;
    }

    static lemma RetireKeepsIds(t: Tables, ids: seq<int>, id: int, note: Provenance, now: int)
      requires id in t.rows && forall other | other in ids :: other in t.rows
      ensures forall other | other in ids :: other in Spec.RetireOne(t, id, note, now).rows
    {
    }

    // ----- Write -----

    method Write(input: WriteInput, vector: Option<Vector>, model: string, clock: Clock) returns (outcome: Outcome)
      modifies this
      ensures (State(), outcome) == Spec.Write(old(State()), input, vector, model, clock)
      ensures StoreInvariant.Inv(old(State())) ==>
                StoreInvariant.Inv(State()) && StoreInvariant.Later(old(State()), State())
      ensures StoreInvariant.Inv(old(State())) ==> outcome != Refused(ConstraintFired)
    {
      KeepsInvariant(State(), StoreRuns.CallWrite(input, vector, model, clock));
      hide Spec.WriteTx, Bounded, KeyOk, Durable, Spec.PurposeOk, StoreInvariant.Inv, StoreInvariant.Later;
      if !KeyOk(input.scope) {
        return Refused(InvalidScope);
      }
      if input.id.None? && input.expectedRevision.None? {
        if !Durable(input.scope) {
          return Refused(NotDurable);
        }
      }
      if input.scope.legacy {
        return Refused(LegacyTarget);
      }
      if !ProvenanceOk(input.provenance) {
        return Refused(InvalidProvenance);
      }
      if !Spec.RequestIdOk(input.requestId) {
        return Refused(InvalidRequestId);
      }
      if !Spec.PurposeOk(input.purpose) {
        return Refused(InvalidPurpose);
      }
      if input.key.Some? && !Bounded(input.key.value, 128) {
        return Refused(InvalidKey);
      }
      if vector.Some? {
        var finite := AllFinite(vector.value);
        if |vector.value| == 0 || model == "" || !finite {
          return Refused(InvalidEmbedding);
        }
      }
      var saved := State();
      outcome := WriteTx(input, vector, model, clock);
      if outcome.Refused? {
        Rollback(saved);
      }
    }

    method AllFinite(vector: Vector) returns (ok: bool)
      ensures ok <==> forall i | 0 <= i < |vector| :: vector[i].Finite?
    {
      for i := 0 to |vector|
        invariant forall j | 0 <= j < i :: vector[j].Finite?
      {
        if !vector[i].Finite? {
          return false;
        }
      }
      return true;
    }

    /** The new revision's text and metadata, each reassigned from the input,
        the current record and the restored revision in turn. */
    method Compose(input: WriteInput, current: Option<Record>, restored: Option<Record>)
      returns (r: Result<Spec.Fields, Error>)
      ensures r == Spec.FieldsFor(input, current, restored)
    {
      hide Blank, ByteLen, Prefix;
      var content := input.content;
      if restored.Some? {
        content := restored.value.content;
      }
      if Blank(content) || ByteLen(content) > 32768 {
        return Err(InvalidContent);
      }
      var derived := FirstRunes(content, 80);
      var title := derived;
      if current.Some? {
        var ofCurrent := FirstRunes(current.value.content, 80);
        if current.value.title != ofCurrent {
          title := current.value.title;
        }
      }
      if input.title.Some? && !Blank(input.title.value) {
        title := input.title.value;
      } else if input.title.Some? {
        title := derived;
      }
      if restored.Some? {
        title := restored.value.title;
      }
      var tags := "";
      if current.Some? {
        tags := current.value.tags;
      }
      if input.tags.Some? {
        tags := input.tags.value;
      }
      if restored.Some? {
        tags := restored.value.tags;
      }
      if ByteLen(title) > 512 || ByteLen(tags) > 2048 {
        return Err(MetadataTooLarge);
      }
      var memoryType := "knowledge";
      if current.Some? {
        memoryType := current.value.memoryType;
      }
      if input.memoryType.Some? {
        memoryType := input.memoryType.value;
      }
      if restored.Some? {
        memoryType := restored.value.memoryType;
      }
      if !Spec.MemoryTypeOk(memoryType) {
        return Err(InvalidMemoryType);
      }
      var purpose := input.purpose;
      if restored.Some? {
        purpose := restored.value.purpose;
      }
      r := Ok(Spec.Fields(content, title, tags, memoryType, purpose));
    }

    /** Decides, without changing anything, what the write will do. */
    method Plan(input: WriteInput) returns (r: Result<Spec.Plan, Error>)
      ensures r == Spec.PlanWrite(State(), input)
    {
      hide Spec.First, Spec.FieldsFor, KeyOk, Spec.GetInTx, Spec.Restored, Spec.PlanFields, Spec.CurrentRefusal;
      var t := State();
      var id := input.id;
      if id.None? && input.key.Some? {
        id := Spec.First(t, Spec.KeyHolder(input.scope, input.key.value));
      }
      var current: Option<Record> := None;
      if id.Some? {
        match Spec.GetInTx(t, input.scope, id.value, None) {
          case Err(e) => return Err(e);
          case Ok(None) => return Err(MemoryNotFound);
          case Ok(found) => current := found;
        }
        Found(t, input.scope, id.value);
      }
      assert Spec.Addressed(t, input) == Ok(id) && current == Spec.RecordAt(t, id);
      var refusal := CheckCurrent(input, current);
      if refusal.Some? {
        return Err(refusal.value);
      }
      var restored := Restore(input, id);
      if restored.Err? {
        return Err(restored.error);
      }
      var composed := Compose(input, current, restored.value);
      if composed.Err? {
        return Err(composed.error);
      }
      r := Place(input, id, composed.value);
    }

    /** Optimistic revision check, confirmation and key. */
    method CheckCurrent(input: WriteInput, current: Option<Record>) returns (refusal: Option<Error>)
      ensures refusal == Spec.CurrentRefusal(input, current)
    {
      if current.Some? {
        if input.expectedRevision != Some(current.value.revision) {
          return Some(RevisionConflict(current.value.revision));
        }
        if current.value.confirmed && !input.confirmed {
          return Some(ConfirmationConflict);
        }
        if input.key.Some? && input.key != current.value.key {
          return Some(KeyImmutable);
        }
      } else if input.expectedRevision.Some? || input.restoreRevision.Some? {
        return Some(NoExistingRecord);
      }
      refusal := None;
    }

    method Restore(input: WriteInput, id: Option<int>) returns (restored: Result<Option<Record>, Error>)
      ensures restored == Spec.Restored(State(), input, id)
    {
      hide Spec.GetInTx;
      if input.restoreRevision.None? || id.None? {
        return Ok(None);
      }
      if input.content != "" {
        return Err(RestoreNeedsEmptyContent);
      }
      match Spec.GetInTx(State(), input.scope, id.value, input.restoreRevision) {
        case Err(e) => return Err(e);
        case Ok(None) => return Err(RevisionNotFound);
        case Ok(found) => return Ok(found);
      }
    }

    /** Deduplicates a new memory and refuses a correction into a duplicate. */
    method Place(input: WriteInput, id: Option<int>, f: Spec.Fields) returns (r: Result<Spec.Plan, Error>)
      ensures r == Spec.PlanFields(State(), input, id, f)
    {
      hide Spec.First;
      var t := State();
      var hash := [f.content, f.title, f.tags];
      if id.None? {
        var exact := Spec.First(t, Spec.Exact(input.scope, f.memoryType, f.purpose, input.confirmed, hash, 0));
        if exact.Some? {
          var r := rows[exact.value].record;
          if r.key != input.key {
            return Err(DedupKeyConflict);
          }
          return Ok(Spec.Same(exact.value, r.revision));
        }
        return Ok(Spec.Insert(f));
      }
      var other := Spec.Duplicate(t, input.scope, f.memoryType, f.purpose, input.confirmed, hash, id.value);
      if other.Some? {
        return Err(DuplicateConflict(other.value));
      }
      r := Ok(Spec.Correct(id.value, f));
    }

    /** UPDATE of the current row; its old revision is recorded first. */
    method Correct(id: int, input: WriteInput, f: Spec.Fields, now: int)
      requires id in rows
      modifies this`rows, this`history
      ensures history == Spec.Snapshot(old(history), old(rows)[id])
      ensures rows == old(rows)[id := Spec.CorrectedRow(old(rows)[id], input, f, now)]
    {
      Snapshot(id);
      var was := rows[id].record;
      var next := was.(content := f.content, title := f.title, tags := f.tags, memoryType := f.memoryType,
                       purpose := f.purpose, confirmed := input.confirmed, provenance := input.provenance,
                       revision := was.revision + 1, updated := now, archived := false);
      rows := rows[id := Row(next, [f.content, f.title, f.tags], None, "")];
    }

    /** INSERT of a new row under the next id. */
    method Insert(input: WriteInput, f: Spec.Fields, now: int) returns (id: int)
      modifies this`rows, this`sequence
      ensures id == old(sequence) + 1 && sequence == id
      ensures rows == old(rows)[id := Spec.InsertedRow(id, input, f, now)]
    {
      id := sequence + 1;
      sequence := id;
      var record := Record(id, 1, input.scope, f.content, f.title, f.tags, f.memoryType, f.purpose, input.confirmed,
                           input.provenance, input.key, false, now, now);
      rows := rows[id := Row(record, [f.content, f.title, f.tags], None, "")];
    }

    method Embed(id: int, input: WriteInput, vector: Option<Vector>, model: string)
      requires id in rows
      modifies this`rows
      ensures rows == old(rows)[id := Spec.Embedded(old(rows)[id], id, history, input, vector, model)]
    {
      var row := rows[id];
      if vector.Some? {
        row := row.(embedding := vector, model := model);
      } else if input.restoreRevision.Some? {
        var at := (id, input.restoreRevision.value);
        if at in history {
          row := row.(embedding := history[at].embedding, model := history[at].model);
        } else {
          row := row.(embedding := None, model := "");
        }
      }
      rows := rows[id := row];
    }

    /** The statements of an insert or correction. The unique indexes look at
        none of the embedding columns, so they are consulted once. */
    method Save(input: WriteInput, plan: Spec.Plan, vector: Option<Vector>, model: string, clock: Clock)
      returns (outcome: Outcome)
      requires !plan.Same? && (plan.Correct? ==> plan.id in rows)
      modifies this
      ensures var spec := Spec.Save(old(State()), input, plan, vector, model, clock);
              outcome == spec.1 && (outcome.Done? ==> State() == spec.0)
    {
      hide Spec.IndexesAccept, Spec.RetireHandoffs, Spec.Snapshot, Spec.Acknowledge;
      ghost var start := State();
      var id: int;
      if plan.Correct? {
        id := plan.id;
        Correct(id, input, plan.fields, clock.now);
      } else {
        id := Insert(input, plan.fields, clock.now);
      }
      Embed(id, input, vector, model);
      ghost var (row, recorded) := Spec.PlannedRow(start, input, plan, vector, model, clock.now);
      assert rows == Spec.Placed(start, plan, row, recorded).rows;
      if !Spec.IndexesAccept(rows) {
        return Refused(ConstraintFired);
      }
      var record := rows[id].record;
      index := index[id := Words(record.title, record.content, record.tags)];
      Snapshot(id);
      assert State() == Spec.Placed(start, plan, row, recorded);
      if !record.archived && record.purpose == "handoff" {
        var failure := RetireHandoffs(input.scope, id, input.provenance, clock.retiring);
        if failure.Some? {
          return Refused(failure.value);
        }
      }
      outcome := Acknowledge(input.requestId, OfWrite(input), Receipt(id, record.revision, false));
    }

    method WriteTx(input: WriteInput, vector: Option<Vector>, model: string, clock: Clock) returns (outcome: Outcome)
      modifies this
      ensures var spec := Spec.WriteTx(old(State()), input, vector, model, clock);
              outcome == spec.1 && (outcome.Done? ==> State() == spec.0)
    {
      hide Spec.Save, Spec.PlanWrite, Spec.Acknowledge;
      match Spec.Replay(State(), input.requestId, OfWrite(input)) {
        case Conflicting => return Refused(IdempotencyConflict);
        case Seen(receipt) => return Done(receipt);
        case Unseen =>
      }
      var plan := Plan(input);
      if plan.Err? {
        return Refused(plan.error);
      }
      if plan.value.Same? {
        outcome := Acknowledge(input.requestId, OfWrite(input), Receipt(plan.value.id, plan.value.revision, true));
      } else {
        outcome := Save(input, plan.value, vector, model, clock);
      }
    }

    // ----- Archive -----

    method Archive(input: ArchiveInput, clock: Clock) returns (outcome: Outcome)
      modifies this
      ensures (State(), outcome) == Spec.Archive(old(State()), input, clock)
      ensures StoreInvariant.Inv(old(State())) ==>
                StoreInvariant.Inv(State()) && StoreInvariant.Later(old(State()), State())
      ensures StoreInvariant.Inv(old(State())) ==> outcome != Refused(ConstraintFired)
    {
      KeepsInvariant(State(), StoreRuns.CallArchive(input, clock));
      hide Spec.ArchiveTx, Bounded, KeyOk, StoreInvariant.Inv, StoreInvariant.Later;
      if !KeyOk(input.scope) {
        return Refused(InvalidScope);
      }
      if !ProvenanceOk(input.provenance) {
        return Refused(InvalidProvenance);
      }
      if !Spec.RequestIdOk(input.requestId) {
        return Refused(InvalidRequestId);
      }
      var saved := State();
      outcome := ArchiveTx(input, clock);
      if outcome.Refused? {
        Rollback(saved);
      }
    }

    method ArchiveTx(input: ArchiveInput, clock: Clock) returns (outcome: Outcome)
      modifies this
      ensures var spec := Spec.ArchiveTx(old(State()), input, clock);
              outcome == spec.1 && (outcome.Done? ==> State() == spec.0)
    {
      hide Spec.IndexesAccept, Spec.RetireHandoffs, Spec.Acknowledge, Spec.First, KeyOk;
      match Spec.Replay(State(), input.requestId, OfArchive(input)) {
        case Conflicting => return Refused(IdempotencyConflict);
        case Seen(receipt) => return Done(receipt);
        case Unseen =>
      }
      var found := Spec.GetInTx(State(), input.scope, input.id, None);
      if found.Err? {
        return Refused(found.error);
      }
      if found.value.None? {
        return Refused(MemoryNotFound);
      }
      var prior := found.value.value;
      if prior.revision != input.expectedRevision {
        return Refused(RevisionConflict(prior.revision));
      }
      if prior.archived && !input.archived {
        var other := Spec.Duplicate(State(), prior.scope, prior.memoryType, prior.purpose, prior.confirmed,
                                    rows[input.id].contentHash, input.id);
        if other.Some? {
          return Refused(DuplicateConflict(other.value));
        }
      }
      Snapshot(input.id);
      var ok := SetArchived(input.id, input.archived, input.provenance, clock.now);
      if !ok {
        return Refused(ConstraintFired);
      }
      Snapshot(input.id);
      if !input.archived && prior.purpose == "handoff" {
        var failure := RetireHandoffs(prior.scope, input.id, input.provenance, clock.retiring);
        if failure.Some? {
          return Refused(failure.value);
        }
      }
      outcome := Acknowledge(input.requestId, OfArchive(input), Receipt(input.id, prior.revision + 1, false));
    }

    // ----- Move -----

    /** Copies a memory to another place and archives the original, both or
        neither. */
    method Move(input: MoveInput, vector: Option<Vector>, model: string, copying: Clock, archiving: Clock)
      returns (outcome: Outcome)
      modifies this
      ensures (State(), outcome) == Spec.Move(old(State()), input, vector, model, copying, archiving)
      ensures StoreInvariant.Inv(old(State())) ==>
                StoreInvariant.Inv(State()) && StoreInvariant.Later(old(State()), State())
      ensures StoreInvariant.Inv(old(State())) ==> outcome != Refused(ConstraintFired)
    {
      KeepsInvariant(State(), StoreRuns.CallMove(input, vector, model, copying, archiving));
      hide Spec.MoveTx, Bounded, StoreInvariant.Inv, StoreInvariant.Later;
      if !ProvenanceOk(input.provenance) {
        return Refused(InvalidProvenance);
      }
      if !Bounded(input.requestId, 100) || input.id < 1 || input.expectedRevision < 1 {
        return Refused(InvalidMove);
      }
      var saved := State();
      outcome := MoveTx(input, vector, model, copying, archiving);
      if outcome.Refused? {
        Rollback(saved);
      }
    }

    /** The record a move starts from, once the target is known to be another place. */
    method Source(input: MoveInput) returns (r: Result<Record, Error>)
      ensures r == Spec.MoveSource(State(), input)
    {
      hide KeyOk, Durable;
      if input.id !in rows {
        return Err(MemoryNotFound);
      }
      var source := rows[input.id].record.scope;
      if source.legacy {
        return Err(ScopeUnreadable);
      }
      var found := Spec.GetInTx(State(), source, input.id, None);
      if found.Err? {
        return Err(found.error);
      }
      if found.value.None? {
        return Err(MemoryNotFound);
      }
      var prior := found.value.value;
      if prior.archived || prior.revision != input.expectedRevision {
        return Err(RevisionConflict(prior.revision));
      }
      var target := Scope(input.project, input.device, input.platform, false);
      if !Durable(target) {
        return Err(InvalidMoveTarget);
      }
      if !KeyOk(target) {
        return Err(InvalidMoveTarget);
      }
      if target == source || prior.scope.legacy {
        return Err(InvalidMoveTarget);
      }
      r := Ok(prior);
    }

    method MoveTx(input: MoveInput, vector: Option<Vector>, model: string, copying: Clock, archiving: Clock)
      returns (outcome: Outcome)
      modifies this
      ensures var spec := Spec.MoveTx(old(State()), input, vector, model, copying, archiving);
              outcome == spec.1 && (outcome.Done? ==> State() == spec.0)
    {
      hide Spec.WriteTx, Spec.ArchiveTx, Spec.MoveSource, Spec.Acknowledge, Spec.First;
      match Spec.Replay(State(), input.requestId, OfMove(input)) {
        case Conflicting => return Refused(IdempotencyConflict);
        case Seen(receipt) => return Done(receipt);
        case Unseen =>
      }
      var source := Source(input);
      if source.Err? {
        return Refused(source.error);
      }
      var prior := source.value;
      var target := Scope(input.project, input.device, input.platform, false);
      var copy := WriteInput(target, prior.content, Some(prior.title), Some(prior.tags), Some(prior.memoryType),
                             prior.purpose,
                             prior.confirmed, prior.provenance, input.requestId + ":copy", prior.key, None, None, None);
      if prior.key.Some? {
        var holder := Spec.First(State(), Spec.KeyHolder(target, prior.key.value));
        if holder.Some? {
          if !rows[holder.value].record.archived {
            return Refused(MoveTargetExists);
          }
          copy := copy.(id := holder, expectedRevision := Some(rows[holder.value].record.revision));
        }
      }
      var copied := WriteTx(copy, vector, model, copying);
      if copied.Refused? {
        return copied;
      }
      if copied.receipt.deduplicated {
        return Refused(MoveTargetExists);
      }
      var filed := ArchiveTx(Spec.ArchiveOriginal(prior, input, copied.receipt.id), archiving);
      if filed.Refused? {
        return filed;
      }
      outcome := Acknowledge(input.requestId, OfMove(input), copied.receipt);
    }
  }

  lemma KeepsInvariant(t: Tables, c: StoreRuns.Call)
    ensures var (n, outcome) := StoreRuns.Apply(t, c);
            StoreInvariant.Inv(t) ==>
              StoreInvariant.Inv(n) && StoreInvariant.Later(t, n) && outcome != Refused(ConstraintFired)
  {
    hide StoreInvariant.Inv, StoreInvariant.Later;
    if StoreInvariant.Inv(t) {
      StoreRuns.ApplyKeeps(t, c);
    }
  }

  lemma Found(t: Tables, scope: Scope, id: int)
    ensures var r := Spec.GetInTx(t, scope, id, None);
            r.Ok? && r.value.Some? ==>
              id in t.rows && t.rows[id].record.scope == scope && r.value.value == t.rows[id].record
  {
    hide KeyOk;
  }
}
