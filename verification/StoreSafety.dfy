/** Every operation keeps the invariant, only moves the tables forward, and is
    never refused by a constraint of the database. */
module StoreSafety {
  import opened Text
  import opened Records
  import opened StoreSpec
  import opened StoreInvariant

  // ----- settling handoffs -----

  lemma SettleKeeps(t: Tables, scope: Scope, id: int, handoff: bool, actor: Provenance, now: int)
    requires Core(t) && id in t.rows && t.rows[id].record.scope == scope && OneHandoffApart(t.rows, id)
    requires ActiveHandoff(t.rows[id]) ==> handoff
    ensures var (n, failure) := Settle(t, scope, id, handoff, actor, now);
            && failure.None? && Inv(n) && Later(t, n) && n.receipts == t.receipts && n.sequence == t.sequence
            && id in n.rows && n.rows[id] == t.rows[id] && OthersKept(t.rows, n.rows, scope, id, handoff, actor, now)
  {
    hide HistoryOk, ConfirmationKept, WordsIndexed, ReceiptsOk, IndexesAccept, RetireEach, Retired, Later;
    hide OneHandoff, OneHandoffApart, RowsOk, OthersKept, Replacing, Revisited, Select;
    if handoff {
      OthersListed(t, scope, id);
      var ids := Select(t.rows, OtherHandoffs(scope, id), t.sequence);
      RetireEachKeeps(t, ids, Replacing(id, actor), now);
      var n := Settle(t, scope, id, handoff, actor, now).0;
      ListedKept(t, n, ids, scope, id, actor, now);
      OneHandoffLeft(t.rows, n.rows, scope, id, actor, now);
    } else {
      LaterSelf(t);
      NoneLeft(t.rows, id);
      OthersSame(t.rows, scope, id, actor, now);
    }
  }

  lemma NoneLeft(rows: map<int, Row>, id: int)
    requires OneHandoffApart(rows, id) && id in rows && !ActiveHandoff(rows[id])
    ensures OneHandoff(rows)
  {
  }

  lemma OthersSame(rows: map<int, Row>, scope: Scope, id: int, actor: Provenance, now: int)
    requires id in rows
    ensures OthersKept(rows, rows, scope, id, false, actor, now)
  {
    assert rows.Keys + {id} == rows.Keys;
  }

  lemma OthersListed(t: Tables, scope: Scope, id: int)
    requires RowsOk(t)
    ensures var ids := Select(t.rows, OtherHandoffs(scope, id), t.sequence);
            forall other | other in t.rows ::
              other in ids <==> other != id && ActiveHandoff(t.rows[other]) && t.rows[other].record.scope == scope
  {
    forall other | other in t.rows
      ensures other in Select(t.rows, OtherHandoffs(scope, id), t.sequence) <==>
              other != id && ActiveHandoff(t.rows[other]) && t.rows[other].record.scope == scope
    {
      assert Matches(other, t.rows[other], OtherHandoffs(scope, id)) <==>
             other != id && ActiveHandoff(t.rows[other]) && t.rows[other].record.scope == scope;
    }
  }

  lemma ListedKept(t: Tables, n: Tables, ids: seq<int>, scope: Scope, id: int, actor: Provenance, now: int)
    requires id in t.rows && Retired(t, n, ids, Replacing(id, actor), now)
    requires forall other | other in t.rows ::
               other in ids <==> other != id && ActiveHandoff(t.rows[other]) && t.rows[other].record.scope == scope
    ensures n.rows.Keys == t.rows.Keys && n.rows[id] == t.rows[id]
    ensures OthersKept(t.rows, n.rows, scope, id, true, actor, now)
    ensures n.receipts == t.receipts && n.sequence == t.sequence
  {
    hide Revisited, Replacing, ActiveHandoff;
    assert t.rows.Keys + {id} == t.rows.Keys;
  }

  lemma OneHandoffLeft(rows: map<int, Row>, rows': map<int, Row>, scope: Scope, id: int, actor: Provenance, now: int)
    requires id in rows && rows'.Keys == rows.Keys && rows'[id] == rows[id] && rows[id].record.scope == scope
    requires OneHandoffApart(rows, id) && OthersKept(rows, rows', scope, id, true, actor, now)
    ensures OneHandoff(rows')
  {
  }

  // ----- Write -----

  /** What Write checks before its transaction and Move ensures for its copy. */
  predicate InputOk(input: WriteInput) {
    && KeyOk(input.scope) && !input.scope.legacy && PurposeOk(input.purpose)
    && (input.id.None? && input.expectedRevision.None? ==> Durable(input.scope))
  }

  lemma FieldsSound(input: WriteInput, current: Option<Record>, restored: Option<Record>)
    requires current.Some? ==> TitleRule(current.value)
    requires restored.Some? ==> RecordOk(restored.value)
    requires PurposeOk(input.purpose)
    ensures var r := FieldsFor(input, current, restored);
            r.Ok? ==>
              var f := r.value;
              Bounded(f.content, 32768) && ByteLen(f.title) <= 512 && ByteLen(f.tags) <= 2048 &&
              MemoryTypeOk(f.memoryType) && PurposeOk(f.purpose) &&
              (Blank(f.title) ==> f.title == Prefix(f.content, 80)) &&
              (restored.None? ==> TextAsked(input, f.content, f.title, f.tags, f.memoryType, f.purpose))
  {
  }

  lemma RestoredSound(t: Tables, input: WriteInput, at: Option<int>)
    requires Core(t) && (at.Some? ==> at.value in t.rows)
    ensures var r := Restored(t, input, at);
            && (r.Ok? && r.value.Some? ==> RecordOk(r.value.value))
            && (r.Ok? && r.value.None? && at.Some? ==> input.restoreRevision.None?)
            && (input.restoreRevision.None? ==> r == Ok(None))
  {
    hide ConfirmationKept, ReceiptsOk, IndexesAccept, WordsIndexed, RecordOk, KeyOk;
    LiveRecordOk(t);
  }

  lemma LiveRecordOk(t: Tables)
    requires RowsOk(t)
    ensures forall id | id in t.rows :: RecordOk(t.rows[id].record)
  {
    hide RecordOk;
  }

  predicate PlanOk(t: Tables, input: WriteInput, plan: Plan) {
    match plan
    case Same(id, revision) =>
      id in t.rows && t.rows[id].record.revision == revision && AsAsked(input, t.rows[id].record)
    case Insert(f) =>
      && AsAsked(input, InsertedRow(t.sequence + 1, input, f, 0).record)
      && RowOk(t.sequence + 1, InsertedRow(t.sequence + 1, input, f, 0))
      && (input.key.Some? ==> First(t, KeyHolder(input.scope, input.key.value)).None?)
      && First(t, Exact(input.scope, f.memoryType, f.purpose, input.confirmed, HashOf(f), 0)).None?
    case Correct(id, f) =>
      && id in t.rows && t.rows[id].record.scope == input.scope
      && AsAsked(input, CorrectedRow(t.rows[id], input, f, 0).record)
      && Succeeds(id, t.rows[id], CorrectedRow(t.rows[id], input, f, 0))
      && First(t, Exact(input.scope, f.memoryType, f.purpose, input.confirmed, HashOf(f), id)).None?
  }

  /** The addressed row and the text rules give a lawful insert or correction. */
  lemma FieldsPlanned(t: Tables, input: WriteInput, at: Option<int>, f: Fields)
    requires RowsOk(t) && InputOk(input)
    requires at.Some? ==> at.value in t.rows && t.rows[at.value].record.scope == input.scope
    requires at.None? ==> input.id.None? && input.expectedRevision.None?
    requires at.None? && input.key.Some? ==> First(t, KeyHolder(input.scope, input.key.value)).None?
    requires at.Some? && t.rows[at.value].record.confirmed ==> input.confirmed
    requires at.Some? && (input.key.Some? || input.id.None?) ==> t.rows[at.value].record.key == input.key
    requires input.restoreRevision.None? ==> TextAsked(input, f.content, f.title, f.tags, f.memoryType, f.purpose)
    requires at.None? ==> input.restoreRevision.None?
    requires Bounded(f.content, 32768) && ByteLen(f.title) <= 512 && ByteLen(f.tags) <= 2048
    requires MemoryTypeOk(f.memoryType) && PurposeOk(f.purpose)
    requires Blank(f.title) ==> f.title == Prefix(f.content, 80)
    ensures var p := PlanFields(t, input, at, f);
            p.Ok? ==> PlanOk(t, input, p.value)
  {
    hide First, ByteLen, Blank, KeyOk, Durable, MemoryTypeOk, PurposeOk;
  }

  lemma PlanSound(t: Tables, input: WriteInput)
    requires Core(t) && InputOk(input)
    ensures PlanWrite(t, input).Ok? ==> PlanOk(t, input, PlanWrite(t, input).value)
  {
    hide First, ByteLen, Blank, KeyOk, Durable, PlanOk, PlanFields, FieldsFor, Restored, Bounded;
    var at := Addressed(t, input);
    if at.Ok? {
      var current := RecordAt(t, at.value);
      var restored := Restored(t, input, at.value);
      RestoredSound(t, input, at.value);
      if CurrentRefusal(input, current).None? && restored.Ok? {
        FieldsSound(input, current, restored.value);
        var f := FieldsFor(input, current, restored.value);
        if f.Ok? {
          FieldsPlanned(t, input, at.value, f.value);
        }
      }
    }
  }

  lemma PlannedRowFields(t: Tables, input: WriteInput, plan: Plan, vector: Option<Vector>, model: string, now: int)
    requires Core(t) && PlanOk(t, input, plan) && !plan.Same?
    ensures var (row, history) := PlannedRow(t, input, plan, vector, model, now);
            && history == t.history
            && row.record == (if plan.Correct? then CorrectedRow(t.rows[plan.id], input, plan.fields, now)
                              else InsertedRow(t.sequence + 1, input, plan.fields, now)).record
            && row.contentHash == HashOf(plan.fields)
  {
    hide ConfirmationKept, ReceiptsOk, IndexesAccept, WordsIndexed, First, RecordOk, Kin, Succeeds;
  }

  lemma PlannedAccepted(t: Tables, input: WriteInput, plan: Plan, row: Row)
    requires RowsOk(t) && IndexesAccept(t.rows) && !input.scope.legacy && PlanOk(t, input, plan) && !plan.Same?
    requires row.contentHash == HashOf(plan.fields)
    requires plan.Insert? ==> row.record == InsertedRow(t.sequence + 1, input, plan.fields, row.record.created).record
    requires plan.Correct? ==>
               row.record == CorrectedRow(t.rows[plan.id], input, plan.fields, row.record.updated).record
    ensures IndexesAccept(t.rows[PlannedId(t, plan) := row])
  {
    hide RowOk, IndexesAccept, First;
    if plan.Insert? {
      NoneStays(t, row, t.sequence + 1);
    }
    NoDuplicateAccepted(t, PlannedId(t, plan), row);
  }

  lemma PlacedKeeps(t: Tables, input: WriteInput, plan: Plan, vector: Option<Vector>, model: string, now: int)
    requires Inv(t) && InputOk(input) && PlanOk(t, input, plan) && !plan.Same?
    ensures var (row, history) := PlannedRow(t, input, plan, vector, model, now);
            var placed := Placed(t, plan, row, history);
            && IndexesAccept(placed.rows) && Core(placed) && Later(t, placed)
            && OneHandoffApart(placed.rows, PlannedId(t, plan))
            && placed.rows == t.rows[PlannedId(t, plan) := row]
            && (PlannedId(t, plan), row.record.revision) !in t.history
            && (plan.Insert? ==> PlannedId(t, plan) !in t.rows)
  {
    hide HistoryOk, ConfirmationKept, WordsIndexed, ReceiptsOk, IndexesAccept, First, Later, Bounded;
    var (row, history) := PlannedRow(t, input, plan, vector, model, now);
    PlannedRowFields(t, input, plan, vector, model, now);
    PlannedAccepted(t, input, plan, row);
    if plan.Correct? {
      ReviseHistory(t, plan.id, row);
      ReviseKeeps(t, plan.id, row);
      assert Placed(t, plan, row, history) == Revise(t, plan.id, row);
    } else {
      InsertHistory(t, row);
      InsertKeeps(t, row);
      assert Placed(t, plan, row, history) == Inserted(t, row);
    }
  }

  /** No row has id 0, so excluding it or excluding a fresh id is the same. */
  lemma NoneStays(t: Tables, row: Row, id: int)
    requires RowsOk(t) && id !in t.rows
    requires First(t, Exact(row.record.scope, row.record.memoryType, row.record.purpose, row.record.confirmed,
                            row.contentHash, 0)).None?
    ensures First(t, Exact(row.record.scope, row.record.memoryType, row.record.purpose, row.record.confirmed,
                           row.contentHash, id)).None?
  {
    var r := row.record;
    forall other | other in t.rows
      ensures !Matches(other, t.rows[other], Exact(r.scope, r.memoryType, r.purpose, r.confirmed, row.contentHash, id))
    {
      assert !Matches(other, t.rows[other], Exact(r.scope, r.memoryType, r.purpose, r.confirmed, row.contentHash, 0));
    }
  }

  lemma LiveReadable(t: Tables, id: int)
    requires HistoryOk(t) && id in t.rows
    ensures (id, t.rows[id].record.revision) in t.history
    ensures t.history[(id, t.rows[id].record.revision)].record == t.rows[id].record
  {
    hide RecordOk, Kin;
  }

  /** The planned row is what was asked for, by whom it was asked. */
  lemma PlannedAsked(t: Tables, input: WriteInput, plan: Plan, vector: Option<Vector>, model: string, now: int)
    requires Core(t) && PlanOk(t, input, plan) && !plan.Same?
    ensures var row := PlannedRow(t, input, plan, vector, model, now).0;
            AsAsked(input, row.record) && row.record.provenance == input.provenance
  {
    hide Core, PlannedRow, RowOk, Succeeds, First, TextAsked;
    PlannedRowFields(t, input, plan, vector, model, now);
  }

  /** The ledger is no part of what the rows and their history must satisfy. */
  lemma LedgerApart(t: Tables, n: Tables)
    requires n == t.(receipts := n.receipts)
    ensures HistoryOk(n) == HistoryOk(t) && ConfirmationKept(n) == ConfirmationKept(t)
  {
    LedgerApartHistory(t, n);
    LedgerApartHistory(n, t);
  }

  lemma LedgerApartHistory(t: Tables, n: Tables)
    requires n == t.(receipts := n.receipts)
    ensures (HistoryOk(t) ==> HistoryOk(n)) && (ConfirmationKept(t) ==> ConfirmationKept(n))
  {
    hide RecordOk, Kin;
  }

  lemma AcknowledgeKeeps(t: Tables, request: string, payload: Payload, receipt: Receipt)
    requires Inv(t) && request !in t.receipts && (receipt.id, receipt.revision) in t.history
    requires Filed(Acknowledged(payload, receipt), t.history[(receipt.id, receipt.revision)].record)
    ensures var (n, outcome) := Acknowledge(t, request, payload, receipt);
            Inv(n) && Later(t, n) && outcome == Done(receipt)
  {
    hide HistoryOk, ConfirmationKept, RowOk, IndexesAccept, OneHandoff;
    LedgerApart(t, Acknowledge(t, request, payload, receipt).0);
  }

  /** The committed effect of a write that was not a replay. */
  ghost predicate Wrote(t: Tables, n: Tables, input: WriteInput, plan: Plan, clock: Clock, receipt: Receipt) {
    && n.receipts == t.receipts[input.requestId := Acknowledged(OfWrite(input), receipt)]
    && (plan.Same? ==> n == t.(receipts := n.receipts) && receipt == Receipt(plan.id, plan.revision, true))
    && (!plan.Same? ==>
          var id := PlannedId(t, plan);
          && receipt.id == id && !receipt.deduplicated && id in n.rows
          && (id, receipt.revision) !in t.history
          && receipt.revision == n.rows[id].record.revision
          && OthersKept(t.rows, n.rows, input.scope, id, n.rows[id].record.purpose == "handoff", input.provenance,
                        clock.retiring))
  }

  lemma SaveKeeps(t: Tables, input: WriteInput, plan: Plan, vector: Option<Vector>, model: string, clock: Clock)
    requires Inv(t) && InputOk(input) && PlanOk(t, input, plan) && !plan.Same? && input.requestId !in t.receipts
    ensures var (n, outcome) := Save(t, input, plan, vector, model, clock);
            && Inv(n) && Later(t, n) && outcome.Done? && Wrote(t, n, input, plan, clock, outcome.receipt)
            && n.rows[PlannedId(t, plan)] == PlannedRow(t, input, plan, vector, model, clock.now).0
  {
    hide HistoryOk, ConfirmationKept, WordsIndexed, ReceiptsOk, IndexesAccept, RowsOk, OneHandoff, OneHandoffApart;
    hide AsAsked, PlannedRow, Succeeds, RowOk, First, Settle, OthersKept, Later, Bounded, KeyOk, Durable, PurposeOk;
    var (row, history) := PlannedRow(t, input, plan, vector, model, clock.now);
    PlannedRowFields(t, input, plan, vector, model, clock.now);
    PlacedKeeps(t, input, plan, vector, model, clock.now);
    var placed := Placed(t, plan, row, history);
    var id := PlannedId(t, plan);
    SettleKeeps(placed, input.scope, id, row.record.purpose == "handoff", input.provenance, clock.retiring);
    var settled := Settle(placed, input.scope, id, row.record.purpose == "handoff", input.provenance, clock.retiring).0;
    LiveReadable(settled, id);
    PlannedAsked(t, input, plan, vector, model, clock.now);
    AcknowledgeKeeps(settled, input.requestId, OfWrite(input), Receipt(id, row.record.revision, false));
    LaterChain(t, placed, settled);
    LaterChain(t, settled, Save(t, input, plan, vector, model, clock).0);
    var (n, outcome) := Save(t, input, plan, vector, model, clock);
    WroteSettled(t, input, plan, row, settled, n, clock, outcome.receipt);
  }

  lemma WroteSettled(t: Tables, input: WriteInput, plan: Plan, row: Row, settled: Tables, n: Tables, clock: Clock,
                     receipt: Receipt)
    requires !plan.Same?
    requires plan.Insert? ==> PlannedId(t, plan) !in t.rows
    requires receipt == Receipt(PlannedId(t, plan), row.record.revision, false)
    requires (receipt.id, receipt.revision) !in t.history
    requires receipt.id in settled.rows && settled.rows[receipt.id] == row
    requires OthersKept(t.rows[receipt.id := row], settled.rows, input.scope, receipt.id,
                        row.record.purpose == "handoff", input.provenance, clock.retiring)
    requires n == settled.(receipts := t.receipts[input.requestId := Acknowledged(OfWrite(input), receipt)])
    ensures Wrote(t, n, input, plan, clock, receipt)
  {
    hide Revisited, Replacing, ActiveHandoff;
    var placed := t.rows[receipt.id := row];
    assert forall other | other in t.rows && other != receipt.id :: placed[other] == t.rows[other];
  }

  lemma PlanBeforeConstraints(t: Tables, input: WriteInput)
    ensures PlanWrite(t, input) != Err(ConstraintFired)
  {
    hide First, ByteLen, Blank, KeyOk;
  }

  lemma SameKeeps(t: Tables, input: WriteInput, plan: Plan, clock: Clock)
    requires Inv(t) && PlanOk(t, input, plan) && plan.Same? && input.requestId !in t.receipts
    ensures var (n, outcome) := Acknowledge(t, input.requestId, OfWrite(input), Receipt(plan.id, plan.revision, true));
            Inv(n) && Later(t, n) && outcome.Done? && Wrote(t, n, input, plan, clock, outcome.receipt)
  {
    hide ConfirmationKept, WordsIndexed, RowsOk, IndexesAccept, OneHandoff;
    LiveReadable(t, plan.id);
    AcknowledgeKeeps(t, input.requestId, OfWrite(input), Receipt(plan.id, plan.revision, true));
  }

  lemma WriteTxKeeps(t: Tables, input: WriteInput, vector: Option<Vector>, model: string, clock: Clock)
    requires Inv(t) && InputOk(input)
    ensures var (n, outcome) := WriteTx(t, input, vector, model, clock);
            && Inv(n) && Later(t, n) && outcome != Refused(ConstraintFired)
            && (outcome.Refused? ==> n == t)
            && (outcome.Done? && input.requestId in t.receipts ==>
                  n == t && t.receipts[input.requestId] == Acknowledged(OfWrite(input), outcome.receipt))
            && (outcome.Done? && input.requestId !in t.receipts ==>
                  PlanWrite(t, input).Ok? && PlanOk(t, input, PlanWrite(t, input).value)
                  && Wrote(t, n, input, PlanWrite(t, input).value, clock, outcome.receipt))
  {
    hide HistoryOk, ConfirmationKept, WordsIndexed, RowsOk, IndexesAccept, OneHandoff, Save, PlanWrite, Wrote;
    hide Acknowledge;
    assert Later(t, t);
    PlanSound(t, input);
    PlanBeforeConstraints(t, input);
    var plan := PlanWrite(t, input);
    if input.requestId !in t.receipts && plan.Ok? {
      if plan.value.Same? {
        SameKeeps(t, input, plan.value, clock);
      } else {
        SaveKeeps(t, input, plan.value, vector, model, clock);
      }
    }
  }
}
