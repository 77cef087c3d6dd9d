/** What each successful operation leaves in the tables, stated without its
    steps: contents, the rows it must not touch, restores and undoing. */
module StoreEffects {
  import opened Text
  import opened Records
  import opened StoreSpec
  import opened StoreInvariant
  import opened StoreSafety
  import opened ArchiveAndMove
  import opened StoreRuns
  import opened StoreAnswers

  /** Row id after a first successful write: the composed text and metadata, and
      all else the call's, the row's own, or the time of the call. */
  predicate AsRequested(input: WriteInput, before: Option<Record>, after: Record, now: int) {
    && after.scope == input.scope && !after.archived && after.confirmed == input.confirmed
    && after.provenance == input.provenance && Composes(input, before, None, FieldsOf(after))
    && after.key == (if before.Some? then before.value.key else input.key)
    && (input.key.Some? ==> after.key == input.key)
    && after.revision == (if before.Some? then before.value.revision + 1 else 1)
    && after.updated == now && after.created == (if before.Some? then before.value.created else now)
  }

  /** A restore brings back the old revision as a new one: only its number,
      time, visibility, confirmation and author are the restoring call's. */
  predicate AsRestored(input: WriteInput, prior: Record, before: Record, after: Record, now: int) {
    after == prior.(revision := before.revision + 1, updated := now, archived := false,
                    confirmed := input.confirmed, provenance := input.provenance)
  }

  function Before(t: Tables, id: int): Option<Record> {
    if id in t.rows then Some(t.rows[id].record) else None
  }

  lemma PlannedAsRequested(t: Tables, input: WriteInput, vector: Option<Vector>, model: string, now: int)
    requires Inv(t) && InputOk(input) && PlanWrite(t, input).Ok? && !PlanWrite(t, input).value.Same?
    requires input.restoreRevision.None?
    ensures var plan := PlanWrite(t, input).value;
            AsRequested(input, Before(t, PlannedId(t, plan)), PlannedRow(t, input, plan, vector, model, now).0.record,
                        now)
  {
    hide HistoryOk, ConfirmationKept, ReceiptsOk, IndexesAccept, WordsIndexed, OneHandoff, First, Bounded, Durable;
    hide KeyOk;
    hide MemoryTypeOk, PurposeOk, GetInTx, ByteLen, PlannedRow, PlanOk, PlanFields, Duplicate, RowOk;
    PlanFieldsKeep(t, input);
    PlanSound(t, input);
    PlannedRowFields(t, input, PlanWrite(t, input).value, vector, model, now);
  }

  /** A plan keeps the composed fields, and corrects the addressed row if there is one. */
  lemma PlanFieldsKeep(t: Tables, input: WriteInput)
    requires PlanWrite(t, input).Ok? && !PlanWrite(t, input).value.Same?
    ensures var plan := PlanWrite(t, input).value;
            var at := Addressed(t, input).value;
            && Restored(t, input, at).Ok?
            && FieldsFor(input, RecordAt(t, at), Restored(t, input, at).value) == Ok(plan.fields)
            && (if at.None? then plan.Insert? else plan.Correct? && plan.id == at.value)
            && (at.Some? && input.key.Some? ==> t.rows[at.value].record.key == input.key)
  {
    hide First, GetInTx, FieldsFor, Duplicate;
  }

  lemma PlannedAsRestored(t: Tables, input: WriteInput, vector: Option<Vector>, model: string, now: int)
    requires Inv(t) && InputOk(input) && PlanWrite(t, input).Ok? && input.restoreRevision.Some?
    ensures var plan := PlanWrite(t, input).value;
            var restore := input.restoreRevision.value;
            && plan.Correct? && (plan.id, restore) in t.history && plan.id in t.rows
            && var row := PlannedRow(t, input, plan, vector, model, now).0;
            && AsRestored(input, t.history[(plan.id, restore)].record, t.rows[plan.id].record, row.record, now)
            && (vector.None? ==> row.embedding == t.history[(plan.id, restore)].embedding
                                 && row.model == t.history[(plan.id, restore)].model)
  {
    hide ConfirmationKept, ReceiptsOk, IndexesAccept, WordsIndexed, OneHandoff, First, Bounded, Durable, KeyOk;
    hide MemoryTypeOk, PurposeOk, ByteLen, TitleRule;
    PlanSound(t, input);
    PlannedRowFields(t, input, PlanWrite(t, input).value, vector, model, now);
  }

  lemma FirstWrite(t: Tables, input: WriteInput, vector: Option<Vector>, model: string, clock: Clock)
    requires Inv(t) && input.requestId !in t.receipts && Write(t, input, vector, model, clock).1.Done?
    ensures InputOk(input) && PlanWrite(t, input).Ok? && PlanOk(t, input, PlanWrite(t, input).value)
    ensures var (n, outcome) := Write(t, input, vector, model, clock);
            var plan := PlanWrite(t, input).value;
            && Wrote(t, n, input, plan, clock, outcome.receipt)
            && (!plan.Same? ==> n.rows[PlannedId(t, plan)] == PlannedRow(t, input, plan, vector, model, clock.now).0)
  {
    hide Core, OneHandoff, PlanWrite, Save, PlannedRow, Wrote, Bounded, ByteLen, Blank;
    WriteTxKeeps(t, input, vector, model, clock);
    PlanSound(t, input);
    if !PlanWrite(t, input).value.Same? {
      SaveKeeps(t, input, PlanWrite(t, input).value, vector, model, clock);
    }
  }

  /** A first successful write that is not a duplicate puts exactly what was
      asked for in one row, under a revision never recorded before, and touches
      no other row except to retire the scope's earlier active handoffs. */
  lemma WriteEffect(t: Tables, input: WriteInput, vector: Option<Vector>, model: string, clock: Clock)
    requires Inv(t) && input.requestId !in t.receipts && Write(t, input, vector, model, clock).1.Done?
    requires !Write(t, input, vector, model, clock).1.receipt.deduplicated
    ensures var (n, outcome) := Write(t, input, vector, model, clock);
            var id := outcome.receipt.id;
            && id in n.rows && n.rows[id].record.revision == outcome.receipt.revision
            && (id, outcome.receipt.revision) !in t.history
            && OthersKept(t.rows, n.rows, input.scope, id, n.rows[id].record.purpose == "handoff", input.provenance,
                          clock.retiring)
            && (input.restoreRevision.None? ==> AsRequested(input, Before(t, id), n.rows[id].record, clock.now))
            && (input.restoreRevision.Some? ==>
                  var at := (id, input.restoreRevision.value);
                  && at in t.history && id in t.rows
                  && AsRestored(input, t.history[at].record, t.rows[id].record, n.rows[id].record, clock.now)
                  && (vector.None? ==> n.rows[id].embedding == t.history[at].embedding
                                       && n.rows[id].model == t.history[at].model))
            && (vector.Some? ==> n.rows[id].embedding == vector && n.rows[id].model == model)
            && (vector.None? && input.restoreRevision.None? ==> n.rows[id].embedding == None && n.rows[id].model == "")
  {
    hide Inv, PlanWrite, Save, WriteTx, Write, AsRequested, AsRestored, Before, OthersKept;
    FirstWrite(t, input, vector, model, clock);
    if input.restoreRevision.Some? {
      PlannedAsRestored(t, input, vector, model, clock.now);
    } else {
      PlannedAsRequested(t, input, vector, model, clock.now);
    }
  }

  /** A deduplicated write changes no row: the receipt names an active row that
      already holds exactly the requested memory. */
  lemma DuplicateEffect(t: Tables, input: WriteInput, vector: Option<Vector>, model: string, clock: Clock)
    requires Inv(t) && input.requestId !in t.receipts && Write(t, input, vector, model, clock).1.Done?
    requires Write(t, input, vector, model, clock).1.receipt.deduplicated
    ensures var (n, outcome) := Write(t, input, vector, model, clock);
            && n == t.(receipts := n.receipts) && outcome.receipt.id in t.rows
            && var r := t.rows[outcome.receipt.id].record;
            && r.revision == outcome.receipt.revision && r.key == input.key
            && Composes(input, None, None, FieldsOf(r))
            && Twin(t, input.scope, FieldsOf(r), input.confirmed, outcome.receipt.id)
  {
    hide Inv, Save, WriteTx, Write, PlanWrite;
    FirstWrite(t, input, vector, model, clock);
    SamePlanExact(t, input);
  }

  lemma SamePlanExact(t: Tables, input: WriteInput)
    requires Inv(t) && PlanWrite(t, input).Ok? && PlanWrite(t, input).value.Same?
    ensures var id := PlanWrite(t, input).value.id;
            && id in t.rows && t.rows[id].record.key == input.key
            && Composes(input, None, None, FieldsOf(t.rows[id].record))
            && Twin(t, input.scope, FieldsOf(t.rows[id].record), input.confirmed, id)
  {
    hide Core, OneHandoff, First, FieldsFor, Composes, GetInTx;
    var f := FieldsFor(input, None, None).value;
    FieldsCompose(input, None, None);
    CoreRows(t);
    TwinFound(t, input.scope, f, input.confirmed, 0);
  }

  /** A first successful archive or unarchive changes one row's visibility, one
      revision later, and nothing else but the handoffs an unarchived handoff replaces. */
  lemma ArchiveEffect(t: Tables, input: ArchiveInput, clock: Clock)
    requires Inv(t) && input.requestId !in t.receipts && Archive(t, input, clock).1.Done?
    ensures var (n, outcome) := Archive(t, input, clock);
            && input.id in t.rows && input.id in n.rows
            && outcome.receipt == Receipt(input.id, input.expectedRevision + 1, false)
            && (input.id, input.expectedRevision + 1) !in t.history
            && n.rows[input.id].record == t.rows[input.id].record.(
                 archived := input.archived, provenance := input.provenance, revision := input.expectedRevision + 1,
                 updated := clock.now)
            && n.rows[input.id].embedding == t.rows[input.id].embedding
            && OthersKept(t.rows, n.rows, input.scope, input.id,
                          !input.archived && t.rows[input.id].record.purpose == "handoff",
                          input.provenance, clock.retiring)
  {
    hide Inv, GetInTx, OthersKept, Later, KeyOk, RequestIdOk, ProvenanceOk;
    ArchiveTxKeeps(t, input, clock);
  }

  /** Undoing an archive gives back every row as it was, but for the revision,
      time and author of the memory itself and, when it is a handoff, any active
      handoff that had taken its place. */
  lemma ArchiveUndone(t: Tables, hiding: ArchiveInput, showing: ArchiveInput, clock: Clock, clock': Clock)
    requires Inv(t) && hiding.requestId !in t.receipts && Archive(t, hiding, clock).1.Done?
    requires var mid := Archive(t, hiding, clock).0;
             showing.requestId !in mid.receipts && Archive(mid, showing, clock').1.Done?
    requires hiding.archived && !showing.archived && hiding.id == showing.id && hiding.scope == showing.scope
    requires hiding.id in t.rows && !t.rows[hiding.id].record.archived
    ensures var n := Archive(Archive(t, hiding, clock).0, showing, clock').0;
            && n.rows.Keys == t.rows.Keys
            && n.rows[hiding.id] == t.rows[hiding.id].(record := t.rows[hiding.id].record.(
                 revision := t.rows[hiding.id].record.revision + 2, updated := clock'.now,
                 provenance := showing.provenance))
            && forall other | other in t.rows && other != hiding.id :: n.rows[other] == t.rows[other]
  {
    hide HistoryOk, ConfirmationKept, ReceiptsOk, IndexesAccept, WordsIndexed, RowsOk, Archive, Replacing;
    ApplyKeeps(t, CallArchive(hiding, clock));
    var mid := Archive(t, hiding, clock).0;
    ArchiveChanged(t, hiding, clock);
    ArchiveChanged(mid, showing, clock');
    var n := Archive(mid, showing, clock').0;
    forall other | other in t.rows && other != hiding.id ensures n.rows[other] == t.rows[other] {
      assert mid.rows[other] == t.rows[other];
      if ActiveHandoff(t.rows[other]) && t.rows[hiding.id].record.purpose == "handoff" {
        assert ActiveHandoff(t.rows[hiding.id]);
        assert t.rows[other].record.scope != hiding.scope;
      }
    }
  }

  lemma ArchiveChanged(t: Tables, input: ArchiveInput, clock: Clock)
    requires Inv(t) && input.requestId !in t.receipts && Archive(t, input, clock).1.Done?
    ensures Changed(t, Archive(t, input, clock).0, input, clock, Archive(t, input, clock).1.receipt)
    ensures t.rows[input.id].record.scope == input.scope
  {
    hide Inv, OthersKept, Later, KeyOk, RequestIdOk, ProvenanceOk, Changed;
    ArchiveTxKeeps(t, input, clock);
  }

  // ----- optimistic concurrency -----

  /** The row a call names, by id or by the key it holds, and the revision the
      call claims to build on. */
  function Basis(t: Tables, c: Call): Option<(int, int)> {
    match c
    case CallWrite(input, _, _, _) =>
      var id := if input.id.None? && input.key.Some? then First(t, KeyHolder(input.scope, input.key.value))
                else input.id;
      if id.Some? && input.expectedRevision.Some? then Some((id.value, input.expectedRevision.value)) else None
    case CallArchive(input, _) => Some((input.id, input.expectedRevision))
    case CallMove(input, _, _, _, _) => Some((input.id, input.expectedRevision))
  }

  /** A first success always built on the live revision. */
  lemma BuiltOnLive(t: Tables, c: Call)
    requires Inv(t) && Apply(t, c).1.Done? && RequestOf(c) !in t.receipts && Basis(t, c).Some?
    ensures var (id, revision) := Basis(t, c).value;
            id in t.rows && t.rows[id].record.revision == revision
  {
    hide HistoryOk, ConfirmationKept, ReceiptsOk, IndexesAccept, WordsIndexed, OneHandoff, RowsOk, WriteTx, ArchiveTx;
    hide Save, Restored, FieldsFor, PlanFields, KeyOk, Durable, Bounded, ByteLen, CopyInput, Acknowledge, First;
    match c
    case CallWrite(input, vector, model, clock) =>
      WriteTxKeeps(t, input, vector, model, clock);
    case CallArchive(input, clock) => ArchiveTxKeeps(t, input, clock);
    case CallMove(input, vector, model, clock, archiving) => CopySound(t, input);
  }

  /** And leaves a newer revision behind. */
  lemma LeavesNewer(t: Tables, c: Call)
    requires Inv(t) && Apply(t, c).1.Done? && RequestOf(c) !in t.receipts && Basis(t, c).Some?
    ensures var (id, revision) := Basis(t, c).value;
            id in Apply(t, c).0.rows && Apply(t, c).0.rows[id].record.revision == revision + 1
  {
    hide Inv, PlanWrite, Save, WriteTx, ArchiveTx, Move, OthersKept, PlanOk, KeyOk, RequestIdOk, ProvenanceOk;
    hide PlannedRow;
    hide First;
    BuiltOnLive(t, c);
    match c
    case CallWrite(input, vector, model, clock) =>
      FirstWrite(t, input, vector, model, clock);
      CorrectsBasis(t, c);
    case CallArchive(input, clock) => ArchiveTxKeeps(t, input, clock);
    case CallMove(input, vector, model, clock, archiving) => MoveArchives(t, input, vector, model, clock, archiving);
  }

  lemma CorrectsBasis(t: Tables, c: Call)
    requires Inv(t) && c.CallWrite? && PlanWrite(t, c.write).Ok? && Basis(t, c).Some?
    ensures var plan := PlanWrite(t, c.write).value;
            plan.Correct? && plan.id == Basis(t, c).value.0 && plan.id in t.rows
            && var row := PlannedRow(t, c.write, plan, c.vector, c.model, c.clock.now).0;
            row.record.revision == t.rows[plan.id].record.revision + 1
  {
    hide HistoryOk, ConfirmationKept, ReceiptsOk, IndexesAccept, WordsIndexed, OneHandoff, RowsOk;
    hide Restored, FieldsFor, KeyOk, Durable, Bounded, ByteLen, First;
  }

  /** The holder of a key keeps it, so what a call names never changes. */
  lemma BasisStays(t: Tables, calls: seq<Call>, c: Call)
    requires Inv(t) && Basis(t, c).Some?
    ensures Basis(Run(t, calls), c) == Basis(t, c)
  {
    hide ConfirmationKept, ReceiptsOk, WordsIndexed, OneHandoff, Run, First, Durable, Bounded, KeyOk;
    if c.CallWrite? && c.write.id.None? {
      RunKeeps(t, calls);
      var n := Run(t, calls);
      var id := Basis(t, c).value.0;
      var q := KeyHolder(c.write.scope, c.write.key.value);
      KinStays(t, calls, id);
      assert Matches(id, n.rows[id], q);
      var holder := First(n, q);
      assert SameKey(n.rows[holder.value], n.rows[id]);
    }
  }

  lemma KinStays(t: Tables, calls: seq<Call>, id: int)
    requires Inv(t) && id in t.rows
    ensures id in Run(t, calls).rows && Kin(t.rows[id].record, Run(t, calls).rows[id].record)
  {
    hide ConfirmationKept, ReceiptsOk, WordsIndexed, OneHandoff, Run, IndexesAccept, RowsOk, RecordOk;
    RunKeeps(t, calls);
    assert (id, t.rows[id].record.revision) in t.history;
  }

  /** No lost update: of two calls that build on the same revision, in any run
      between them, only the first can succeed. */
  lemma OneWinner(t: Tables, winner: Call, between: seq<Call>, loser: Call)
    requires Inv(t) && Apply(t, winner).1.Done? && RequestOf(winner) !in t.receipts
    requires Basis(t, winner).Some? && Basis(t, loser) == Basis(t, winner)
    requires var later := Run(Apply(t, winner).0, between);
             RequestOf(loser) !in later.receipts
    ensures var later := Run(Apply(t, winner).0, between);
            Apply(later, loser).1.Refused? && Apply(later, loser).0 == later
  {
    hide Inv, Apply, Basis;
    LeavesNewer(t, winner);
    ApplyKeeps(t, winner);
    var next := Apply(t, winner).0;
    RunKeeps(next, between);
    var later := Run(next, between);
    assert ([winner] + between)[1..] == between && Run(t, [winner] + between) == later;
    BasisStays(t, [winner] + between, loser);
    if Apply(later, loser).1.Done? {
      BuiltOnLive(later, loser);
    }
    ApplyKeeps(later, loser);
  }
}
