/** Archive and Move keep the invariant; what a move leaves behind. */
module ArchiveAndMove {
  import opened Text
  import opened Records
  import opened StoreSpec
  import opened StoreInvariant
  import opened StoreSafety

  // ----- Archive -----

  /** The row and tables an archive or unarchive produces before handoffs settle. */
  function Flagged(t: Tables, input: ArchiveInput, now: int): Tables
    requires input.id in t.rows
  {
    var row := Revisited(t.rows[input.id], input.archived, input.provenance, now);
    t.(rows := t.rows[input.id := row], history := Snapshot(Snapshot(t.history, t.rows[input.id]), row))
  }

  lemma FlaggedAccepted(t: Tables, input: ArchiveInput, now: int)
    requires RowsOk(t) && IndexesAccept(t.rows) && input.id in t.rows
    requires var r := t.rows[input.id].record;
             r.archived && !input.archived ==>
               Duplicate(t, r.scope, r.memoryType, r.purpose, r.confirmed, t.rows[input.id].contentHash, input.id).None?
    ensures IndexesAccept(Flagged(t, input, now).rows)
  {
    hide IndexesAccept, First;
    var was := t.rows[input.id];
    var row := Revisited(was, input.archived, input.provenance, now);
    if was.record.archived && !input.archived {
      NoDuplicateAccepted(t, input.id, row);
    } else {
      FewerActiveAccepted(t.rows, input.id, row);
    }
  }

  lemma FlaggedKeeps(t: Tables, input: ArchiveInput, now: int)
    requires Inv(t) && input.id in t.rows && IndexesAccept(Flagged(t, input, now).rows)
    ensures var n := Flagged(t, input, now);
            Core(n) && Later(t, n) && OneHandoffApart(n.rows, input.id)
    ensures (input.id, t.rows[input.id].record.revision + 1) !in t.history
  {
    hide HistoryOk, ConfirmationKept, ReceiptsOk, IndexesAccept, Later, Bounded, KeyOk, Durable;
    var row := Revisited(t.rows[input.id], input.archived, input.provenance, now);
    RevisitedSucceeds(input.id, t.rows[input.id], input.archived, input.provenance, now);
    ReviseKeeps(t, input.id, row);
    ReviseHistory(t, input.id, row);
    assert t.index[input.id := WordsOf(row)] == t.index;
    assert Flagged(t, input, now) == Revise(t, input.id, row);
  }

  /** The committed effect of an archive that was not a replay. */
  ghost predicate Changed(t: Tables, n: Tables, input: ArchiveInput, clock: Clock, receipt: Receipt) {
    && input.id in t.rows && input.id in n.rows
    && t.rows[input.id].record.revision == input.expectedRevision
    && receipt == Receipt(input.id, input.expectedRevision + 1, false)
    && (input.id, input.expectedRevision + 1) !in t.history
    && n.receipts == t.receipts[input.requestId := Acknowledged(OfArchive(input), receipt)]
    && n.rows[input.id] == Revisited(t.rows[input.id], input.archived, input.provenance, clock.now)
    && var handoff := !input.archived && t.rows[input.id].record.purpose == "handoff";
    OthersKept(t.rows, n.rows, input.scope, input.id, handoff, input.provenance, clock.retiring)
  }

  lemma FlaggedSettled(t: Tables, input: ArchiveInput, clock: Clock)
    requires Inv(t) && input.id in t.rows && IndexesAccept(Flagged(t, input, clock.now).rows)
    requires input.scope == t.rows[input.id].record.scope && t.rows[input.id].record.revision == input.expectedRevision
    requires input.requestId !in t.receipts
    ensures var handoff := !input.archived && t.rows[input.id].record.purpose == "handoff";
            var flagged := Flagged(t, input, clock.now);
            var (settled, failure) :=
              Settle(flagged, input.scope, input.id, handoff, input.provenance, clock.retiring);
            var receipt := Receipt(input.id, t.rows[input.id].record.revision + 1, false);
            var (n, outcome) := Acknowledge(settled, input.requestId, OfArchive(input), receipt);
            && failure.None? && Inv(n) && Later(t, n) && outcome == Done(receipt)
            && Changed(t, n, input, clock, receipt)
  {
    hide HistoryOk, ConfirmationKept, ReceiptsOk, IndexesAccept, Later, RowsOk, WordsIndexed, OneHandoff;
    hide OneHandoffApart, Settle, OthersKept;
    FlaggedKeeps(t, input, clock.now);
    var flagged := Flagged(t, input, clock.now);
    var handoff := !input.archived && t.rows[input.id].record.purpose == "handoff";
    SettleKeeps(flagged, input.scope, input.id, handoff, input.provenance, clock.retiring);
    var settled := Settle(flagged, input.scope, input.id, handoff, input.provenance, clock.retiring).0;
    LiveReadable(settled, input.id);
    var receipt := Receipt(input.id, t.rows[input.id].record.revision + 1, false);
    AcknowledgeKeeps(settled, input.requestId, OfArchive(input), receipt);
    LaterChain(t, flagged, settled);
    var n := Acknowledge(settled, input.requestId, OfArchive(input), receipt).0;
    LaterChain(t, settled, n);
    OthersFromFlagged(t.rows, flagged.rows, settled.rows, input, handoff, clock);
  }

  lemma OthersFromFlagged(rows: map<int, Row>, flagged: map<int, Row>, settled: map<int, Row>, input: ArchiveInput,
                          handoff: bool, clock: Clock)
    requires input.id in rows && input.id in flagged && flagged == rows[input.id := flagged[input.id]]
    requires OthersKept(flagged, settled, input.scope, input.id, handoff, input.provenance, clock.retiring)
    ensures OthersKept(rows, settled, input.scope, input.id, handoff, input.provenance, clock.retiring)
  {
    hide Revisited, Replacing, ActiveHandoff;
    assert forall other | other in rows && other != input.id :: flagged[other] == rows[other];
  }

  lemma ArchiveTxKeeps(t: Tables, input: ArchiveInput, clock: Clock)
    requires Inv(t)
    ensures var (n, outcome) := ArchiveTx(t, input, clock);
            && Inv(n) && Later(t, n) && outcome != Refused(ConstraintFired)
            && (outcome.Refused? ==> n == t)
            && (outcome.Done? && input.requestId in t.receipts ==>
                  n == t && t.receipts[input.requestId] == Acknowledged(OfArchive(input), outcome.receipt))
            && (outcome.Done? && input.requestId !in t.receipts ==> Changed(t, n, input, clock, outcome.receipt))
  {
    hide HistoryOk, ConfirmationKept, ReceiptsOk, IndexesAccept, WordsIndexed, OneHandoff, Settle, Acknowledge;
    hide Changed, RowOk, First;
    assert Later(t, t);
    if input.requestId !in t.receipts && KeyOk(input.scope) && input.id in t.rows
       && t.rows[input.id].record.scope == input.scope && t.rows[input.id].record.revision == input.expectedRevision {
      var was := t.rows[input.id];
      var r := was.record;
      var duplicate := if r.archived && !input.archived
                       then Duplicate(t, r.scope, r.memoryType, r.purpose, r.confirmed, was.contentHash, input.id)
                       else None;
      if duplicate.None? {
        FlaggedAccepted(t, input, clock.now);
        FlaggedSettled(t, input, clock);
      }
    }
  }

  // ----- Move -----

  /** The copying write asks for the source as it is, in the move's target and
      under its derived request ID. */
  predicate CopyFor(copy: WriteInput, prior: Record, input: MoveInput) {
    && copy.requestId == input.requestId + ":copy" && copy.scope == Target(input) && copy.restoreRevision.None?
    && copy.content == prior.content && copy.title == Some(prior.title) && copy.tags == Some(prior.tags)
    && copy.memoryType == Some(prior.memoryType) && copy.purpose == prior.purpose && copy.confirmed == prior.confirmed
    && copy.provenance == prior.provenance && copy.key == prior.key && (copy.id.Some? ==> copy.key.Some?)
  }

  /** The source of a move and the write that copies it. */
  lemma CopySound(t: Tables, input: MoveInput)
    requires Inv(t) && MoveSource(t, input).Ok?
    ensures var prior := MoveSource(t, input).value;
            && input.id in t.rows && prior == t.rows[input.id].record && prior.id == input.id && !prior.archived
            && prior.revision == input.expectedRevision && Target(input) != prior.scope && TitleRule(prior)
            && (CopyInput(t, prior, input).Ok? ==> InputOk(CopyInput(t, prior, input).value))
    ensures CopyInput(t, MoveSource(t, input).value, input).Ok? ==>
              CopyFor(CopyInput(t, MoveSource(t, input).value, input).value, MoveSource(t, input).value, input)
  {
    hide HistoryOk, ConfirmationKept, ReceiptsOk, IndexesAccept, WordsIndexed, OneHandoff, First, Bounded, Blank;
    hide ByteLen;
  }

  lemma DerivedDiffer(request: string)
    ensures request + ":copy" != request && request + ":archive" != request && request + ":copy" != request + ":archive"
  {
    assert |request + ":copy"| == |request| + 5 && |request + ":archive"| == |request| + 8;
  }

  /** The middle of a move: the copy is made and the original archived. */
  ghost predicate Halves(t: Tables, input: MoveInput, copy: WriteInput, copied: Tables, made: Receipt, archived: Tables,
                         filed: Receipt, copying: Clock, archiving: Clock)
    requires input.id in t.rows
  {
    var prior := t.rows[input.id].record;
    && input.id in copied.rows && copied.rows[input.id] == t.rows[input.id]
    && (copy.requestId in t.receipts ==> copied == t && t.receipts[copy.requestId] == Acknowledged(OfWrite(copy), made))
    && (copy.requestId !in t.receipts ==>
          PlanWrite(t, copy).Ok? && PlanOk(t, copy, PlanWrite(t, copy).value)
          && Wrote(t, copied, copy, PlanWrite(t, copy).value, copying, made))
    && var toArchive := ArchiveOriginal(prior, input, made.id);
    && toArchive.requestId !in copied.receipts
    && Changed(copied, archived, toArchive, archiving, filed)
  }

  /** No archive of the live revision is in the ledger yet: its receipt would
      name a revision that does not exist. */
  lemma NotYetArchived(t: Tables, input: ArchiveInput)
    requires Inv(t) && input.id in t.rows && t.rows[input.id].record.revision == input.expectedRevision
    ensures input.requestId in t.receipts ==> t.receipts[input.requestId].payload != OfArchive(input)
  {
    hide ConfirmationKept, IndexesAccept, WordsIndexed, OneHandoff, RowsOk, RecordOk, Kin;
  }

  lemma HalvesKeep(t: Tables, input: MoveInput, vector: Option<Vector>, model: string, copying: Clock, archiving: Clock)
    requires Inv(t) && MoveSource(t, input).Ok? && CopyInput(t, MoveSource(t, input).value, input).Ok?
    ensures input.id in t.rows
    ensures var prior := t.rows[input.id].record;
            var copy := CopyInput(t, prior, input).value;
            var (copied, made) := WriteTx(t, copy, vector, model, copying);
            && made != Refused(ConstraintFired)
            && (made.Done? ==>
                  var (archived, filed) := ArchiveTx(copied, ArchiveOriginal(prior, input, made.receipt.id), archiving);
                  && filed != Refused(ConstraintFired)
                  && (filed.Done? ==>
                        && Inv(copied) && Later(t, copied)
                        && Inv(archived) && Later(t, archived) && Later(copied, archived)
                        && Halves(t, input, copy, copied, made.receipt, archived, filed.receipt, copying, archiving)))
  {
    hide HistoryOk, ConfirmationKept, ReceiptsOk, IndexesAccept, WordsIndexed, OneHandoff, RowsOk, WriteTx, ArchiveTx;
    hide Later, InputOk, TitleRule, PlanOk, PlanWrite, Changed, MoveSource;
    CopySound(t, input);
    var prior := t.rows[input.id].record;
    var copy := CopyInput(t, prior, input).value;
    WriteTxKeeps(t, copy, vector, model, copying);
    var (copied, made) := WriteTx(t, copy, vector, model, copying);
    if made.Done? {
      assert copy.scope == Target(input);
      SourceKept(t, copied, copy, input.id, copying, made.receipt);
      var toArchive := ArchiveOriginal(prior, input, made.receipt.id);
      NotYetArchived(copied, toArchive);
      ArchiveTxKeeps(copied, toArchive, archiving);
      var (archived, filed) := ArchiveTx(copied, toArchive, archiving);
      LaterChain(t, copied, archived);
    }
  }

  lemma SourceKept(t: Tables, copied: Tables, copy: WriteInput, source: int, copying: Clock, made: Receipt)
    requires RowsOk(t) && source in t.rows && copy.scope != t.rows[source].record.scope
    requires copy.requestId in t.receipts ==> copied == t
    requires copy.requestId !in t.receipts ==>
               PlanWrite(t, copy).Ok? && PlanOk(t, copy, PlanWrite(t, copy).value)
               && Wrote(t, copied, copy, PlanWrite(t, copy).value, copying, made)
    ensures source in copied.rows && copied.rows[source] == t.rows[source]
  {
    hide PlanWrite;
  }

  lemma MoveTxKeeps(t: Tables, input: MoveInput, vector: Option<Vector>, model: string, copying: Clock,
                    archiving: Clock)
    requires Inv(t)
    ensures var (n, outcome) := MoveTx(t, input, vector, model, copying, archiving);
            && Inv(n) && Later(t, n) && outcome != Refused(ConstraintFired)
            && (outcome.Refused? ==> n == t)
            && (outcome.Done? && input.requestId in t.receipts ==>
                  n == t && t.receipts[input.requestId] == Acknowledged(OfMove(input), outcome.receipt))
            && (outcome.Done? ==> input.requestId in n.receipts
                                  && n.receipts[input.requestId] == Acknowledged(OfMove(input), outcome.receipt))
  {
    hide HistoryOk, ConfirmationKept, ReceiptsOk, IndexesAccept, WordsIndexed, OneHandoff, RowsOk, WriteTx, ArchiveTx;
    hide Later, PlanOk, PlanWrite, CopyInput, MoveSource, Acknowledge, Halves;
    LaterSelf(t);
    MoveBeforeConstraints(t, input);
    if input.requestId !in t.receipts && MoveSource(t, input).Ok?
       && CopyInput(t, MoveSource(t, input).value, input).Ok?
    {
      HalvesKeep(t, input, vector, model, copying, archiving);
      CopySound(t, input);
      var prior := t.rows[input.id].record;
      var copy := CopyInput(t, prior, input).value;
      var (copied, made) := WriteTx(t, copy, vector, model, copying);
      if made.Done? && !made.receipt.deduplicated {
        var (archived, filed) := ArchiveTx(copied, ArchiveOriginal(prior, input, made.receipt.id), archiving);
        if filed.Done? {
          HalvesAcknowledged(t, input, copy, copied, made.receipt, archived, filed.receipt, copying, archiving);
        }
      }
    }
  }

  lemma MoveBeforeConstraints(t: Tables, input: MoveInput)
    ensures MoveSource(t, input) != Err(ConstraintFired)
    ensures MoveSource(t, input).Ok? ==> CopyInput(t, MoveSource(t, input).value, input) != Err(ConstraintFired)
  {
    hide First, KeyOk, Durable;
  }

  lemma HalvesReceipts(t: Tables, input: MoveInput, copy: WriteInput, copied: Tables, made: Receipt,
                       archived: Tables, filed: Receipt, copying: Clock, archiving: Clock)
    requires input.requestId !in t.receipts && input.id in t.rows && CopyFor(copy, t.rows[input.id].record, input)
    requires Halves(t, input, copy, copied, made, archived, filed, copying, archiving)
    ensures input.requestId !in archived.receipts
    ensures copy.requestId in copied.receipts && copied.receipts[copy.requestId] == Acknowledged(OfWrite(copy), made)
  {
    hide PlanOk, PlanWrite, Revisited, Moved;
    DerivedDiffer(input.requestId);
    assert input.requestId !in copied.receipts;
  }

  lemma ReceiptReadable(t: Tables, n: Tables, request: string)
    requires ReceiptsOk(t) && Later(t, n) && request in t.receipts
    ensures var at := Named(t.receipts[request].receipt);
            at in n.history && Filed(t.receipts[request], n.history[at].record)
  {
    hide Filed;
  }

  lemma HalvesAcknowledged(t: Tables, input: MoveInput, copy: WriteInput, copied: Tables, made: Receipt,
                           archived: Tables, filed: Receipt, copying: Clock, archiving: Clock)
    requires Inv(archived) && Inv(copied) && Later(t, archived) && Later(copied, archived)
    requires input.requestId !in t.receipts && input.id in t.rows && !made.deduplicated
    requires CopyFor(copy, t.rows[input.id].record, input)
    requires Halves(t, input, copy, copied, made, archived, filed, copying, archiving)
    ensures var (n, outcome) := Acknowledge(archived, input.requestId, OfMove(input), made);
            Inv(n) && Later(t, n) && Later(archived, n) && outcome == Done(made)
            && input.requestId in n.receipts && n.receipts[input.requestId] == Acknowledged(OfMove(input), made)
            && n.rows == archived.rows
  {
    hide HistoryOk, ReceiptsOk, ConfirmationKept, IndexesAccept, WordsIndexed, OneHandoff, RowsOk, Halves, Later;
    HalvesReceipts(t, input, copy, copied, made, archived, filed, copying, archiving);
    ReceiptReadable(copied, archived, copy.requestId);
    AcknowledgeKeeps(archived, input.requestId, OfMove(input), made);
    LaterChain(t, archived, Acknowledge(archived, input.requestId, OfMove(input), made).0);
  }

  // ----- what a move leaves behind -----

  /** b carries everything of a that a move promises to carry. */
  predicate SameMemory(a: Record, b: Record) {
    && a.content == b.content && a.title == b.title && a.tags == b.tags && a.memoryType == b.memoryType
    && a.purpose == b.purpose && a.confirmed == b.confirmed && a.provenance == b.provenance && a.key == b.key
  }

  /** The copy's plan keeps every field of the source, the title included. */
  lemma CopyPlanExact(t: Tables, input: MoveInput, vector: Option<Vector>, model: string, now: int)
    requires Inv(t) && MoveSource(t, input).Ok? && CopyInput(t, MoveSource(t, input).value, input).Ok?
    requires var plan := PlanWrite(t, CopyInput(t, MoveSource(t, input).value, input).value);
             plan.Ok? && !plan.value.Same?
    ensures var prior := MoveSource(t, input).value;
            var copy := CopyInput(t, prior, input).value;
            var row := PlannedRow(t, copy, PlanWrite(t, copy).value, vector, model, now).0;
            SameMemory(prior, row.record) && row.record.scope == Target(input) && !row.record.archived
  {
    hide HistoryOk, ConfirmationKept, ReceiptsOk, IndexesAccept, WordsIndexed, OneHandoff, First, Bounded, Durable;
    hide KeyOk;
    CopySound(t, input);
    var prior := MoveSource(t, input).value;
    var copy := CopyInput(t, prior, input).value;
    PlanSound(t, copy);
    PlannedRowFields(t, copy, PlanWrite(t, copy).value, vector, model, now);
  }

  /** A first successful move always archives the original, one revision later
      under a note naming the copy, and `:archive` is never a replay. */
  lemma MoveArchives(t: Tables, input: MoveInput, vector: Option<Vector>, model: string, copying: Clock,
                     archiving: Clock)
    requires Inv(t) && input.requestId !in t.receipts
    requires Move(t, input, vector, model, copying, archiving).1.Done?
    ensures input.id in t.rows && input.requestId + ":archive" !in t.receipts
    ensures var (n, outcome) := Move(t, input, vector, model, copying, archiving);
            var note := Moved(outcome.receipt.id, input.provenance);
            && !t.rows[input.id].record.archived && t.rows[input.id].record.revision == input.expectedRevision
            && input.id in n.rows && n.rows[input.id] == Revisited(t.rows[input.id], true, note, archiving.now)
  {
    hide HistoryOk, ConfirmationKept, ReceiptsOk, IndexesAccept, WordsIndexed, OneHandoff, RowsOk, WriteTx, ArchiveTx;
    hide PlanOk, PlanWrite, CopyInput, MoveSource, Acknowledge, KeyOk, Revisited, Moved, OthersKept;
    MoveBeforeConstraints(t, input);
    HalvesKeep(t, input, vector, model, copying, archiving);
    CopySound(t, input);
    var prior := t.rows[input.id].record;
    var copy := CopyInput(t, prior, input).value;
    var (copied, made) := WriteTx(t, copy, vector, model, copying);
    var (archived, filed) := ArchiveTx(copied, ArchiveOriginal(prior, input, made.receipt.id), archiving);
    HalvesAcknowledged(t, input, copy, copied, made.receipt, archived, filed.receipt, copying, archiving);
  }

  /** The copy is freshly recorded exactly when the request ID the move derives
      for it has not been used before. */
  lemma MoveExact(t: Tables, input: MoveInput, vector: Option<Vector>, model: string, copying: Clock, archiving: Clock)
    requires Inv(t) && input.requestId !in t.receipts
    requires Move(t, input, vector, model, copying, archiving).1.Done?
    ensures var receipt := Move(t, input, vector, model, copying, archiving).1.receipt;
            (receipt.id, receipt.revision) !in t.history <==> input.requestId + ":copy" !in t.receipts
  {
    hide HistoryOk, ConfirmationKept, IndexesAccept, WordsIndexed, OneHandoff, RowsOk, WriteTx, ArchiveTx;
    hide PlanOk, PlanWrite, CopyInput, MoveSource, Acknowledge, KeyOk, OthersKept, Changed;
    hide CopyFor, AsAsked, Filed, TitleRule;
    MoveBeforeConstraints(t, input);
    HalvesKeep(t, input, vector, model, copying, archiving);
    CopySound(t, input);
    var prior := t.rows[input.id].record;
    var copy := CopyInput(t, prior, input).value;
    CopyRequest(copy, prior, input);
    var (copied, made) := WriteTx(t, copy, vector, model, copying);
    var (archived, filed) := ArchiveTx(copied, ArchiveOriginal(prior, input, made.receipt.id), archiving);
    HalvesAcknowledged(t, input, copy, copied, made.receipt, archived, filed.receipt, copying, archiving);
  }

  /** Then the copy is active in the target and equal to the original in all it
      carries. */
  lemma MoveCarries(t: Tables, input: MoveInput, vector: Option<Vector>, model: string, copying: Clock,
                    archiving: Clock)
    requires Inv(t) && input.requestId !in t.receipts && input.requestId + ":copy" !in t.receipts
    requires Move(t, input, vector, model, copying, archiving).1.Done?
    ensures input.id in t.rows
    ensures var (n, outcome) := Move(t, input, vector, model, copying, archiving);
            var id := outcome.receipt.id;
            && id != input.id && id in n.rows && n.rows[id].record.revision == outcome.receipt.revision
            && n.rows[id].record.scope == Target(input) && !n.rows[id].record.archived
            && SameMemory(t.rows[input.id].record, n.rows[id].record)
  {
    hide HistoryOk, ConfirmationKept, ReceiptsOk, IndexesAccept, WordsIndexed, OneHandoff, RowsOk, ArchiveTx, Save;
    hide PlanOk, PlanWrite, CopyInput, MoveSource, Acknowledge, KeyOk, PlannedRow, Later, SameMemory;
    MoveBeforeConstraints(t, input);
    HalvesKeep(t, input, vector, model, copying, archiving);
    CopySound(t, input);
    DerivedDiffer(input.requestId);
    var prior := t.rows[input.id].record;
    var copy := CopyInput(t, prior, input).value;
    var (copied, made) := WriteTx(t, copy, vector, model, copying);
    var plan := PlanWrite(t, copy).value;
    SaveKeeps(t, copy, plan, vector, model, copying);
    CopyPlanExact(t, input, vector, model, copying.now);
    var (archived, filed) := ArchiveTx(copied, ArchiveOriginal(prior, input, made.receipt.id), archiving);
    HalvesAcknowledged(t, input, copy, copied, made.receipt, archived, filed.receipt, copying, archiving);
  }

  /** An active copy of a record in a scope. */
  predicate ActiveCopy(prior: Record, scope: Scope, r: Record) {
    SameMemory(prior, r) && r.scope == scope && !r.archived
  }

  lemma AskedIsCopy(copy: WriteInput, prior: Record, input: MoveInput, r: Record)
    requires CopyFor(copy, prior, input) && TitleRule(prior) && AsAsked(copy, r) && r.provenance == copy.provenance
    ensures ActiveCopy(prior, Target(input), r)
  {
    hide Blank, Prefix;
  }

  lemma CopyNamed(t: Tables, n: Tables, prior: Record, copy: WriteInput, input: MoveInput, made: Receipt)
    requires Inv(t) && Later(t, n) && CopyFor(copy, prior, input) && TitleRule(prior) && !made.deduplicated
    requires copy.requestId in t.receipts && t.receipts[copy.requestId] == Acknowledged(OfWrite(copy), made)
    ensures Named(made) in n.history && ActiveCopy(prior, Target(input), n.history[Named(made)].record)
    ensures made.id in t.rows && t.rows[made.id].record.scope == Target(input)
  {
    hide ConfirmationKept, IndexesAccept, WordsIndexed, OneHandoff, RowsOk, RecordOk, CopyFor, TitleRule, AsAsked;
    hide ActiveCopy;
    AskedIsCopy(copy, prior, input, t.history[Named(made)].record);
    assert ActiveCopy(prior, Target(input), t.history[Named(made)].record);
    CopyScope(prior, Target(input), t.history[Named(made)].record);
  }

  lemma CopyRequest(copy: WriteInput, prior: Record, input: MoveInput)
    requires CopyFor(copy, prior, input)
    ensures copy.requestId == input.requestId + ":copy" && copy.scope == Target(input)
    ensures copy.provenance == prior.provenance
  {
  }

  lemma CopyScope(prior: Record, scope: Scope, r: Record)
    requires ActiveCopy(prior, scope, r)
    ensures r.scope == scope
  {
  }

  /** Archiving one row leaves every other as it was. */
  lemma OthersStay(t: Tables, n: Tables, input: ArchiveInput, clock: Clock, receipt: Receipt, other: int)
    requires Changed(t, n, input, clock, receipt) && input.archived && other in t.rows && other != input.id
    ensures other in n.rows && n.rows[other] == t.rows[other]
  {
    hide Revisited, ActiveHandoff;
  }

  /** Whether its copy is fresh or a replay, the revision a successful move names
      is an exact copy of the source in the target. The row it belongs to is an
      active copy now exactly when the copy is fresh, or that row was one before
      the move, which leaves it alone. */
  lemma MoveLeaves(t: Tables, input: MoveInput, vector: Option<Vector>, model: string, copying: Clock, archiving: Clock)
    requires Inv(t) && input.requestId !in t.receipts && Move(t, input, vector, model, copying, archiving).1.Done?
    ensures input.id in t.rows
    ensures var (n, outcome) := Move(t, input, vector, model, copying, archiving);
            var prior := t.rows[input.id].record;
            var id := outcome.receipt.id;
            var request := input.requestId + ":copy";
            && id != input.id && id in n.rows && Named(outcome.receipt) in n.history
            && ActiveCopy(prior, Target(input), n.history[Named(outcome.receipt)].record)
            && (request in t.receipts ==>
                  outcome.receipt == t.receipts[request].receipt && id in t.rows && n.rows[id] == t.rows[id])
            && (ActiveCopy(prior, Target(input), n.rows[id].record) <==>
                request !in t.receipts || ActiveCopy(prior, Target(input), t.rows[id].record))
  {
    hide HistoryOk, ConfirmationKept, ReceiptsOk, IndexesAccept, WordsIndexed, OneHandoff, RowsOk, WriteTx, ArchiveTx;
    hide PlanOk, PlanWrite, CopyInput, MoveSource, Acknowledge, KeyOk, SameMemory, CopyFor, AsAsked, Filed, Moved;
    hide Changed, OthersKept;
    MoveBeforeConstraints(t, input);
    HalvesKeep(t, input, vector, model, copying, archiving);
    CopySound(t, input);
    var prior := t.rows[input.id].record;
    var copy := CopyInput(t, prior, input).value;
    var (copied, made) := WriteTx(t, copy, vector, model, copying);
    var toArchive := ArchiveOriginal(prior, input, made.receipt.id);
    var (archived, filed) := ArchiveTx(copied, toArchive, archiving);
    HalvesAcknowledged(t, input, copy, copied, made.receipt, archived, filed.receipt, copying, archiving);
    var n := Move(t, input, vector, model, copying, archiving).0;
    HalvesReceipts(t, input, copy, copied, made.receipt, archived, filed.receipt, copying, archiving);
    LaterChain(copied, archived, n);
    CopyRequest(copy, prior, input);
    CopyNamed(copied, n, prior, copy, input, made.receipt);
    if copy.requestId in t.receipts {
      OthersStay(copied, archived, toArchive, archiving, filed.receipt, made.receipt.id);
    } else {
      MoveCarries(t, input, vector, model, copying, archiving);
    }
  }
}
