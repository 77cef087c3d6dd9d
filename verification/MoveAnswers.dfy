/** Which moves the store accepts, what it answers to each of the others, and
    what an accepted move touches. */
module MoveAnswers {
  import opened Text
  import opened Records
  import opened StoreSpec
  import opened StoreInvariant
  import opened StoreSafety
  import opened ArchiveAndMove
  import opened StoreAnswers

  /** The memory can be moved: there, active, at the expected revision, to
      another place that can hold it. */
  predicate Movable(t: Tables, input: MoveInput) {
    && input.id in t.rows && !t.rows[input.id].record.archived
    && t.rows[input.id].record.revision == input.expectedRevision
    && Durable(Target(input)) && KeyOk(Target(input)) && Target(input) != t.rows[input.id].record.scope
  }

  /** A move is refused, each failing condition with its own answer. */
  lemma MoveRefused(t: Tables, input: MoveInput, vector: Option<Vector>, model: string, copying: Clock,
                    archiving: Clock)
    requires Inv(t) && input.requestId !in t.receipts
    ensures var (n, outcome) := Move(t, input, vector, model, copying, archiving);
            if !ProvenanceOk(input.provenance) then outcome == Refused(InvalidProvenance)
            else if !Bounded(input.requestId, 100) || input.id < 1 || input.expectedRevision < 1 then
              outcome == Refused(InvalidMove)
            else if input.id !in t.rows then outcome == Refused(MemoryNotFound)
            else
              var prior := t.rows[input.id].record;
              if prior.archived || prior.revision != input.expectedRevision then
                outcome == Refused(RevisionConflict(prior.revision))
              else !Movable(t, input) ==> outcome == Refused(InvalidMoveTarget)
  {
    hide Core, OneHandoff, ProvenanceOk, Bounded, Durable, KeyOk, CopyInput, GetInTx;
    if input.id in t.rows {
      SourceRead(t, input.id);
    }
  }

  lemma SourceRead(t: Tables, id: int)
    requires Inv(t) && id in t.rows
    ensures var r := t.rows[id].record;
            r.id == id && !r.scope.legacy && RecordOk(r) && GetInTx(t, r.scope, id, None) == Ok(Some(r))
  {
    hide HistoryOk, ConfirmationKept, ReceiptsOk, IndexesAccept, WordsIndexed, OneHandoff, Durable, Bounded;
  }

  /** The source of a move that can be made. */
  lemma MovableSource(t: Tables, input: MoveInput)
    requires Inv(t) && Movable(t, input)
    ensures MoveSource(t, input) == Ok(t.rows[input.id].record)
  {
    hide Core, OneHandoff, Durable, KeyOk, GetInTx;
    SourceRead(t, input.id);
  }

  /** An active memory of the target under the same key is never touched. */
  lemma MoveOntoActive(t: Tables, input: MoveInput, vector: Option<Vector>, model: string, copying: Clock,
                       archiving: Clock, holder: int)
    requires Inv(t) && input.requestId !in t.receipts && ProvenanceOk(input.provenance) && MoveOk(input)
    requires Movable(t, input) && t.rows[input.id].record.key.Some?
    requires Holds(t, Target(input), t.rows[input.id].record.key.value, holder) && !t.rows[holder].record.archived
    ensures Move(t, input, vector, model, copying, archiving) == (t, Refused(MoveTargetExists))
  {
    hide Inv, ProvenanceOk, MoveOk, MoveSource, First;
    MovableSource(t, input);
    OneHolder(t, Target(input), t.rows[input.id].record.key.value, holder);
  }

  /** The copying write, given who holds the key in the target. */
  lemma CopyWritten(t: Tables, input: MoveInput, holder: Option<int>)
    requires Inv(t) && Movable(t, input)
    requires HolderIn(t, input, holder)
    ensures var prior := t.rows[input.id].record;
            var r := CopyInput(t, prior, input);
            && r.Ok? && InputOk(r.value) && CopyFor(r.value, prior, input)
            && (holder.Some? ==> r.value.id == holder
                                 && r.value.expectedRevision == Some(t.rows[holder.value].record.revision))
            && (holder.None? ==> r.value.id.None? && r.value.expectedRevision.None?)
            && Composes(r.value, if holder.Some? then Some(t.rows[holder.value].record) else None, None,
                        FieldsOf(prior))
            && LimitBroken(FieldsOf(prior)).None?
  {
    hide HistoryOk, ConfirmationKept, ReceiptsOk, IndexesAccept, WordsIndexed, OneHandoff, First, Durable, KeyOk;
    hide Bounded, Prefix, ByteLen;
    var prior := t.rows[input.id].record;
    SourceRead(t, input.id);
    if prior.key.Some? {
      HolderFound(t, Target(input), prior.key.value);
      if holder.Some? {
        OneHolder(t, Target(input), prior.key.value, holder.value);
      }
    }
  }

  /** holder is the archived row that has the source's key in the target, or
      None when no row has. */
  ghost predicate HolderIn(t: Tables, input: MoveInput, holder: Option<int>)
    requires input.id in t.rows
  {
    var prior := t.rows[input.id].record;
    if holder.Some? then
      && prior.key.Some? && Holds(t, Target(input), prior.key.value, holder.value)
      && t.rows[holder.value].record.archived
    else prior.key.Some? ==> forall id :: !Holds(t, Target(input), prior.key.value, id)
  }

  /** After the copy, filing the original only depends on its request ID. */
  lemma MoveFiled(t: Tables, input: MoveInput, vector: Option<Vector>, model: string, copying: Clock, archiving: Clock)
    requires Inv(t) && input.requestId !in t.receipts && ProvenanceOk(input.provenance) && MoveOk(input)
    requires Movable(t, input) && CopyInput(t, t.rows[input.id].record, input).Ok?
    ensures var copy := CopyInput(t, t.rows[input.id].record, input).value;
            var made := WriteTx(t, copy, vector, model, copying).1;
            var outcome := Move(t, input, vector, model, copying, archiving).1;
            if made.Refused? then outcome == made
            else if made.receipt.deduplicated then outcome == Refused(MoveTargetExists)
            else if input.requestId + ":archive" in t.receipts then outcome == Refused(IdempotencyConflict)
            else outcome == made
  {
    hide Core, OneHandoff, ProvenanceOk, MoveOk, MoveSource, First, WriteTx, CopyInput, ArchiveTx, Wrote, PlanOk;
    hide PlanWrite, Later, CopyFor, InputOk, Movable, Found, FieldsOf, NoTwin, Twin;
    MovableSource(t, input);
    CopySound(t, input);
    var prior := t.rows[input.id].record;
    var copy := CopyInput(t, prior, input).value;
    CopyRequest(copy, prior, input);
    WriteTxKeeps(t, copy, vector, model, copying);
    var (copied, made) := WriteTx(t, copy, vector, model, copying);
    if made.Done? && !made.receipt.deduplicated {
      HalvesKeep(t, input, vector, model, copying, archiving);
      if copy.requestId !in t.receipts {
        LedgerAfterCopy(t, copied, input, copy, made.receipt, copying);
      }
      OriginalFiled(t, copied, input, prior, made.receipt, archiving);
      var (archived, filed) := ArchiveTx(copied, ArchiveOriginal(prior, input, made.receipt.id), archiving);
      if filed.Done? {
        HalvesAcknowledged(t, input, copy, copied, made.receipt, archived, filed.receipt, copying, archiving);
      }
    }
  }

  lemma LedgerAfterCopy(t: Tables, copied: Tables, input: MoveInput, copy: WriteInput, made: Receipt, copying: Clock)
    requires Inv(t) && input.id in t.rows && CopyFor(copy, t.rows[input.id].record, input)
    requires Target(input) != t.rows[input.id].record.scope && copy.requestId !in t.receipts
    requires PlanWrite(t, copy).Ok? && PlanOk(t, copy, PlanWrite(t, copy).value)
    requires Wrote(t, copied, copy, PlanWrite(t, copy).value, copying, made)
    ensures input.id in copied.rows && copied.rows[input.id] == t.rows[input.id]
    ensures input.requestId + ":archive" in copied.receipts <==> input.requestId + ":archive" in t.receipts
  {
    hide HistoryOk, ConfirmationKept, ReceiptsOk, IndexesAccept, WordsIndexed, OneHandoff, PlanWrite, PlanOk;
    hide OthersKept;
    DerivedDiffer(input.requestId);
    SourceKept(t, copied, copy, input.id, copying, made);
  }

  lemma OriginalFiled(t: Tables, copied: Tables, input: MoveInput, prior: Record, made: Receipt, archiving: Clock)
    requires Inv(t) && Inv(copied) && Movable(t, input) && prior == t.rows[input.id].record
    requires input.id in copied.rows && copied.rows[input.id] == t.rows[input.id]
    requires input.requestId + ":archive" in copied.receipts <==> input.requestId + ":archive" in t.receipts
    ensures var outcome := ArchiveTx(copied, ArchiveOriginal(prior, input, made.id), archiving).1;
            if input.requestId + ":archive" in t.receipts then outcome == Refused(IdempotencyConflict)
            else outcome.Done?
  {
    hide HistoryOk, ConfirmationKept, ReceiptsOk, IndexesAccept, WordsIndexed, OneHandoff;
    hide KeyOk, Durable, RowOk, Moved;
    var filing := ArchiveOriginal(prior, input, made.id);
    SourceRead(t, input.id);
    if filing.requestId in t.receipts {
      NotYetArchived(copied, filing);
    } else {
      ArchiveTxAnswer(copied, filing, archiving);
    }
  }

  lemma UsedWrite(t: Tables, input: WriteInput, vector: Option<Vector>, model: string, clock: Clock)
    requires input.requestId in t.receipts
    ensures var used := t.receipts[input.requestId];
            WriteTx(t, input, vector, model, clock).1 ==
            if used.payload == OfWrite(input) then Done(used.receipt) else Refused(IdempotencyConflict)
  {
    hide PlanWrite, Save;
  }

  /** A move whose copying request ID has been used goes on only from that very
      copy: any other use of it, or one that found a duplicate, stops the move. */
  lemma MoveReplaysCopy(t: Tables, input: MoveInput, vector: Option<Vector>, model: string, copying: Clock,
                        archiving: Clock)
    requires Inv(t) && input.requestId !in t.receipts && ProvenanceOk(input.provenance) && MoveOk(input)
    requires Movable(t, input) && input.requestId + ":copy" in t.receipts
    requires CopyInput(t, t.rows[input.id].record, input).Ok?
    ensures var used := t.receipts[input.requestId + ":copy"];
            var outcome := Move(t, input, vector, model, copying, archiving).1;
            if used.payload != OfWrite(CopyInput(t, t.rows[input.id].record, input).value) then
              outcome == Refused(IdempotencyConflict)
            else if used.receipt.deduplicated then outcome == Refused(MoveTargetExists)
            else if input.requestId + ":archive" in t.receipts then outcome == Refused(IdempotencyConflict)
            else outcome == Done(used.receipt)
  {
    var prior := t.rows[input.id].record;
    hide Inv, ProvenanceOk, MoveOk, MoveSource, CopyInput, Movable, Move, WriteTx, CopyFor, InputOk, TitleRule;
    MovableSource(t, input);
    CopySound(t, input);
    var copy := CopyInput(t, prior, input).value;
    CopyRequest(copy, prior, input);
    UsedWrite(t, copy, vector, model, copying);
    MoveFiled(t, input, vector, model, copying, archiving);
  }

  /** Where no row of the target has the source's key, a move makes a new
      memory, unless the same one is there already. */
  lemma MoveAfresh(t: Tables, input: MoveInput, vector: Option<Vector>, model: string, copying: Clock, archiving: Clock)
    requires Inv(t) && input.requestId !in t.receipts && ProvenanceOk(input.provenance) && MoveOk(input)
    requires Movable(t, input) && input.requestId + ":copy" !in t.receipts && HolderIn(t, input, None)
    ensures var prior := t.rows[input.id].record;
            var outcome := Move(t, input, vector, model, copying, archiving).1;
            if NoTwin(t, Target(input), FieldsOf(prior), prior.confirmed, 0) then
              outcome == if input.requestId + ":archive" in t.receipts then Refused(IdempotencyConflict)
                         else Done(Receipt(t.sequence + 1, 1, false))
            else
              exists id :: Twin(t, Target(input), FieldsOf(prior), prior.confirmed, id) &&
                outcome == Refused(if t.rows[id].record.key == prior.key then MoveTargetExists else DedupKeyConflict)
  {
    var prior := t.rows[input.id].record;
    hide Inv, ProvenanceOk, MoveOk, MoveSource, First, WriteTx, CopyInput, Movable, FieldsOf, NoTwin, Composes;
    hide LimitBroken, Move, InputOk;
    CopyWritten(t, input, None);
    var copy := CopyInput(t, prior, input).value;
    NamesNone(t, input, copy);
    InsertAnswer(t, copy, FieldsOf(prior), vector, model, copying);
    MoveFiled(t, input, vector, model, copying, archiving);
  }

  lemma NamesNone(t: Tables, input: MoveInput, copy: WriteInput)
    requires input.id in t.rows && HolderIn(t, input, None) && CopyFor(copy, t.rows[input.id].record, input)
    requires copy.id.None?
    ensures AddressesNone(t, copy)
  {
  }

  /** Where an archived row of the target has the source's key, a move revives
      that row, unless that would take a confirmation back or the same memory
      is active there under another key. */
  lemma MoveOntoArchived(t: Tables, input: MoveInput, vector: Option<Vector>, model: string, copying: Clock,
                         archiving: Clock, holder: int)
    requires Inv(t) && input.requestId !in t.receipts && ProvenanceOk(input.provenance) && MoveOk(input)
    requires Movable(t, input) && input.requestId + ":copy" !in t.receipts && HolderIn(t, input, Some(holder))
    ensures var prior := t.rows[input.id].record;
            var outcome := Move(t, input, vector, model, copying, archiving).1;
            if t.rows[holder].record.confirmed && !prior.confirmed then outcome == Refused(ConfirmationConflict)
            else if !NoTwin(t, Target(input), FieldsOf(prior), prior.confirmed, holder) then
              && outcome.Refused? && outcome.error.DuplicateConflict? && outcome.error.other != holder
              && Twin(t, Target(input), FieldsOf(prior), prior.confirmed, outcome.error.other)
            else
              outcome == if input.requestId + ":archive" in t.receipts then Refused(IdempotencyConflict)
                         else Done(Receipt(holder, t.rows[holder].record.revision + 1, false))
  {
    var prior := t.rows[input.id].record;
    hide Inv, ProvenanceOk, MoveOk, MoveSource, First, WriteTx, CopyInput, Movable, FieldsOf, NoTwin, Composes;
    hide LimitBroken, Move, InputOk;
    CopyWritten(t, input, Some(holder));
    var copy := CopyInput(t, prior, input).value;
    CorrectionRefused(t, copy, holder, vector, model, copying);
    if !(t.rows[holder].record.confirmed && !prior.confirmed) {
      CorrectionAnswer(t, copy, holder, FieldsOf(prior), vector, model, copying);
    }
    MoveFiled(t, input, vector, model, copying, archiving);
  }

  // ----- what a move touches -----

  lemma ChangedRows(t: Tables, n: Tables, input: ArchiveInput, clock: Clock, receipt: Receipt)
    requires Changed(t, n, input, clock, receipt) && input.archived
    ensures n.rows.Keys == t.rows.Keys
    ensures forall other | other in t.rows && other != input.id :: n.rows[other] == t.rows[other]
  {
    hide Revisited, ActiveHandoff;
  }

  /** Where the copy goes, and what its row holds besides the memory. */
  lemma PlanPlace(t: Tables, input: MoveInput, copy: WriteInput, plan: Plan, vector: Option<Vector>, model: string,
                  now: int)
    requires Inv(t) && MoveSource(t, input).Ok? && CopyInput(t, MoveSource(t, input).value, input) == Ok(copy)
    requires PlanWrite(t, copy) == Ok(plan) && !plan.Same?
    ensures plan.Correct? ==> plan.id in t.rows
    ensures var prior := MoveSource(t, input).value;
            var id := PlannedId(t, plan);
            var row := PlannedRow(t, copy, plan, vector, model, now).0;
            && (id in t.rows ==> t.rows[id].record.archived && prior.key.Some?
                                 && Holds(t, Target(input), prior.key.value, id))
            && row.embedding == vector && row.model == (if vector.Some? then model else "")
            && row.record.updated == now
  {
    hide HistoryOk, ConfirmationKept, ReceiptsOk, IndexesAccept, WordsIndexed, OneHandoff, RecordOk, KeyOk, Durable;
    hide First, FieldsFor, GetInTx, Duplicate;
    var prior := MoveSource(t, input).value;
    if prior.key.Some? {
      CoreRows(t);
      HolderFound(t, Target(input), prior.key.value);
    }
  }

  /** A first successful move with a fresh copy overwrites nothing active: its
      copy is a new row or the archived one that had the key there, and besides
      it and the source only the target's handoffs that a moved handoff
      replaces change. The copy has the given embedding. */
  lemma MoveTouches(t: Tables, input: MoveInput, vector: Option<Vector>, model: string, copying: Clock,
                    archiving: Clock)
    requires Inv(t) && input.requestId !in t.receipts && input.requestId + ":copy" !in t.receipts
    requires Move(t, input, vector, model, copying, archiving).1.Done?
    ensures input.id in t.rows
    ensures var (n, outcome) := Move(t, input, vector, model, copying, archiving);
            var prior := t.rows[input.id].record;
            var id := outcome.receipt.id;
            && id in n.rows && n.rows.Keys == t.rows.Keys + {id}
            && (id in t.rows ==> t.rows[id].record.archived && prior.key.Some?
                                 && Holds(t, Target(input), prior.key.value, id))
            && (vector.Some? ==> n.rows[id].embedding == vector && n.rows[id].model == model)
            && (vector.None? ==> n.rows[id].embedding == None && n.rows[id].model == "")
            && n.rows[id].record.updated == copying.now
            && forall other | other in t.rows && other != id && other != input.id ::
                 n.rows[other] ==
                 if prior.purpose == "handoff" && ActiveHandoff(t.rows[other])
                    && t.rows[other].record.scope == Target(input)
                 then Revisited(t.rows[other], true, Replacing(id, prior.provenance), copying.retiring)
                 else t.rows[other]
  {
    hide HistoryOk, ConfirmationKept, ReceiptsOk, IndexesAccept, WordsIndexed, OneHandoff, RowsOk, ArchiveTx, Save;
    hide PlanOk, PlanWrite, CopyInput, MoveSource, Acknowledge, KeyOk, PlannedRow, Later, Moved, Replacing;
    hide CopyFor, AsAsked, Filed, Revisited, ActiveHandoff, Changed;
    MoveBeforeConstraints(t, input);
    HalvesKeep(t, input, vector, model, copying, archiving);
    CopySound(t, input);
    DerivedDiffer(input.requestId);
    var prior := t.rows[input.id].record;
    var copy := CopyInput(t, prior, input).value;
    CopyRequest(copy, prior, input);
    var (copied, made) := WriteTx(t, copy, vector, model, copying);
    var plan := PlanWrite(t, copy).value;
    SaveKeeps(t, copy, plan, vector, model, copying);
    CopyPlanExact(t, input, vector, model, copying.now);
    PlanPlace(t, input, copy, plan, vector, model, copying.now);
    var toArchive := ArchiveOriginal(prior, input, made.receipt.id);
    var (archived, filed) := ArchiveTx(copied, toArchive, archiving);
    HalvesAcknowledged(t, input, copy, copied, made.receipt, archived, filed.receipt, copying, archiving);
    ChangedRows(copied, archived, toArchive, archiving, filed.receipt);
  }
}
