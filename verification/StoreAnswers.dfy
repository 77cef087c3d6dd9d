/** Which calls the store accepts and what it answers to each of the others,
    stated on the rows and the input. */
module StoreAnswers {
  import opened Text
  import opened Records
  import opened StoreSpec
  import opened StoreInvariant
  import opened StoreSafety
  import opened ArchiveAndMove
  import opened StoreRuns

  /** The text and metadata of a record, as duplicates are recognised by it. */
  function FieldsOf(r: Record): Fields {
    Fields(r.content, r.title, r.tags, r.memoryType, r.purpose)
  }

  /** An active memory that is the same: scope, text, metadata, confirmation. */
  predicate Twin(t: Tables, scope: Scope, f: Fields, confirmed: bool, id: int) {
    && id in t.rows && !t.rows[id].record.archived && t.rows[id].record.scope == scope
    && t.rows[id].record.confirmed == confirmed && FieldsOf(t.rows[id].record) == f
  }

  ghost predicate NoTwin(t: Tables, scope: Scope, f: Fields, confirmed: bool, except: int) {
    forall id :: Twin(t, scope, f, confirmed, id) ==> id == except
  }

  predicate Holds(t: Tables, scope: Scope, key: string, id: int) {
    id in t.rows && t.rows[id].record.scope == scope && t.rows[id].record.key == Some(key)
  }

  lemma TwinFound(t: Tables, scope: Scope, f: Fields, confirmed: bool, except: int)
    requires RowsOk(t)
    ensures var found := First(t, Exact(scope, f.memoryType, f.purpose, confirmed, HashOf(f), except));
            && (found.Some? ==> found.value != except && Twin(t, scope, f, confirmed, found.value))
            && (found.None? <==> NoTwin(t, scope, f, confirmed, except))
  {
    hide First, RecordOk;
    var q := Exact(scope, f.memoryType, f.purpose, confirmed, HashOf(f), except);
    forall id | id in t.rows
      ensures Matches(id, t.rows[id], q) <==> id != except && Twin(t, scope, f, confirmed, id)
    {
      SameText(t.rows[id].record, f);
    }
  }

  lemma SameText(r: Record, f: Fields)
    ensures [r.content, r.title, r.tags] == HashOf(f) <==>
              r.content == f.content && r.title == f.title && r.tags == f.tags
  {
    var a, b := [r.content, r.title, r.tags], HashOf(f);
    if a == b {
      assert a[0] == b[0] && a[1] == b[1] && a[2] == b[2];
    }
  }

  lemma HolderFound(t: Tables, scope: Scope, key: string)
    requires RowsOk(t)
    ensures var found := First(t, KeyHolder(scope, key));
            && (found.Some? ==> Holds(t, scope, key, found.value))
            && (found.None? <==> forall id :: !Holds(t, scope, key, id))
  {
    hide First, RecordOk;
    forall id | id in t.rows ensures Matches(id, t.rows[id], KeyHolder(scope, key)) <==> Holds(t, scope, key, id) {
    }
  }

  lemma OneHolder(t: Tables, scope: Scope, key: string, id: int)
    requires Inv(t) && Holds(t, scope, key, id)
    ensures First(t, KeyHolder(scope, key)) == Some(id)
  {
    hide HistoryOk, ConfirmationKept, ReceiptsOk, WordsIndexed, OneHandoff, First, KeyOk, Durable, Bounded, ExactIndex;
    HolderFound(t, scope, key);
    var found := First(t, KeyHolder(scope, key));
    assert SameKey(t.rows[found.value], t.rows[id]);
  }

  // ----- what a write composes -----

  /** The new revision's text and metadata: a restored revision's, or else the
      given ones, each left out falling back on the old, and a title that was
      derived, or is cleared, following the text. */
  predicate Composes(input: WriteInput, before: Option<Record>, prior: Option<Record>, f: Fields) {
    if prior.Some? then f == FieldsOf(prior.value)
    else
      && f.content == input.content && f.purpose == input.purpose
      && (input.tags.Some? ==> f.tags == input.tags.value)
      && (input.tags.None? ==> f.tags == if before.Some? then before.value.tags else "")
      && (input.memoryType.Some? ==> f.memoryType == input.memoryType.value)
      && (input.memoryType.None? ==> f.memoryType == if before.Some? then before.value.memoryType else "knowledge")
      && (input.title.Some? && !Blank(input.title.value) ==> f.title == input.title.value)
      && (input.title.Some? && Blank(input.title.value) ==> f.title == Prefix(input.content, 80))
      && (input.title.None? ==>
            // a chosen title stays, a derived one follows the text
            f.title == if before.Some? && before.value.title != Prefix(before.value.content, 80)
                       then before.value.title else Prefix(input.content, 80))
  }

  /** What keeps a composed text from being stored, if anything. */
  function LimitBroken(f: Fields): Option<Error> {
    if !Bounded(f.content, 32768) then Some(InvalidContent)
    else if ByteLen(f.title) > 512 || ByteLen(f.tags) > 2048 then Some(MetadataTooLarge)
    else if !MemoryTypeOk(f.memoryType) then Some(InvalidMemoryType)
    else None
  }

  lemma Composed(input: WriteInput, before: Option<Record>, prior: Option<Record>, f: Fields)
    requires Composes(input, before, prior, f)
    ensures FieldsFor(input, before, prior) == match LimitBroken(f) case None => Ok(f) case Some(e) => Err(e)
  {
    hide Bounded, Blank, Prefix, ByteLen, MemoryTypeOk;
  }

  lemma FieldsCompose(input: WriteInput, before: Option<Record>, prior: Option<Record>)
    ensures FieldsFor(input, before, prior).Ok? ==>
              Composes(input, before, prior, FieldsFor(input, before, prior).value)
  {
    hide Bounded, Blank, Prefix, ByteLen, MemoryTypeOk;
  }

  /** There is always exactly one such text. */
  lemma ComposesOne(input: WriteInput, before: Option<Record>, prior: Option<Record>) returns (f: Fields)
    ensures forall g :: Composes(input, before, prior, g) <==> g == f
  {
    hide Blank, Prefix;
    f := if prior.Some? then FieldsOf(prior.value)
         else Fields(input.content, TitleFor(input, input.content, before, prior),
                     if input.tags.Some? then input.tags.value else if before.Some? then before.value.tags else "",
                     if input.memoryType.Some? then input.memoryType.value
                     else if before.Some? then before.value.memoryType else "knowledge",
                     input.purpose);
  }

  // ----- Write -----

  /** Nothing is wrong with a write before the tables are looked at. */
  predicate WellFormed(input: WriteInput, vector: Option<Vector>, model: string) {
    && KeyOk(input.scope) && !input.scope.legacy
    && (input.id.None? && input.expectedRevision.None? ==> Durable(input.scope))
    && ProvenanceOk(input.provenance) && Bounded(input.requestId, 128) && PurposeOk(input.purpose)
    && (input.key.Some? ==> Bounded(input.key.value, 128))
    && (vector.Some? ==> |vector.value| > 0 && model != "" && NotFinite !in vector.value)
  }

  /** A write is refused unread exactly when it is not well formed, with the
      error that names what is wrong, first things first. */
  lemma WriteChecked(t: Tables, input: WriteInput, vector: Option<Vector>, model: string, clock: Clock)
    ensures Malformed(CallWrite(input, vector, model, clock)) <==> !WellFormed(input, vector, model)
    ensures !WellFormed(input, vector, model) ==>
              var (n, outcome) := Write(t, input, vector, model, clock);
              && n == t && outcome.Refused?
              && match outcome.error
                 case InvalidScope => !KeyOk(input.scope)
                 case NotDurable => input.id.None? && input.expectedRevision.None? && !Durable(input.scope)
                 case LegacyTarget => input.scope.legacy
                 case InvalidProvenance => !ProvenanceOk(input.provenance)
                 case InvalidRequestId => !Bounded(input.requestId, 128)
                 case InvalidPurpose => !PurposeOk(input.purpose)
                 case InvalidKey => input.key.Some? && !Bounded(input.key.value, 128)
                 case InvalidEmbedding =>
                   vector.Some? && (vector.value == [] || model == "" || NotFinite in vector.value)
                 case _ => false
  {
    hide KeyOk, Durable, ProvenanceOk, PurposeOk, Bounded, WriteTx;
  }

  /** The call names this row, by id or by the key it holds. */
  predicate Addresses(t: Tables, input: WriteInput, id: int) {
    if input.id.Some? then input.id == Some(id) else input.key.Some? && Holds(t, input.scope, input.key.value, id)
  }

  /** The call names no row: it has no id, and no row holds its key. */
  ghost predicate AddressesNone(t: Tables, input: WriteInput) {
    input.id.None? && (input.key.Some? ==> forall id :: !Holds(t, input.scope, input.key.value, id))
  }

  predicate Found(t: Tables, scope: Scope, id: int) {
    id in t.rows && t.rows[id].record.scope == scope
  }

  /** The revision a call restores, if it asks for one that there is. */
  function PriorOf(t: Tables, input: WriteInput, id: int): Option<Record> {
    if input.restoreRevision.Some? && (id, input.restoreRevision.value) in t.history
    then Some(t.history[(id, input.restoreRevision.value)].record) else None
  }

  /** A plan decides the answer: the writer's statements never fail. */
  lemma PlanAnswers(t: Tables, input: WriteInput, vector: Option<Vector>, model: string, clock: Clock)
    requires Inv(t) && input.requestId !in t.receipts && InputOk(input)
    ensures var outcome := WriteTx(t, input, vector, model, clock).1;
            match PlanWrite(t, input)
            case Err(e) => outcome == Refused(e)
            case Ok(Same(id, revision)) => outcome == Done(Receipt(id, revision, true))
            case Ok(Insert(f)) => outcome == Done(Receipt(t.sequence + 1, 1, false))
            case Ok(Correct(id, f)) =>
              id in t.rows && outcome == Done(Receipt(id, t.rows[id].record.revision + 1, false))
  {
    hide Core, OneHandoff, PlanWrite, Save, PlannedRow, Wrote, PlanOk, Later, InputOk;
    PlanSound(t, input);
    var plan := PlanWrite(t, input);
    if plan.Ok? && !plan.value.Same? {
      SaveKeeps(t, input, plan.value, vector, model, clock);
      PlannedRevision(t, input, plan.value, vector, model, clock.now);
      SavedReceipt(t, input, plan.value, vector, model, clock);
    }
  }

  lemma PlannedRevision(t: Tables, input: WriteInput, plan: Plan, vector: Option<Vector>, model: string, now: int)
    requires Core(t) && PlanOk(t, input, plan) && !plan.Same?
    ensures plan.Correct? ==> plan.id in t.rows
    ensures PlannedRow(t, input, plan, vector, model, now).0.record.revision ==
            if plan.Correct? then t.rows[plan.id].record.revision + 1 else 1
  {
    hide Core, PlannedRow, RowOk, Succeeds, First, AsAsked;
    PlannedRowFields(t, input, plan, vector, model, now);
  }

  lemma SavedReceipt(t: Tables, input: WriteInput, plan: Plan, vector: Option<Vector>, model: string, clock: Clock)
    requires !plan.Same? && (plan.Correct? ==> plan.id in t.rows)
    requires Save(t, input, plan, vector, model, clock).1.Done?
    ensures Save(t, input, plan, vector, model, clock).1.receipt ==
            Receipt(PlannedId(t, plan), PlannedRow(t, input, plan, vector, model, clock.now).0.record.revision, false)
  {
    hide PlannedRow, IndexesAccept, Settle, Placed;
  }

  /** A correction's conditions on the row it names, in the order they are
      checked; each failing one has its own answer. */
  lemma CorrectionRefused(t: Tables, input: WriteInput, id: int, vector: Option<Vector>, model: string, clock: Clock)
    requires Inv(t) && input.requestId !in t.receipts && InputOk(input) && Addresses(t, input, id)
    ensures var outcome := WriteTx(t, input, vector, model, clock).1;
            if !Found(t, input.scope, id) then outcome == Refused(MemoryNotFound)
            else
              var r := t.rows[id].record;
              if input.expectedRevision != Some(r.revision) then outcome == Refused(RevisionConflict(r.revision))
              else if r.confirmed && !input.confirmed then outcome == Refused(ConfirmationConflict)
              else if input.key.Some? && input.key != r.key then outcome == Refused(KeyImmutable)
              else if input.restoreRevision.Some? && input.content != "" then
                outcome == Refused(RestoreNeedsEmptyContent)
              else input.restoreRevision.Some? && (id, input.restoreRevision.value) !in t.history ==>
                     outcome == Refused(RevisionNotFound)
  {
    hide Inv, First, PlanFields, FieldsFor, WriteTx, KeyOk, InputOk, Durable, PurposeOk;
    PlanAnswers(t, input, vector, model, clock);
    NamedRow(t, input, id);
    if Found(t, input.scope, id) {
      RevisionRead(t, input.scope, id, input.restoreRevision);
    }
  }

  lemma NamedRow(t: Tables, input: WriteInput, id: int)
    requires Inv(t) && InputOk(input) && Addresses(t, input, id)
    ensures Addressed(t, input) == if Found(t, input.scope, id) then Ok(Some(id)) else Err(MemoryNotFound)
  {
    hide Inv, First, KeyOk, Durable, PurposeOk;
    if input.id.None? {
      OneHolder(t, input.scope, input.key.value, id);
    }
  }

  /** Reading a revision inside a transaction: exactly the recorded ones. */
  lemma RevisionRead(t: Tables, scope: Scope, id: int, revision: Option<int>)
    requires Inv(t) && Found(t, scope, id)
    ensures GetInTx(t, scope, id, None) == Ok(Some(t.rows[id].record))
    ensures revision.Some? ==>
              GetInTx(t, scope, id, revision) ==
              Ok(if (id, revision.value) in t.history then Some(t.history[(id, revision.value)].record) else None)
  {
    hide ConfirmationKept, ReceiptsOk, IndexesAccept, WordsIndexed, OneHandoff, KeyOk, Durable, Bounded;
    assert RecordOk(t.rows[id].record);
    assert (id, t.rows[id].record.revision) in t.history;
  }

  /** The named row is the one to build on: at the expected revision, not
      losing its confirmation or key, and with the revision to restore. */
  predicate Ready(t: Tables, input: WriteInput, id: int) {
    && Addresses(t, input, id) && Found(t, input.scope, id)
    && var r := t.rows[id].record;
    && input.expectedRevision == Some(r.revision) && (r.confirmed ==> input.confirmed)
    && (input.key.Some? ==> input.key == r.key)
    && (input.restoreRevision.Some? ==> input.content == "" && (id, input.restoreRevision.value) in t.history)
  }

  /** Then it is corrected, unless the composed text breaks a limit or would be
      the same as another active memory. */
  lemma CorrectionAnswer(t: Tables, input: WriteInput, id: int, f: Fields, vector: Option<Vector>, model: string,
                         clock: Clock)
    requires Inv(t) && input.requestId !in t.receipts && InputOk(input) && Ready(t, input, id)
    requires Composes(input, Some(t.rows[id].record), PriorOf(t, input, id), f)
    ensures var outcome := WriteTx(t, input, vector, model, clock).1;
            if LimitBroken(f).Some? then outcome == Refused(LimitBroken(f).value)
            else if NoTwin(t, input.scope, f, input.confirmed, id) then
              outcome == Done(Receipt(id, t.rows[id].record.revision + 1, false))
            else
              && outcome.Refused? && outcome.error.DuplicateConflict? && outcome.error.other != id
              && Twin(t, input.scope, f, input.confirmed, outcome.error.other)
  {
    hide Core, OneHandoff, First, FieldsFor, WriteTx, KeyOk, Durable, PurposeOk, Composes, LimitBroken, GetInTx;
    hide NoTwin, Twin;
    PlanAnswers(t, input, vector, model, clock);
    NamedRow(t, input, id);
    RevisionRead(t, input.scope, id, input.restoreRevision);
    Composed(input, Some(t.rows[id].record), PriorOf(t, input, id), f);
    CoreRows(t);
    TwinFound(t, input.scope, f, input.confirmed, id);
  }

  lemma CoreRows(t: Tables)
    requires Inv(t)
    ensures RowsOk(t)
  {
  }

  /** A write that names no row is stored, unless it claims a revision, its text
      breaks a limit, or the same memory is there already: then it is answered
      with that one, or refused where the two keys differ. */
  lemma InsertAnswer(t: Tables, input: WriteInput, f: Fields, vector: Option<Vector>, model: string, clock: Clock)
    requires Inv(t) && input.requestId !in t.receipts && InputOk(input) && AddressesNone(t, input)
    requires Composes(input, None, None, f)
    ensures var outcome := WriteTx(t, input, vector, model, clock).1;
            if input.expectedRevision.Some? || input.restoreRevision.Some? then outcome == Refused(NoExistingRecord)
            else if LimitBroken(f).Some? then outcome == Refused(LimitBroken(f).value)
            else if NoTwin(t, input.scope, f, input.confirmed, 0) then
              outcome == Done(Receipt(t.sequence + 1, 1, false))
            else
              exists id :: Twin(t, input.scope, f, input.confirmed, id) &&
                outcome == if t.rows[id].record.key == input.key
                           then Done(Receipt(id, t.rows[id].record.revision, true))
                           else Refused(DedupKeyConflict)
  {
    hide Core, OneHandoff, First, FieldsFor, WriteTx, KeyOk, Durable, PurposeOk, Composes, LimitBroken, GetInTx;
    hide NoTwin;
    PlanAnswers(t, input, vector, model, clock);
    CoreRows(t);
    if input.key.Some? {
      HolderFound(t, input.scope, input.key.value);
    }
    Composed(input, None, None, f);
    TwinFound(t, input.scope, f, input.confirmed, 0);
    NoTwinZero(t, input.scope, f, input.confirmed);
  }

  lemma NoTwinZero(t: Tables, scope: Scope, f: Fields, confirmed: bool)
    requires RowsOk(t)
    ensures NoTwin(t, scope, f, confirmed, 0) <==> forall id :: !Twin(t, scope, f, confirmed, id)
  {
    hide RowOk;
  }

  lemma WellFormedPasses(t: Tables, input: WriteInput, vector: Option<Vector>, model: string, clock: Clock)
    requires WellFormed(input, vector, model)
    ensures InputOk(input) && Write(t, input, vector, model, clock).1 == WriteTx(t, input, vector, model, clock).1
  {
    hide KeyOk, Durable, ProvenanceOk, PurposeOk, Bounded, WriteTx;
  }

  /** What a composed text must be for a row to take it. */
  ghost predicate Storable(t: Tables, input: WriteInput, before: Option<Record>, prior: Option<Record>, except: int) {
    exists f :: Composes(input, before, prior, f) && LimitBroken(f).None?
                && NoTwin(t, input.scope, f, input.confirmed, except)
  }

  /** The same memory is there already, under the same key. */
  ghost predicate AlreadyThere(t: Tables, input: WriteInput) {
    exists f, id :: Composes(input, None, None, f) && LimitBroken(f).None?
                    && Twin(t, input.scope, f, input.confirmed, id) && t.rows[id].record.key == input.key
  }

  lemma AddressesOne(t: Tables, input: WriteInput, id: int, other: int)
    requires Inv(t) && Addresses(t, input, id) && Addresses(t, input, other)
    ensures id == other
  {
    hide Inv, First;
    if input.id.None? {
      OneHolder(t, input.scope, input.key.value, id);
      OneHolder(t, input.scope, input.key.value, other);
    }
  }

  lemma CorrectionAccepts(t: Tables, input: WriteInput, id: int, vector: Option<Vector>, model: string, clock: Clock)
    requires Inv(t) && input.requestId !in t.receipts && InputOk(input) && Addresses(t, input, id)
    ensures WriteTx(t, input, vector, model, clock).1.Done? <==>
            Ready(t, input, id) && Storable(t, input, Some(t.rows[id].record), PriorOf(t, input, id), id)
  {
    hide Inv, WriteTx, Composes, LimitBroken, NoTwin, Twin, InputOk, Addresses, PriorOf;
    CorrectionRefused(t, input, id, vector, model, clock);
    if Ready(t, input, id) {
      var before, prior := Some(t.rows[id].record), PriorOf(t, input, id);
      var f := ComposesOne(input, before, prior);
      assert Composes(input, before, prior, f);
      CorrectionAnswer(t, input, id, f, vector, model, clock);
    }
  }

  lemma InsertAccepts(t: Tables, input: WriteInput, vector: Option<Vector>, model: string, clock: Clock)
    requires Inv(t) && input.requestId !in t.receipts && InputOk(input) && AddressesNone(t, input)
    ensures WriteTx(t, input, vector, model, clock).1.Done? <==>
            input.expectedRevision.None? && input.restoreRevision.None?
            && (Storable(t, input, None, None, 0) || AlreadyThere(t, input))
  {
    hide Inv, WriteTx, Composes, LimitBroken, InputOk, AddressesNone;
    var f := ComposesOne(input, None, None);
    assert Composes(input, None, None, f);
    InsertAnswer(t, input, f, vector, model, clock);
    TwinsEqual(t, input, f);
  }

  /** Of the same memory there is one active row, whatever the keys. */
  lemma TwinsEqual(t: Tables, input: WriteInput, f: Fields)
    requires Inv(t) && InputOk(input)
    ensures forall a, b | Twin(t, input.scope, f, input.confirmed, a) && Twin(t, input.scope, f, input.confirmed, b) ::
              a == b
    ensures NoTwin(t, input.scope, f, input.confirmed, 0) <==>
            forall id :: !Twin(t, input.scope, f, input.confirmed, id)
  {
    hide HistoryOk, ConfirmationKept, ReceiptsOk, WordsIndexed, OneHandoff, KeyIndex, RecordOk, KeyOk, Durable;
    NoTwinZero(t, input.scope, f, input.confirmed);
    forall a, b | Twin(t, input.scope, f, input.confirmed, a) && Twin(t, input.scope, f, input.confirmed, b)
      ensures a == b
    {
      assert SameExact(t.rows[a], t.rows[b]);
    }
  }

  /** A first write succeeds exactly when it is well formed and either is a
      correction of the row it names that is ready and can be stored, or names
      no row, claims no revision, and can be stored or is there already. */
  lemma WriteAccepts(t: Tables, input: WriteInput, vector: Option<Vector>, model: string, clock: Clock)
    requires Inv(t) && input.requestId !in t.receipts
    ensures Write(t, input, vector, model, clock).1.Done? <==>
            WellFormed(input, vector, model) &&
            ((exists id :: Ready(t, input, id)
                           && Storable(t, input, Some(t.rows[id].record), PriorOf(t, input, id), id))
             || (AddressesNone(t, input) && input.expectedRevision.None? && input.restoreRevision.None?
                 && (Storable(t, input, None, None, 0) || AlreadyThere(t, input))))
  {
    hide Inv, Write, WriteTx, WellFormed, PriorOf, Storable, AlreadyThere, InputOk, Malformed, Addresses, AddressesNone;
    WriteChecked(t, input, vector, model, clock);
    if WellFormed(input, vector, model) {
      WellFormedPasses(t, input, vector, model, clock);
      SomeOrNone(t, input);
      if id :| Addresses(t, input, id) {
        CorrectionAccepts(t, input, id, vector, model, clock);
        forall other | Ready(t, input, other) ensures other == id {
          AddressesOne(t, input, id, other);
        }
      } else {
        InsertAccepts(t, input, vector, model, clock);
      }
    }
  }

  lemma SomeOrNone(t: Tables, input: WriteInput)
    ensures AddressesNone(t, input) <==> forall id :: !Addresses(t, input, id)
  {
    if input.id.Some? {
      assert Addresses(t, input, input.id.value);
    } else if input.key.Some? {
      assert forall id :: Addresses(t, input, id) <==> Holds(t, input.scope, input.key.value, id);
    }
  }

  // ----- Archive -----

  /** An archive or unarchive is taken exactly of the row it names at the
      expected revision, unless unarchiving would bring back a memory that is
      active elsewhere; each other case has its own answer. */
  lemma ArchiveAnswer(t: Tables, input: ArchiveInput, clock: Clock)
    requires Inv(t) && input.requestId !in t.receipts
    ensures var (n, outcome) := Archive(t, input, clock);
            if !KeyOk(input.scope) then outcome == Refused(InvalidScope)
            else if !ProvenanceOk(input.provenance) then outcome == Refused(InvalidProvenance)
            else if !Bounded(input.requestId, 128) then outcome == Refused(InvalidRequestId)
            else if !Found(t, input.scope, input.id) then outcome == Refused(MemoryNotFound)
            else
              var r := t.rows[input.id].record;
              if r.revision != input.expectedRevision then outcome == Refused(RevisionConflict(r.revision))
              else if input.archived || !r.archived || NoTwin(t, r.scope, FieldsOf(r), r.confirmed, input.id) then
                outcome == Done(Receipt(input.id, r.revision + 1, false))
              else
                && outcome.Refused? && outcome.error.DuplicateConflict? && outcome.error.other != input.id
                && Twin(t, r.scope, FieldsOf(r), r.confirmed, outcome.error.other)
  {
    hide HistoryOk, ConfirmationKept, ReceiptsOk, IndexesAccept, WordsIndexed, OneHandoff, KeyOk, ProvenanceOk;
    hide First, NoTwin, Twin, Settle, Acknowledge, RecordOk, Changed, RowsOk, ArchiveTx;
    if KeyOk(input.scope) {
      ArchiveTxAnswer(t, input, clock);
    }
  }

  lemma ArchiveTxAnswer(t: Tables, input: ArchiveInput, clock: Clock)
    requires Inv(t) && input.requestId !in t.receipts && KeyOk(input.scope)
    ensures var outcome := ArchiveTx(t, input, clock).1;
            if !Found(t, input.scope, input.id) then outcome == Refused(MemoryNotFound)
            else
              var r := t.rows[input.id].record;
              if r.revision != input.expectedRevision then outcome == Refused(RevisionConflict(r.revision))
              else if input.archived || !r.archived || NoTwin(t, r.scope, FieldsOf(r), r.confirmed, input.id) then
                outcome == Done(Receipt(input.id, r.revision + 1, false))
              else
                && outcome.Refused? && outcome.error.DuplicateConflict? && outcome.error.other != input.id
                && Twin(t, r.scope, FieldsOf(r), r.confirmed, outcome.error.other)
  {
    hide HistoryOk, ConfirmationKept, ReceiptsOk, IndexesAccept, WordsIndexed, OneHandoff, KeyOk;
    hide First, NoTwin, Twin, Settle, Acknowledge, RecordOk, Changed;
    if Found(t, input.scope, input.id) && t.rows[input.id].record.revision == input.expectedRevision {
      var r := t.rows[input.id].record;
      assert !r.scope.legacy by { RowOkHere(t, input.id); }
      assert t.rows[input.id].contentHash == HashOf(FieldsOf(r));
      TwinFound(t, r.scope, FieldsOf(r), r.confirmed, input.id);
      if input.archived || !r.archived || NoTwin(t, r.scope, FieldsOf(r), r.confirmed, input.id) {
        FlaggedAccepted(t, input, clock.now);
        FlaggedSettled(t, input, clock);
      }
    }
  }

  lemma RowOkHere(t: Tables, id: int)
    requires RowsOk(t) && id in t.rows
    ensures !t.rows[id].record.scope.legacy
  {
  }
}
