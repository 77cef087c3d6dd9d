/** How the owner's browser actions are turned into writer inputs, and when an
    identical retry is turned into the identical input. */
module OwnerActions {
  import opened Text
  import opened Records
  import opened StoreSpec
  import opened StoreInvariant
  import opened ArchiveAndMove
  import opened StoreRuns

  const OWNER := Provenance("memory-view", "owner browser", "Owner action in the memory view")

  datatype OwnerRefusal = BadRequest | Unavailable | NotFound | ArchivedConflict | RevisionGone

  /** The stored record, at its live or a given revision. */
  function Stored(t: Tables, id: int, revision: Option<int>): Option<Record> {
    match RecordById(t, id, revision)
    case Ok(found) => found
    case Err(_) => None
  }

  function LiveForUpdate(t: Tables, id: int, expected: int): Result<Record, OwnerRefusal> {
    if id < 1 || expected < 1 then Err(BadRequest)
    else
      match RecordById(t, id, None)
      case Err(_) => Err(Unavailable)
      case Ok(None) => Err(NotFound)
      case Ok(Some(current)) => if current.archived then Err(ArchivedConflict) else Ok(current)
  }

  /** visualizerUpdate with action "confirm". */
  function ConfirmInput(t: Tables, id: int, expected: int, request: string): Result<WriteInput, OwnerRefusal> {
    match LiveForUpdate(t, id, expected)
    case Err(e) => Err(e)
    case Ok(_) =>
      match Stored(t, id, Some(expected))
      case None => Err(BadRequest)
      case Some(p) =>
        Ok(WriteInput(p.scope, p.content, Some(p.title), Some(p.tags), Some(p.memoryType), p.purpose, true,
                      p.provenance, request, p.key, Some(id), Some(expected), None))
  }

  /** visualizerUpdate with a revision to restore. */
  function RestoreInput(t: Tables, id: int, expected: int, restore: int, request: string): Result<WriteInput,
                        OwnerRefusal> {
    match LiveForUpdate(t, id, expected)
    case Err(e) => Err(e)
    case Ok(current) =>
      if restore < 1 || restore >= expected then Err(BadRequest)
      else
        match RecordById(t, id, Some(restore))
        case Err(_) => Err(Unavailable)
        case Ok(None) => Err(NotFound)
        case Ok(Some(prior)) =>
          Ok(WriteInput(current.scope, "", None, None, None, prior.purpose, true, OWNER, request, current.key,
                        Some(id), Some(expected), Some(restore)))
  }

  /** visualizerUpdate with edited text. */
  function EditInput(t: Tables, id: int, expected: int, title: string, content: string, purpose: string,
                     request: string):
    Result<WriteInput, OwnerRefusal>
  {
    match LiveForUpdate(t, id, expected)
    case Err(e) => Err(e)
    case Ok(current) =>
      Ok(WriteInput(current.scope, content, Some(title), Some(current.tags), Some(current.memoryType), purpose, true,
                    OWNER, request, current.key, Some(id), Some(expected), None))
  }

  /** The author an owner's archive or unarchive is recorded under. */
  function AuthorFor(t: Tables, id: int, expected: int): Provenance {
    match Stored(t, id, Some(expected))
    case None => OWNER
    case Some(prior) =>
      if "Replaced by handoff" <= prior.provenance.source || "Moved to memory" <= prior.provenance.source then
        if prior.revision - 1 < 1 then OWNER
        else
          match Stored(t, id, Some(prior.revision - 1))
          case None => OWNER
          case Some(earlier) => earlier.provenance
      else prior.provenance
  }

  /** visualizerArchive. */
  function OwnerArchiveInput(t: Tables, id: int, expected: int, archived: bool, request: string): Result<ArchiveInput,
                             OwnerRefusal> {
    if id < 1 || expected < 1 then Err(BadRequest)
    else
      match RecordById(t, id, None)
      case Err(_) => Err(Unavailable)
      case Ok(None) => Err(NotFound)
      case Ok(Some(current)) =>
        Ok(ArchiveInput(current.scope, id, expected, archived, request, AuthorFor(t, id, expected)))
  }

  /** A device or platform in a move request: left out, cleared or set. */
  datatype Restriction = Absent | Null | Set(value: string)

  function Restricted(choice: Restriction, current: Option<string>): Option<string> {
    match choice
    case Absent => current
    case Null => None
    case Set(value) => Some(value)
  }

  /** visualizerMove. */
  function OwnerMoveInput(t: Tables, id: int, expected: int, project: Option<string>, device: Restriction,
                          platform: Restriction, request: string): Result<MoveInput, OwnerRefusal>
  {
    if id < 1 || expected < 1 || !Bounded(request, 100) then Err(BadRequest)
    else
      match RecordById(t, id, Some(expected))
      case Err(_) => Err(Unavailable)
      case Ok(None) => Err(RevisionGone)
      case Ok(Some(source)) =>
        Ok(MoveInput(id, expected, project, Restricted(device, source.scope.device),
                     Restricted(platform, source.scope.platform), request, OWNER))
  }

  // ----- retries -----

  /** What stays readable and equal in every later state. */
  lemma StoredStays(t: Tables, calls: seq<Call>, id: int)
    requires Inv(t) && id in t.rows
    ensures var n := Run(t, calls);
            && Inv(n) && id in n.rows && t.rows[id].record.revision <= n.rows[id].record.revision
            && Kin(t.rows[id].record, n.rows[id].record)
            && RecordById(n, id, None) == Ok(Some(n.rows[id].record))
            && forall revision | 1 <= revision <= t.rows[id].record.revision ::
                 RecordById(t, id, Some(revision)).Ok? && RecordById(t, id, Some(revision)).value.Some?
                 && RecordById(n, id, Some(revision)) == RecordById(t, id, Some(revision))
  {
    hide ConfirmationKept, ReceiptsOk, IndexesAccept, WordsIndexed, OneHandoff, Run, Bounded, Durable, GetInTx;
    RunKeeps(t, calls);
    var n := Run(t, calls);
    forall revision | 1 <= revision <= t.rows[id].record.revision
      ensures RecordById(t, id, Some(revision)).Ok? && RecordById(t, id, Some(revision)).value.Some?
      ensures RecordById(n, id, Some(revision)) == RecordById(t, id, Some(revision))
    {
      ReadForever(t, calls, id, revision);
    }
    LiveReads(n, id);
    assert (id, t.rows[id].record.revision) in t.history;
  }

  lemma LiveReads(t: Tables, id: int)
    requires Inv(t) && id in t.rows
    ensures RecordById(t, id, None) == Ok(Some(t.rows[id].record))
  {
    hide HistoryOk, ConfirmationKept, ReceiptsOk, IndexesAccept, WordsIndexed, OneHandoff;
  }

  /** A successful write that named a record found it at the expected revision. */
  lemma WriteExpected(t: Tables, input: WriteInput, vector: Option<Vector>, model: string, clock: Clock, id: int,
                      expected: int)
    requires Inv(t) && Write(t, input, vector, model, clock).1.Done? && input.requestId !in t.receipts
    requires input.id == Some(id) && input.expectedRevision == Some(expected)
    ensures id in t.rows && t.rows[id].record.revision == expected && t.rows[id].record.scope == input.scope
    ensures PlanWrite(t, input).Ok?
  {
    hide HistoryOk, ConfirmationKept, ReceiptsOk, IndexesAccept, WordsIndexed, OneHandoff, RowsOk;
    hide Save, Restored, FieldsFor, PlanFields, KeyOk, Durable, Bounded, ByteLen;
  }

  /** An identical confirm is rebuilt, and replayed with the same receipt, in
      every later state where the memory is not archived, and in no other. */
  lemma ConfirmRetry(t: Tables, id: int, expected: int, request: string, vector: Option<Vector>, model: string,
                     clock: Clock,
                     calls: seq<Call>, again: Call)
    requires Inv(t) && request !in t.receipts && ConfirmInput(t, id, expected, request).Ok?
    requires var c := CallWrite(ConfirmInput(t, id, expected, request).value, vector, model, clock);
             Apply(t, c).1.Done?
    ensures var input := ConfirmInput(t, id, expected, request).value;
            var (n, outcome) := Apply(t, CallWrite(input, vector, model, clock));
            var later := Run(n, calls);
            && id in later.rows
            && (ConfirmInput(later, id, expected, request) == Ok(input) <==> !later.rows[id].record.archived)
            && (again.CallWrite? && again.write == input && EmbeddingOk(again.vector, again.model) ==>
                  Apply(later, again) == (later, outcome))
  {
    hide Inv, Run, RecordById, PlanWrite, EmbeddingOk, Apply, KeyOk, Durable, PurposeOk, RequestIdOk, ProvenanceOk;
    hide Bounded;
    var input := ConfirmInput(t, id, expected, request).value;
    var c := CallWrite(input, vector, model, clock);
    RetryStays(t, c, calls, id);
    WriteDone(t, c, id, expected);
    var later := Run(Apply(t, c).0, calls);
    if again.CallWrite? && again.write == input && EmbeddingOk(again.vector, again.model) {
      SameWriteReplays(t, c, calls, again);
    }
  }

  lemma WriteDone(t: Tables, c: Call, id: int, expected: int)
    requires Inv(t) && c.CallWrite? && Apply(t, c).1.Done? && c.write.requestId !in t.receipts
    requires c.write.id == Some(id) && c.write.expectedRevision == Some(expected)
    ensures id in t.rows && t.rows[id].record.revision == expected && t.rows[id].record.scope == c.write.scope
  {
    hide Inv, Write, PlanWrite;
    WriteExpected(t, c.write, c.vector, c.model, c.clock, id, expected);
  }

  lemma RetryStays(t: Tables, c: Call, calls: seq<Call>, id: int)
    requires Inv(t)
    ensures var n := Run(Apply(t, c).0, calls);
            id in t.rows ==>
              && Inv(n) && id in n.rows && t.rows[id].record.revision <= n.rows[id].record.revision
              && Kin(t.rows[id].record, n.rows[id].record)
              && RecordById(n, id, None) == Ok(Some(n.rows[id].record))
              && (forall revision | 1 <= revision <= t.rows[id].record.revision ::
                    RecordById(t, id, Some(revision)).Ok? && RecordById(t, id, Some(revision)).value.Some?
                    && RecordById(n, id, Some(revision)) == RecordById(t, id, Some(revision)))
  {
    hide Inv, RecordById, Apply;
    if id in t.rows {
      assert ([c] + calls)[0] == c && ([c] + calls)[1..] == calls;
      StoredStays(t, [c] + calls, id);
    }
  }

  lemma SameWriteReplays(t: Tables, c: Call, calls: seq<Call>, again: Call)
    requires Inv(t) && c.CallWrite? && again.CallWrite? && Apply(t, c).1.Done? && again.write == c.write
    requires EmbeddingOk(again.vector, again.model)
    ensures var later := Run(Apply(t, c).0, calls);
            Apply(later, again) == (later, Apply(t, c).1)
  {
    hide Inv, Run, Apply, KeyOk, Durable, PurposeOk, RequestIdOk, ProvenanceOk, Bounded, EmbeddingOk;
    DoneRecorded(t, c);
    OncePerRequest(t, c, calls, again);
  }

  /** Likewise an identical restore of an older revision. */
  lemma RestoreRetry(t: Tables, id: int, expected: int, restore: int, request: string, vector: Option<Vector>,
                     model: string,
                     clock: Clock, calls: seq<Call>, again: Call)
    requires Inv(t) && request !in t.receipts && RestoreInput(t, id, expected, restore, request).Ok?
    requires var c := CallWrite(RestoreInput(t, id, expected, restore, request).value, vector, model, clock);
             Apply(t, c).1.Done?
    ensures var input := RestoreInput(t, id, expected, restore, request).value;
            var (n, outcome) := Apply(t, CallWrite(input, vector, model, clock));
            var later := Run(n, calls);
            && id in later.rows
            && (RestoreInput(later, id, expected, restore, request) == Ok(input) <==> !later.rows[id].record.archived)
            && (again.CallWrite? && again.write == input && EmbeddingOk(again.vector, again.model) ==>
                  Apply(later, again) == (later, outcome))
  {
    hide Inv, Run, RecordById, PlanWrite, EmbeddingOk, Apply, KeyOk, Durable, PurposeOk, RequestIdOk, ProvenanceOk;
    hide Bounded;
    var input := RestoreInput(t, id, expected, restore, request).value;
    var c := CallWrite(input, vector, model, clock);
    RetryStays(t, c, calls, id);
    WriteDone(t, c, id, expected);
    LiveReads(t, id);
    if again.CallWrite? && again.write == input && EmbeddingOk(again.vector, again.model) {
      SameWriteReplays(t, c, calls, again);
    }
  }

  /** An edit carries the live tags and type, so its retry is rebuilt only while
      those still read the same; then it replays. A retry rebuilt with others is
      refused as a conflict and changes nothing. */
  lemma EditRetry(t: Tables, id: int, expected: int, title: string, content: string, purpose: string, request: string,
                  vector: Option<Vector>, model: string, clock: Clock, calls: seq<Call>, again: Call)
    requires Inv(t) && request !in t.receipts && EditInput(t, id, expected, title, content, purpose, request).Ok?
    requires var input := EditInput(t, id, expected, title, content, purpose, request).value;
             Apply(t, CallWrite(input, vector, model, clock)).1.Done?
    ensures var input := EditInput(t, id, expected, title, content, purpose, request).value;
            var (n, outcome) := Apply(t, CallWrite(input, vector, model, clock));
            var later := Run(n, calls);
            var rebuilt := EditInput(later, id, expected, title, content, purpose, request);
            && id in t.rows && id in later.rows
            && (rebuilt == Ok(input) <==>
                !later.rows[id].record.archived && later.rows[id].record.tags == t.rows[id].record.tags
                && later.rows[id].record.memoryType == t.rows[id].record.memoryType)
            && (again.CallWrite? && rebuilt == Ok(again.write) && EmbeddingOk(again.vector, again.model) ==>
                  Apply(later, again) ==
                  (later, if again.write == input then outcome else Refused(IdempotencyConflict)))
  {
    hide Inv, Run, RecordById, PlanWrite, EmbeddingOk, Apply, KeyOk, Durable, PurposeOk, RequestIdOk, ProvenanceOk;
    hide Bounded;
    var input := EditInput(t, id, expected, title, content, purpose, request).value;
    var c := CallWrite(input, vector, model, clock);
    RetryStays(t, c, calls, id);
    WriteDone(t, c, id, expected);
    LiveReads(t, id);
    if again.CallWrite? && EmbeddingOk(again.vector, again.model)
       && EditInput(Run(Apply(t, c).0, calls), id, expected, title, content, purpose, request) == Ok(again.write)
    {
      SameRequestAnswered(t, c, calls, again);
    }
  }

  /** A call with the request ID of an earlier success, and otherwise in order. */
  lemma SameRequestAnswered(t: Tables, c: Call, calls: seq<Call>, again: Call)
    requires Inv(t) && c.CallWrite? && again.CallWrite? && Apply(t, c).1.Done?
    requires again.write == c.write.(tags := again.write.tags, memoryType := again.write.memoryType)
    requires EmbeddingOk(again.vector, again.model)
    ensures var later := Run(Apply(t, c).0, calls);
            Apply(later, again) ==
              (later, if again.write == c.write then Apply(t, c).1 else Refused(IdempotencyConflict))
  {
    hide Inv, Run, Apply, KeyOk, Durable, PurposeOk, RequestIdOk, ProvenanceOk, Bounded, EmbeddingOk;
    DoneRecorded(t, c);
    ApplyKeeps(t, c);
    var next := Apply(t, c).0;
    RunKeeps(next, calls);
    UsedRequest(Run(next, calls), again);
  }

  lemma ArchiveDone(t: Tables, input: ArchiveInput, clock: Clock)
    requires Inv(t) && Apply(t, CallArchive(input, clock)).1.Done? && input.requestId !in t.receipts
    ensures input.id in t.rows && t.rows[input.id].record.revision == input.expectedRevision
  {
    hide Inv, GetInTx, OthersKept, Later, KeyOk, RequestIdOk, ProvenanceOk;
    ArchiveTxKeeps(t, input, clock);
  }

  /** An identical archive or unarchive is always rebuilt, whoever archived the
      memory since, and replays. */
  lemma ArchiveRetry(t: Tables, id: int, expected: int, archived: bool, request: string, clock: Clock,
                     calls: seq<Call>, retryClock: Clock)
    requires Inv(t) && request !in t.receipts && OwnerArchiveInput(t, id, expected, archived, request).Ok?
    requires var c := CallArchive(OwnerArchiveInput(t, id, expected, archived, request).value, clock);
             Apply(t, c).1.Done?
    ensures var input := OwnerArchiveInput(t, id, expected, archived, request).value;
            var (n, outcome) := Apply(t, CallArchive(input, clock));
            var later := Run(n, calls);
            && OwnerArchiveInput(later, id, expected, archived, request) == Ok(input)
            && Apply(later, CallArchive(input, retryClock)) == (later, outcome)
  {
    hide Inv, Run, RecordById, Apply;
    var input := OwnerArchiveInput(t, id, expected, archived, request).value;
    var c := CallArchive(input, clock);
    ArchiveDone(t, input, clock);
    RetryStays(t, c, calls, id);
    LiveReads(t, id);
    var later := Run(Apply(t, c).0, calls);
    RevisionsAgree(t, id, expected, expected);
    AuthorStays(t, later, id, expected);
    DoneRecorded(t, c);
    OncePerRequest(t, c, calls, CallArchive(input, retryClock));
  }

  lemma AuthorStays(t: Tables, n: Tables, id: int, expected: int)
    requires id in t.rows && 1 <= expected <= t.rows[id].record.revision
    requires forall revision | 1 <= revision <= t.rows[id].record.revision ::
               RecordById(n, id, Some(revision)) == RecordById(t, id, Some(revision))
    requires RecordById(t, id, Some(expected)).Ok? && RecordById(t, id, Some(expected)).value.Some?
    requires RecordById(t, id, Some(expected)).value.value.revision == expected
    ensures AuthorFor(n, id, expected) == AuthorFor(t, id, expected)
  {
    hide RecordById;
    assert RecordById(n, id, Some(expected)) == RecordById(t, id, Some(expected));
    if expected > 1 {
      assert RecordById(n, id, Some(expected - 1)) == RecordById(t, id, Some(expected - 1));
    }
  }

  /** An identical move is always rebuilt and replays. */
  lemma MoveRetry(t: Tables, id: int, expected: int, project: Option<string>, device: Restriction,
                  platform: Restriction,
                  request: string, vector: Option<Vector>, model: string, clock: Clock, archiving: Clock,
                  calls: seq<Call>, again: Call)
    requires Inv(t) && OwnerMoveInput(t, id, expected, project, device, platform, request).Ok?
    requires var input := OwnerMoveInput(t, id, expected, project, device, platform, request).value;
             Apply(t, CallMove(input, vector, model, clock, archiving)).1.Done?
    ensures var input := OwnerMoveInput(t, id, expected, project, device, platform, request).value;
            var (n, outcome) := Apply(t, CallMove(input, vector, model, clock, archiving));
            var later := Run(n, calls);
            && OwnerMoveInput(later, id, expected, project, device, platform, request) == Ok(input)
            && (again.CallMove? && again.move == input ==> Apply(later, again) == (later, outcome))
  {
    hide Inv, Run, RecordById, Apply, Bounded, ProvenanceOk;
    var input := OwnerMoveInput(t, id, expected, project, device, platform, request).value;
    var c := CallMove(input, vector, model, clock, archiving);
    ReadableInRange(t, id, expected);
    RetryStays(t, c, calls, id);
    DoneRecorded(t, c);
    if again.CallMove? && again.move == input {
      OncePerRequest(t, c, calls, again);
    }
  }

  lemma ReadableInRange(t: Tables, id: int, revision: int)
    requires Inv(t) && RecordById(t, id, Some(revision)).Ok? && RecordById(t, id, Some(revision)).value.Some?
    ensures id in t.rows && 1 <= revision <= t.rows[id].record.revision
  {
    hide Inv, RecordById;
    ReadsHistory(t, id, revision);
  }
}
