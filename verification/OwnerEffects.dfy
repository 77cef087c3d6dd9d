/** What the owner's actions do to the memories: the effect of each through the
    writer, when it goes through, and what is sent for it. */
module OwnerEffects {
  import opened Text
  import opened Records
  import opened StoreSpec
  import opened StoreInvariant
  import opened StoreSafety
  import opened ArchiveAndMove
  import opened StoreRuns
  import opened StoreAnswers
  import opened StoreEffects
  import opened MoveAnswers
  import opened OwnerActions

  // ----- when there is something to send -----

  predicate Live(t: Tables, id: int) {
    id in t.rows && !t.rows[id].record.archived
  }

  /** A confirm, an edit or a restore is sent exactly for an active memory; a
      confirm needs the named revision, a restore an earlier one than that. */
  lemma UpdateSent(t: Tables, id: int, expected: int, restore: int, title: string, content: string, purpose: string,
                   request: string)
    requires Inv(t)
    ensures var refused := if id < 1 || expected < 1 then Some(BadRequest) else if id !in t.rows then Some(NotFound)
                           else if t.rows[id].record.archived then Some(ArchivedConflict) else None;
            var confirm, edit := ConfirmInput(t, id, expected, request),
                                 EditInput(t, id, expected, title, content, purpose, request);
            var restoring := RestoreInput(t, id, expected, restore, request);
            if refused.Some? then confirm == edit == restoring == Err(refused.value)
            else
              && edit.Ok? && (confirm.Ok? <==> expected <= t.rows[id].record.revision)
              && (confirm.Err? ==> confirm.error == BadRequest)
              && (restore < 1 || restore >= expected ==> restoring == Err(BadRequest))
              && (1 <= restore < expected ==>
                    (restoring.Ok? <==> restore <= t.rows[id].record.revision) &&
                    (restoring.Err? ==> restoring.error == NotFound))
  {
    hide Inv, RecordById;
    if id in t.rows {
      LiveReads(t, id);
      ReadsHistory(t, id, expected);
      ReadsHistory(t, id, restore);
    } else {
      NoneReads(t, id);
    }
  }

  lemma NoneReads(t: Tables, id: int)
    requires id !in t.rows
    ensures forall revision :: RecordById(t, id, revision) == Ok(None)
  {
  }

  // ----- confirm, edit, restore -----

  /** A first successful write that names its row by id. */
  lemma Corrected(t: Tables, input: WriteInput, vector: Option<Vector>, model: string, clock: Clock, id: int)
    requires Inv(t) && input.requestId !in t.receipts && input.id == Some(id)
    requires Write(t, input, vector, model, clock).1.Done?
    ensures id in t.rows && Ready(t, input, id)
    ensures var (n, outcome) := Write(t, input, vector, model, clock);
            && outcome.receipt == Receipt(id, t.rows[id].record.revision + 1, false)
            && id in n.rows && n.rows[id].record.id == id
            && OthersKept(t.rows, n.rows, input.scope, id, n.rows[id].record.purpose == "handoff", input.provenance,
                          clock.retiring)
            && (input.restoreRevision.None? ==>
                  AsRequested(input, Some(t.rows[id].record), n.rows[id].record, clock.now))
            && (input.restoreRevision.Some? ==>
                  var at := (id, input.restoreRevision.value);
                  at in t.history &&
                  AsRestored(input, t.history[at].record, t.rows[id].record, n.rows[id].record, clock.now))
  {
    hide Inv, Write, WriteTx, Composes, LimitBroken, NoTwin, Twin, InputOk, WellFormed, Malformed, AsRequested;
    hide AsRestored;
    hide OthersKept;
    WriteChecked(t, input, vector, model, clock);
    WellFormedPasses(t, input, vector, model, clock);
    CorrectionRefused(t, input, id, vector, model, clock);
    var before, prior := Some(t.rows[id].record), PriorOf(t, input, id);
    var f := ComposesOne(input, before, prior);
    assert Composes(input, before, prior, f);
    CorrectionAnswer(t, input, id, f, vector, model, clock);
    WriteEffect(t, input, vector, model, clock);
    ApplyKeeps(t, CallWrite(input, vector, model, clock));
    IdOk(Write(t, input, vector, model, clock).0, id);
  }

  lemma IdOk(t: Tables, id: int)
    requires Inv(t) && id in t.rows
    ensures t.rows[id].record.id == id && TitleRule(t.rows[id].record)
  {
    hide HistoryOk, ConfirmationKept, ReceiptsOk, IndexesAccept, WordsIndexed, OneHandoff;
  }

  /** Where everything is sent, the new record is what was sent. */
  lemma AsSent(input: WriteInput, r: Record, after: Record, now: int)
    requires input.title.Some? && input.tags.Some? && input.memoryType.Some? && input.scope == r.scope
    requires AsRequested(input, Some(r), after, now) && after.id == r.id
    ensures after == r.(content := input.content,
                        title := if Blank(input.title.value) then Prefix(input.content, 80) else input.title.value,
                        tags := input.tags.value, memoryType := input.memoryType.value, purpose := input.purpose,
                        confirmed := input.confirmed, provenance := input.provenance, archived := false,
                        revision := r.revision + 1, updated := now)
  {
    hide Blank, Prefix;
  }

  /** A first success of a write that sends everything. */
  lemma UpdatedAsSent(t: Tables, input: WriteInput, vector: Option<Vector>, model: string, clock: Clock, id: int,
                      expected: int)
    requires Inv(t) && input.requestId !in t.receipts && Write(t, input, vector, model, clock).1.Done?
    requires input.id == Some(id) && input.expectedRevision == Some(expected) && input.restoreRevision.None?
    requires input.title.Some? && input.tags.Some? && input.memoryType.Some?
    ensures id in t.rows && t.rows[id].record.revision == expected
    ensures var (n, outcome) := Write(t, input, vector, model, clock);
            var r := t.rows[id].record;
            && outcome == Done(Receipt(id, expected + 1, false)) && id in n.rows
            && n.rows[id].record ==
               r.(content := input.content,
                  title := if Blank(input.title.value) then Prefix(input.content, 80) else input.title.value,
                  tags := input.tags.value, memoryType := input.memoryType.value, purpose := input.purpose,
                  confirmed := input.confirmed, provenance := input.provenance, archived := false,
                  revision := expected + 1, updated := clock.now)
            && OthersKept(t.rows, n.rows, r.scope, id, input.purpose == "handoff", input.provenance, clock.retiring)
  {
    hide Inv, Write, Blank, Prefix, OthersKept, AsRequested, Addresses, PriorOf;
    Corrected(t, input, vector, model, clock, id);
    IdOk(t, id);
    AsSent(input, t.rows[id].record, Write(t, input, vector, model, clock).0.rows[id].record, clock.now);
  }

  /** A first success of a write that restores. */
  lemma RestoredAsSent(t: Tables, input: WriteInput, vector: Option<Vector>, model: string, clock: Clock, id: int,
                       expected: int, restore: int)
    requires Inv(t) && input.requestId !in t.receipts && Write(t, input, vector, model, clock).1.Done?
    requires input.id == Some(id) && input.expectedRevision == Some(expected) && input.restoreRevision == Some(restore)
    ensures id in t.rows && t.rows[id].record.revision == expected && (id, restore) in t.history
    ensures var (n, outcome) := Write(t, input, vector, model, clock);
            && outcome == Done(Receipt(id, expected + 1, false)) && id in n.rows
            && n.rows[id].record ==
               t.history[(id, restore)].record.(confirmed := input.confirmed, provenance := input.provenance,
                                                archived := false, revision := expected + 1, updated := clock.now)
  {
    hide Inv, Write, OthersKept, Addresses, PriorOf;
    Corrected(t, input, vector, model, clock, id);
  }

  lemma EditSent(t: Tables, id: int, expected: int, title: string, content: string, purpose: string, request: string)
    requires Inv(t) && EditInput(t, id, expected, title, content, purpose, request).Ok?
    ensures id in t.rows && !t.rows[id].record.archived
    ensures var r := t.rows[id].record;
            EditInput(t, id, expected, title, content, purpose, request) ==
            Ok(WriteInput(r.scope, content, Some(title), Some(r.tags), Some(r.memoryType), purpose, true, OWNER,
                          request, r.key, Some(id), Some(expected), None))
  {
    hide Inv, RecordById;
    SomethingReads(t, id);
    LiveReads(t, id);
  }

  lemma SomethingReads(t: Tables, id: int)
    ensures RecordById(t, id, None) != Ok(None) ==> id in t.rows
  {
  }

  lemma ConfirmSent(t: Tables, id: int, expected: int, request: string)
    requires Inv(t) && ConfirmInput(t, id, expected, request).Ok?
    ensures id in t.rows && !t.rows[id].record.archived && (id, expected) in t.history
    ensures var p := t.history[(id, expected)].record;
            ConfirmInput(t, id, expected, request) ==
            Ok(WriteInput(p.scope, p.content, Some(p.title), Some(p.tags), Some(p.memoryType), p.purpose, true,
                          p.provenance, request, p.key, Some(id), Some(expected), None))
  {
    hide Inv, RecordById;
    SomethingReads(t, id);
    LiveReads(t, id);
    ReadsHistory(t, id, expected);
  }

  lemma RestoreSent(t: Tables, id: int, expected: int, restore: int, request: string)
    requires Inv(t) && RestoreInput(t, id, expected, restore, request).Ok?
    ensures id in t.rows && !t.rows[id].record.archived && (id, restore) in t.history
    ensures var r := t.rows[id].record;
            RestoreInput(t, id, expected, restore, request) ==
            Ok(WriteInput(r.scope, "", None, None, None, t.history[(id, restore)].record.purpose, true, OWNER, request,
                          r.key, Some(id), Some(expected), Some(restore)))
  {
    hide Inv, RecordById;
    SomethingReads(t, id);
    LiveReads(t, id);
    ReadsHistory(t, id, restore);
  }

  /** A move is sent exactly for a recorded revision, to the chosen project, with
      a device or platform left out as the memory has it. */
  lemma MoveSent(t: Tables, id: int, expected: int, project: Option<string>, device: Restriction, platform: Restriction,
                 request: string)
    requires Inv(t)
    ensures (id, expected) in t.history ==> id in t.rows
    ensures var sent := OwnerMoveInput(t, id, expected, project, device, platform, request);
            if id < 1 || expected < 1 || !Bounded(request, 100) then sent == Err(BadRequest)
            else if (id, expected) !in t.history then sent == Err(RevisionGone)
            else
              var scope := t.rows[id].record.scope;
              sent ==
              Ok(MoveInput(id, expected, project,
                           match device case Absent => scope.device case Null => None case Set(value) => Some(value),
                           match platform case Absent => scope.platform case Null => None
                                          case Set(value) => Some(value),
                           request, OWNER))
  {
    hide Inv, RecordById, Bounded;
    ReadsHistory(t, id, expected);
    if (id, expected) in t.history {
      SameHome(t, id, expected);
    }
  }

  /** A confirm confirms, and changes nothing else: text, title, tags, type,
      purpose, key and author stay. */
  lemma ConfirmEffect(t: Tables, id: int, expected: int, request: string, vector: Option<Vector>, model: string,
                      clock: Clock)
    requires Inv(t) && request !in t.receipts && ConfirmInput(t, id, expected, request).Ok?
    requires Write(t, ConfirmInput(t, id, expected, request).value, vector, model, clock).1.Done?
    ensures id in t.rows
    ensures var (n, outcome) := Write(t, ConfirmInput(t, id, expected, request).value, vector, model, clock);
            && outcome == Done(Receipt(id, expected + 1, false)) && id in n.rows
            && n.rows[id].record ==
               t.rows[id].record.(confirmed := true, revision := expected + 1, updated := clock.now)
            && OthersKept(t.rows, n.rows, t.rows[id].record.scope, id, t.rows[id].record.purpose == "handoff",
                          t.rows[id].record.provenance, clock.retiring)
  {
    var input := ConfirmInput(t, id, expected, request).value;
    hide *;
    ConfirmSent(t, id, expected, request);
    UpdatedAsSent(t, input, vector, model, clock, id, expected);
    LiveEntry(t, id);
    TitleKept(t, id);
  }

  lemma TitleKept(t: Tables, id: int)
    requires Inv(t) && id in t.rows
    ensures var r := t.rows[id].record; r.title == if Blank(r.title) then Prefix(r.content, 80) else r.title
  {
    hide Inv, Blank, Prefix;
    IdOk(t, id);
  }

  lemma LiveEntry(t: Tables, id: int)
    requires Inv(t) && id in t.rows
    ensures var at := (id, t.rows[id].record.revision);
            at in t.history && t.history[at].record == t.rows[id].record
  {
    hide ConfirmationKept, ReceiptsOk, IndexesAccept, WordsIndexed, OneHandoff, RowsOk, RecordOk, Kin;
  }

  /** It goes through exactly when the memory is at that revision and no other
      active memory is the same and confirmed already. */
  lemma ConfirmAnswer(t: Tables, id: int, expected: int, request: string, vector: Option<Vector>, model: string,
                      clock: Clock)
    requires Inv(t) && request !in t.receipts && ConfirmInput(t, id, expected, request).Ok?
    requires WellFormed(ConfirmInput(t, id, expected, request).value, vector, model)
    ensures id in t.rows
    ensures var outcome := Write(t, ConfirmInput(t, id, expected, request).value, vector, model, clock).1;
            var r := t.rows[id].record;
            if expected != r.revision then outcome == Refused(RevisionConflict(r.revision))
            else if NoTwin(t, r.scope, FieldsOf(r), true, id) then outcome.Done?
            else
              && outcome.Refused? && outcome.error.DuplicateConflict? && outcome.error.other != id
              && Twin(t, r.scope, FieldsOf(r), true, outcome.error.other)
  {
    var input := ConfirmInput(t, id, expected, request).value;
    hide Inv, Write, WriteTx, ConfirmInput, WellFormed, InputOk, NoTwin, Twin, Blank, Prefix;
    WellFormedPasses(t, input, vector, model, clock);
    ConfirmSent(t, id, expected, request);
    LiveEntry(t, id);
    SameHome(t, id, expected);
    CorrectionRefused(t, input, id, vector, model, clock);
    if expected == t.rows[id].record.revision {
      IdOk(t, id);
      WithinLimits(t, id);
      CorrectionAnswer(t, input, id, FieldsOf(t.rows[id].record), vector, model, clock);
    }
  }

  lemma SameHome(t: Tables, id: int, revision: int)
    requires Inv(t) && (id, revision) in t.history
    ensures id in t.rows && t.history[(id, revision)].record.scope == t.rows[id].record.scope
  {
    hide ConfirmationKept, ReceiptsOk, IndexesAccept, WordsIndexed, OneHandoff, RowsOk, RecordOk;
  }

  lemma WithinLimits(t: Tables, id: int)
    requires Inv(t) && id in t.rows
    ensures LimitBroken(FieldsOf(t.rows[id].record)).None?
  {
    hide HistoryOk, ConfirmationKept, ReceiptsOk, IndexesAccept, WordsIndexed, OneHandoff, Bounded, ByteLen, Durable;
  }

  /** An edit puts the owner's text in, confirmed and as the owner's, and keeps
      tags, type and key; a blank title is derived from the text. */
  lemma EditEffect(t: Tables, id: int, expected: int, title: string, content: string, purpose: string, request: string,
                   vector: Option<Vector>, model: string, clock: Clock)
    requires Inv(t) && request !in t.receipts && EditInput(t, id, expected, title, content, purpose, request).Ok?
    requires var input := EditInput(t, id, expected, title, content, purpose, request).value;
             Write(t, input, vector, model, clock).1.Done?
    ensures id in t.rows
    ensures var input := EditInput(t, id, expected, title, content, purpose, request).value;
            var (n, outcome) := Write(t, input, vector, model, clock);
            && outcome == Done(Receipt(id, expected + 1, false)) && id in n.rows
            && n.rows[id].record ==
               t.rows[id].record.(content := content, title := if Blank(title) then Prefix(content, 80) else title,
                                  purpose := purpose, confirmed := true, provenance := OWNER,
                                  revision := expected + 1, updated := clock.now)
            && OthersKept(t.rows, n.rows, t.rows[id].record.scope, id, purpose == "handoff", OWNER, clock.retiring)
  {
    var input := EditInput(t, id, expected, title, content, purpose, request).value;
    hide *;
    EditSent(t, id, expected, title, content, purpose, request);
    UpdatedAsSent(t, input, vector, model, clock, id, expected);
  }

  /** A restore brings the old revision back whole, confirmed and as the owner's. */
  lemma RestoreEffect(t: Tables, id: int, expected: int, restore: int, request: string, vector: Option<Vector>,
                      model: string, clock: Clock)
    requires Inv(t) && request !in t.receipts && RestoreInput(t, id, expected, restore, request).Ok?
    requires Write(t, RestoreInput(t, id, expected, restore, request).value, vector, model, clock).1.Done?
    ensures (id, restore) in t.history
    ensures var (n, outcome) := Write(t, RestoreInput(t, id, expected, restore, request).value, vector, model, clock);
            && outcome == Done(Receipt(id, expected + 1, false)) && id in n.rows
            && n.rows[id].record ==
               t.history[(id, restore)].record.(confirmed := true, provenance := OWNER, archived := false,
                                                revision := expected + 1, updated := clock.now)
  {
    var input := RestoreInput(t, id, expected, restore, request).value;
    hide *;
    RestoreSent(t, id, expected, restore, request);
    RestoredAsSent(t, input, vector, model, clock, id, expected, restore);
  }

  // ----- archive -----

  /** The source says who archived the memory, not who wrote it. */
  predicate IsNote(source: string) {
    "Replaced by handoff" <= source || "Moved to memory" <= source
  }

  lemma NotesAreNotes(id: int, actor: Provenance)
    ensures IsNote(Replacing(id, actor).source) && IsNote(Moved(id, actor).source)
  {
  }

  /** An owner's archive or unarchive changes visibility alone and keeps the
      author; where the last revision only says who archived the memory, the
      author is that of the revision before. It is sent for any memory. */
  lemma OwnerArchiveEffect(t: Tables, id: int, expected: int, archived: bool, request: string, clock: Clock)
    requires Inv(t) && request !in t.receipts
    ensures var sent := OwnerArchiveInput(t, id, expected, archived, request);
            sent.Ok? <==> id >= 1 && expected >= 1 && id in t.rows
    ensures var sent := OwnerArchiveInput(t, id, expected, archived, request);
            sent.Ok? && Archive(t, sent.value, clock).1.Done? ==>
              var (n, outcome) := Archive(t, sent.value, clock);
              var r := t.rows[id].record;
              && outcome == Done(Receipt(id, expected + 1, false)) && r.revision == expected && id in n.rows
              && (IsNote(r.provenance.source) && expected > 1 ==> (id, expected - 1) in t.history)
              && n.rows[id].record ==
                 r.(archived := archived, revision := expected + 1, updated := clock.now,
                    provenance := if !IsNote(r.provenance.source) then r.provenance
                                  else if expected > 1 then t.history[(id, expected - 1)].record.provenance
                                  else OWNER)
  {
    hide Inv, Archive, RecordById;
    if id in t.rows {
      LiveReads(t, id);
      var sent := OwnerArchiveInput(t, id, expected, archived, request);
      if sent.Ok? && Archive(t, sent.value, clock).1.Done? {
        ArchiveEffect(t, sent.value, clock);
        ReadsHistory(t, id, expected);
        ReadsHistory(t, id, expected - 1);
        LiveEntry(t, id);
        ExpectedLive(t, sent.value, clock);
      }
    } else {
      NoneReads(t, id);
    }
  }

  lemma ExpectedLive(t: Tables, input: ArchiveInput, clock: Clock)
    requires Inv(t) && input.requestId !in t.receipts && Archive(t, input, clock).1.Done?
    ensures input.id in t.rows && t.rows[input.id].record.revision == input.expectedRevision
  {
    hide Inv, Archive;
    ArchiveAnswer(t, input, clock);
  }

  // ----- move -----

  /** An owner's move is sent for any recorded revision, to the chosen project,
      with a device or platform left out kept, null cleared and a value set;
      a first success with a fresh copy puts the memory there as it was, and
      archives the original as the owner's, with a note. */
  lemma OwnerMoveEffect(t: Tables, id: int, expected: int, project: Option<string>, device: Restriction,
                        platform: Restriction, request: string, vector: Option<Vector>, model: string, copying: Clock,
                        archiving: Clock)
    requires Inv(t) && request !in t.receipts && request + ":copy" !in t.receipts
    requires OwnerMoveInput(t, id, expected, project, device, platform, request).Ok?
    requires var input := OwnerMoveInput(t, id, expected, project, device, platform, request).value;
             Move(t, input, vector, model, copying, archiving).1.Done?
    ensures id in t.rows
    ensures var input := OwnerMoveInput(t, id, expected, project, device, platform, request).value;
            var (n, outcome) := Move(t, input, vector, model, copying, archiving);
            var r := t.rows[id].record;
            var copy := outcome.receipt.id;
            && r.revision == expected && copy != id && copy in n.rows && id in n.rows
            && SameMemory(r, n.rows[copy].record) && !n.rows[copy].record.archived
            && n.rows[copy].record.scope.project == project && !n.rows[copy].record.scope.legacy
            && n.rows[copy].record.scope.device == (match device case Absent => r.scope.device case Null => None
                                                                  case Set(value) => Some(value))
            && n.rows[copy].record.scope.platform == (match platform case Absent => r.scope.platform case Null => None
                                                                      case Set(value) => Some(value))
            && n.rows[id].record.archived && n.rows[id].record.revision == expected + 1
            && n.rows[id].record.provenance.harness == OWNER.harness && IsNote(n.rows[id].record.provenance.source)
  {
    var input := OwnerMoveInput(t, id, expected, project, device, platform, request).value;
    hide Inv, Move, SameMemory, OwnerMoveInput;
    MoveSent(t, id, expected, project, device, platform, request);
    MoveArchives(t, input, vector, model, copying, archiving);
    MoveCarries(t, input, vector, model, copying, archiving);
    NotesAreNotes(Move(t, input, vector, model, copying, archiving).1.receipt.id, OWNER);
  }

  /** A memory that was moved away, and that its owner brings back, has its own
      author again, not the mover. */
  lemma AuthorSurvivesMove(t: Tables, input: MoveInput, vector: Option<Vector>, model: string, copying: Clock,
                           archiving: Clock, request: string, clock: Clock)
    requires Inv(t) && input.requestId !in t.receipts && input.id >= 1 && input.expectedRevision >= 1
    requires Move(t, input, vector, model, copying, archiving).1.Done?
    requires var n := Move(t, input, vector, model, copying, archiving).0;
             request !in n.receipts && input.id in t.rows && !IsNote(t.rows[input.id].record.provenance.source)
    ensures var n := Move(t, input, vector, model, copying, archiving).0;
            var sent := OwnerArchiveInput(n, input.id, input.expectedRevision + 1, false, request);
            && sent.Ok?
            && (Archive(n, sent.value, clock).1.Done? ==>
                  var back := Archive(n, sent.value, clock).0;
                  && input.id in back.rows
                  && back.rows[input.id].record ==
                     t.rows[input.id].record.(revision := input.expectedRevision + 2, updated := clock.now))
  {
    hide *;
    MovedAway(t, input, vector, model, copying, archiving);
    var n := Move(t, input, vector, model, copying, archiving).0;
    var id, expected := input.id, input.expectedRevision;
    OwnerArchiveEffect(n, id, expected + 1, false, request, clock);
    assert n.history[(id, expected)].record.provenance == t.rows[id].record.provenance;
  }

  /** What a move leaves of the source, and of its last revision. */
  lemma MovedAway(t: Tables, input: MoveInput, vector: Option<Vector>, model: string, copying: Clock, archiving: Clock)
    requires Inv(t) && input.requestId !in t.receipts && Move(t, input, vector, model, copying, archiving).1.Done?
    ensures var n := Move(t, input, vector, model, copying, archiving).0;
            var id, expected := input.id, input.expectedRevision;
            && Inv(n) && id in t.rows && id in n.rows && (id, expected) in n.history
            && n.history[(id, expected)].record == t.rows[id].record
            && t.rows[id].record.revision == expected && !t.rows[id].record.archived
            && IsNote(n.rows[id].record.provenance.source)
            && n.rows[id].record == t.rows[id].record.(archived := true, revision := expected + 1,
                                                       updated := archiving.now,
                                                       provenance := n.rows[id].record.provenance)
  {
    hide Inv, Move;
    MoveArchives(t, input, vector, model, copying, archiving);
    var (n, outcome) := Move(t, input, vector, model, copying, archiving);
    ApplyKeeps(t, CallMove(input, vector, model, copying, archiving));
    NotesAreNotes(outcome.receipt.id, input.provenance);
    LiveEntry(t, input.id);
  }
}
