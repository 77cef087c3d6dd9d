/** Whole runs of the store from the empty database. */
module StoreRuns {
  import opened Text
  import opened Records
  import opened Sets
  import opened StoreSpec
  import opened StoreInvariant
  import opened StoreSafety
  import opened ArchiveAndMove

  datatype Call =
    | CallWrite(write: WriteInput, vector: Option<Vector>, model: string, clock: Clock)
    | CallArchive(archive: ArchiveInput, clock: Clock)
    | CallMove(move: MoveInput, vector: Option<Vector>, model: string, clock: Clock, archiving: Clock)

  function Apply(t: Tables, c: Call): (Tables, Outcome) {
    match c
    case CallWrite(input, vector, model, clock) => Write(t, input, vector, model, clock)
    case CallArchive(input, clock) => Archive(t, input, clock)
    case CallMove(input, vector, model, clock, archiving) => Move(t, input, vector, model, clock, archiving)
  }

  function Run(t: Tables, calls: seq<Call>): Tables
    decreases |calls|
  {
    if calls == [] then t else Run(Apply(t, calls[0]).0, calls[1..])
  }

  function RequestOf(c: Call): string {
    match c
    case CallWrite(input, _, _, _) => input.requestId
    case CallArchive(input, _) => input.requestId
    case CallMove(input, _, _, _, _) => input.requestId
  }

  function PayloadOf(c: Call): Payload {
    match c
    case CallWrite(input, _, _, _) => OfWrite(input)
    case CallArchive(input, _) => OfArchive(input)
    case CallMove(input, _, _, _, _) => OfMove(input)
  }

  /** The call is refused before it looks at the database. */
  predicate Malformed(c: Call) {
    match c
    case CallWrite(input, vector, model, _) => WriteRefusal(input, vector, model).Some?
    case CallArchive(input, _) =>
      !KeyOk(input.scope) || !ProvenanceOk(input.provenance) || !RequestIdOk(input.requestId)
    case CallMove(input, _, _, _, _) => !ProvenanceOk(input.provenance) || !MoveOk(input)
  }

  lemma EmptyInv()
    ensures Inv(EMPTY)
  {
  }

  /** One call keeps the invariant, loses nothing, and no constraint of the
      database ever refuses it; a refused call changes nothing. */
  lemma ApplyKeeps(t: Tables, c: Call)
    requires Inv(t)
    ensures var (n, outcome) := Apply(t, c);
            Inv(n) && Later(t, n) && outcome != Refused(ConstraintFired) && (outcome.Refused? ==> n == t)
  {
    hide HistoryOk, ConfirmationKept, ReceiptsOk, IndexesAccept, WordsIndexed, OneHandoff, RowsOk;
    hide WriteTx, ArchiveTx, MoveTx, Wrote, Changed, PlanOk, PlanWrite, Later;
    LaterSelf(t);
    match c
    case CallWrite(input, vector, model, clock) =>
      if !Malformed(c) {
        WriteTxKeeps(t, input, vector, model, clock);
      }
    case CallArchive(input, clock) => ArchiveTxKeeps(t, input, clock);
    case CallMove(input, vector, model, clock, archiving) => MoveTxKeeps(t, input, vector, model, clock, archiving);
  }

  lemma {:induction false} RunKeeps(t: Tables, calls: seq<Call>)
    requires Inv(t)
    ensures Inv(Run(t, calls)) && Later(t, Run(t, calls))
    decreases |calls|
  {
    hide Inv, Later, Apply;
    LaterSelf(t);
    if calls != [] {
      ApplyKeeps(t, calls[0]);
      var next := Apply(t, calls[0]).0;
      RunKeeps(next, calls[1..]);
      LaterChain(t, next, Run(next, calls[1..]));
    }
  }

  /** After any run of the service the whole invariant holds. */
  lemma RunSafe(calls: seq<Call>)
    ensures Inv(Run(EMPTY, calls))
  {
    EmptyInv();
    RunKeeps(EMPTY, calls);
  }

  // ----- reading a revision -----

  /** RecordByID: a record by id alone, in the scope it is stored under. */
  function RecordById(t: Tables, id: int, revision: Option<int>): Result<Option<Record>, Error> {
    if id !in t.rows || t.rows[id].record.scope.legacy then Ok(None)
    else GetInTx(t, t.rows[id].record.scope, id, revision)
  }

  /** A revision is readable exactly from 1 to the live one, and reads as recorded. */
  lemma ReadsHistory(t: Tables, id: int, revision: int)
    requires Inv(t)
    ensures RecordById(t, id, Some(revision)) ==
            Ok(if (id, revision) in t.history then Some(t.history[(id, revision)].record) else None)
    ensures (id, revision) in t.history <==> id in t.rows && 1 <= revision <= t.rows[id].record.revision
  {
    hide ConfirmationKept, ReceiptsOk, IndexesAccept, WordsIndexed, OneHandoff, KeyOk, Durable, Bounded;
    if (id, revision) in t.history {
      assert KeyOk(t.rows[id].record.scope) && KeyOk(t.history[(id, revision)].record.scope);
    }
  }

  /** Whatever a revision reads as, it reads the same after any further calls. */
  lemma ReadForever(t: Tables, calls: seq<Call>, id: int, revision: int)
    requires Inv(t) && id in t.rows && 1 <= revision <= t.rows[id].record.revision
    ensures RecordById(t, id, Some(revision)).Ok? && RecordById(t, id, Some(revision)).value.Some?
    ensures RecordById(Run(t, calls), id, Some(revision)) == RecordById(t, id, Some(revision))
  {
    hide Inv, RecordById, Run;
    RunKeeps(t, calls);
    ReadsHistory(t, id, revision);
    ReadsHistory(Run(t, calls), id, revision);
  }

  /** Along a memory's revisions its scope, key and creation time stay, and a
      confirmed revision is never followed by an unconfirmed one. */
  lemma RevisionsAgree(t: Tables, id: int, a: int, b: int)
    requires Inv(t) && id in t.rows && 1 <= a <= b <= t.rows[id].record.revision
    ensures var ra := RecordById(t, id, Some(a)); var rb := RecordById(t, id, Some(b));
            && ra.Ok? && ra.value.Some? && rb.Ok? && rb.value.Some?
            && ra.value.value.revision == a && rb.value.value.revision == b
            && Kin(ra.value.value, rb.value.value) && (ra.value.value.confirmed ==> rb.value.value.confirmed)
  {
    hide ReceiptsOk, IndexesAccept, WordsIndexed, OneHandoff, RecordOk, RecordById;
    ReadsHistory(t, id, a);
    ReadsHistory(t, id, b);
    assert (id, a) in t.history && (id, b) in t.history;
  }

  // ----- request IDs -----

  /** A successful call leaves its payload and receipt in the ledger, and the
      revision its receipt names is readable. */
  lemma DoneRecorded(t: Tables, c: Call)
    requires Inv(t) && Apply(t, c).1.Done?
    ensures !Malformed(c)
    ensures var (n, outcome) := Apply(t, c);
            && RequestOf(c) in n.receipts && n.receipts[RequestOf(c)] == Acknowledged(PayloadOf(c), outcome.receipt)
            && (outcome.receipt.id, outcome.receipt.revision) in n.history
  {
    hide HistoryOk, ConfirmationKept, IndexesAccept, WordsIndexed, OneHandoff, RowsOk;
    hide WriteTx, ArchiveTx, MoveTx, PlanOk, PlanWrite, Later, Revisited;
    ApplyKeeps(t, c);
    match c
    case CallWrite(input, vector, model, clock) => WriteTxKeeps(t, input, vector, model, clock);
    case CallArchive(input, clock) => ArchiveTxKeeps(t, input, clock);
    case CallMove(input, vector, model, clock, archiving) => MoveTxKeeps(t, input, vector, model, clock, archiving);
  }

  /** Once a request ID is in the ledger no call with it changes anything: the
      same payload replays the receipt, any other payload is refused. */
  lemma UsedRequest(t: Tables, c: Call)
    requires RequestOf(c) in t.receipts
    ensures Apply(t, c).0 == t
    ensures var recorded := t.receipts[RequestOf(c)];
            Apply(t, c).1.Done? <==> !Malformed(c) && recorded.payload == PayloadOf(c)
    ensures Apply(t, c).1.Done? ==> Apply(t, c).1.receipt == t.receipts[RequestOf(c)].receipt
    ensures !Malformed(c) && t.receipts[RequestOf(c)].payload != PayloadOf(c) ==>
              Apply(t, c).1 == Refused(IdempotencyConflict)
  {
    hide ByteLen, Blank, KeyOk, PlanWrite, Save, GetInTx, MoveSource, Durable;
  }

  /** Over any run: after a call succeeds, every later call with its request ID
      leaves the tables alone, and is answered with that same receipt exactly
      when it carries the same payload; and the revision the receipt names can
      still be read and is what that payload asked for. */
  lemma OncePerRequest(t: Tables, first: Call, between: seq<Call>, again: Call)
    requires Inv(t) && Apply(t, first).1.Done? && RequestOf(again) == RequestOf(first)
    ensures var receipt := Apply(t, first).1.receipt;
            var later := Run(Apply(t, first).0, between);
            && Apply(later, again).0 == later
            && (Apply(later, again).1 == Done(receipt) <==> !Malformed(again) && PayloadOf(again) == PayloadOf(first))
            && (Apply(later, again).1.Done? ==> Apply(later, again).1 == Done(receipt))
            && Named(receipt) in later.history
            && Filed(Acknowledged(PayloadOf(first), receipt), later.history[Named(receipt)].record)
  {
    hide Inv, Apply, Malformed, Filed;
    ApplyKeeps(t, first);
    DoneRecorded(t, first);
    var next := Apply(t, first).0;
    RunKeeps(next, between);
    UsedRequest(Run(next, between), again);
    ReceiptFiled(Run(next, between), RequestOf(first));
  }

  lemma ReceiptFiled(t: Tables, request: string)
    requires Inv(t) && request in t.receipts
    ensures var at := Named(t.receipts[request].receipt);
            at in t.history && Filed(t.receipts[request], t.history[at].record)
  {
    hide HistoryOk, ConfirmationKept, IndexesAccept, WordsIndexed, OneHandoff, RowsOk, Filed;
  }

  // ----- moves -----

  /** In any run a move that first succeeds archives the original, and records
      a fresh active copy of it in the target exactly when no earlier call used
      the request ID it derives for the copy. Either way the revision it names
      is an exact copy there; when that is a replay, its row is left as it was. */
  lemma MoveInRuns(before: seq<Call>, input: MoveInput, vector: Option<Vector>, model: string, copying: Clock,
                   archiving: Clock)
    requires var t := Run(EMPTY, before);
             input.requestId !in t.receipts && Move(t, input, vector, model, copying, archiving).1.Done?
    ensures var t := Run(EMPTY, before);
            var (n, outcome) := Move(t, input, vector, model, copying, archiving);
            var id := outcome.receipt.id;
            && input.id in t.rows && input.id in n.rows
            && n.rows[input.id] == Revisited(t.rows[input.id], true, Moved(id, input.provenance), archiving.now)
            && ((id, outcome.receipt.revision) !in t.history <==> input.requestId + ":copy" !in t.receipts)
            && id != input.id && id in n.rows && Named(outcome.receipt) in n.history
            && ActiveCopy(t.rows[input.id].record, Target(input), n.history[Named(outcome.receipt)].record)
            && (input.requestId + ":copy" !in t.receipts ==>
                  n.rows[id].record.revision == outcome.receipt.revision
                  && ActiveCopy(t.rows[input.id].record, Target(input), n.rows[id].record))
            && (input.requestId + ":copy" in t.receipts ==> id in t.rows && n.rows[id] == t.rows[id])
  {
    hide Inv, Move, Run, Revisited, Moved, SameMemory;
    RunSafe(before);
    var t := Run(EMPTY, before);
    MoveArchives(t, input, vector, model, copying, archiving);
    MoveExact(t, input, vector, model, copying, archiving);
    MoveLeaves(t, input, vector, model, copying, archiving);
    if input.requestId + ":copy" !in t.receipts {
      MoveCarries(t, input, vector, model, copying, archiving);
    }
  }

  // ----- the owner's version -----

  function SumRevisions(rows: map<int, Row>, n: int): int
    decreases if n < 0 then 0 else n
  {
    if n <= 0 then 0 else SumRevisions(rows, n - 1) + if n in rows then rows[n].record.revision else 0
  }

  /** OwnerMemoryVersion: the count of rows and the sum of their revisions. */
  function Version(t: Tables): (int, int) {
    (|t.rows|, SumRevisions(t.rows, t.sequence))
  }

  lemma {:induction false} SumBeyond(rows: map<int, Row>, n: int, m: int)
    requires n <= m && forall id | id in rows :: id <= n
    ensures SumRevisions(rows, m) == SumRevisions(rows, n)
    decreases m - n
  {
    if n < m {
      SumBeyond(rows, n, m - 1);
    }
  }

  /** Sums compare as the rows do, and agree only when every revision does. */
  lemma {:induction false} SumCompares(a: map<int, Row>, b: map<int, Row>, n: int)
    requires forall id | id in a :: id in b && a[id].record.revision <= b[id].record.revision
    requires forall id | id in b :: b[id].record.revision >= 1
    ensures SumRevisions(a, n) <= SumRevisions(b, n)
    ensures SumRevisions(a, n) == SumRevisions(b, n) ==>
              forall id | 1 <= id <= n && id in b :: id in a && a[id].record.revision == b[id].record.revision
    decreases if n < 0 then 0 else n
  {
    if n > 0 {
      SumCompares(a, b, n - 1);
    }
  }

  /** A row is determined by its id and revision. */
  lemma SameRevisionSameRow(t: Tables, n: Tables, id: int)
    requires Inv(t) && Inv(n) && Later(t, n) && id in t.rows && id in n.rows
    requires t.rows[id].record.revision == n.rows[id].record.revision
    ensures t.rows[id] == n.rows[id]
  {
    hide ConfirmationKept, ReceiptsOk, IndexesAccept, WordsIndexed, OneHandoff, RecordOk, Kin;
    assert t.history[(id, t.rows[id].record.revision)] == n.history[(id, n.rows[id].record.revision)];
  }

  /** The version never falls, and rises with every commit that touches a row. */
  lemma VersionGrows(t: Tables, n: Tables)
    requires Inv(t) && Inv(n) && Later(t, n)
    ensures Version(t).0 <= Version(n).0 && Version(t).1 <= Version(n).1
    ensures Version(t).1 == Version(n).1 <==> t.rows == n.rows
  {
    hide HistoryOk, ConfirmationKept, ReceiptsOk, IndexesAccept, WordsIndexed, OneHandoff, RecordOk, Kin;
    SumBeyond(t.rows, t.sequence, n.sequence);
    SumCompares(t.rows, n.rows, n.sequence);
    assert t.rows.Keys <= n.rows.Keys;
    SubsetSize(t.rows.Keys, n.rows.Keys);
    if Version(t).1 == Version(n).1 {
      forall id | id in t.rows ensures t.rows[id] == n.rows[id] {
        SameRevisionSameRow(t, n, id);
      }
      assert forall id | id in n.rows :: id in t.rows;
    }
  }

  /** Two equal versions anywhere in a run mean identical rows between them. */
  lemma EqualVersionsSameRows(before: seq<Call>, between: seq<Call>)
    ensures var t := Run(EMPTY, before);
            var n := Run(t, between);
            Version(t) == Version(n) <==> t.rows == n.rows
  {
    hide Inv, Later, Apply;
    RunSafe(before);
    var t := Run(EMPTY, before);
    RunKeeps(t, between);
    VersionGrows(t, Run(t, between));
  }
}
