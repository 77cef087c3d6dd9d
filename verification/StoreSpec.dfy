/** What each store operation does, as functions from tables to tables. The
    Writer class is proved against these; the theorems are about these. */
module StoreSpec {
  import opened Text
  import opened Decimal
  import opened Records

  // ----- queries -----

  datatype Query =
    | KeyHolder(scope: Scope, key: string)
    | Exact(scope: Scope, memoryType: string, purpose: string, confirmed: bool, hash: seq<string>, except: int)
    | OtherHandoffs(scope: Scope, except: int)

  predicate Matches(id: int, row: Row, q: Query) {
    var r := row.record;
    && r.scope == q.scope
    && match q
       case KeyHolder(_, key) => r.key == Some(key)
       case Exact(_, memoryType, purpose, confirmed, hash, except) =>
         !r.archived && r.memoryType == memoryType && r.purpose == purpose && r.confirmed == confirmed &&
         row.contentHash == hash && id != except
       case OtherHandoffs(_, except) => !r.archived && r.purpose == "handoff" && id != except
  }

  /** The ids up to n that a query returns, in id order. */
  function Select(rows: map<int, Row>, q: Query, n: int): (ids: seq<int>)
    ensures forall id :: id in ids <==> 1 <= id <= n && id in rows && Matches(id, rows[id], q)
    ensures forall i, j | 0 <= i < j < |ids| :: ids[i] < ids[j]
    decreases if n < 0 then 0 else n
  {
    if n <= 0 then []
    else
      var rest := Select(rows, q, n - 1);
      assert forall i | 0 <= i < |rest| :: rest[i] in rest;
      rest + if n in rows && Matches(n, rows[n], q) then [n] else []
  }

  function First(t: Tables, q: Query): (r: Option<int>)
    ensures r.Some? ==> 1 <= r.value <= t.sequence && r.value in t.rows && Matches(r.value, t.rows[r.value], q)
    ensures r.None? ==> forall id | id in t.rows && 1 <= id <= t.sequence :: !Matches(id, t.rows[id], q)
  {
    var ids := Select(t.rows, q, t.sequence);
    if ids == [] then None else assert ids[0] in ids; Some(ids[0])
  }

  // ----- constraints of the schema -----

  /** idx_memory_exact: one active row for each exact identity in a scope. */
  predicate ExactIndex(rows: map<int, Row>) {
    forall a, b | a in rows && b in rows && SameExact(rows[a], rows[b]) :: a == b
  }

  predicate SameExact(a: Row, b: Row) {
    && !a.record.archived && !b.record.archived && !a.record.scope.legacy
    && a.record.scope == b.record.scope && a.record.memoryType == b.record.memoryType
    && a.record.purpose == b.record.purpose && a.record.confirmed == b.record.confirmed
    && a.contentHash == b.contentHash
  }

  /** idx_memory_key: one row, archived or not, for each scope and key. */
  predicate KeyIndex(rows: map<int, Row>) {
    forall a, b | a in rows && b in rows && SameKey(rows[a], rows[b]) :: a == b
  }

  predicate SameKey(a: Row, b: Row) {
    && a.record.key.Some? && !a.record.scope.legacy
    && a.record.scope == b.record.scope && a.record.key == b.record.key
  }

  predicate IndexesAccept(rows: map<int, Row>) {
    ExactIndex(rows) && KeyIndex(rows)
  }

  // ----- steps shared by the operations -----

  function EntryOf(row: Row): Entry {
    Entry(row.record, row.embedding, row.model)
  }

  function WordsOf(row: Row): Words {
    Words(row.record.title, row.record.content, row.record.tags)
  }

  /** INSERT OR IGNORE: an entry already present stays. */
  function Snapshot(history: map<(int, int), Entry>, row: Row): map<(int, int), Entry> {
    var at := (row.record.id, row.record.revision);
    if at in history then history else history[at := EntryOf(row)]
  }

  datatype Replayed = Unseen | Seen(receipt: Receipt) | Conflicting

  function Replay(t: Tables, request: string, payload: Payload): Replayed {
    if request !in t.receipts then Unseen
    else if t.receipts[request].payload != payload then Conflicting
    else Seen(t.receipts[request].receipt)
  }

  function Acknowledge(t: Tables, request: string, payload: Payload, receipt: Receipt): (Tables, Outcome) {
    if request in t.receipts then (t, Refused(ConstraintFired))
    else (t.(receipts := t.receipts[request := Acknowledged(payload, receipt)]), Done(receipt))
  }

  /** The record with this id in exactly this scope, current or at a revision. */
  function GetInTx(t: Tables, scope: Scope, id: int, revision: Option<int>): Result<Option<Record>, Error> {
    if !KeyOk(scope) then Err(InvalidScope)
    else if id !in t.rows || t.rows[id].record.scope != scope then Ok(None)
    else
      var current := t.rows[id].record;
      if revision.None? || revision.value == current.revision then Ok(Some(current))
      else if (id, revision.value) !in t.history then Ok(None)
      else
        var past := t.history[(id, revision.value)].record;
        if !KeyOk(past.scope) then Err(InvalidScope)
        else if past.id != id || past.revision != revision.value || past.scope != scope then Err(RevisionScopeMismatch)
        else Ok(Some(past))
  }

  function Duplicate(t: Tables, scope: Scope, memoryType: string, purpose: string, confirmed: bool,
                     hash: seq<string>, except: int): Option<int> {
    if scope.legacy then None else First(t, Exact(scope, memoryType, purpose, confirmed, hash, except))
  }

  /** A revision that changes only visibility, time and provenance. */
  function Revisited(row: Row, archived: bool, provenance: Provenance, now: int): Row {
    row.(record := row.record.(archived := archived, revision := row.record.revision + 1, updated := now,
                               provenance := provenance))
  }

  function Replacing(id: int, actor: Provenance): Provenance {
    actor.(source := "Replaced by handoff " + Itoa(id))
  }

  function RetireOne(t: Tables, id: int, note: Provenance, now: int): Tables
    requires id in t.rows
  {
    var row := Revisited(t.rows[id], true, note, now);
    t.(rows := t.rows[id := row], history := Snapshot(Snapshot(t.history, t.rows[id]), row))
  }

  function RetireEach(t: Tables, ids: seq<int>, note: Provenance, now: int): (Tables, Option<Error>)
    requires forall id | id in ids :: id in t.rows
    decreases |ids|
  {
    if ids == [] then (t, None)
    else
      var next := RetireOne(t, ids[0], note, now);
      if !IndexesAccept(next.rows) then (t, Some(ConstraintFired)) else RetireEach(next, ids[1..], note, now)
  }

  function RetireHandoffs(t: Tables, scope: Scope, replacement: int, actor: Provenance, now: int): (Tables,
                          Option<Error>) {
    RetireEach(t, Select(t.rows, OtherHandoffs(scope, replacement), t.sequence), Replacing(replacement, actor), now)
  }

  // ----- Write -----

  predicate RequestIdOk(request: string) {
    Bounded(request, 128)
  }

  predicate PurposeOk(purpose: string) {
    purpose in {"preference", "decision", "lesson", "handoff", "observation"}
  }

  predicate MemoryTypeOk(memoryType: string) {
    memoryType in {"identity", "knowledge", "episode", "procedure"}
  }

  predicate EmbeddingOk(vector: Option<Vector>, model: string) {
    vector.Some? ==> |vector.value| > 0 && model != "" && forall i | 0 <= i < |vector.value| :: vector.value[i].Finite?
  }

  /** The checks Write makes before it opens a transaction. */
  function WriteRefusal(input: WriteInput, vector: Option<Vector>, model: string): Option<Error> {
    if !KeyOk(input.scope) then Some(InvalidScope)
    else if input.id.None? && input.expectedRevision.None? && !Durable(input.scope) then Some(NotDurable)
    else if input.scope.legacy then Some(LegacyTarget)
    else if !ProvenanceOk(input.provenance) then Some(InvalidProvenance)
    else if !RequestIdOk(input.requestId) then Some(InvalidRequestId)
    else if !PurposeOk(input.purpose) then Some(InvalidPurpose)
    else if input.key.Some? && !Bounded(input.key.value, 128) then Some(InvalidKey)
    else if !EmbeddingOk(vector, model) then Some(InvalidEmbedding)
    else None
  }

  datatype Fields = Fields(content: string, title: string, tags: string, memoryType: string, purpose: string)

  function HashOf(f: Fields): seq<string> {
    [f.content, f.title, f.tags]
  }

  function TitleFor(input: WriteInput, content: string, current: Option<Record>, restored: Option<Record>): string {
    if restored.Some? then restored.value.title
    else if input.title.Some? then if Blank(input.title.value) then Prefix(content, 80) else input.title.value
    else if current.Some? && current.value.title != Prefix(current.value.content, 80) then current.value.title
    else Prefix(content, 80)
  }

  /** The text and metadata the new revision will carry. */
  function FieldsFor(input: WriteInput, current: Option<Record>, restored: Option<Record>): Result<Fields, Error> {
    var content := if restored.Some? then restored.value.content else input.content;
    if !Bounded(content, 32768) then Err(InvalidContent)
    else
      var title := TitleFor(input, content, current, restored);
      var tags := if restored.Some? then restored.value.tags else if input.tags.Some? then input.tags.value
                  else if current.Some? then current.value.tags else "";
      var memoryType := if restored.Some? then restored.value.memoryType
                        else if input.memoryType.Some? then input.memoryType.value
                        else if current.Some? then current.value.memoryType else "knowledge";
      if ByteLen(title) > 512 || ByteLen(tags) > 2048 then Err(MetadataTooLarge)
      else if !MemoryTypeOk(memoryType) then Err(InvalidMemoryType)
      else Ok(Fields(content, title, tags, memoryType,
                     if restored.Some? then restored.value.purpose else input.purpose))
  }

  /** The row a write addresses, by id or by key. */
  function Addressed(t: Tables, input: WriteInput): (r: Result<Option<int>, Error>)
    ensures r.Ok? && r.value.Some? ==> r.value.value in t.rows && t.rows[r.value.value].record.scope == input.scope
  {
    var id := if input.id.None? && input.key.Some? then First(t, KeyHolder(input.scope, input.key.value)) else input.id;
    if id.None? then Ok(None)
    else
      match GetInTx(t, input.scope, id.value, None)
      case Err(e) => Err(e)
      case Ok(None) => Err(MemoryNotFound)
      case Ok(_) => Ok(id)
  }

  function RecordAt(t: Tables, at: Option<int>): Option<Record>
    requires at.Some? ==> at.value in t.rows
  {
    if at.None? then None else Some(t.rows[at.value].record)
  }

  function CurrentRefusal(input: WriteInput, current: Option<Record>): Option<Error> {
    match current
    case None =>
      if input.expectedRevision.Some? || input.restoreRevision.Some? then Some(NoExistingRecord) else None
    case Some(c) =>
      if input.expectedRevision != Some(c.revision) then Some(RevisionConflict(c.revision))
      else if c.confirmed && !input.confirmed then Some(ConfirmationConflict)
      else if input.key.Some? && input.key != c.key then Some(KeyImmutable)
      else None
  }

  function Restored(t: Tables, input: WriteInput, at: Option<int>): Result<Option<Record>, Error> {
    if input.restoreRevision.None? || at.None? then Ok(None)
    else if input.content != "" then Err(RestoreNeedsEmptyContent)
    else
      match GetInTx(t, input.scope, at.value, input.restoreRevision)
      case Err(e) => Err(e)
      case Ok(None) => Err(RevisionNotFound)
      case Ok(found) => Ok(found)
  }

  /** What a write will do: nothing but acknowledge an exact duplicate, insert,
      or revise the current record. */
  datatype Plan = Same(id: int, revision: int) | Insert(fields: Fields) | Correct(id: int, fields: Fields)

  function PlanFields(t: Tables, input: WriteInput, at: Option<int>, f: Fields): Result<Plan, Error> {
    match at
    case None =>
      (match First(t, Exact(input.scope, f.memoryType, f.purpose, input.confirmed, HashOf(f), 0))
       case None => Ok(Insert(f))
       case Some(exact) =>
         var r := t.rows[exact].record;
         if r.key != input.key then Err(DedupKeyConflict) else Ok(Same(exact, r.revision)))
    case Some(id) =>
      match Duplicate(t, input.scope, f.memoryType, f.purpose, input.confirmed, HashOf(f), id)
      case Some(other) => Err(DuplicateConflict(other))
      case None => Ok(Correct(id, f))
  }

  function PlanWrite(t: Tables, input: WriteInput): (r: Result<Plan, Error>)
    ensures r.Ok? && r.value.Correct? ==> r.value.id in t.rows
  {
    match Addressed(t, input)
    case Err(e) => Err(e)
    case Ok(at) =>
      var current := RecordAt(t, at);
      match CurrentRefusal(input, current)
      case Some(e) => Err(e)
      case None =>
        match Restored(t, input, at)
        case Err(e) => Err(e)
        case Ok(restored) =>
          match FieldsFor(input, current, restored)
          case Err(e) => Err(e)
          case Ok(f) => PlanFields(t, input, at, f)
  }

  function InsertedRow(id: int, input: WriteInput, f: Fields, now: int): Row {
    Row(Record(id, 1, input.scope, f.content, f.title, f.tags, f.memoryType, f.purpose, input.confirmed,
               input.provenance, input.key, false, now, now),
        HashOf(f), None, "")
  }

  function CorrectedRow(row: Row, input: WriteInput, f: Fields, now: int): Row {
    Row(row.record.(content := f.content, title := f.title, tags := f.tags, memoryType := f.memoryType,
                    purpose := f.purpose, confirmed := input.confirmed, provenance := input.provenance,
                    revision := row.record.revision + 1, updated := now, archived := false),
        HashOf(f), None, "")
  }

  /** A given vector is stored; a restore without one takes the old revision's. */
  function Embedded(row: Row, id: int, history: map<(int, int), Entry>, input: WriteInput, vector: Option<Vector>,
                    model: string): Row {
    if vector.Some? then row.(embedding := vector, model := model)
    else if input.restoreRevision.None? then row
    else
      var at := (id, input.restoreRevision.value);
      if at in history then row.(embedding := history[at].embedding, model := history[at].model)
      else row.(embedding := None, model := "")
  }

  /** The row a plan writes, and the history as it stands before the row's own
      entry is added. */
  function PlannedRow(t: Tables, input: WriteInput, plan: Plan, vector: Option<Vector>, model: string, now: int):
    (Row, map<(int, int), Entry>)
    requires !plan.Same?
    requires plan.Correct? ==> plan.id in t.rows
  {
    var history := if plan.Correct? then Snapshot(t.history, t.rows[plan.id]) else t.history;
    var bare := if plan.Correct? then CorrectedRow(t.rows[plan.id], input, plan.fields, now)
                else InsertedRow(t.sequence + 1, input, plan.fields, now);
    (Embedded(bare, PlannedId(t, plan), history, input, vector, model), history)
  }

  function PlannedId(t: Tables, plan: Plan): int
    requires !plan.Same?
  {
    if plan.Correct? then plan.id else t.sequence + 1
  }

  function Placed(t: Tables, plan: Plan, row: Row, history: map<(int, int), Entry>): Tables
    requires !plan.Same?
  {
    var id := PlannedId(t, plan);
    Tables(t.rows[id := row], Snapshot(history, row), t.receipts, t.index[id := WordsOf(row)],
           if plan.Insert? then t.sequence + 1 else t.sequence)
  }

  /** Retires the other handoffs of the scope when this row is an active one. */
  function Settle(t: Tables, scope: Scope, id: int, handoff: bool, actor: Provenance, now: int): (Tables,
                  Option<Error>) {
    if handoff then RetireHandoffs(t, scope, id, actor, now) else (t, None)
  }

  /** Carries out an insert or a correction. */
  function Save(t: Tables, input: WriteInput, plan: Plan, vector: Option<Vector>, model: string,
                clock: Clock): (Tables, Outcome)
    requires !plan.Same?
    requires plan.Correct? ==> plan.id in t.rows
  {
    var (row, history) := PlannedRow(t, input, plan, vector, model, clock.now);
    var placed := Placed(t, plan, row, history);
    var id := PlannedId(t, plan);
    if !IndexesAccept(placed.rows) then (t, Refused(ConstraintFired))
    else
      var (settled, failure) :=
        Settle(placed, input.scope, id, row.record.purpose == "handoff", input.provenance, clock.retiring);
      if failure.Some? then (t, Refused(failure.value))
      else Acknowledge(settled, input.requestId, OfWrite(input), Receipt(id, row.record.revision, false))
  }

  function WriteTx(t: Tables, input: WriteInput, vector: Option<Vector>, model: string, clock: Clock): (Tables,
                   Outcome) {
    match Replay(t, input.requestId, OfWrite(input))
    case Conflicting => (t, Refused(IdempotencyConflict))
    case Seen(receipt) => (t, Done(receipt))
    case Unseen =>
      match PlanWrite(t, input)
      case Err(e) => (t, Refused(e))
      case Ok(Same(id, revision)) => Acknowledge(t, input.requestId, OfWrite(input), Receipt(id, revision, true))
      case Ok(plan) => Save(t, input, plan, vector, model, clock)
  }

  /** Commit on success, roll back on error. */
  function Commit(t: Tables, result: (Tables, Outcome)): (Tables, Outcome) {
    if result.1.Done? then result else (t, result.1)
  }

  function Write(t: Tables, input: WriteInput, vector: Option<Vector>, model: string, clock: Clock): (Tables, Outcome) {
    match WriteRefusal(input, vector, model)
    case Some(e) => (t, Refused(e))
    case None => Commit(t, WriteTx(t, input, vector, model, clock))
  }

  // ----- Archive -----

  function ArchiveTx(t: Tables, input: ArchiveInput, clock: Clock): (Tables, Outcome) {
    match Replay(t, input.requestId, OfArchive(input))
    case Conflicting => (t, Refused(IdempotencyConflict))
    case Seen(receipt) => (t, Done(receipt))
    case Unseen =>
      match GetInTx(t, input.scope, input.id, None)
      case Err(e) => (t, Refused(e))
      case Ok(None) => (t, Refused(MemoryNotFound))
      case Ok(Some(prior)) =>
        if prior.revision != input.expectedRevision then (t, Refused(RevisionConflict(prior.revision)))
        else
          var was := t.rows[input.id];
          var duplicate :=
            if prior.archived && !input.archived
            then Duplicate(t, prior.scope, prior.memoryType, prior.purpose, prior.confirmed, was.contentHash, input.id)
            else None;
          if duplicate.Some? then (t, Refused(DuplicateConflict(duplicate.value)))
          else
            var row := Revisited(was, input.archived, input.provenance, clock.now);
            var flagged := t.(rows := t.rows[input.id := row], history := Snapshot(Snapshot(t.history, was), row));
            if !IndexesAccept(flagged.rows) then (t, Refused(ConstraintFired))
            else
              var handoff := !input.archived && prior.purpose == "handoff";
              var (settled, failure) :=
                Settle(flagged, prior.scope, input.id, handoff, input.provenance, clock.retiring);
              if failure.Some? then (t, Refused(failure.value))
              else Acknowledge(settled, input.requestId, OfArchive(input), Receipt(input.id, prior.revision + 1, false))
  }

  function Archive(t: Tables, input: ArchiveInput, clock: Clock): (Tables, Outcome) {
    if !KeyOk(input.scope) then (t, Refused(InvalidScope))
    else if !ProvenanceOk(input.provenance) then (t, Refused(InvalidProvenance))
    else if !RequestIdOk(input.requestId) then (t, Refused(InvalidRequestId))
    else Commit(t, ArchiveTx(t, input, clock))
  }

  // ----- Move -----

  predicate MoveOk(input: MoveInput) {
    Bounded(input.requestId, 100) && input.id >= 1 && input.expectedRevision >= 1
  }

  function Target(input: MoveInput): Scope {
    Scope(input.project, input.device, input.platform, false)
  }

  /** The write that makes the copy; an archived holder of the key is revived. */
  function CopyInput(t: Tables, prior: Record, input: MoveInput): Result<WriteInput, Error> {
    var copy := WriteInput(Target(input), prior.content, Some(prior.title), Some(prior.tags), Some(prior.memoryType),
                           prior.purpose, prior.confirmed, prior.provenance, input.requestId + ":copy", prior.key,
                           None, None, None);
    if prior.key.None? then Ok(copy)
    else
      match First(t, KeyHolder(Target(input), prior.key.value))
      case None => Ok(copy)
      case Some(holder) =>
        var h := t.rows[holder].record;
        if !h.archived then Err(MoveTargetExists)
        else Ok(copy.(id := Some(holder), expectedRevision := Some(h.revision)))
  }

  function Moved(id: int, actor: Provenance): Provenance {
    actor.(source := "Moved to memory " + Itoa(id))
  }

  function ArchiveOriginal(prior: Record, input: MoveInput, copyId: int): ArchiveInput {
    ArchiveInput(prior.scope, prior.id, prior.revision, true, input.requestId + ":archive",
                 Moved(copyId, input.provenance))
  }

  /** The memory a move starts from, or why there is none. */
  function MoveSource(t: Tables, input: MoveInput): Result<Record, Error> {
    if input.id !in t.rows then Err(MemoryNotFound)
    else if t.rows[input.id].record.scope.legacy then Err(ScopeUnreadable)
    else
      match GetInTx(t, t.rows[input.id].record.scope, input.id, None)
      case Err(e) => Err(e)
      case Ok(None) => Err(MemoryNotFound)
      case Ok(Some(prior)) =>
        if prior.archived || prior.revision != input.expectedRevision then Err(RevisionConflict(prior.revision))
        else if !Durable(Target(input)) || !KeyOk(Target(input)) then Err(InvalidMoveTarget)
        else if Target(input) == prior.scope then Err(InvalidMoveTarget)
        else Ok(prior)
  }

  function MoveTx(t: Tables, input: MoveInput, vector: Option<Vector>, model: string, copying: Clock,
                  archiving: Clock): (Tables, Outcome) {
    match Replay(t, input.requestId, OfMove(input))
    case Conflicting => (t, Refused(IdempotencyConflict))
    case Seen(receipt) => (t, Done(receipt))
    case Unseen =>
      match MoveSource(t, input)
      case Err(e) => (t, Refused(e))
      case Ok(prior) =>
        match CopyInput(t, prior, input)
        case Err(e) => (t, Refused(e))
        case Ok(copy) =>
          var (copied, outcome) := WriteTx(t, copy, vector, model, copying);
          if outcome.Refused? then (t, outcome)
          else if outcome.receipt.deduplicated then (t, Refused(MoveTargetExists))
          else
            var (archived, result) := ArchiveTx(copied, ArchiveOriginal(prior, input, outcome.receipt.id), archiving);
            if result.Refused? then (t, result)
            else Acknowledge(archived, input.requestId, OfMove(input), outcome.receipt)
  }

  function Move(t: Tables, input: MoveInput, vector: Option<Vector>, model: string, copying: Clock,
                archiving: Clock): (Tables, Outcome) {
    if !ProvenanceOk(input.provenance) then (t, Refused(InvalidProvenance))
    else if !MoveOk(input) then (t, Refused(InvalidMove))
    else Commit(t, MoveTx(t, input, vector, model, copying, archiving))
  }
}
