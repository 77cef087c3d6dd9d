/** The values the memory store keeps: scopes, records, receipts and the five
    tables of the database. */
module Records {
  import opened Text

  /** Project, device and platform of a memory; None leaves a dimension open. */
  datatype Scope = Scope(project: Option<string>, device: Option<string>, platform: Option<string>, legacy: bool)

  predicate IdentifierOk(value: Option<string>) {
    value.Some? ==> !Blank(value.value) && ByteLen(value.value) <= 512 && !HasControl(value.value)
  }

  predicate ProjectOk(project: string) {
    (forall i | 0 <= i < |project| :: project[i] !in "@?#\\") && !Contains(project, "://")
  }

  /** Scope.Key accepts the scope. The key itself is a one-to-one rendering, so
      a valid scope stands for its own key. */
  predicate KeyOk(s: Scope) {
    if s.legacy then s.project.None? && s.device.None? && s.platform.None?
    else
      && IdentifierOk(s.project) && IdentifierOk(s.device)
      && (s.project.Some? ==> ProjectOk(s.project.value))
      && (s.platform.Some? ==> s.platform.value in {"macos", "windows", "linux"})
  }

  /** New project records need an identity that survives clone paths. */
  predicate Durable(s: Scope) {
    s.project.Some? ==>
      var p := s.project.value;
      || ("id:" <= p && |p| > 3)
      || ("git:" <= p && |p| > 4 && '/' in p[4..])
  }

  datatype Provenance = Provenance(harness: string, device: string, source: string)

  predicate Bounded(value: string, limit: nat) {
    !Blank(value) && ByteLen(value) <= limit
  }

  predicate ProvenanceOk(p: Provenance) {
    Bounded(p.harness, 2048) && Bounded(p.device, 2048) && Bounded(p.source, 2048)
  }

  /** One coordinate of an embedding; Go's NaN and infinities are NotFinite. */
  datatype Component = Finite(value: real) | NotFinite

  type Vector = seq<Component>

  datatype Record = Record(
    id: int, revision: int, scope: Scope, content: string, title: string, tags: string,
    memoryType: string, purpose: string, confirmed: bool, provenance: Provenance,
    key: Option<string>, archived: bool, created: int, updated: int)

  /** A row of the chunks table. The digest of content, title and tags is taken
      as one-to-one, so the column holds the digested list. */
  datatype Row = Row(record: Record, contentHash: seq<string>, embedding: Option<Vector>, model: string)

  /** A row of memory_revisions. */
  datatype Entry = Entry(record: Record, embedding: Option<Vector>, model: string)

  /** The indexed columns of chunks_fts. */
  datatype Words = Words(title: string, content: string, tags: string)

  datatype Receipt = Receipt(id: int, revision: int, deduplicated: bool)

  /** A revision of a memory, named without its content. */
  datatype Reference = Reference(id: int, revision: int, scope: Scope)

  datatype WriteInput = WriteInput(
    scope: Scope, content: string, title: Option<string>, tags: Option<string>, memoryType: Option<string>,
    purpose: string, confirmed: bool, provenance: Provenance, requestId: string, key: Option<string>,
    id: Option<int>, expectedRevision: Option<int>, restoreRevision: Option<int>)

  datatype ArchiveInput = ArchiveInput(
    scope: Scope, id: int, expectedRevision: int, archived: bool, requestId: string, provenance: Provenance)

  datatype MoveInput = MoveInput(
    id: int, expectedRevision: int, project: Option<string>, device: Option<string>, platform: Option<string>,
    requestId: string, provenance: Provenance)

  /** What a fingerprint is a digest of; the digest is taken as one-to-one. */
  datatype Payload = OfWrite(write: WriteInput) | OfArchive(archive: ArchiveInput) | OfMove(move: MoveInput)

  /** A row of memory_requests. */
  datatype Acknowledged = Acknowledged(payload: Payload, receipt: Receipt)

  datatype Error =
    | InvalidScope | NotDurable | LegacyTarget | InvalidProvenance | InvalidRequestId | InvalidPurpose
    | InvalidKey | InvalidEmbedding | IdempotencyConflict | MemoryNotFound | RevisionConflict(current: int)
    | NoExistingRecord | ConfirmationConflict | KeyImmutable | RestoreNeedsEmptyContent | RevisionNotFound
    | RevisionScopeMismatch | ScopeUnreadable | InvalidContent | MetadataTooLarge | InvalidMemoryType | DedupKeyConflict
    | DuplicateConflict(other: int) | InvalidMove | InvalidMoveTarget | MoveTargetExists
    | ConstraintFired  // a unique index or primary key of the database refused the statement

  datatype Outcome = Done(receipt: Receipt) | Refused(error: Error)

  /** `sequence` is AUTOINCREMENT's last issued id. */
  datatype Tables = Tables(
    rows: map<int, Row>, history: map<(int, int), Entry>, receipts: map<string, Acknowledged>,
    index: map<int, Words>, sequence: int)

  /** What CreateEmpty leaves behind. */
  const EMPTY := Tables(map[], map[], map[], map[], 0)

  /** The readings of the clock one call makes: for its own row, and for the
      handoffs it retires. */
  datatype Clock = Clock(now: int, retiring: int)
}
