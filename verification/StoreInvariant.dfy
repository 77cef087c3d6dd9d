/** The invariant of the store: what holds after every committed operation,
    and the lemmas that each kind of step keeps it. */
module StoreInvariant {
  import opened Text
  import opened Records
  import opened StoreSpec

  /** A blank title is never a chosen one: it is the start of the text. */
  predicate TitleRule(r: Record) {
    Blank(r.title) ==> r.title == Prefix(r.content, 80)
  }

  predicate RecordOk(r: Record) {
    && KeyOk(r.scope) && !r.scope.legacy && Durable(r.scope) && TitleRule(r)
    && MemoryTypeOk(r.memoryType) && PurposeOk(r.purpose)
    && Bounded(r.content, 32768) && ByteLen(r.title) <= 512 && ByteLen(r.tags) <= 2048
  }

  predicate RowOk(id: int, row: Row) {
    && row.record.id == id && row.record.revision >= 1 && RecordOk(row.record)
    && row.contentHash == [row.record.content, row.record.title, row.record.tags]
  }

  /** Rows are well formed and issued ids only. */
  ghost predicate RowsOk(t: Tables) {
    && t.sequence >= 0
    && forall id | id in t.rows :: 1 <= id <= t.sequence && RowOk(id, t.rows[id])
  }

  /** What never changes along a memory's revisions. */
  predicate Kin(a: Record, b: Record) {
    a.id == b.id && a.scope == b.scope && a.key == b.key && a.created == b.created
  }

  /** History is gap-free up to the live revision and ends in the live row. */
  ghost predicate HistoryOk(t: Tables) {
    && (forall id, rev | (id, rev) in t.history ::
          id in t.rows && 1 <= rev <= t.rows[id].record.revision && t.history[(id, rev)].record.revision == rev
          && Kin(t.history[(id, rev)].record, t.rows[id].record) && RecordOk(t.history[(id, rev)].record))
    && (forall id, rev | id in t.rows && 1 <= rev <= t.rows[id].record.revision :: (id, rev) in t.history)
    && (forall id | id in t.rows ::
          (id, t.rows[id].record.revision) in t.history
          && t.history[(id, t.rows[id].record.revision)] ==
             Entry(t.rows[id].record, t.rows[id].embedding, t.rows[id].model))
  }

  /** Once confirmed, every later revision is. */
  ghost predicate ConfirmationKept(t: Tables) {
    forall id, a, b | (id, a) in t.history && (id, b) in t.history && a <= b ::
      t.history[(id, a)].record.confirmed ==> t.history[(id, b)].record.confirmed
  }

  /** The full-text index holds exactly the words of each row. */
  ghost predicate WordsIndexed(t: Tables) {
    && t.index.Keys == t.rows.Keys
    && forall id | id in t.rows ::
         var r := t.rows[id].record; t.index[id] == Words(r.title, r.content, r.tags)
  }

  /** The text and metadata a write asked for. */
  predicate TextAsked(input: WriteInput, content: string, title: string, tags: string, memoryType: string,
                      purpose: string)
  {
    && content == input.content && purpose == input.purpose
    && (input.tags.Some? ==> tags == input.tags.value)
    && (input.memoryType.Some? ==> memoryType == input.memoryType.value)
    && (input.title.Some? ==>
          title == if Blank(input.title.value) then Prefix(input.content, 80) else input.title.value)
  }

  /** An active record that is what a write asked for, whoever wrote it. */
  predicate AsAsked(input: WriteInput, r: Record) {
    && r.scope == input.scope && r.confirmed == input.confirmed && !r.archived
    && (input.key.Some? || input.id.None? ==> r.key == input.key)
    && (input.restoreRevision.None? ==> TextAsked(input, r.content, r.title, r.tags, r.memoryType, r.purpose))
  }

  /** The revision a receipt names is what the acknowledged request asked for:
      an archive's is the one revision that archive made. */
  predicate Filed(a: Acknowledged, r: Record) {
    match a.payload
    case OfWrite(input) => AsAsked(input, r) && (!a.receipt.deduplicated ==> r.provenance == input.provenance)
    case OfArchive(input) =>
      && a.receipt == Receipt(input.id, input.expectedRevision + 1, false)
      && r.scope == input.scope && r.archived == input.archived && r.provenance == input.provenance
    case OfMove(input) => r.scope == Target(input) && !r.archived && !a.receipt.deduplicated
  }

  function Named(receipt: Receipt): (int, int) {
    (receipt.id, receipt.revision)
  }

  /** Every receipt names a revision that can be read, and that is as asked. */
  ghost predicate ReceiptsOk(t: Tables) {
    forall q | q in t.receipts ::
      Named(t.receipts[q].receipt) in t.history
      && Filed(t.receipts[q], t.history[Named(t.receipts[q].receipt)].record)
  }

  predicate ActiveHandoff(row: Row) {
    !row.record.archived && row.record.purpose == "handoff"
  }

  /** At most one active handoff in each scope, leaving one row out of account. */
  predicate OneHandoffApart(rows: map<int, Row>, except: int) {
    forall a, b | a in rows && b in rows && a != except && b != except
                  && ActiveHandoff(rows[a]) && ActiveHandoff(rows[b])
                  && rows[a].record.scope == rows[b].record.scope :: a == b
  }

  predicate OneHandoff(rows: map<int, Row>) {
    forall a, b | a in rows && b in rows && ActiveHandoff(rows[a]) && ActiveHandoff(rows[b])
                  && rows[a].record.scope == rows[b].record.scope :: a == b
  }

  /** Everything but the rule of one handoff, which a transaction may suspend. */
  ghost predicate Core(t: Tables) {
    RowsOk(t) && HistoryOk(t) && ConfirmationKept(t) && WordsIndexed(t) && ReceiptsOk(t) && IndexesAccept(t.rows)
  }

  ghost predicate Inv(t: Tables) {
    Core(t) && OneHandoff(t.rows)
  }

  /** t' can follow t: nothing recorded is lost or altered. */
  ghost predicate Later(t: Tables, t': Tables) {
    && t.sequence <= t'.sequence
    && (forall at | at in t.history :: at in t'.history && t'.history[at] == t.history[at])
    && (forall q | q in t.receipts :: q in t'.receipts && t'.receipts[q] == t.receipts[q])
    && (forall id | id in t.rows :: id in t'.rows && t.rows[id].record.revision <= t'.rows[id].record.revision)
  }

  lemma LaterSelf(t: Tables)
    ensures Later(t, t)
  {
  }

  lemma LaterChain(a: Tables, b: Tables, c: Tables)
    requires Later(a, b) && Later(b, c)
    ensures Later(a, c)
  {
  }

  // ----- one row revised -----

  /** row is a lawful next revision of was. */
  predicate Succeeds(id: int, was: Row, row: Row) {
    && RowOk(id, row) && Kin(was.record, row.record) && row.record.revision == was.record.revision + 1
    && (was.record.confirmed ==> row.record.confirmed)
  }

  function Revise(t: Tables, id: int, row: Row): Tables
    requires id in t.rows
  {
    t.(rows := t.rows[id := row], history := Snapshot(Snapshot(t.history, t.rows[id]), row),
       index := t.index[id := WordsOf(row)])
  }

  /** OR IGNORE never hides a differing entry: the old revision is recorded
      already and the new one is not. */
  lemma ReviseHistory(t: Tables, id: int, row: Row)
    requires RowsOk(t) && HistoryOk(t) && id in t.rows && Succeeds(id, t.rows[id], row)
    ensures (id, row.record.revision) !in t.history
    ensures Snapshot(t.history, t.rows[id]) == t.history
    ensures Revise(t, id, row).history == t.history[(id, row.record.revision) := EntryOf(row)]
  {
  }

  lemma ReviseKeepsHistory(t: Tables, id: int, row: Row)
    requires RowsOk(t) && HistoryOk(t) && ConfirmationKept(t) && id in t.rows && Succeeds(id, t.rows[id], row)
    ensures HistoryOk(Revise(t, id, row)) && ConfirmationKept(Revise(t, id, row))
  {
    hide RecordOk, HistoryOk, ConfirmationKept, RowsOk;
    ReviseHistory(t, id, row);
    HistoryExtended(t, id, row);
    ConfirmationExtended(t, id, row);
  }

  lemma HistoryExtended(t: Tables, id: int, row: Row)
    requires HistoryOk(t) && id in t.rows && Succeeds(id, t.rows[id], row)
    requires Revise(t, id, row).history == t.history[(id, row.record.revision) := EntryOf(row)]
    ensures HistoryOk(Revise(t, id, row))
  {
    hide RecordOk, Snapshot;
    var n := Revise(t, id, row);
    forall i, rev | (i, rev) in n.history
      ensures i in n.rows && 1 <= rev <= n.rows[i].record.revision && n.history[(i, rev)].record.revision == rev
      ensures Kin(n.history[(i, rev)].record, n.rows[i].record) && RecordOk(n.history[(i, rev)].record)
    {
      if (i, rev) != (id, row.record.revision) {
        assert (i, rev) in t.history;
      }
    }
    forall i, rev | i in n.rows && 1 <= rev <= n.rows[i].record.revision ensures (i, rev) in n.history {
      assert (i, rev) == (id, row.record.revision) || (i, rev) in t.history;
    }
  }

  lemma ConfirmationExtended(t: Tables, id: int, row: Row)
    requires HistoryOk(t) && ConfirmationKept(t) && id in t.rows && Succeeds(id, t.rows[id], row)
    requires Revise(t, id, row).history == t.history[(id, row.record.revision) := EntryOf(row)]
    ensures ConfirmationKept(Revise(t, id, row))
  {
    hide RecordOk, Snapshot, Kin;
    var n := Revise(t, id, row);
    forall i, a, b | (i, a) in n.history && (i, b) in n.history && a <= b && n.history[(i, a)].record.confirmed
      ensures n.history[(i, b)].record.confirmed
    {
      if i == id && b == row.record.revision && a < b {
        assert (id, t.rows[id].record.revision) in t.history;
      }
    }
  }

  lemma ReviseKeeps(t: Tables, id: int, row: Row)
    requires Core(t) && id in t.rows && Succeeds(id, t.rows[id], row)
    requires IndexesAccept(t.rows[id := row])
    ensures Core(Revise(t, id, row)) && Later(t, Revise(t, id, row))
  {
    hide HistoryOk, ConfirmationKept, RowsOk, WordsIndexed, ReceiptsOk, IndexesAccept, Later, Succeeds;
    ReviseHistory(t, id, row);
    ReviseKeepsHistory(t, id, row);
    ReviseRows(t, id, row);
    ReviseWords(t, id, row);
    ReviseLedger(t, id, row);
  }

  lemma ReviseRows(t: Tables, id: int, row: Row)
    requires RowsOk(t) && id in t.rows && Succeeds(id, t.rows[id], row)
    ensures RowsOk(Revise(t, id, row))
  {
    hide RowOk, Snapshot;
  }

  lemma ReviseWords(t: Tables, id: int, row: Row)
    requires WordsIndexed(t) && id in t.rows
    ensures WordsIndexed(Revise(t, id, row))
  {
    hide Snapshot;
  }

  /** A longer history and the same receipts: what was readable stays so. */
  lemma ReviseLedger(t: Tables, id: int, row: Row)
    requires ReceiptsOk(t) && id in t.rows && Succeeds(id, t.rows[id], row)
    requires Revise(t, id, row).history == t.history[(id, row.record.revision) := EntryOf(row)]
    requires (id, row.record.revision) !in t.history
    ensures ReceiptsOk(Revise(t, id, row)) && Later(t, Revise(t, id, row))
  {
    hide Snapshot, EntryOf, RowOk, Kin, Filed;
  }

  // ----- one row inserted -----

  function Inserted(t: Tables, row: Row): Tables {
    var id := t.sequence + 1;
    Tables(t.rows[id := row], Snapshot(t.history, row), t.receipts, t.index[id := WordsOf(row)], id)
  }

  lemma InsertHistory(t: Tables, row: Row)
    requires RowsOk(t) && HistoryOk(t) && ConfirmationKept(t)
    requires RowOk(t.sequence + 1, row) && row.record.revision == 1
    ensures (t.sequence + 1, 1) !in t.history
    ensures Inserted(t, row).history == t.history[(t.sequence + 1, 1) := EntryOf(row)]
    ensures HistoryOk(Inserted(t, row)) && ConfirmationKept(Inserted(t, row))
  {
    hide RecordOk;
    assert (t.sequence + 1, 1) !in t.history;
  }

  lemma InsertKeeps(t: Tables, row: Row)
    requires Core(t) && RowOk(t.sequence + 1, row) && row.record.revision == 1
    requires IndexesAccept(t.rows[t.sequence + 1 := row])
    ensures Core(Inserted(t, row)) && Later(t, Inserted(t, row))
  {
    hide HistoryOk, ConfirmationKept, IndexesAccept, RowOk, Snapshot, EntryOf, Filed;
    InsertHistory(t, row);
  }

  // ----- the two indexes -----

  /** Archiving a row, or changing nothing an index looks at, cannot collide. */
  lemma FewerActiveAccepted(rows: map<int, Row>, id: int, row: Row)
    requires IndexesAccept(rows) && id in rows
    requires row.record.scope == rows[id].record.scope && row.record.key == rows[id].record.key
    requires row.record.archived ||
             (!rows[id].record.archived && row.record.memoryType == rows[id].record.memoryType
              && row.record.purpose == rows[id].record.purpose && row.record.confirmed == rows[id].record.confirmed
              && row.contentHash == rows[id].contentHash)
    ensures IndexesAccept(rows[id := row])
  {
    var n := rows[id := row];
    forall a, b | a in n && b in n && SameExact(n[a], n[b]) ensures a == b {
      assert SameExact(rows[a], rows[b]);
    }
    forall a, b | a in n && b in n && SameKey(n[a], n[b]) ensures a == b {
      assert SameKey(rows[a], rows[b]);
    }
  }

  /** The duplicate check leaves room for the row in idx_memory_exact. */
  lemma NoDuplicateAccepted(t: Tables, id: int, row: Row)
    requires RowsOk(t) && IndexesAccept(t.rows) && !row.record.scope.legacy
    requires id in t.rows ==> t.rows[id].record.scope == row.record.scope && t.rows[id].record.key == row.record.key
    requires id !in t.rows && row.record.key.Some? ==> First(t, KeyHolder(row.record.scope, row.record.key.value)).None?
    requires First(t, Exact(row.record.scope, row.record.memoryType, row.record.purpose, row.record.confirmed,
                            row.contentHash, id)).None?
    ensures IndexesAccept(t.rows[id := row])
  {
    var n := t.rows[id := row];
    var r := row.record;
    var q := Exact(r.scope, r.memoryType, r.purpose, r.confirmed, row.contentHash, id);
    forall a, b | a in n && b in n && SameExact(n[a], n[b]) ensures a == b {
      if a != id && b != id {
        assert SameExact(t.rows[a], t.rows[b]);
      } else if a != b {
        var other := if a == id then b else a;
        assert Matches(other, t.rows[other], q);
      }
    }
    forall a, b | a in n && b in n && SameKey(n[a], n[b]) ensures a == b {
      if (a != id && b != id) || id in t.rows {
        assert SameKey(t.rows[a], t.rows[b]);
      } else if a != b {
        var other := if a == id then b else a;
        assert Matches(other, t.rows[other], KeyHolder(row.record.scope, row.record.key.value));
      }
    }
  }

  // ----- retiring handoffs -----

  lemma RevisitedSucceeds(id: int, row: Row, archived: bool, note: Provenance, now: int)
    requires RowOk(id, row)
    ensures Succeeds(id, row, Revisited(row, archived, note, now))
  {
  }

  lemma RetireOneKeeps(t: Tables, id: int, note: Provenance, now: int)
    requires Core(t) && id in t.rows
    ensures var n := RetireOne(t, id, note, now);
            IndexesAccept(n.rows) && Core(n) && Later(t, n)
  {
    hide HistoryOk, ConfirmationKept, ReceiptsOk, IndexesAccept, Later, RowOk, Succeeds, Snapshot;
    var row := Revisited(t.rows[id], true, note, now);
    assert RowOk(id, t.rows[id]);
    RevisitedSucceeds(id, t.rows[id], true, note, now);
    FewerActiveAccepted(t.rows, id, row);
    ReviseKeeps(t, id, row);
    assert t.index[id := WordsOf(row)] == t.index;
    assert RetireOne(t, id, note, now) == Revise(t, id, row);
  }

  /** Exactly the listed rows are archived, one revision later, under the note. */
  ghost predicate Retired(t: Tables, n: Tables, ids: seq<int>, note: Provenance, now: int) {
    && n.receipts == t.receipts && n.sequence == t.sequence && n.rows.Keys == t.rows.Keys
    && forall id | id in t.rows ::
         n.rows[id] == if id in ids then Revisited(t.rows[id], true, note, now) else t.rows[id]
  }

  /** Retiring archives exactly the listed rows and never fails. */
  lemma {:induction false} RetireEachKeeps(t: Tables, ids: seq<int>, note: Provenance, now: int)
    requires Core(t) && forall id | id in ids :: id in t.rows
    requires forall i, j | 0 <= i < j < |ids| :: ids[i] < ids[j]
    ensures var (n, failure) := RetireEach(t, ids, note, now);
            failure.None? && Core(n) && Later(t, n) && Retired(t, n, ids, note, now)
    decreases |ids|
  {
    hide Core, Later, Revisited, IndexesAccept, RetireOne;
    if ids != [] {
      RetireOneKeeps(t, ids[0], note, now);
      RetiredOne(t, ids[0], note, now);
      var next := RetireOne(t, ids[0], note, now);
      RetireEachKeeps(next, ids[1..], note, now);
      var n := RetireEach(t, ids, note, now).0;
      LaterChain(t, next, n);
      RetiredChain(t, next, n, ids, note, now);
    } else {
      LaterSelf(t);
    }
  }

  lemma RetiredOne(t: Tables, id: int, note: Provenance, now: int)
    requires id in t.rows
    ensures Retired(t, RetireOne(t, id, note, now), [id], note, now)
  {
    hide Revisited;
  }

  lemma RetiredChain(t: Tables, next: Tables, n: Tables, ids: seq<int>, note: Provenance, now: int)
    requires ids != [] && forall i | 1 <= i < |ids| :: ids[0] < ids[i]
    requires Retired(t, next, [ids[0]], note, now) && Retired(next, n, ids[1..], note, now)
    ensures Retired(t, n, ids, note, now)
  {
    forall id | id in t.rows
      ensures n.rows[id] == if id in ids then Revisited(t.rows[id], true, note, now) else t.rows[id]
    {
      assert id in ids <==> id == ids[0] || id in ids[1..];
      assert ids[0] !in ids[1..];
      assert id in [ids[0]] <==> id == ids[0];
    }
  }

  /** The rows besides one: unchanged, but where that one is a new handoff the
      active handoffs of its scope are archived with a note naming it. */
  ghost predicate OthersKept(rows: map<int, Row>, rows': map<int, Row>, scope: Scope, id: int, handoff: bool,
                             actor: Provenance, now: int) {
    && rows'.Keys == rows.Keys + {id}
    && forall other | other in rows && other != id ::
         rows'[other] == if handoff && ActiveHandoff(rows[other]) && rows[other].record.scope == scope
                         then Revisited(rows[other], true, Replacing(id, actor), now) else rows[other]
  }
}
