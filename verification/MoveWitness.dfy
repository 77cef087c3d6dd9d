/** A run in which a successful move leaves no active copy, because the request
    ID it derives had been used: the case MoveExact excludes does occur. */
module MoveWitness {
  import opened Text
  import opened Records
  import opened StoreSpec
  import opened StoreRuns

  const HERE := Scope(None, Some("d"), None, false)
  const THERE := Scope(None, None, None, false)
  const AUTHOR := Provenance("h", "d", "s")
  const CLOCK := Clock(0, 0)

  const FIRST := WriteInput(HERE, "x", None, None, None, "lesson", false, AUTHOR, "w", None, None, None, None)
  const COPY := WriteInput(THERE, "x", Some("x"), Some(""), Some("knowledge"), "lesson", false, AUTHOR, "m:copy",
                           None, None, None, None)
  const HIDE_COPY := ArchiveInput(THERE, 2, 1, true, "a", AUTHOR)
  const MOVE := MoveInput(1, 1, None, None, None, "m", AUTHOR)

  function RowFor(id: int, revision: int, scope: Scope, provenance: Provenance, archived: bool): Row {
    Row(Record(id, revision, scope, "x", "x", "", "knowledge", "lesson", false, provenance, None, archived, 0, 0),
        ["x", "x", ""], None, "")
  }

  const ROW1 := RowFor(1, 1, HERE, AUTHOR, false)
  const ROW2 := RowFor(2, 1, THERE, AUTHOR, false)
  const ROW2_ARCHIVED := RowFor(2, 2, THERE, AUTHOR, true)
  const WORDS := Words("x", "x", "")

  const T1 := Tables(map[1 := ROW1], map[(1, 1) := EntryOf(ROW1)],
                     map["w" := Acknowledged(OfWrite(FIRST), Receipt(1, 1, false))],
                     map[1 := WORDS], 1)
  const T2 := Tables(map[1 := ROW1, 2 := ROW2], map[(1, 1) := EntryOf(ROW1), (2, 1) := EntryOf(ROW2)],
                     T1.receipts["m:copy" := Acknowledged(OfWrite(COPY), Receipt(2, 1, false))],
                     map[1 := WORDS, 2 := WORDS], 2)
  const T3 := T2.(rows := map[1 := ROW1, 2 := ROW2_ARCHIVED], history := T2.history[(2, 2) := EntryOf(ROW2_ARCHIVED)],
                  receipts := T2.receipts["a" := Acknowledged(OfArchive(HIDE_COPY), Receipt(2, 2, false))])

  lemma OneLetter(c: char)
    requires c in "hdsxwma"
    ensures Bounded([c], 1) && !Blank([c]) && ByteLen([c]) == 1 && !HasControl([c])
  {
    assert [c][1..] == "";
    assert !IsSpace([c][0]);
  }

  lemma CopyRequestOk()
    ensures RequestIdOk("m:copy")
  {
    var s := "m:copy";
    assert !IsSpace(s[0]);
    assert s[1..] == ":copy" && s[1..][1..] == "copy";
    assert "copy"[1..] == "opy" && "opy"[1..] == "py" && "py"[1..] == "y" && "y"[1..] == "";
    assert ByteLen("y") == 1 && ByteLen("py") == 2 && ByteLen("opy") == 3;
    assert ByteLen("copy") == 4 && ByteLen(":copy") == 5;
  }

  lemma Letters()
    ensures ProvenanceOk(AUTHOR) && KeyOk(HERE) && KeyOk(THERE) && RequestIdOk("w") && RequestIdOk("a")
    ensures RequestIdOk("m:copy") && Bounded("m", 100) && Bounded("x", 32768) && Prefix("x", 80) == "x" && !Blank("x")
    ensures ByteLen("x") == 1 && ByteLen("") == 0
  {
    hide Blank, HasControl;
    OneLetter('h'); OneLetter('d'); OneLetter('s'); OneLetter('x'); OneLetter('w'); OneLetter('a'); OneLetter('m');
    CopyRequestOk();
  }

  lemma FirstStep()
    ensures Write(EMPTY, FIRST, None, "", CLOCK) == (T1, Done(Receipt(1, 1, false)))
  {
    hide Bounded, KeyOk, ByteLen, Blank, Prefix, ProvenanceOk, RequestIdOk, First;
    Letters();
    var f := Fields("x", "x", "", "knowledge", "lesson");
    assert FieldsFor(FIRST, None, None) == Ok(f);
    assert PlanWrite(EMPTY, FIRST) == Ok(Insert(f));
  }

  lemma SecondPlan()
    ensures PlanWrite(T1, COPY) == Ok(Insert(Fields("x", "x", "", "knowledge", "lesson")))
  {
    hide Bounded, KeyOk, ByteLen, Blank, Prefix;
    Letters();
    var f := Fields("x", "x", "", "knowledge", "lesson");
    assert FieldsFor(COPY, None, None) == Ok(f);
    assert First(T1, Exact(THERE, "knowledge", "lesson", false, HashOf(f), 0)).None?;
  }

  lemma SecondTx()
    ensures WriteTx(T1, COPY, None, "", CLOCK) == (T2, Done(Receipt(2, 1, false)))
  {
    hide PlanWrite, IndexesAccept;
    SecondPlan();
    Accepted(T2.rows);
    assert T1.rows[2 := ROW2] == T2.rows;
  }

  lemma SecondStep()
    ensures Write(T1, COPY, None, "", CLOCK) == (T2, Done(Receipt(2, 1, false)))
  {
    hide Bounded, KeyOk, ByteLen, Blank, Prefix, ProvenanceOk, RequestIdOk, WriteTx;
    Letters();
    SecondTx();
  }

  /** Two rows in the two scopes never collide. */
  lemma Accepted(rows: map<int, Row>)
    requires rows.Keys == {1, 2} && rows[1].record.scope == HERE && rows[2].record.scope == THERE
    ensures IndexesAccept(rows)
  {
  }

  lemma ThirdStep()
    ensures Archive(T2, HIDE_COPY, CLOCK) == (T3, Done(Receipt(2, 2, false)))
  {
    hide Bounded, KeyOk, ByteLen, Blank, ProvenanceOk, RequestIdOk, First, ArchiveTx;
    Letters();
    ThirdTx();
  }

  /** Archiving a live row that no index keeps from it, step by step. */
  lemma Archiving(t: Tables, input: ArchiveInput, clock: Clock)
    requires input.id in t.rows && input.requestId !in t.receipts && input.archived && KeyOk(input.scope)
    requires t.rows[input.id].record.scope == input.scope
    requires t.rows[input.id].record.revision == input.expectedRevision
    requires var row := Revisited(t.rows[input.id], true, input.provenance, clock.now);
             IndexesAccept(t.rows[input.id := row])
    ensures var row := Revisited(t.rows[input.id], true, input.provenance, clock.now);
            var receipt := Receipt(input.id, input.expectedRevision + 1, false);
            ArchiveTx(t, input, clock) ==
              (t.(rows := t.rows[input.id := row], history := Snapshot(Snapshot(t.history, t.rows[input.id]), row),
                  receipts := t.receipts[input.requestId := Acknowledged(OfArchive(input), receipt)]),
               Done(receipt))
  {
    hide KeyOk, IndexesAccept, Snapshot;
  }

  lemma ThirdHistory()
    ensures Snapshot(Snapshot(T2.history, ROW2), ROW2_ARCHIVED) == T3.history
  {
    assert (2, 1) in T2.history && (2, 2) !in T2.history;
  }

  lemma ThirdRows()
    ensures Revisited(ROW2, true, AUTHOR, 0) == ROW2_ARCHIVED && T2.rows[2 := ROW2_ARCHIVED] == T3.rows
    ensures IndexesAccept(T3.rows)
  {
    Accepted(T3.rows);
  }

  lemma ThirdTx()
    ensures ArchiveTx(T2, HIDE_COPY, CLOCK) == (T3, Done(Receipt(2, 2, false)))
  {
    hide KeyOk, IndexesAccept, ArchiveTx, Snapshot, Revisited;
    Letters();
    ThirdRows();
    ThirdHistory();
    Archiving(T2, HIDE_COPY, CLOCK);
  }

  // ----- the move -----

  lemma Source(t: Tables)
    requires 1 in t.rows && t.rows[1] == ROW1
    ensures MoveSource(t, MOVE) == Ok(ROW1.record) && CopyInput(t, ROW1.record, MOVE) == Ok(COPY)
  {
    hide KeyOk, First, Moved;
    Letters();
    assert "m" + ":copy" == "m:copy";
  }

  /** Whatever the copy is, archiving the original goes through. */
  lemma OriginalArchived(t: Tables)
    requires t.rows.Keys == {1, 2} && t.rows[1] == ROW1 && t.rows[2].record.scope == THERE
    requires "m:archive" !in t.receipts
    ensures var (n, outcome) := ArchiveTx(t, ArchiveOriginal(ROW1.record, MOVE, 2), CLOCK);
            outcome.Done? && n.rows.Keys == {1, 2} && n.rows[1].record.archived && n.rows[2] == t.rows[2]
            && n.receipts.Keys == t.receipts.Keys + {"m:archive"}
  {
    hide KeyOk, IndexesAccept, ArchiveTx, Snapshot, Moved;
    Letters();
    var filed := ArchiveOriginal(ROW1.record, MOVE, 2);
    assert filed.requestId == "m:archive" by { assert "m" + ":archive" == "m:archive"; }
    Accepted(t.rows[1 := Revisited(ROW1, true, filed.provenance, 0)]);
    Archiving(t, filed, CLOCK);
  }

  /** A move of memory 1 once its copying write is known to be answered. */
  lemma MoveGoesOn(t: Tables, copied: Tables)
    requires 1 in t.rows && t.rows[1] == ROW1 && "m" !in t.receipts && "m" !in copied.receipts
    requires WriteTx(t, COPY, None, "", CLOCK) == (copied, Done(Receipt(2, 1, false)))
    requires copied.rows.Keys == {1, 2} && copied.rows[1] == ROW1 && copied.rows[2].record.scope == THERE
    requires "m:archive" !in copied.receipts
    ensures var (n, outcome) := Move(t, MOVE, None, "", CLOCK, CLOCK);
            outcome == Done(Receipt(2, 1, false)) && n.rows.Keys == {1, 2} && n.rows[1].record.archived
            && n.rows[2] == copied.rows[2]
  {
    hide Bounded, ProvenanceOk, MoveSource, CopyInput, WriteTx, ArchiveTx, ArchiveOriginal;
    Letters();
    Source(t);
    OriginalArchived(copied);
  }

  /** The copying write has been used up, so the move is answered with it. */
  lemma LastStep()
    ensures var (n, outcome) := Move(T3, MOVE, None, "", CLOCK, CLOCK);
            outcome == Done(Receipt(2, 1, false)) && n.rows.Keys == {1, 2}
            && n.rows[1].record.archived && n.rows[2].record.archived
  {
    hide Move, PlanWrite;
    assert WriteTx(T3, COPY, None, "", CLOCK) == (T3, Done(Receipt(2, 1, false)));
    MoveGoesOn(T3, T3);
  }

  /** Moved at once, with that request ID unused: one fresh active copy and an
      archived original, so the ordinary case of MoveExact occurs too. */
  lemma FreshMove()
    ensures var (n, outcome) := Move(T1, MOVE, None, "", CLOCK, CLOCK);
            outcome == Done(Receipt(2, 1, false)) && n.rows.Keys == {1, 2}
            && n.rows[1].record.archived && n.rows[2] == ROW2
  {
    hide Move, WriteTx;
    SecondTx();
    MoveGoesOn(T1, T2);
  }

  /** Written, copied by hand under the derived request ID, the copy archived,
      then moved: the move succeeds and neither memory is active. */
  lemma MoveCanLoseTheMemory()
    ensures var calls :=
              [CallWrite(FIRST, None, "", CLOCK), CallWrite(COPY, None, "", CLOCK), CallArchive(HIDE_COPY, CLOCK)];
            var (n, outcome) := Apply(Run(EMPTY, calls), CallMove(MOVE, None, "", CLOCK, CLOCK));
            outcome.Done? && forall id | id in n.rows :: n.rows[id].record.archived
  {
    hide Write, Archive, Move;
    var calls := [CallWrite(FIRST, None, "", CLOCK), CallWrite(COPY, None, "", CLOCK), CallArchive(HIDE_COPY, CLOCK)];
    FirstStep();
    SecondStep();
    ThirdStep();
    assert calls[1..] == [CallWrite(COPY, None, "", CLOCK), CallArchive(HIDE_COPY, CLOCK)];
    assert calls[1..][1..] == [CallArchive(HIDE_COPY, CLOCK)];
    assert calls[1..][1..][1..] == [];
    assert Run(T2, calls[1..][1..]) == T3;
    assert Run(EMPTY, calls) == T3;
    LastStep();
  }
}
