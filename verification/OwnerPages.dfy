/** The owner's paged list: what is listed, what one page holds, and what
    following `next` yields while the store keeps changing. */
module OwnerPages {
  import opened Text
  import opened Records
  import opened Lists
  import opened StoreInvariant
  import opened StoreRuns
  import opened Startup

  /** The owner's view filter. */
  datatype Browse = Browse(scope: Scope, allProjects: bool, view: string, purpose: string)

  predicate BrowseOk(b: Browse) {
    && KeyOk(b.scope) && !b.scope.legacy
    && b.view in {"", "review", "archived"}
    && b.purpose in {"", "preference", "decision", "lesson", "handoff", "observation"}
  }

  predicate InView(r: Record, b: Browse) {
    && (b.purpose == "" || r.purpose == b.purpose)
    && (if b.view == "review" then !r.archived && !r.confirmed && r.purpose != "handoff"
        else if b.view == "archived" then r.archived else !r.archived)
  }

  /** Each dimension is independent: unset, or not excluded by the owner's choice. */
  predicate InOwnerScope(s: Scope, b: Browse) {
    && !s.legacy
    && (s.project.None? || b.allProjects || (b.scope.project.Some? && s.project == b.scope.project))
    && (b.scope.device.None? || s.device.None? || s.device == b.scope.device)
    && (b.scope.platform.None? || s.platform.None? || s.platform == b.scope.platform)
  }

  /** The views divide a purpose's memories: each is active or archived, and
      those to review are the active ones an agent would not load. */
  lemma ViewsDivide(r: Record, b: Browse)
    requires b.purpose == "" || r.purpose == b.purpose
    ensures var active, archived, review := b.(view := ""), b.(view := "archived"), b.(view := "review");
            && (InView(r, active) <==> !InView(r, archived)) && (InView(r, archived) <==> r.archived)
            && (InView(r, review) <==> InView(r, active) && !AgentLoads(r))
  {
  }

  /** The owner sees every place an agent there loads from, and with no device or
      platform chosen those of every one. */
  lemma OwnerSeesAgents(stored: Scope, b: Browse, caller: Scope)
    requires b.allProjects || b.scope.project == caller.project
    requires b.scope.device.None? || b.scope.device == caller.device
    requires b.scope.platform.None? || b.scope.platform == caller.platform
    ensures Applies(stored, caller) ==> InOwnerScope(stored, b)
    ensures InOwnerScope(stored, b) ==> !stored.legacy
    ensures InOwnerScope(stored, b) && stored.project.Some? && !b.allProjects ==> stored.project == b.scope.project
    ensures InOwnerScope(stored, b) && stored.device.Some? && b.scope.device.Some? ==> stored.device == b.scope.device
    ensures InOwnerScope(stored, b) && stored.platform.Some? && b.scope.platform.Some? ==>
              stored.platform == b.scope.platform
  {
  }

  function ListedUpTo(rows: map<int, Row>, b: Browse, n: int): seq<Record>
    decreases if n < 0 then 0 else n
  {
    if n <= 0 then []
    else
      ListedUpTo(rows, b, n - 1) +
      if n in rows && InOwnerScope(rows[n].record.scope, b) && InView(rows[n].record, b) then [rows[n].record] else []
  }

  /** The ordered list at one moment, and its references. */
  function OwnerList(t: Tables, b: Browse): seq<Record> {
    Sort(ByPurpose, ListedUpTo(t.rows, b, t.sequence))
  }

  lemma {:induction false} ListedMembers(rows: map<int, Row>, b: Browse, n: int)
    requires forall id | id in rows :: rows[id].record.id == id
    ensures forall r :: r in ListedUpTo(rows, b, n) <==>
              1 <= r.id <= n && r.id in rows && rows[r.id].record == r && InOwnerScope(r.scope, b) && InView(r, b)
    ensures DistinctIds(ListedUpTo(rows, b, n))
    decreases if n < 0 then 0 else n
  {
    if n > 0 {
      ListedMembers(rows, b, n - 1);
      var init := ListedUpTo(rows, b, n - 1);
      forall i | 0 <= i < |init| ensures init[i].id < n {
        assert init[i] in init;
      }
    }
  }

  /** The list holds exactly the rows in scope and view, each once, in order. */
  lemma OwnerListMembers(t: Tables, b: Browse)
    requires RowsOk(t)
    ensures forall r :: r in OwnerList(t, b) <==>
              r.id in t.rows && t.rows[r.id].record == r && InOwnerScope(r.scope, b) && InView(r, b)
    ensures DistinctIds(OwnerList(t, b)) && Sorted(ByPurpose, OwnerList(t, b))
  {
    var all := ListedUpTo(t.rows, b, t.sequence);
    ListedMembers(t.rows, b, t.sequence);
    SameMembers(OwnerList(t, b), all);
    SortDistinct(ByPurpose, all);
    SortSorted(ByPurpose, all);
  }

  // ----- one page -----

  const PAGE_BUDGET := 32768

  /** The record a reference reads as. */
  function ReadRef(t: Tables, ref: Reference): Option<Record> {
    match RecordById(t, ref.id, Some(ref.revision))
    case Ok(found) => found
    case Err(_) => None
  }

  datatype Slice = Slice(records: seq<Record>, end: nat) | Unreadable

  /** Reads on from an offset until the limit, the budget or the end of the list. */
  function SliceFrom(t: Tables, refs: seq<Reference>, offset: nat, room: nat, used: nat,
                     size: Record -> nat): (s: Slice)
    requires offset <= |refs|
    ensures s.Slice? ==> offset <= s.end <= |refs| && |s.records| == s.end - offset
    decreases |refs| - offset
  {
    if offset == |refs| || room == 0 then Slice([], offset)
    else
      match ReadRef(t, refs[offset])
      case None => Unreadable
      case Some(found) =>
        var r := Preview(found);
        if used + size(r) > PAGE_BUDGET then Slice([], offset)
        else
          match SliceFrom(t, refs, offset + 1, room - 1, used + size(r), size)
          case Unreadable => Unreadable
          case Slice(records, end) => Slice([r] + records, end)
  }

  // ----- following next -----

  /** Every listed record reads, now and after any calls, as it did when listed. */
  predicate Reads(t: Tables, listed: seq<Record>) {
    forall i | 0 <= i < |listed| :: ReadRef(t, ReferenceTo(listed[i])) == Some(listed[i])
  }

  lemma ListedReads(t: Tables, b: Browse, calls: seq<Call>)
    requires Inv(t)
    ensures Reads(Run(t, calls), OwnerList(t, b))
  {
    hide HistoryOk, ConfirmationKept, ReceiptsOk, Run, OwnerList, RecordById;
    OwnerListMembers(t, b);
    var listed := OwnerList(t, b);
    forall i | 0 <= i < |listed|
      ensures ReadRef(Run(t, calls), ReferenceTo(listed[i])) == Some(listed[i])
    {
      var r := listed[i];
      assert r in listed;
      LiveRevision(t, r.id);
      ReadForever(t, calls, r.id, r.revision);
    }
  }

  lemma LiveRevision(t: Tables, id: int)
    requires Inv(t) && id in t.rows
    ensures 1 <= t.rows[id].record.revision
    ensures RecordById(t, id, Some(t.rows[id].record.revision)) == Ok(Some(t.rows[id].record))
  {
    hide RecordById;
    ReadsHistory(t, id, t.rows[id].record.revision);
  }

  /** A page is a stretch of the list, and not an empty one. */
  lemma {:induction false} SliceReads(t: Tables, refs: seq<Reference>, listed: seq<Record>, offset: nat, room: nat,
                                      used: nat, size: Record -> nat)
    requires offset <= |listed| == |refs| && forall i | 0 <= i < |refs| :: ReadRef(t, refs[i]) == Some(listed[i])
    ensures var s := SliceFrom(t, refs, offset, room, used, size);
            && s.Slice? && s.records == Previews(listed)[offset..s.end]
            && (offset < |listed| && room > 0 && used + size(Preview(listed[offset])) <= PAGE_BUDGET ==> s.end > offset)
            && forall i | offset <= i < s.end :: size(Preview(listed[i])) <= PAGE_BUDGET
    decreases |listed| - offset
  {
    hide ReadRef, Preview, Previews;
    if offset < |listed| && room > 0 {
      var r := Preview(listed[offset]);
      if used + size(r) <= PAGE_BUDGET {
        SliceReads(t, refs, listed, offset + 1, room - 1, used + size(r), size);
        var s := SliceFrom(t, refs, offset + 1, room - 1, used + size(r), size);
        Stretch(Previews(listed), offset, s.end);
      }
    }
  }

  lemma Stretch(xs: seq<Record>, from: nat, to: nat)
    requires from < to <= |xs|
    ensures xs[from..to] == [xs[from]] + xs[from + 1..to]
  {
  }

  function Flat(pages: seq<seq<Record>>): seq<Record> {
    if pages == [] then [] else pages[0] + Flat(pages[1..])
  }

  /** A page read at an offset: a stretch of the list that is not empty, within
      the limit and short of any preview too large, or nothing at such a one. */
  lemma PageRead(t: Tables, listed: seq<Record>, offset: nat, limit: nat, size: Record -> nat) returns (s: Slice)
    requires offset < |listed| && limit > 0 && Reads(t, listed)
    ensures s == SliceFrom(t, References(listed), offset, limit, 0, size)
    ensures s.Slice? && offset <= s.end <= |listed| && s.records == Previews(listed)[offset..s.end]
    ensures |s.records| <= limit && (s.end > offset <==> size(Preview(listed[offset])) <= PAGE_BUDGET)
    ensures forall i | offset <= i < s.end :: size(Preview(listed[i])) <= PAGE_BUDGET
  {
    hide ReadRef, SliceFrom, Preview;
    s := SliceFrom(t, References(listed), offset, limit, 0, size);
    SliceReads(t, References(listed), listed, offset, limit, 0, size);
    SliceRoom(t, References(listed), offset, limit, 0, size);
  }

  lemma {:induction false} SliceRoom(t: Tables, refs: seq<Reference>, offset: nat, room: nat, used: nat,
                                     size: Record -> nat)
    requires offset <= |refs|
    ensures var s := SliceFrom(t, refs, offset, room, used, size); s.Slice? ==> |s.records| <= room
    decreases |refs| - offset
  {
    if offset < |refs| && room > 0 && ReadRef(t, refs[offset]).Some? {
      SliceRoom(t, refs, offset + 1, room - 1, used + size(Preview(ReadRef(t, refs[offset]).value)), size);
    }
  }

  lemma InvRows(t: Tables)
    requires Inv(t)
    ensures RowsOk(t)
  {
  }
}
