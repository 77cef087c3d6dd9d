/** The owner's paged list as steps of a snapshot cache: what one call answers
    and keeps, the bounds every run keeps, and what presenting each cursor in
    turn yields while other calls and writes go on. */
module PagerSpec {
  import opened Text
  import opened Records
  import opened Lists
  import opened OwnerPages
  import opened StoreInvariant
  import opened StoreRuns

  const LIFETIME := 600_000_000_000  // ten minutes in nanoseconds
  const MAX_RECORDS := 50000
  const MAX_REFERENCES := 100000
  const MAX_SNAPSHOTS := 64

  /** The digest of filter, limit and references, taken as one-to-one. */
  datatype SnapshotKey = SnapshotKey(browse: Browse, limit: int, refs: seq<Reference>)

  datatype Snapshot = Snapshot(browse: Browse, limit: int, refs: seq<Reference>, expires: int)

  type Cache = map<SnapshotKey, Snapshot>

  datatype After = FirstPage | Garbled | Cursor(key: SnapshotKey, offset: int)

  datatype ListInput = ListInput(browse: Browse, limit: int, after: After)

  datatype PagerError = InvalidLimit | InvalidFilter | ListTooLong | InvalidCursor | CursorExpired | CursorMismatch
                      | RevisionUnavailable | PreviewTooLarge

  datatype OwnerPage = OwnerPage(records: seq<Record>, next: Option<After>, total: nat)

  /** One call: when it took the lock, the tables then, and what it answered. */
  datatype Turn = Turn(now: int, tables: Tables, input: ListInput, answer: Result<OwnerPage, PagerError>)

  function LimitOf(input: ListInput): int {
    if input.limit == 0 then 50 else input.limit
  }

  /** What is left of the snapshots at a time. */
  function Live(m: Cache, now: int): Cache {
    map k | k in m && m[k].expires > now :: m[k]
  }

  ghost function TotalRefs(m: Cache): nat
    decreases |m|
  {
    if m == map[] then 0
    else
      var k :| k in m;
      |m[k].refs| + TotalRefs(m - {k})
  }

  lemma {:induction false} TotalWithout(m: Cache, k: SnapshotKey)
    requires k in m
    ensures TotalRefs(m) == |m[k].refs| + TotalRefs(m - {k})
    decreases |m|
  {
    var j :| j in m && TotalRefs(m) == |m[j].refs| + TotalRefs(m - {j});
    if j != k {
      TotalWithout(m - {j}, k);
      TotalWithout(m - {k}, j);
      assert m - {j} - {k} == m - {k} - {j};
    }
  }

  lemma {:induction false} TotalWithin(part: Cache, m: Cache)
    requires forall k | k in part :: k in m && part[k] == m[k]
    ensures TotalRefs(part) <= TotalRefs(m) && |part| <= |m|
    decreases |m|
  {
    if part != map[] {
      var k :| k in part;
      TotalWithout(part, k);
      TotalWithout(m, k);
      TotalWithin(part - {k}, m - {k});
    }
  }

  /** One snapshot more. */
  lemma TotalWith(m: Cache, k: SnapshotKey, s: Snapshot)
    requires k !in m
    ensures TotalRefs(m[k := s]) == |s.refs| + TotalRefs(m) && |m[k := s]| == |m| + 1
  {
    assert m[k := s] - {k} == m;
    TotalWithout(m[k := s], k);
    assert m[k := s].Keys == m.Keys + {k};
  }

  // ----- one call -----

  /** The answer to a page request over a list of references. */
  function Answer(t: Tables, key: SnapshotKey, refs: seq<Reference>, offset: nat, limit: nat, size: Record -> nat):
    Result<OwnerPage, PagerError>
    requires offset <= |refs|
  {
    match SliceFrom(t, refs, offset, limit, 0, size)
    case Unreadable => Err(RevisionUnavailable)
    case Slice(records, end) =>
      if end == offset && offset < |refs| then Err(PreviewTooLarge)
      else Ok(OwnerPage(records, if end < |refs| then Some(Cursor(key, end)) else None, |refs|))
  }

  /** The snapshot a first page takes. */
  function KeyOf(t: Tables, input: ListInput): SnapshotKey {
    SnapshotKey(input.browse, LimitOf(input), References(OwnerList(t, input.browse)))
  }

  /** What is wrong with a call before the cache is looked at. */
  function Rejection(t: Tables, input: ListInput): Option<PagerError> {
    if LimitOf(input) < 1 || LimitOf(input) > 100 then Some(InvalidLimit)
    else if !BrowseOk(input.browse) then Some(InvalidFilter)
    else if input.after.FirstPage? && |KeyOf(t, input).refs| > MAX_RECORDS then Some(ListTooLong)
    else None
  }

  /** A cursor is honoured exactly when its snapshot is live and was taken for
      this filter and limit, and it points inside the list. */
  function CursorRefusal(live: Cache, input: ListInput): Option<PagerError> {
    match input.after
    case FirstPage => None
    case Garbled => Some(InvalidCursor)
    case Cursor(key, offset) =>
      if key !in live then Some(CursorExpired)
      else if live[key].browse != input.browse || live[key].limit != LimitOf(input) then Some(CursorMismatch)
      else if offset < 1 || offset >= |live[key].refs| then Some(CursorMismatch)
      else None
  }

  /** There is room for one more snapshot, of so many references. */
  ghost predicate Roomy(m: Cache, room: nat) {
    |m| < MAX_SNAPSHOTS && room + TotalRefs(m) <= MAX_REFERENCES
  }

  /** n is what eviction for a new snapshot leaves of m: room is made, by the
      soonest to expire first, and no more of it than is needed. Snapshots that
      expire together go in any order, as map iteration has it. */
  ghost predicate Evicted(m: Cache, n: Cache, room: nat) {
    SoonestOut(m, n) && Roomy(n, room) && (n == m || exists last :: LastOut(m, n, last, room))
  }

  ghost predicate SoonestOut(m: Cache, n: Cache) {
    && (forall k | k in n :: k in m && n[k] == m[k])
    && (forall k, gone | k in n && gone in m && gone !in n :: m[gone].expires <= m[k].expires)
  }

  ghost predicate LastOut(m: Cache, n: Cache, last: SnapshotKey, room: nat) {
    && last in m && last !in n && !Roomy(n[last := m[last]], room)
    && forall gone | gone in m && gone !in n :: m[gone].expires <= m[last].expires
  }

  /** The cache after a list is taken: the identical list is not taken again. */
  ghost predicate Taken(live: Cache, n: Cache, key: SnapshotKey, now: int) {
    if key in live then n == live
    else
      && key in n && n[key] == Snapshot(key.browse, key.limit, key.refs, now + LIFETIME)
      && Evicted(live, n - {key}, |key.refs|)
  }

  /** One call takes the cache from m to n and is answered so. */
  ghost predicate Paged(m: Cache, turn: Turn, size: Record -> nat, n: Cache) {
    var t, input := turn.tables, turn.input;
    match Rejection(t, input)
    case Some(e) => n == m && turn.answer == Err(e)
    case None =>
      var live := Live(m, turn.now);
      match CursorRefusal(live, input)
      case Some(e) => n == live && turn.answer == Err(e)
      case None =>
        if input.after.Cursor? then
          var key := input.after.key;
          n == live && turn.answer == Answer(t, key, live[key].refs, input.after.offset, LimitOf(input), size)
        else
          Taken(live, n, KeyOf(t, input), turn.now) &&
          turn.answer == Answer(t, KeyOf(t, input), KeyOf(t, input).refs, 0, LimitOf(input), size)
  }

  // ----- what a call answers -----

  function Sizes(records: seq<Record>, size: Record -> nat): nat {
    if records == [] then 0 else size(records[0]) + Sizes(records[1..], size)
  }

  /** A page holds as much as it can: it stops before the end of the list only
      where the limit is reached or the next preview would pass the budget. */
  predicate Full(t: Tables, refs: seq<Reference>, s: Slice, room: nat, used: nat, size: Record -> nat) {
    s.Slice? ==>
      && |s.records| <= room && used + Sizes(s.records, size) <= PAGE_BUDGET
      && (s.end < |refs| && |s.records| < room ==>
            var next := ReadRef(t, refs[s.end]);
            next.Some? && used + Sizes(s.records, size) + size(Preview(next.value)) > PAGE_BUDGET)
  }

  lemma {:induction false} PageFull(t: Tables, refs: seq<Reference>, offset: nat, room: nat, used: nat,
                                    size: Record -> nat)
    requires offset <= |refs| && used <= PAGE_BUDGET
    ensures Full(t, refs, SliceFrom(t, refs, offset, room, used, size), room, used, size)
    decreases |refs| - offset
  {
    hide ReadRef, Preview, Full, Sizes;
    if offset == |refs| || room == 0 || ReadRef(t, refs[offset]).None? {
      FullHere(t, refs, offset, room, used, size);
    } else {
      var r := Preview(ReadRef(t, refs[offset]).value);
      if used + size(r) <= PAGE_BUDGET {
        PageFull(t, refs, offset + 1, room - 1, used + size(r), size);
        var rest := SliceFrom(t, refs, offset + 1, room - 1, used + size(r), size);
        if rest.Slice? {
          FullMore(t, refs, r, rest, room, used, size);
        } else {
          FullUnread(t, refs, room, used, size);
        }
      } else {
        FullHere(t, refs, offset, room, used, size);
      }
    }
  }

  lemma FullHere(t: Tables, refs: seq<Reference>, offset: nat, room: nat, used: nat, size: Record -> nat)
    requires offset <= |refs| && used <= PAGE_BUDGET
    requires offset == |refs| || room == 0 || ReadRef(t, refs[offset]).None?
             || used + size(Preview(ReadRef(t, refs[offset]).value)) > PAGE_BUDGET
    ensures Full(t, refs, SliceFrom(t, refs, offset, room, used, size), room, used, size)
  {
    hide ReadRef, Preview;
  }

  lemma FullUnread(t: Tables, refs: seq<Reference>, room: nat, used: nat, size: Record -> nat)
    ensures Full(t, refs, Unreadable, room, used, size)
  {
  }

  lemma FullMore(t: Tables, refs: seq<Reference>, r: Record, rest: Slice, room: nat, used: nat, size: Record -> nat)
    requires room > 0 && rest.Slice? && Full(t, refs, rest, room - 1, used + size(r), size)
    ensures Full(t, refs, Slice([r] + rest.records, rest.end), room, used, size)
  {
    hide ReadRef, Preview;
    assert ([r] + rest.records)[1..] == rest.records;
  }

  /** Each call's answer: an error that names what is wrong, or the page that
      reads on from where it points, in a full page of the list as it stands for
      a first page, and as it was taken for a cursor whose time has not run out. */
  lemma CallAnswers(m: Cache, turn: Turn, size: Record -> nat, n: Cache)
    requires Paged(m, turn, size, n)
    ensures var input := turn.input;
            var limit := if input.limit == 0 then 50 else input.limit;
            var listed := OwnerList(turn.tables, input.browse);
            if limit < 1 || limit > 100 then turn.answer == Err(InvalidLimit) && n == m
            else if !BrowseOk(input.browse) then turn.answer == Err(InvalidFilter) && n == m
            else
              match input.after
              case Garbled => turn.answer == Err(InvalidCursor)
              case FirstPage =>
                if |listed| > 50000 then turn.answer == Err(ListTooLong) && n == m
                else
                  var key := SnapshotKey(input.browse, limit, References(listed));
                  key in n && turn.answer == Answer(turn.tables, key, References(listed), 0, limit, size)
              case Cursor(key, offset) =>
                if key !in m || m[key].expires <= turn.now then turn.answer == Err(CursorExpired)
                else if m[key].browse != input.browse || m[key].limit != limit || offset < 1 || offset >= |m[key].refs|
                then turn.answer == Err(CursorMismatch)
                else turn.answer == Answer(turn.tables, key, m[key].refs, offset, limit, size)
  {
    hide OwnerList, BrowseOk, Answer, LastOut, TotalRefs;
  }

  /** Of the snapshots held before, none is dropped but those whose time has run
      out and those that make room for a list, and one taken lasts ten minutes. */
  lemma CallKeeps(m: Cache, turn: Turn, size: Record -> nat, n: Cache, k: SnapshotKey)
    requires Paged(m, turn, size, n) && Rejection(turn.tables, turn.input).None?
    ensures var lives := k in m && turn.now < m[k].expires;
            && (!TakesList(turn) ==> (k in n <==> lives))
            && (k in n ==> (lives && n[k] == m[k])
                           || (TakesList(turn) && k == KeyOf(turn.tables, turn.input)
                               && n[k].expires == turn.now + 600_000_000_000))
            && (lives && TakesList(turn) && k !in n ==>
                  !Roomy(Live(m, turn.now), |KeyOf(turn.tables, turn.input).refs|))
  {
    hide OwnerList, BrowseOk, Answer, KeyOf, Roomy, Taken;
    if TakesList(turn) {
      TakenKeeps(Live(m, turn.now), n, KeyOf(turn.tables, turn.input), turn.now, k);
    }
  }

  lemma TakenKeeps(live: Cache, n: Cache, key: SnapshotKey, now: int, k: SnapshotKey)
    requires Taken(live, n, key, now)
    ensures k in n ==> (k in live && n[k] == live[k]) || (k == key && n[k].expires == now + 600_000_000_000)
    ensures k in live && k !in n ==> !Roomy(live, |key.refs|)
  {
    hide Roomy, LastOut;
    if key !in live {
      assert k in n && k != key ==> k in n - {key};
      EvictsForRoom(live, n - {key}, |key.refs|);
    }
  }

  lemma EvictsForRoom(m: Cache, n: Cache, room: nat)
    requires Evicted(m, n, room)
    ensures n == m || !Roomy(m, room)
  {
    if n != m {
      var last :| LastOut(m, n, last, room);
      TotalWithin(n[last := m[last]], m);
    }
  }

  // ----- the bounds of every run -----

  /** The call takes a list: it may add a snapshot of these references. */
  predicate TakesList(turn: Turn) {
    turn.input.after.FirstPage? && Rejection(turn.tables, turn.input).None?
  }

  /** What holds of the cache when the clock has reached a time. */
  ghost predicate CacheOk(m: Cache, clock: int) {
    && |m| <= MAX_SNAPSHOTS && TotalRefs(m) <= MAX_REFERENCES
    && forall k | k in m :: k == SnapshotKey(m[k].browse, m[k].limit, m[k].refs) && m[k].expires <= clock + LIFETIME
  }

  /** Every call keeps the cache within its bounds, and a call never evicts the
      snapshot it just issued. */
  lemma PagedKeeps(m: Cache, turn: Turn, size: Record -> nat, n: Cache, clock: int)
    requires CacheOk(m, clock) && clock <= turn.now && Paged(m, turn, size, n)
    ensures CacheOk(n, turn.now)
    ensures turn.answer.Ok? && turn.answer.value.next.Some? ==>
              turn.answer.value.next.value.Cursor? && turn.answer.value.next.value.key in n
  {
    hide OwnerList, BrowseOk, Answer, CacheOk, Taken, KeyOf;
    LiveOk(m, turn.now, clock);
    if TakesList(turn) {
      var key := KeyOf(turn.tables, turn.input);
      TakenOk(Live(m, turn.now), n, key, turn.now);
      AnswerKey(turn.tables, key, key.refs, 0, LimitOf(turn.input), size);
    } else if Rejection(turn.tables, turn.input).None? && CursorRefusal(Live(m, turn.now), turn.input).None? {
      var key := turn.input.after.key;
      AnswerKey(turn.tables, key, Live(m, turn.now)[key].refs, turn.input.after.offset, LimitOf(turn.input), size);
    }
  }

  lemma AnswerKey(t: Tables, key: SnapshotKey, refs: seq<Reference>, offset: nat, limit: nat, size: Record -> nat)
    requires offset <= |refs|
    ensures var r := Answer(t, key, refs, offset, limit, size);
            r.Ok? && r.value.next.Some? ==> r.value.next.value.Cursor? && r.value.next.value.key == key
  {
    hide SliceFrom;
  }

  lemma LiveOk(m: Cache, now: int, clock: int)
    requires CacheOk(m, clock) && clock <= now
    ensures CacheOk(m, now) && CacheOk(Live(m, now), now)
  {
    TotalWithin(Live(m, now), m);
  }

  lemma TakenOk(live: Cache, n: Cache, key: SnapshotKey, now: int)
    requires CacheOk(live, now) && Taken(live, n, key, now)
    ensures CacheOk(n, now) && key in n
  {
    hide LastOut, TotalRefs;
    if key !in live {
      var rest := n - {key};
      TotalWith(rest, key, n[key]);
      assert rest[key := n[key]] == n;
    }
  }

  /** The caches between the calls of one pager, whose clock never goes back. */
  ghost predicate Runs(caches: seq<Cache>, turns: seq<Turn>, size: Record -> nat) {
    && |caches| == |turns| + 1
    && (forall i | 0 <= i < |turns| :: Paged(caches[i], turns[i], size, caches[i + 1]))
    && (forall i, j | 0 <= i < j < |turns| :: turns[i].now <= turns[j].now)
  }

  lemma {:induction false} RunsKeep(caches: seq<Cache>, turns: seq<Turn>, size: Record -> nat, clock: int, i: nat)
    requires Runs(caches, turns, size) && CacheOk(caches[0], clock) && i <= |turns|
    requires forall j | 0 <= j < |turns| :: clock <= turns[j].now
    ensures CacheOk(caches[i], if i == 0 then clock else turns[i - 1].now)
  {
    hide CacheOk, Paged;
    if i > 0 {
      RunsKeep(caches, turns, size, clock, i - 1);
      PagedKeeps(caches[i - 1], turns[i - 1], size, caches[i], if i == 1 then clock else turns[i - 2].now);
    }
  }

  lemma EmptyCacheOk(clock: int)
    ensures CacheOk(map[], clock)
  {
  }

  // ----- what can be evicted -----

  /** The snapshots that expire no sooner than a time. */
  function Crowd(m: Cache, expires: int): Cache {
    map k | k in m && m[k].expires >= expires :: m[k]
  }

  function ListsTaken(turns: seq<Turn>): nat {
    if turns == [] then 0 else (if TakesList(turns[0]) then 1 else 0) + ListsTaken(turns[1..])
  }

  function ListedRefs(turns: seq<Turn>): nat {
    if turns == [] then 0
    else (if TakesList(turns[0]) then |KeyOf(turns[0].tables, turns[0].input).refs| else 0) + ListedRefs(turns[1..])
  }

  /** However many lists these calls take, they and the snapshots expiring no
      sooner than a given one fit the cache together. */
  ghost predicate Uncrowded(m: Cache, expires: int, turns: seq<Turn>) {
    && |Crowd(m, expires)| + ListsTaken(turns) <= MAX_SNAPSHOTS
    && TotalRefs(Crowd(m, expires)) + ListedRefs(turns) <= MAX_REFERENCES
  }

  /** A snapshot outlives any call before its expiry that leaves the cache
      uncrowded: only those expiring no sooner could push it out. */
  lemma Outlives(m: Cache, turns: seq<Turn>, size: Record -> nat, n: Cache, key: SnapshotKey)
    requires turns != [] && Paged(m, turns[0], size, n) && key in m && turns[0].now < m[key].expires
    requires Uncrowded(m, m[key].expires, turns)
    ensures key in n && n[key] == m[key] && Uncrowded(n, m[key].expires, turns[1..])
  {
    hide OwnerList, BrowseOk, Answer, KeyOf;
    var expires := m[key].expires;
    var live := Live(m, turns[0].now);
    var taken := KeyOf(turns[0].tables, turns[0].input);
    assert Crowd(live, expires) == Crowd(m, expires);
    if TakesList(turns[0]) && taken !in live {
      var rest := n - {taken};
      KeptUncrowded(live, rest, key, |taken.refs|);
      TotalWithin(Crowd(rest, expires), Crowd(live, expires));
      TotalWith(Crowd(rest, expires), taken, n[taken]);
      TotalWithin(Crowd(n, expires), Crowd(rest, expires)[taken := n[taken]]);
    } else {
      TotalWithin(Crowd(n, expires), Crowd(m, expires));
    }
  }

  /** Eviction reaches a snapshot only when those expiring no sooner leave no room. */
  lemma KeptUncrowded(m: Cache, n: Cache, key: SnapshotKey, room: nat)
    requires Evicted(m, n, room) && key in m && Roomy(Crowd(m, m[key].expires), room)
    ensures key in n
  {
    if key !in n {
      var last :| LastOut(m, n, last, room);
      TotalWithin(n[last := m[last]], Crowd(m, m[key].expires));
    }
  }

  // ----- presenting each cursor in turn -----

  /** A reader of the list: the pages it has, the totals they came with, what it
      presents next, and why it gave up, if it did. */
  datatype Reader = Reader(pages: seq<seq<Record>>, totals: seq<nat>, want: Option<After>, refusal: Option<PagerError>)

  const START := Reader([], [], Some(FirstPage), None)

  /** A call with the filter, the limit and the cursor the reader is to present. */
  predicate Asks(c: Reader, b: Browse, limit: int, input: ListInput) {
    input.browse == b && LimitOf(input) == limit && c.want == Some(input.after)
  }

  function Answered(c: Reader, r: Result<OwnerPage, PagerError>): Reader {
    match r
    case Err(e) => c.(want := None, refusal := Some(e))
    case Ok(page) => Reader(c.pages + [page.records], c.totals + [page.total], page.next, c.refusal)
  }

  function Receive(c: Reader, b: Browse, limit: int, turn: Turn): Reader {
    if Asks(c, b, limit, turn.input) then Answered(c, turn.answer) else c
  }

  function Received(c: Reader, b: Browse, limit: int, turns: seq<Turn>): Reader
    decreases |turns|
  {
    if turns == [] then c else Received(Receive(c, b, limit, turns[0]), b, limit, turns[1..])
  }

  lemma {:induction false} FlatSnoc(pages: seq<seq<Record>>, page: seq<Record>)
    ensures Flat(pages + [page]) == Flat(pages) + page
  {
    if pages != [] {
      assert (pages + [page])[1..] == pages[1..] + [page];
      FlatSnoc(pages[1..], page);
    }
  }

  /** How many memories come before the first whose preview exceeds a page. */
  function Fitting(listed: seq<Record>, size: Record -> nat): (k: nat)
    ensures k <= |listed| && (k < |listed| ==> size(Preview(listed[k])) > PAGE_BUDGET)
    ensures forall i | 0 <= i < k :: size(Preview(listed[i])) <= PAGE_BUDGET
  {
    if listed == [] || size(Preview(listed[0])) > PAGE_BUDGET then 0 else 1 + Fitting(listed[1..], size)
  }

  /** The reader has the list from its start, each memory once and in order, by
      pages within the limit and none of them empty, at most one a memory. It is
      done exactly when it has the whole list or was refused, and it is refused
      only at a memory whose preview exceeds a page, having all before it. Every
      page tells the length of the list. */
  predicate ReadWell(c: Reader, listed: seq<Record>, limit: nat, size: Record -> nat) {
    var n := |Flat(c.pages)|;
    && n <= Fitting(listed, size) && Flat(c.pages) == Previews(listed)[..n]
    && (c.want.None? <==> n == |listed| || c.refusal.Some?)
    && (c.refusal.Some? ==> c.refusal == Some(PreviewTooLarge) && n == Fitting(listed, size) < |listed|)
    && (forall p | p in c.pages :: |p| <= limit && (listed != [] ==> |p| >= 1))
    && |c.pages| <= (if listed == [] then 1 else n)
    && |c.totals| == |c.pages| && forall total | total in c.totals :: total == |listed|
  }

  /** What the reader presents next is the cursor at the place it has reached. */
  predicate AtCursor(c: Reader, key: SnapshotKey) {
    c.want.Some? ==> c.want == Some(Cursor(key, |Flat(c.pages)|)) && |Flat(c.pages)| >= 1
  }

  /** One more page, or the refusal. */
  lemma NextPage(t: Tables, c: Reader, key: SnapshotKey, listed: seq<Record>, limit: nat, size: Record -> nat)
    requires limit > 0 && Reads(t, listed) && ReadWell(c, listed, limit, size) && c.want.Some?
    requires |Flat(c.pages)| < |listed|
    ensures var next := Answered(c, Answer(t, key, References(listed), |Flat(c.pages)|, limit, size));
            ReadWell(next, listed, limit, size) && AtCursor(next, key)
  {
    hide Reads, SliceFrom, Preview, Flat, Fitting, ReadWell, AtCursor, Previews;
    var offset := |Flat(c.pages)|;
    ReadBound(c, listed, limit, size);
    var s := PageRead(t, listed, offset, limit, size);
    assert Answer(t, key, References(listed), offset, limit, size) ==
           if s.end == offset then Err(PreviewTooLarge)
           else Ok(OwnerPage(s.records, if s.end < |listed| then Some(Cursor(key, s.end)) else None, |listed|));
    if s.end == offset {
      assert offset == Fitting(listed, size);
      RefusedThere(c, key, listed, limit, size);
    } else {
      assert s.end <= Fitting(listed, size);
      var next := if s.end < |listed| then Some(Cursor(key, s.end)) else None;
      ReadMore(c, key, listed, limit, size, s.records, s.end, next);
    }
  }

  lemma ReadBound(c: Reader, listed: seq<Record>, limit: nat, size: Record -> nat)
    requires ReadWell(c, listed, limit, size)
    ensures |Flat(c.pages)| <= Fitting(listed, size)
    ensures c.want.Some? ==> c.refusal.None?
  {
    hide Flat, Fitting;
  }

  lemma RefusedThere(c: Reader, key: SnapshotKey, listed: seq<Record>, limit: nat, size: Record -> nat)
    requires ReadWell(c, listed, limit, size) && |Flat(c.pages)| == Fitting(listed, size) < |listed|
    ensures var next := c.(want := None, refusal := Some(PreviewTooLarge));
            ReadWell(next, listed, limit, size) && AtCursor(next, key)
  {
    hide Flat, Fitting;
  }

  lemma ReadMore(c: Reader, key: SnapshotKey, listed: seq<Record>, limit: nat, size: Record -> nat,
                 records: seq<Record>, end: nat, next: Option<After>)
    requires ReadWell(c, listed, limit, size) && c.refusal.None? && |Flat(c.pages)| < end <= Fitting(listed, size)
    requires records == Previews(listed)[|Flat(c.pages)|..end] && |records| <= limit
    requires next == if end < |listed| then Some(Cursor(key, end)) else None
    ensures var n := Reader(c.pages + [records], c.totals + [|listed|], next, c.refusal);
            ReadWell(n, listed, limit, size) && AtCursor(n, key)
  {
    hide Flat, Fitting, Previews;
    var offset := |Flat(c.pages)|;
    FlatSnoc(c.pages, records);
    Joined(Previews(listed), offset, end);
    assert Flat(c.pages + [records]) == Previews(listed)[..end];
    forall p | p in c.pages + [records] ensures |p| <= limit && |p| >= 1 {
      assert p in c.pages || p == records;
    }
    forall total | total in c.totals + [|listed|] ensures total == |listed| {
      assert total in c.totals || total == |listed|;
    }
  }

  lemma Joined(xs: seq<Record>, i: nat, j: nat)
    requires i <= j <= |xs|
    ensures xs[..i] + xs[i..j] == xs[..j] && |xs[i..j]| == j - i
  {
  }

  /** From any page on, as long as the snapshot outlives the calls. */
  lemma {:induction false} ReadsOn(caches: seq<Cache>, turns: seq<Turn>, size: Record -> nat, c: Reader,
                                   key: SnapshotKey, listed: seq<Record>)
    requires Runs(caches, turns, size) && key in caches[0] && key.limit > 0 && BrowseOk(key.browse) && key.limit <= 100
    requires caches[0][key].browse == key.browse && caches[0][key].limit == key.limit
    requires caches[0][key].refs == key.refs == References(listed)
    requires Uncrowded(caches[0], caches[0][key].expires, turns)
    requires forall i | 0 <= i < |turns| :: turns[i].now < caches[0][key].expires && Reads(turns[i].tables, listed)
    requires ReadWell(c, listed, key.limit, size) && AtCursor(c, key)
    ensures ReadWell(Received(c, key.browse, key.limit, turns), listed, key.limit, size)
    decreases |turns|
  {
    hide Uncrowded, ReadWell, Reads, Taken, OwnerList, BrowseOk, Flat, Answer, Answered;
    if turns != [] {
      Outlives(caches[0], turns, size, caches[1], key);
      var next := Receive(c, key.browse, key.limit, turns[0]);
      if Asks(c, key.browse, key.limit, turns[0].input) {
        WantsMore(c, listed, key.limit, size);
        NextPage(turns[0].tables, c, key, listed, key.limit, size);
      }
      ReadsOn(caches[1..], turns[1..], size, next, key, listed);
    }
  }

  lemma WantsMore(c: Reader, listed: seq<Record>, limit: nat, size: Record -> nat)
    requires ReadWell(c, listed, limit, size) && c.want.Some?
    ensures |Flat(c.pages)| < |listed|
  {
    hide Flat;
  }

  /** The first page. */
  lemma ReadsFirst(m: Cache, turn: Turn, size: Record -> nat, n: Cache, b: Browse)
    requires Paged(m, turn, size, n) && TakesList(turn) && turn.input.browse == b && Inv(turn.tables)
    ensures var key := KeyOf(turn.tables, turn.input);
            var c := Receive(START, b, key.limit, turn);
            key in n && ReadWell(c, OwnerList(turn.tables, b), key.limit, size) && AtCursor(c, key)
  {
    hide Inv, Evicted, OwnerList, BrowseOk, Reads, Answer, ReadWell, References, Flat, AtCursor, Answered;
    ReadsFirstPage(turn.tables, size, KeyOf(turn.tables, turn.input));
  }

  lemma ReadsFirstPage(t: Tables, size: Record -> nat, key: SnapshotKey)
    requires Inv(t) && key.limit > 0 && key.refs == References(OwnerList(t, key.browse))
    ensures var c := Answered(START, Answer(t, key, key.refs, 0, key.limit, size));
            ReadWell(c, OwnerList(t, key.browse), key.limit, size) && AtCursor(c, key)
  {
    hide Inv, OwnerList, Reads, SliceFrom, Flat, ReadWell;
    var listed := OwnerList(t, key.browse);
    NothingRead(listed, key.limit, size);
    if listed != [] {
      assert Reads(t, listed) by {
        ListedReads(t, key.browse, []);
      }
      NextPage(t, START, key, listed, key.limit, size);
    } else {
      EmptyAnswer(t, key, key.limit, size);
      EmptyRead(key.limit, size);
      assert START.pages + [[]] == [[]] && START.totals + [0] == [0];
    }
  }

  lemma NothingRead(listed: seq<Record>, limit: nat, size: Record -> nat)
    ensures Flat(START.pages) == [] && (listed != [] ==> ReadWell(START, listed, limit, size))
  {
  }

  lemma EmptyAnswer(t: Tables, key: SnapshotKey, limit: nat, size: Record -> nat)
    ensures Answer(t, key, [], 0, limit, size) == Ok(OwnerPage([], None, 0))
  {
  }

  lemma EmptyRead(limit: nat, size: Record -> nat)
    ensures ReadWell(Reader([[]], [0], None, None), [], limit, size)
  {
    assert Flat([[]]) == [] + Flat([]);
  }

  /** The tables are those of the first page after further calls. */
  ghost predicate Onward(t: Tables, n: Tables) {
    exists calls :: n == Run(t, calls)
  }

  /** Presenting each cursor in turn, among any other calls on the pager and any
      writes to the store, gives the list as it stood at the first page: every
      memory once, in order, at its revision then, and no cursor refused but at
      a memory whose preview exceeds a page. It is enough that the snapshot has not expired, and that the lists
      taken since, by anyone, fit the cache with those that expire no sooner. */
  lemma CursorsGiveTheList(caches: seq<Cache>, turns: seq<Turn>, size: Record -> nat)
    requires Runs(caches, turns, size) && turns != [] && CacheOk(caches[0], turns[0].now)
    requires TakesList(turns[0]) && Inv(turns[0].tables)
    requires forall i | 0 <= i < |turns| :: Onward(turns[0].tables, turns[i].tables)
    requires var key := KeyOf(turns[0].tables, turns[0].input);
             key in caches[1] ==> Uncrowded(caches[1], caches[1][key].expires, turns[1..])
                                  && forall i | 0 <= i < |turns| :: turns[i].now < caches[1][key].expires
    ensures var input := turns[0].input;
            var listed := OwnerList(turns[0].tables, input.browse);
            var limit := LimitOf(input);
            DistinctIds(listed) && ReadWell(Received(START, input.browse, limit, turns), listed, limit, size)
  {
    hide Core, OneHandoff, OwnerList, BrowseOk, Answer, Run, Reads, ReadWell, CacheOk, Taken, Uncrowded;
    var turn := turns[0];
    var key := KeyOf(turn.tables, turn.input);
    var listed := OwnerList(turn.tables, turn.input.browse);
    assert DistinctIds(listed) by { InvRows(turn.tables); OwnerListMembers(turn.tables, turn.input.browse); }
    ReadsFirst(caches[0], turn, size, caches[1], turn.input.browse);
    PagedKeeps(caches[0], turn, size, caches[1], turn.now);
    StoredAs(caches[1], key, turn.now);
    forall i | 0 <= i < |turns| ensures Reads(turns[i].tables, listed) {
      var calls :| turns[i].tables == Run(turn.tables, calls);
      ListedReads(turn.tables, turn.input.browse, calls);
    }
    ReadsOn(caches[1..], turns[1..], size, Receive(START, turn.input.browse, key.limit, turn), key, listed);
  }

  lemma StoredAs(m: Cache, key: SnapshotKey, clock: int)
    requires CacheOk(m, clock) && key in m
    ensures m[key].browse == key.browse && m[key].limit == key.limit && m[key].refs == key.refs
  {
  }

  /** In particular, over any run of the pager from its start, for a list not
      cached yet and taken later than all before it: for ten minutes it can be
      read to its end while at most 63 other lists are taken, and no more than
      the cache's references in all. */
  lemma FreshListReads(caches: seq<Cache>, turns: seq<Turn>, size: Record -> nat, first: nat)
    requires Runs(caches, turns, size) && caches[0] == map[]
    requires first < |turns| && TakesList(turns[first]) && Inv(turns[first].tables)
    requires forall i | 0 <= i < first :: turns[i].now < turns[first].now
    requires forall i | first <= i < |turns| ::
               turns[i].now < turns[first].now + LIFETIME && Onward(turns[first].tables, turns[i].tables)
    requires KeyOf(turns[first].tables, turns[first].input) !in Live(caches[first], turns[first].now)
    requires ListsTaken(turns[first + 1..]) <= 63 && ListedRefs(turns[first..]) <= MAX_REFERENCES
    ensures var input := turns[first].input;
            var listed := OwnerList(turns[first].tables, input.browse);
            var limit := LimitOf(input);
            ReadWell(Received(START, input.browse, limit, turns[first..]), listed, limit, size)
  {
    hide Inv, OwnerList, BrowseOk, Paged, Onward, ReadWell, CacheOk, Uncrowded, Received;
    StartsUncrowded(caches, turns, size, first);
    CursorsGiveTheList(caches[first..], turns[first..], size);
  }

  /** A list taken later than all before it expires after them: alone, it
      makes no crowd. */
  lemma StartsUncrowded(caches: seq<Cache>, turns: seq<Turn>, size: Record -> nat, first: nat)
    requires Runs(caches, turns, size) && caches[0] == map[] && first < |turns| && TakesList(turns[first])
    requires forall i | 0 <= i < first :: turns[i].now < turns[first].now
    requires KeyOf(turns[first].tables, turns[first].input) !in Live(caches[first], turns[first].now)
    requires ListsTaken(turns[first + 1..]) <= 63 && ListedRefs(turns[first..]) <= MAX_REFERENCES
    ensures CacheOk(caches[first], turns[first].now)
    ensures var turn := turns[first];
            var key := KeyOf(turn.tables, turn.input);
            var n := caches[first + 1];
            && key in n && n[key].expires == turn.now + LIFETIME && Uncrowded(n, n[key].expires, turns[first..][1..])
  {
    hide OwnerList, BrowseOk, Answer, KeyOf, CacheOk, Evicted, Rejection, TotalRefs;
    var turn := turns[first];
    var m, n := caches[first], caches[first + 1];
    assert Paged(m, turn, size, n);
    assert turns[first..][1..] == turns[first + 1..];
    EmptyCacheOk(turns[0].now);
    RunsKeep(caches, turns, size, turns[0].now, first);
    LiveOk(m, turn.now, if first == 0 then turns[0].now else turns[first - 1].now);
    IssuedBefore(caches, turns, first);
    CrowdAlone(Live(m, turn.now), n, KeyOf(turn.tables, turn.input), turn.now);
  }

  lemma CrowdAlone(m: Cache, n: Cache, key: SnapshotKey, now: int)
    requires key !in m && Taken(m, n, key, now) && forall k | k in m :: m[k].expires < now + LIFETIME
    ensures |Crowd(n, now + LIFETIME)| == 1 && TotalRefs(Crowd(n, now + LIFETIME)) == |key.refs|
  {
    hide Roomy, LastOut, TotalRefs;
    var crowd := Crowd(n, now + LIFETIME);
    forall k | k in crowd ensures k == key {
      assert k != key ==> k in n - {key};
    }
    assert key in crowd;
    assert crowd.Keys == {key};
    TotalWithout(crowd, key);
    assert crowd - {key} == map[];
    assert TotalRefs(map[]) == 0 by { NoRefs(); }
  }

  lemma NoRefs()
    ensures TotalRefs(map[]) == 0
  {
  }

  lemma IssuedBefore(caches: seq<Cache>, turns: seq<Turn>, first: nat)
    requires first < |turns| && |caches| == |turns| + 1 && caches[0] == map[]
    requires CacheOk(caches[first], if first == 0 then turns[0].now else turns[first - 1].now)
    requires forall i | 0 <= i < first :: turns[i].now < turns[first].now
    ensures forall k | k in caches[first] :: caches[first][k].expires < turns[first].now + LIFETIME
  {
  }
}
