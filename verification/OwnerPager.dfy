/** The snapshot cache behind the owner's paged list, changed in place. */
module OwnerPager {
  import opened Text
  import opened Records
  import opened Lists
  import opened OwnerPages
  import opened PagerSpec

  class OwnerPager {
    var snapshots: Cache

    constructor ()
      ensures snapshots == map[]
    {
      snapshots := map[];
    }

    method Prune(now: int)
      modifies this
      ensures snapshots == Live(old(snapshots), now)
    {
      var all := snapshots;
      var keys := snapshots.Keys;
      while keys != {}
        invariant keys <= all.Keys
        invariant snapshots == map k | k in all && (k in keys || all[k].expires > now) :: all[k]
        decreases |keys|
      {
        var key :| key in keys;
        keys := keys - {key};
        if snapshots[key].expires <= now {
          snapshots := snapshots - {key};
        }
      }
    }

    /** The key of a snapshot that expires no later than any other. */
    method Oldest() returns (oldest: SnapshotKey)
      requires snapshots != map[]
      ensures oldest in snapshots && forall k | k in snapshots :: snapshots[oldest].expires <= snapshots[k].expires
    {
      var keys := snapshots.Keys;
      oldest :| oldest in keys;
      keys := keys - {oldest};
      while keys != {}
        invariant keys <= snapshots.Keys && oldest in snapshots
        invariant forall k | k in snapshots && k !in keys :: snapshots[oldest].expires <= snapshots[k].expires
        decreases |keys|
      {
        var key :| key in keys;
        keys := keys - {key};
        if snapshots[key].expires < snapshots[oldest].expires {
          oldest := key;
        }
      }
    }

    method Count(first: nat) returns (total: nat)
      ensures total == first + TotalRefs(snapshots)
    {
      total := first;
      var keys := snapshots.Keys;
      ghost var done: Cache := map[];
      while keys != {}
        invariant keys <= snapshots.Keys && done == map k | k in snapshots && k !in keys :: snapshots[k]
        invariant total == first + TotalRefs(done)
        decreases |keys|
      {
        var key :| key in keys;
        keys := keys - {key};
        ghost var before := done;
        done := done[key := snapshots[key]];
        assert done - {key} == before;
        TotalWithout(done, key);
        total := total + |snapshots[key].refs|;
      }
      assert done == snapshots;
    }

    /** Evicts the soonest to expire until there is room for a new snapshot.
        The loop never finds the cache already empty. */
    method MakeRoom(size: nat)
      requires size <= MAX_RECORDS
      modifies this
      ensures Evicted(old(snapshots), snapshots, size)
    {
      hide LastOut, SoonestOut;
      var total := Count(size);
      ghost var last: Option<SnapshotKey> := None;
      NoneOut(snapshots);
      while |snapshots| >= MAX_SNAPSHOTS || total > MAX_REFERENCES
        invariant total == size + TotalRefs(snapshots) && SoonestOut(old(snapshots), snapshots)
        invariant if last.None? then snapshots == old(snapshots)
                  else LastOut(old(snapshots), snapshots, last.value, size)
        decreases |snapshots|
      {
        if snapshots == map[] {
          assert false;
          break;
        }
        var oldest := Oldest();
        OneOut(old(snapshots), snapshots, oldest, size);
        total := total - |snapshots[oldest].refs|;
        snapshots := snapshots - {oldest};
        last := Some(oldest);
      }
    }

    /** Caches a list, unless the identical list is cached already. */
    method Remember(browse: Browse, limit: int, refs: seq<Reference>, now: int) returns (key: SnapshotKey)
      requires |refs| <= MAX_RECORDS
      modifies this
      ensures key == SnapshotKey(browse, limit, refs) && key in snapshots
      ensures Taken(old(snapshots), snapshots, key, now)
    {
      hide Evicted;
      key := SnapshotKey(browse, limit, refs);
      if key !in snapshots {
        MakeRoom(|refs|);
        KeptInside(old(snapshots), snapshots, key, |refs|);
        ghost var others := snapshots;
        snapshots := snapshots[key := Snapshot(browse, limit, refs, now + LIFETIME)];
        assert snapshots - {key} == others;
      }
    }

    /** Reads the page's records one by one. */
    method ReadPage(t: Tables, key: SnapshotKey, refs: seq<Reference>, start: nat, limit: nat, size: Record -> nat)
      returns (r: Result<OwnerPage, PagerError>)
      requires start <= |refs|
      ensures r == Answer(t, key, refs, start, limit, size)
    {
      hide ReadRef, SliceFrom, Preview, Prepend, Prefix;
      var records: seq<Record> := [];
      var used: nat := 0;
      var offset: nat := start;
      ghost var room: nat := limit;
      NothingBefore(SliceFrom(t, refs, start, limit, 0, size));
      while offset < |refs| && |records| < limit
        invariant start <= offset <= |refs| && |records| == offset - start && room + |records| == limit
        invariant SliceFrom(t, refs, start, limit, 0, size) ==
                  Prepend(records, SliceFrom(t, refs, offset, room, used, size))
      {
        var found := ReadRef(t, refs[offset]);
        SliceNext(t, refs, offset, room, used, size);
        if found.None? {
          NothingAfter(records, offset);
          return Err(RevisionUnavailable);
        }
        var text := FirstRunes(found.value.content, 240);
        var record := found.value.(content := text);
        assert record == Preview(found.value) by { Shown(found.value); }
        if used + size(record) > PAGE_BUDGET {
          break;
        }
        OneMore(records, record, SliceFrom(t, refs, offset + 1, room - 1, used + size(record), size));
        used := used + size(record);
        records := records + [record];
        offset := offset + 1;
        room := room - 1;
      }
      SliceEnds(t, refs, offset, room, used, size);
      NothingAfter(records, offset);
      if offset == start && offset < |refs| {
        return Err(PreviewTooLarge);
      }
      r := Ok(OwnerPage(records, if offset < |refs| then Some(Cursor(key, offset)) else None, |refs|));
    }

    /** One call on the pager is one step of its specification; with that, every
        call keeps the bounds. */
    method Page(t: Tables, now: int, input: ListInput, size: Record -> nat) returns (r: Result<OwnerPage, PagerError>)
      modifies this
      ensures Paged(old(snapshots), Turn(now, t, input, r), size, snapshots)
    {
      hide OwnerList, BrowseOk, Answer, Taken;
      var limit := input.limit;
      if limit == 0 {
        limit := 50;
      }
      if limit < 1 || limit > 100 {
        return Err(InvalidLimit);
      }
      if !BrowseOk(input.browse) {
        return Err(InvalidFilter);
      }
      var refs: seq<Reference> := [];
      if input.after.FirstPage? {
        refs := References(OwnerList(t, input.browse));
        if |refs| > MAX_RECORDS {
          return Err(ListTooLong);
        }
      }
      Prune(now);
      if input.after.Garbled? {
        return Err(InvalidCursor);
      }
      var key: SnapshotKey;
      var offset := 0;
      if input.after.Cursor? {
        key := input.after.key;
        if key !in snapshots {
          return Err(CursorExpired);
        }
        var snapshot := snapshots[key];
        if snapshot.browse != input.browse || snapshot.limit != limit || input.after.offset < 1
           || input.after.offset >= |snapshot.refs|
        {
          return Err(CursorMismatch);
        }
        offset := input.after.offset;
        refs := snapshot.refs;
      } else {
        key := Remember(input.browse, limit, refs, now);
      }
      r := ReadPage(t, key, refs, offset, limit, size);
    }
  }

  function Prepend(records: seq<Record>, s: Slice): Slice {
    if s.Unreadable? then Unreadable else Slice(records + s.records, s.end)
  }

  lemma NothingBefore(s: Slice)
    ensures Prepend([], s) == s
  {
  }

  lemma NothingAfter(records: seq<Record>, end: nat)
    ensures Prepend(records, Slice([], end)) == Slice(records, end) && Prepend(records, Unreadable) == Unreadable
  {
    assert records + [] == records;
  }

  lemma OneMore(records: seq<Record>, r: Record, s: Slice)
    ensures Prepend(records, Prepend([r], s)) == Prepend(records + [r], s)
  {
    if s.Slice? {
      assert records + ([r] + s.records) == records + [r] + s.records;
    }
  }

  lemma Shown(r: Record)
    ensures r.(content := Prefix(r.content, 240)) == Preview(r)
  {
  }

  lemma SliceNext(t: Tables, refs: seq<Reference>, offset: nat, room: nat, used: nat, size: Record -> nat)
    requires offset < |refs| && room > 0
    ensures var found := ReadRef(t, refs[offset]);
            SliceFrom(t, refs, offset, room, used, size) ==
            if found.None? then Unreadable
            else if used + size(Preview(found.value)) > PAGE_BUDGET then Slice([], offset)
            else Prepend([Preview(found.value)],
                         SliceFrom(t, refs, offset + 1, room - 1, used + size(Preview(found.value)), size))
  {
    hide ReadRef, Preview;
  }

  lemma SliceEnds(t: Tables, refs: seq<Reference>, offset: nat, room: nat, used: nat, size: Record -> nat)
    requires offset <= |refs|
    ensures offset == |refs| || room == 0 ==> SliceFrom(t, refs, offset, room, used, size) == Slice([], offset)
  {
  }

  lemma NoneOut(m: Cache)
    ensures SoonestOut(m, m)
  {
  }

  /** One more eviction of the soonest to expire, for want of room. */
  lemma OneOut(m: Cache, n: Cache, oldest: SnapshotKey, room: nat)
    requires SoonestOut(m, n) && oldest in n && !Roomy(n, room)
    requires forall k | k in n :: n[oldest].expires <= n[k].expires
    ensures SoonestOut(m, n - {oldest}) && LastOut(m, n - {oldest}, oldest, room)
    ensures TotalRefs(n) == |n[oldest].refs| + TotalRefs(n - {oldest}) && |n| == |n - {oldest}| + 1
  {
    hide TotalRefs, Roomy;
    OrderKept(m, n, oldest);
    TotalWithout(n, oldest);
    assert (n - {oldest})[oldest := m[oldest]] == n;
    assert n.Keys == (n - {oldest}).Keys + {oldest};
  }

  lemma OrderKept(m: Cache, n: Cache, oldest: SnapshotKey)
    requires SoonestOut(m, n) && oldest in n && forall k | k in n :: n[oldest].expires <= n[k].expires
    ensures SoonestOut(m, n - {oldest})
    ensures forall gone | gone in m && gone !in n - {oldest} :: m[gone].expires <= m[oldest].expires
  {
    forall gone | gone in m && gone !in n - {oldest} ensures m[gone].expires <= m[oldest].expires {
      assert gone == oldest || gone !in n;
    }
  }

  lemma KeptInside(m: Cache, n: Cache, key: SnapshotKey, room: nat)
    requires Evicted(m, n, room) && key !in m
    ensures key !in n
  {
  }
}
