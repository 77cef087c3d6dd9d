/** Lists of records: their references and previews, and filtering and sorting,
    which is what the ORDER BY clauses and sort.SliceStable calls are taken to
    mean. */
module Lists {
  import opened Text
  import opened Records

  function ReferenceTo(r: Record): Reference {
    Reference(r.id, r.revision, r.scope)
  }

  function References(xs: seq<Record>): (refs: seq<Reference>)
    ensures |refs| == |xs| && forall i | 0 <= i < |xs| :: refs[i] == ReferenceTo(xs[i])
  {
    if xs == [] then [] else References(xs[..|xs| - 1]) + [ReferenceTo(xs[|xs| - 1])]
  }

  /** What the owner's views show of a record. */
  function Preview(r: Record): Record {
    r.(content := Prefix(r.content, 240))
  }

  function Previews(xs: seq<Record>): (ys: seq<Record>)
    ensures |ys| == |xs| && forall i | 0 <= i < |xs| :: ys[i] == Preview(xs[i])
  {
    if xs == [] then [] else Previews(xs[..|xs| - 1]) + [Preview(xs[|xs| - 1])]
  }

  function Filter(xs: seq<Record>, p: Record -> bool): (ys: seq<Record>)
    ensures forall x :: x in ys <==> x in xs && p(x)
  {
    if xs == [] then []
    else
      var rest := Filter(xs[1..], p);
      assert forall x :: x in xs <==> x == xs[0] || x in xs[1..];
      if p(xs[0]) then [xs[0]] + rest else rest
  }

  lemma {:induction false} FilterConcat(xs: seq<Record>, ys: seq<Record>, p: Record -> bool)
    ensures Filter(xs + ys, p) == Filter(xs, p) + Filter(ys, p)
  {
    if xs == [] {
      assert xs + ys == ys;
    } else {
      assert (xs + ys)[0] == xs[0] && (xs + ys)[1..] == xs[1..] + ys;
      FilterConcat(xs[1..], ys, p);
    }
  }

  lemma {:induction false} FilterAll(xs: seq<Record>, p: Record -> bool)
    requires forall x | x in xs :: p(x)
    ensures Filter(xs, p) == xs
  {
    if xs != [] {
      FilterAll(xs[1..], p);
    }
  }

  lemma {:induction false} FilterNone(xs: seq<Record>, p: Record -> bool)
    requires forall x | x in xs :: !p(x)
    ensures Filter(xs, p) == []
  {
    if xs != [] {
      FilterNone(xs[1..], p);
    }
  }

  lemma {:induction false} FilterTwice(xs: seq<Record>, p: Record -> bool, q: Record -> bool)
    requires forall x | x in xs && q(x) :: p(x)
    ensures Filter(Filter(xs, p), q) == Filter(xs, q)
  {
    if xs != [] {
      FilterTwice(xs[1..], p, q);
      if p(xs[0]) {
        FilterConcat([xs[0]], Filter(xs[1..], p), q);
      }
    }
  }

  /** Two filters that split a list split its elements with their counts. */
  lemma {:induction false} FilterSplits(xs: seq<Record>, p: Record -> bool, q: Record -> bool)
    requires forall x | x in xs :: p(x) != q(x)
    ensures multiset(Filter(xs, p)) + multiset(Filter(xs, q)) == multiset(xs)
  {
    if xs != [] {
      FilterSplits(xs[1..], p, q);
      assert xs == [xs[0]] + xs[1..];
    }
  }

  /** Startup lists order by purpose, then newest; the two balanced groups by
      newest alone. Ids decide between equal times. */
  datatype Order = ByPurpose | ByNewest

  function PurposeRank(purpose: string): int {
    if purpose == "preference" then 0 else if purpose == "decision" then 1 else if purpose == "lesson" then 2
    else if purpose == "handoff" then 3 else 4
  }

  predicate Newer(a: Record, b: Record) {
    a.updated > b.updated || (a.updated == b.updated && a.id > b.id)
  }

  predicate Less(o: Order, a: Record, b: Record) {
    match o
    case ByNewest => Newer(a, b)
    case ByPurpose =>
      PurposeRank(a.purpose) < PurposeRank(b.purpose)
        || (PurposeRank(a.purpose) == PurposeRank(b.purpose) && Newer(a, b))
  }

  predicate Sorted(o: Order, xs: seq<Record>) {
    forall i, j | 0 <= i < j < |xs| :: !Less(o, xs[j], xs[i])
  }

  /** A sorted list runs through preferences, decisions, lessons and handoffs to
      all the rest, and each of them from the newest to the oldest, with the
      later id first where two are as new. */
  lemma ListOrder(xs: seq<Record>, i: nat, j: nat)
    requires Sorted(ByPurpose, xs) && i < j < |xs|
    ensures xs[j].purpose == "preference" ==> xs[i].purpose == "preference"
    ensures xs[j].purpose == "decision" ==> xs[i].purpose in {"preference", "decision"}
    ensures xs[j].purpose == "lesson" ==> xs[i].purpose in {"preference", "decision", "lesson"}
    ensures xs[j].purpose == "handoff" ==> xs[i].purpose in {"preference", "decision", "lesson", "handoff"}
    ensures xs[i].purpose == xs[j].purpose ==>
              xs[i].updated > xs[j].updated || (xs[i].updated == xs[j].updated && xs[i].id >= xs[j].id)
  {
    assert !Less(ByPurpose, xs[j], xs[i]);
  }

  predicate DistinctIds(xs: seq<Record>) {
    forall i, j | 0 <= i < j < |xs| :: xs[i].id != xs[j].id
  }

  function Insert(o: Order, x: Record, xs: seq<Record>): (ys: seq<Record>)
    ensures multiset(ys) == multiset{x} + multiset(xs)
  {
    if xs == [] || !Less(o, xs[0], x) then [x] + xs
    else
      assert xs == [xs[0]] + xs[1..];
      [xs[0]] + Insert(o, x, xs[1..])
  }

  function Sort(o: Order, xs: seq<Record>): (ys: seq<Record>)
    ensures multiset(ys) == multiset(xs) && |ys| == |xs|
  {
    if xs == [] then []
    else
      assert xs == [xs[0]] + xs[1..];
      SameSize(Insert(o, xs[0], Sort(o, xs[1..])), xs);
      Insert(o, xs[0], Sort(o, xs[1..]))
  }

  lemma SameSize(xs: seq<Record>, ys: seq<Record>)
    requires multiset(xs) == multiset(ys)
    ensures |xs| == |ys|
  {
    assert |multiset(xs)| == |xs| && |multiset(ys)| == |ys|;
  }

  lemma SameMembers(xs: seq<Record>, ys: seq<Record>)
    requires multiset(xs) == multiset(ys)
    ensures forall x :: x in xs <==> x in ys
  {
    forall x ensures x in xs <==> x in ys {
      assert x in xs <==> x in multiset(xs);
      assert x in ys <==> x in multiset(ys);
    }
  }

  lemma {:induction false} InsertSorted(o: Order, x: Record, xs: seq<Record>)
    requires Sorted(o, xs)
    ensures Sorted(o, Insert(o, x, xs))
  {
    if xs != [] && Less(o, xs[0], x) {
      InsertSorted(o, x, xs[1..]);
      var rest := Insert(o, x, xs[1..]);
      forall k | 0 <= k < |rest| ensures !Less(o, rest[k], xs[0]) {
        assert rest[k] in multiset(rest);
        assert rest[k] == x || rest[k] in xs[1..];
      }
    }
  }

  lemma {:induction false} SortSorted(o: Order, xs: seq<Record>)
    ensures Sorted(o, Sort(o, xs))
  {
    if xs != [] {
      SortSorted(o, xs[1..]);
      InsertSorted(o, xs[0], Sort(o, xs[1..]));
    }
  }

  lemma {:induction false} InsertFilter(o: Order, x: Record, xs: seq<Record>, p: Record -> bool)
    requires Sorted(o, xs)
    ensures Filter(Insert(o, x, xs), p) == if p(x) then Insert(o, x, Filter(xs, p)) else Filter(xs, p)
  {
    if xs == [] || !Less(o, xs[0], x) {
      assert ([x] + xs)[1..] == xs;
      if p(x) && Filter(xs, p) != [] {
        var first := Filter(xs, p)[0];
        assert first in xs;
        assert !Less(o, first, x);
      }
    } else {
      InsertFilter(o, x, xs[1..], p);
      var ys := [xs[0]] + Insert(o, x, xs[1..]);
      assert ys[1..] == Insert(o, x, xs[1..]);
      if p(xs[0]) {
        var kept := [xs[0]] + Filter(xs[1..], p);
        assert kept[1..] == Filter(xs[1..], p);
      }
    }
  }

  /** Filtering an ordered list is ordering the filtered list. */
  lemma {:induction false} SortFilter(o: Order, xs: seq<Record>, p: Record -> bool)
    ensures Filter(Sort(o, xs), p) == Sort(o, Filter(xs, p))
  {
    if xs != [] {
      SortFilter(o, xs[1..], p);
      SortSorted(o, xs[1..]);
      InsertFilter(o, xs[0], Sort(o, xs[1..]), p);
      if p(xs[0]) {
        assert ([xs[0]] + Filter(xs[1..], p))[1..] == Filter(xs[1..], p);
      }
    }
  }

  lemma DistinctOnce(xs: seq<Record>)
    requires DistinctIds(xs)
    ensures forall a, b | a in xs && b in xs && a.id == b.id :: a == b
    ensures forall r :: multiset(xs)[r] <= 1
  {
    OnceEach(xs);
  }

  lemma {:induction false} OnceEach(xs: seq<Record>)
    requires DistinctIds(xs)
    ensures forall r :: multiset(xs)[r] <= 1
    decreases |xs|
  {
    if xs != [] {
      OnceEach(xs[..|xs| - 1]);
      assert xs == xs[..|xs| - 1] + [xs[|xs| - 1]];
      assert xs[|xs| - 1] !in xs[..|xs| - 1];
    }
  }

  /** Sorting keeps ids distinct. */
  lemma SortDistinct(o: Order, xs: seq<Record>)
    requires DistinctIds(xs)
    ensures DistinctIds(Sort(o, xs))
  {
    var ys := Sort(o, xs);
    DistinctOnce(xs);
    SameMembers(ys, xs);
    forall i, j | 0 <= i < j < |ys| ensures ys[i].id != ys[j].id {
      assert ys[i] in ys && ys[j] in ys;
      EqualTwice(ys, i, j);
    }
  }

  lemma EqualTwice(ys: seq<Record>, i: nat, j: nat)
    requires i < j < |ys|
    ensures ys[i] == ys[j] ==> multiset(ys)[ys[i]] >= 2
  {
    assert ys == ys[..i] + [ys[i]] + ys[i + 1..j] + [ys[j]] + ys[j + 1..];
  }
}
