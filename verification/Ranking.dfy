/** Search ranking: which meaning hits stand out, and how the word and meaning
    lists are fused. Similarities and scores are real numbers. */
module Ranking {
  import opened Sets

  const MIN_SIMILARITY := 0.76
  const STANDOUT_GAP := 0.04
  const STANDOUT_SHARE := 0.4

  datatype Hit = Hit(id: int, similarity: real)

  // ----- sorting -----

  /** Best first; ids decide between equal similarities. */
  predicate Better(a: Hit, b: Hit) {
    a.similarity > b.similarity || (a.similarity == b.similarity && a.id < b.id)
  }

  function InsertHit(h: Hit, hits: seq<Hit>): (r: seq<Hit>)
    ensures multiset(r) == multiset{h} + multiset(hits) && |r| == |hits| + 1
  {
    if hits == [] || Better(h, hits[0]) then [h] + hits
    else
      assert hits == [hits[0]] + hits[1..];
      [hits[0]] + InsertHit(h, hits[1..])
  }

  function SortHits(hits: seq<Hit>): (r: seq<Hit>)
    ensures multiset(r) == multiset(hits) && |r| == |hits|
  {
    if hits == [] then []
    else
      assert hits == [hits[0]] + hits[1..];
      InsertHit(hits[0], SortHits(hits[1..]))
  }

  predicate Descending(hits: seq<Hit>) {
    forall i, j | 0 <= i < j < |hits| :: hits[i].similarity >= hits[j].similarity
  }

  lemma {:induction false} InsertHitSorted(h: Hit, hits: seq<Hit>)
    requires Descending(hits)
    ensures Descending(InsertHit(h, hits))
  {
    if hits != [] && !Better(h, hits[0]) {
      InsertHitSorted(h, hits[1..]);
      var rest := InsertHit(h, hits[1..]);
      forall k | 0 <= k < |rest| ensures hits[0].similarity >= rest[k].similarity {
        assert rest[k] in multiset(rest);
        assert rest[k] == h || rest[k] in hits[1..];
      }
    }
  }

  lemma {:induction false} SortHitsSorted(hits: seq<Hit>)
    ensures Descending(SortHits(hits))
  {
    if hits != [] {
      SortHitsSorted(hits[1..]);
      InsertHitSorted(hits[0], SortHits(hits[1..]));
    }
  }

  function InsertReal(x: real, xs: seq<real>): (r: seq<real>)
    ensures multiset(r) == multiset{x} + multiset(xs) && |r| == |xs| + 1
  {
    if xs == [] || x <= xs[0] then [x] + xs
    else
      assert xs == [xs[0]] + xs[1..];
      [xs[0]] + InsertReal(x, xs[1..])
  }

  function SortReals(xs: seq<real>): (r: seq<real>)
    ensures multiset(r) == multiset(xs) && |r| == |xs|
  {
    if xs == [] then []
    else
      assert xs == [xs[0]] + xs[1..];
      InsertReal(xs[0], SortReals(xs[1..]))
  }

  predicate Ascending(xs: seq<real>) {
    forall i, j | 0 <= i < j < |xs| :: xs[i] <= xs[j]
  }

  lemma {:induction false} InsertRealSorted(x: real, xs: seq<real>)
    requires Ascending(xs)
    ensures Ascending(InsertReal(x, xs))
  {
    if xs != [] && x > xs[0] {
      InsertRealSorted(x, xs[1..]);
      var rest := InsertReal(x, xs[1..]);
      forall k | 0 <= k < |rest| ensures xs[0] <= rest[k] {
        assert rest[k] in multiset(rest);
        assert rest[k] == x || rest[k] in xs[1..];
      }
    }
  }

  lemma {:induction false} SortRealsSorted(xs: seq<real>)
    ensures Ascending(SortReals(xs))
  {
    if xs != [] {
      SortRealsSorted(xs[1..]);
      InsertRealSorted(xs[0], SortReals(xs[1..]));
    }
  }

  // ----- the standout filter -----

  function Median(sorted: seq<real>): real
    requires sorted != []
  {
    var middle := |sorted| / 2;
    if |sorted| % 2 == 0 then (sorted[middle - 1] + sorted[middle]) / 2.0 else sorted[middle]
  }

  function AtLeast(hits: seq<Hit>, bar: real): (r: seq<Hit>)
    ensures |r| <= |hits|
  {
    if hits == [] then []
    else AtLeast(hits[..|hits| - 1], bar) + if hits[|hits| - 1].similarity >= bar then [hits[|hits| - 1]] else []
  }

  /** The hits kept of a sorted list, given every comparable memory's score. */
  function Standouts(hits: seq<Hit>, scanned: seq<real>): seq<Hit> {
    if hits == [] || |scanned| < 5 then hits
    else
      var median := Median(SortReals(scanned));
      var best := hits[0].similarity;
      if best - median >= STANDOUT_GAP then AtLeast(hits, median + STANDOUT_SHARE * (best - median)) else []
  }

  function Similarities(hits: seq<Hit>): seq<real> {
    if hits == [] then [] else Similarities(hits[..|hits| - 1]) + [hits[|hits| - 1].similarity]
  }

  /** Meaning hits for the comparable memories scanned, best first. */
  function MeaningHits(scanned: seq<Hit>): seq<Hit> {
    Standouts(SortHits(AtLeast(scanned, MIN_SIMILARITY)), Similarities(scanned))
  }

  /** How many scores lie above a bound. */
  function Above(xs: seq<real>, m: real): nat {
    if xs == [] then 0 else Above(xs[..|xs| - 1], m) + if xs[|xs| - 1] > m then 1 else 0
  }

  lemma {:induction false} AboveSplit(xs: seq<real>, ys: seq<real>, m: real)
    ensures Above(xs + ys, m) == Above(xs, m) + Above(ys, m)
    decreases |ys|
  {
    if ys == [] {
      assert xs + ys == xs;
    } else {
      assert (xs + ys)[..|xs + ys| - 1] == xs + ys[..|ys| - 1];
      AboveSplit(xs, ys[..|ys| - 1], m);
    }
  }

  lemma {:induction false} AbovePermuted(xs: seq<real>, ys: seq<real>, m: real)
    requires multiset(xs) == multiset(ys)
    ensures Above(xs, m) == Above(ys, m)
    decreases |xs|
  {
    if xs == [] {
      assert |multiset(ys)| == |ys|;
    } else {
      var last := xs[|xs| - 1];
      assert xs == xs[..|xs| - 1] + [last];
      assert last in multiset(ys);
      var k :| 0 <= k < |ys| && ys[k] == last;
      AboveWithout(ys, k, m);
      assert multiset(xs[..|xs| - 1]) == multiset(xs) - multiset{last};
      AbovePermuted(xs[..|xs| - 1], ys[..k] + ys[k + 1..], m);
    }
  }

  lemma AboveWithout(ys: seq<real>, k: nat, m: real)
    requires k < |ys|
    ensures multiset(ys) == multiset(ys[..k] + ys[k + 1..]) + multiset{ys[k]}
    ensures Above(ys, m) == Above(ys[..k] + ys[k + 1..], m) + if ys[k] > m then 1 else 0
  {
    assert ys == ys[..k] + [ys[k]] + ys[k + 1..];
    AboveSplit(ys[..k] + [ys[k]], ys[k + 1..], m);
    AboveSplit(ys[..k], [ys[k]], m);
    AboveSplit(ys[..k], ys[k + 1..], m);
    assert [ys[k]][..0] == [];
  }

  lemma {:induction false} NoneAbove(xs: seq<real>, m: real)
    requires forall i | 0 <= i < |xs| :: xs[i] <= m
    ensures Above(xs, m) == 0
    decreases |xs|
  {
    if xs != [] {
      NoneAbove(xs[..|xs| - 1], m);
    }
  }

  lemma {:induction false} AboveAtMost(xs: seq<real>, m: real)
    ensures Above(xs, m) <= |xs|
    decreases |xs|
  {
    if xs != [] {
      AboveAtMost(xs[..|xs| - 1], m);
    }
  }

  /** At most half the scores of a sorted list lie above its median. */
  lemma HalfAboveSorted(s: seq<real>)
    requires s != [] && Ascending(s)
    ensures 2 * Above(s, Median(s)) <= |s|
  {
    var low := (|s| + 1) / 2;
    LowerHalf(s);
    assert s == s[..low] + s[low..];
    AboveSplit(s[..low], s[low..], Median(s));
    NoneAbove(s[..low], Median(s));
    AboveAtMost(s[low..], Median(s));
  }

  lemma LowerHalf(s: seq<real>)
    requires s != [] && Ascending(s)
    ensures forall i | 0 <= i < (|s| + 1) / 2 :: s[i] <= Median(s)
  {
    var middle := |s| / 2;
    if |s| % 2 == 0 {
      assert s[middle - 1] <= s[middle];
    }
  }

  lemma HalfAboveMedian(xs: seq<real>)
    requires xs != []
    ensures 2 * Above(xs, Median(SortReals(xs))) <= |xs|
  {
    hide Median, Above;
    SortRealsSorted(xs);
    AbovePermuted(xs, SortReals(xs), Median(SortReals(xs)));
    HalfAboveSorted(SortReals(xs));
  }

  /** Filtering by a bar above m keeps no more hits than scores above m. */
  lemma {:induction false} KeptAbove(hits: seq<Hit>, bar: real, m: real)
    requires bar > m
    ensures |AtLeast(hits, bar)| <= Above(Similarities(hits), m)
    decreases |hits|
  {
    if hits != [] {
      KeptAbove(hits[..|hits| - 1], bar, m);
      var sims := Similarities(hits[..|hits| - 1]);
      assert (sims + [hits[|hits| - 1].similarity])[..|sims|] == sims;
    }
  }

  lemma SnocAbove(hits: seq<Hit>, h: Hit, m: real)
    ensures Above(Similarities(hits + [h]), m) == Above(Similarities(hits), m) + if h.similarity > m then 1 else 0
  {
    assert (hits + [h])[..|hits|] == hits;
    var sims := Similarities(hits);
    assert (sims + [h.similarity])[..|sims|] == sims;
  }

  lemma {:induction false} FewerAbove(hits: seq<Hit>, bar: real, m: real)
    ensures Above(Similarities(AtLeast(hits, bar)), m) <= Above(Similarities(hits), m)
    decreases |hits|
  {
    if hits != [] {
      var init, last := hits[..|hits| - 1], hits[|hits| - 1];
      FewerAbove(init, bar, m);
      assert hits == init + [last];
      hide Above, Similarities;
      SnocAbove(init, last, m);
      if last.similarity >= bar {
        SnocAbove(AtLeast(init, bar), last, m);
        assert AtLeast(hits, bar) == AtLeast(init, bar) + [last];
      } else {
        assert AtLeast(hits, bar) == AtLeast(init, bar);
      }
    }
  }

  lemma {:induction false} SimilaritiesAt(hits: seq<Hit>)
    ensures |Similarities(hits)| == |hits| && forall i | 0 <= i < |hits| :: Similarities(hits)[i] == hits[i].similarity
    decreases |hits|
  {
    if hits != [] {
      SimilaritiesAt(hits[..|hits| - 1]);
    }
  }

  lemma SimilaritiesConcat(a: seq<Hit>, b: seq<Hit>)
    ensures Similarities(a + b) == Similarities(a) + Similarities(b)
  {
    SimilaritiesAt(a);
    SimilaritiesAt(b);
    SimilaritiesAt(a + b);
  }

  /** Sorting hits does not change how many lie above a bound. */
  lemma {:induction false} SimilaritiesPermuted(hits: seq<Hit>, m: real)
    ensures Above(Similarities(SortHits(hits)), m) == Above(Similarities(hits), m)
  {
    if hits != [] {
      SimilaritiesPermuted(hits[1..], m);
      InsertedAbove(hits[0], SortHits(hits[1..]), m);
      ConsAbove(hits[0], hits[1..], m);
      assert hits == [hits[0]] + hits[1..];
    }
  }

  lemma ConsAbove(h: Hit, hits: seq<Hit>, m: real)
    ensures Above(Similarities([h] + hits), m) == Above(Similarities(hits), m) + if h.similarity > m then 1 else 0
  {
    SimilaritiesConcat([h], hits);
    assert [h][..0] == [] && [h.similarity][..0] == [];
    assert Similarities([h]) == [h.similarity];
    AboveSplit([h.similarity], Similarities(hits), m);
  }

  lemma {:induction false} InsertedAbove(h: Hit, hits: seq<Hit>, m: real)
    ensures Above(Similarities(InsertHit(h, hits)), m) ==
            Above(Similarities(hits), m) + if h.similarity > m then 1 else 0
  {
    hide Similarities, Above, Better;
    ConsAbove(h, hits, m);
    if hits != [] && !Better(h, hits[0]) {
      InsertedAbove(h, hits[1..], m);
      ConsAbove(hits[0], InsertHit(h, hits[1..]), m);
      ConsAbove(hits[0], hits[1..], m);
      assert hits == [hits[0]] + hits[1..];
    }
  }

  lemma {:induction false} AtLeastPrefix(hits: seq<Hit>, bar: real)
    requires Descending(hits)
    ensures AtLeast(hits, bar) <= hits
    ensures forall i | 0 <= i < |hits| :: hits[i].similarity >= bar <==> i < |AtLeast(hits, bar)|
    decreases |hits|
  {
    if hits != [] {
      AtLeastPrefix(hits[..|hits| - 1], bar);
    }
  }

  /** With five or more comparable memories the kept hits are a prefix of the
      sorted hits, at most half of those scanned, and hold the best hit whenever
      it stands far enough above the median. */
  lemma StandoutsStandOut(scanned: seq<Hit>)
    requires |scanned| >= 5
    ensures var hits := SortHits(AtLeast(scanned, MIN_SIMILARITY));
            var kept := MeaningHits(scanned);
            && kept <= hits && 2 * |kept| <= |scanned|
            && (kept != [] ==> kept[0] == hits[0])
            && var median := Median(SortReals(Similarities(scanned)));
            && (kept != [] <==> hits != [] && hits[0].similarity - median >= 0.04)
            // and then each hit that lies two fifths of the way from the median to the best
            && (kept != [] ==> forall i | 0 <= i < |hits| ::
                  i < |kept| <==> hits[i].similarity - median >= 0.4 * (hits[0].similarity - median))
  {
    hide SortHits, AtLeast, SortReals, Median, Similarities, Descending;
    SimilaritiesAt(scanned);
    var hits := SortHits(AtLeast(scanned, MIN_SIMILARITY));
    var sims := Similarities(scanned);
    SortHitsSorted(AtLeast(scanned, MIN_SIMILARITY));
    if hits != [] {
      var median := Median(SortReals(sims));
      var best := hits[0].similarity;
      if best - median >= STANDOUT_GAP {
        var bar := median + STANDOUT_SHARE * (best - median);
        AtLeastPrefix(hits, bar);
        KeptAbove(hits, bar, median);
        SimilaritiesPermuted(AtLeast(scanned, MIN_SIMILARITY), median);
        FewerAbove(scanned, MIN_SIMILARITY, median);
        HalfAboveMedian(sims);
      }
    }
  }

  /** The candidates: those similar enough, each once, best first and by id where
      equally similar. With fewer than five memories scanned all of them count. */
  lemma CandidatesOrdered(scanned: seq<Hit>)
    ensures var hits := SortHits(AtLeast(scanned, MIN_SIMILARITY));
            && BestFirst(hits)
            && (forall h :: h in hits <==> h in scanned && h.similarity >= 0.76)
            && (|scanned| < 5 ==> MeaningHits(scanned) == hits)
  {
    hide SortHits, AtLeast, Better;
    var picked := AtLeast(scanned, MIN_SIMILARITY);
    SortHitsBetter(picked);
    PickedMembers(scanned, MIN_SIMILARITY);
    SimilaritiesAt(scanned);
    forall h ensures h in SortHits(picked) <==> h in picked {
      assert h in multiset(SortHits(picked)) <==> h in multiset(picked);
    }
  }

  lemma {:induction false} PickedMembers(scanned: seq<Hit>, bar: real)
    ensures forall h :: h in AtLeast(scanned, bar) <==> h in scanned && h.similarity >= bar
    decreases |scanned|
  {
    if scanned != [] {
      PickedMembers(scanned[..|scanned| - 1], bar);
      assert scanned == scanned[..|scanned| - 1] + [scanned[|scanned| - 1]];
    }
  }

  predicate BestFirst(hits: seq<Hit>) {
    forall i, j | 0 <= i < j < |hits| :: !Better(hits[j], hits[i])
  }

  lemma {:induction false} SortHitsBetter(hits: seq<Hit>)
    ensures BestFirst(SortHits(hits))
  {
    hide BestFirst, InsertHit;
    if hits == [] {
      assert BestFirst([]) by { NoneBetter(); }
    } else {
      SortHitsBetter(hits[1..]);
      InsertHitBetter(hits[0], SortHits(hits[1..]));
    }
  }

  lemma NoneBetter()
    ensures BestFirst([])
  {
  }

  lemma {:induction false} InsertHitBetter(h: Hit, hits: seq<Hit>)
    requires BestFirst(hits)
    ensures BestFirst(InsertHit(h, hits))
  {
    if hits == [] {
    } else if Better(h, hits[0]) {
      forall j | 0 <= j < |hits| ensures !Better(hits[j], h) {
        assert j > 0 ==> !Better(hits[j], hits[0]);
      }
    } else {
      InsertHitBetter(h, hits[1..]);
      var rest := InsertHit(h, hits[1..]);
      forall k | 0 <= k < |rest| ensures !Better(rest[k], hits[0]) {
        assert rest[k] in multiset(rest);
        assert rest[k] == h || rest[k] in hits[1..];
      }
      HeadBest(hits[0], rest);
    }
  }

  lemma HeadBest(h: Hit, rest: seq<Hit>)
    requires BestFirst(rest) && forall k | 0 <= k < |rest| :: !Better(rest[k], h)
    ensures BestFirst([h] + rest)
  {
    hide Better;
    var r := [h] + rest;
    forall i, j | 0 <= i < j < |r| ensures !Better(r[j], r[i]) {
      assert r[j] == rest[j - 1];
      assert i > 0 ==> r[i] == rest[i - 1];
    }
  }

  /** The filter as the source runs it: sorted hits compacted in place, the kept
      ones first. */
  method StandoutInPlace(hits: array<Hit>, scanned: seq<real>) returns (kept: nat)
    modifies hits
    ensures kept <= hits.Length && hits[..kept] == Standouts(old(hits[..]), scanned)
  {
    hide SortReals;
    kept := hits.Length;
    if hits.Length > 0 && |scanned| >= 5 {
      var sorted := SortReals(scanned);
      var middle := |sorted| / 2;
      var best, median := hits[0].similarity, sorted[middle];
      if |sorted| % 2 == 0 {
        median := (sorted[middle - 1] + sorted[middle]) / 2.0;
      }
      kept := 0;
      if best - median >= STANDOUT_GAP {
        var bar := median + STANDOUT_SHARE * (best - median);
        ghost var was := hits[..];
        for i := 0 to hits.Length
          invariant kept <= i && hits[..kept] == AtLeast(was[..i], bar)
          invariant forall j | i <= j < hits.Length :: hits[j] == was[j]
        {
          assert was[..i + 1][..i] == was[..i];
          var hit := hits[i];
          if hit.similarity >= bar {
            hits[kept] := hit;
            kept := kept + 1;
          }
        }
        assert was[..hits.Length] == was;
      }
    }
    assert hits[..hits.Length] == hits[..];
  }

  // ----- fusing the two lists -----

  function Place(ids: seq<int>, id: int): (k: int)
    ensures k < 0 <==> id !in ids
    ensures k >= 0 ==> k < |ids| && ids[k] == id
  {
    if ids == [] then -1
    else if ids[0] == id then 0
    else
      var k := Place(ids[1..], id);
      if k < 0 then -1 else k + 1
  }

  function Share(weight: real, place: int): real {
    if place < 0 then 0.0 else weight / (61 + place) as real
  }

  /** What a memory scores from its places in the word and meaning lists. */
  function Score(words: seq<int>, meanings: seq<int>, id: int): real {
    Share(0.4, Place(words, id)) + Share(0.6, Place(meanings, id))
  }

  predicate Ahead(words: seq<int>, meanings: seq<int>, a: int, b: int) {
    Score(words, meanings, a) > Score(words, meanings, b)
    || (Score(words, meanings, a) == Score(words, meanings, b) && a < b)
  }

  predicate Distinct(ids: seq<int>) {
    forall i, j | 0 <= i < j < |ids| :: ids[i] != ids[j]
  }

  /** a is placed, and b is not or is placed later. */
  predicate PlacedBefore(ids: seq<int>, a: int, b: int) {
    a in ids && (b in ids ==> Place(ids, a) < Place(ids, b))
  }

  predicate PlacedNoWorse(ids: seq<int>, a: int, b: int) {
    b in ids ==> a in ids && Place(ids, a) <= Place(ids, b)
  }

  lemma ShareFalls(weight: real, a: int, b: int)
    requires weight > 0.0 && 0 <= a < b
    ensures Share(weight, a) > Share(weight, b) > 0.0
  {
    var x, y := (61 + a) as real, (61 + b) as real;
    assert 0.0 < x < y;
    assert weight / x - weight / y == weight * (y - x) / (x * y);
    assert x * y > 0.0 && weight * (y - x) > 0.0;
  }

  lemma SharePositive(weight: real, a: int)
    requires weight > 0.0 && 0 <= a
    ensures Share(weight, a) > 0.0
  {
  }

  lemma ShareOrder(weight: real, ids: seq<int>, a: int, b: int)
    requires weight > 0.0
    ensures PlacedBefore(ids, a, b) ==> Share(weight, Place(ids, a)) > Share(weight, Place(ids, b))
    ensures PlacedNoWorse(ids, a, b) ==> Share(weight, Place(ids, a)) >= Share(weight, Place(ids, b))
  {
    var pa, pb := Place(ids, a), Place(ids, b);
    if pa >= 0 {
      SharePositive(weight, pa);
      if pb > pa {
        ShareFalls(weight, pa, pb);
      }
    }
  }

  /** No worse in both lists and better in one scores strictly higher. */
  lemma DominanceScores(words: seq<int>, meanings: seq<int>, a: int, b: int)
    requires PlacedNoWorse(words, a, b) && PlacedNoWorse(meanings, a, b)
    requires PlacedBefore(words, a, b) || PlacedBefore(meanings, a, b)
    ensures Score(words, meanings, a) > Score(words, meanings, b)
  {
    ShareOrder(0.4, words, a, b);
    ShareOrder(0.6, meanings, a, b);
  }

  /** Meaning weighs more than words: at the same place, each in one list only,
      the memory found by meaning comes first. */
  lemma MeaningWeighsMore(words: seq<int>, meanings: seq<int>, a: int, b: int)
    requires a in words && a !in meanings && b in meanings && b !in words
    requires Place(words, a) == Place(meanings, b)
    ensures Ahead(words, meanings, b, a) && !Ahead(words, meanings, a, b)
  {
    hide Place, Share;
    var k := Place(words, a);
    assert Place(meanings, a) < 0 && Place(words, b) < 0;
    SharesAt(k);
  }

  lemma SharesAt(place: nat)
    ensures Share(0.6, place) > Share(0.4, place) && Share(0.4, -1) == Share(0.6, -1) == 0.0
    ensures forall k | k < 0 :: Share(0.4, k) == Share(0.6, k) == 0.0
  {
    var x := (61 + place) as real;
    assert 0.6 / x == 0.4 / x + 0.2 / x;
    assert 0.2 / x > 0.0;
  }

  /** Agreement wins: a memory among the first 41 of both lists comes before any
      that is in one list only, however high. */
  lemma AgreementWins(words: seq<int>, meanings: seq<int>, a: int, b: int)
    requires 0 <= Place(words, a) <= 40 && 0 <= Place(meanings, a) <= 40
    requires b !in words || b !in meanings
    ensures Ahead(words, meanings, a, b)
  {
    ShareAtLeast(0.4, Place(words, a));
    ShareAtLeast(0.6, Place(meanings, a));
    ShareAtMost(0.4, Place(words, b));
    ShareAtMost(0.6, Place(meanings, b));
  }

  lemma ShareAtLeast(weight: real, place: int)
    requires weight > 0.0 && 0 <= place <= 40
    ensures Share(weight, place) >= weight / 101.0
  {
    if place < 40 {
      ShareFalls(weight, place, 40);
    }
  }

  lemma ShareAtMost(weight: real, place: int)
    requires weight > 0.0
    ensures Share(weight, place) <= weight / 61.0
  {
    if place > 0 {
      ShareFalls(weight, 0, place);
    }
  }

  /** The fused order: everything in either list, each once, higher scores first. */
  ghost predicate Fused(words: seq<int>, meanings: seq<int>, ranked: seq<int>) {
    && (forall id :: id in ranked <==> id in words || id in meanings)
    && forall i, j | 0 <= i < j < |ranked| :: Ahead(words, meanings, ranked[i], ranked[j])
  }

  /** So such a memory comes earlier in the fused order. */
  lemma Dominance(words: seq<int>, meanings: seq<int>, ranked: seq<int>, i: nat, j: nat)
    requires Fused(words, meanings, ranked) && i < |ranked| && j < |ranked|
    requires PlacedNoWorse(words, ranked[i], ranked[j]) && PlacedNoWorse(meanings, ranked[i], ranked[j])
    requires PlacedBefore(words, ranked[i], ranked[j]) || PlacedBefore(meanings, ranked[i], ranked[j])
    ensures i < j
  {
    DominanceScores(words, meanings, ranked[i], ranked[j]);
  }

  /** Reading a map at an absent key gives zero. */
  function Held(scores: map<int, real>, id: int): real {
    if id in scores then scores[id] else 0.0
  }

  /** The scores the two loops accumulate. */
  method Scores(words: seq<int>, meanings: seq<int>) returns (scores: map<int, real>)
    requires Distinct(words) && Distinct(meanings)
    ensures forall id :: id in scores <==> id in words || id in meanings
    ensures forall id | id in scores :: scores[id] == Score(words, meanings, id)
  {
    scores := map[];
    for rank := 0 to |words|
      invariant forall id :: id in scores <==> id in words[..rank]
      invariant forall id | id in scores :: scores[id] == Share(0.4, Place(words, id))
    {
      PlaceAt(words, rank);
      var id := words[rank];
      scores := scores[id := Held(scores, id) + 0.4 / (61 + rank) as real];
      assert words[..rank + 1] == words[..rank] + [id];
    }
    assert words[..|words|] == words;
    for rank := 0 to |meanings|
      invariant forall id :: id in scores <==> id in words || id in meanings[..rank]
      invariant forall id | id in scores ::
                  scores[id] == Share(0.4, Place(words, id)) +
                                if id in meanings[..rank] then Share(0.6, Place(meanings, id)) else 0.0
    {
      PlaceAt(meanings, rank);
      var id := meanings[rank];
      assert id !in meanings[..rank];
      scores := scores[id := Held(scores, id) + 0.6 / (61 + rank) as real];
      assert meanings[..rank + 1] == meanings[..rank] + [id];
    }
    assert meanings[..|meanings|] == meanings;
  }

  lemma PlaceAt(ids: seq<int>, k: nat)
    requires Distinct(ids) && k < |ids|
    ensures Place(ids, ids[k]) == k
  {
  }

  method InsertRanked(words: seq<int>, meanings: seq<int>, scores: map<int, real>, ranked: seq<int>, id: int)
    returns (r: seq<int>)
    requires id in scores && id !in ranked && forall k | k in ranked :: k in scores
    requires forall k | k in scores :: scores[k] == Score(words, meanings, k)
    requires forall i, j | 0 <= i < j < |ranked| :: Ahead(words, meanings, ranked[i], ranked[j])
    ensures forall k :: k in r <==> k in ranked || k == id
    ensures forall i, j | 0 <= i < j < |r| :: Ahead(words, meanings, r[i], r[j])
  {
    var at := 0;
    while at < |ranked| && (scores[ranked[at]] > scores[id] || (scores[ranked[at]] == scores[id] && ranked[at] < id))
      invariant 0 <= at <= |ranked|
      invariant forall i | 0 <= i < at :: Ahead(words, meanings, ranked[i], id)
    {
      at := at + 1;
    }
    r := ranked[..at] + [id] + ranked[at..];
    forall i | at <= i < |ranked| ensures Ahead(words, meanings, id, ranked[i]) {
      assert ranked[i] in ranked && ranked[at] in ranked;
      assert i > at ==> Ahead(words, meanings, ranked[at], ranked[i]);
    }
    assert ranked == ranked[..at] + ranked[at..];
  }

  /** Ranks every memory of either list. */
  method Fuse(words: seq<int>, meanings: seq<int>) returns (ranked: seq<int>)
    requires Distinct(words) && Distinct(meanings)
    ensures Fused(words, meanings, ranked)
  {
    var scores := Scores(words, meanings);
    ranked := [];
    var rest := scores.Keys;
    while rest != {}
      invariant rest <= scores.Keys
      invariant forall id :: id in ranked <==> id in scores && id !in rest
      invariant forall i, j | 0 <= i < j < |ranked| :: Ahead(words, meanings, ranked[i], ranked[j])
      decreases |rest|
    {
      assert exists id :: id in rest by {
        var some := SomeMember(rest);
        assert some in rest;
      }
      var id :| id in rest;
      ranked := InsertRanked(words, meanings, scores, ranked, id);
      rest := rest - {id};
    }
  }
}
