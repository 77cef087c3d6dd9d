/** What agent startup context selects, packs and reports, and the promises of
    the owner's preview of it. */
module Startup {
  import opened Records
  import opened Lists

  // ----- scope keys -----

  /** A stored scope applies when each dimension is unset or the caller's. */
  predicate Applies(stored: Scope, caller: Scope) {
    && !stored.legacy
    && (stored.project.None? || stored.project == caller.project)
    && (stored.device.None? || stored.device == caller.device)
    && (stored.platform.None? || stored.platform == caller.platform)
  }

  // ----- listing -----

  /** Active records whose scope applies to the caller, in id order. */
  function ActiveUpTo(rows: map<int, Row>, caller: Scope, n: int): seq<Record>
    decreases if n < 0 then 0 else n
  {
    if n <= 0 then []
    else
      ActiveUpTo(rows, caller, n - 1) +
      if n in rows && !rows[n].record.archived && Applies(rows[n].record.scope, caller) then [rows[n].record] else []
  }

  predicate Everything(r: Record) {
    true
  }

  /** Agents load confirmed records and handoffs only. */
  predicate AgentLoads(r: Record) {
    r.confirmed || r.purpose == "handoff"
  }

  predicate Unconfirmed(r: Record) {
    !AgentLoads(r)
  }

  function ScopedRecords(t: Tables, caller: Scope, filter: Record -> bool): seq<Record> {
    Sort(ByPurpose, Filter(ActiveUpTo(t.rows, caller, t.sequence), filter))
  }

  /** Narrowing in the query and partitioning its full result agree. */
  lemma PartitionIsQuery(t: Tables, caller: Scope, p: Record -> bool)
    ensures Filter(ScopedRecords(t, caller, Everything), p) == ScopedRecords(t, caller, p)
  {
    var all := ActiveUpTo(t.rows, caller, t.sequence);
    FilterAll(all, Everything);
    SortFilter(ByPurpose, all, p);
  }

  lemma {:induction false} ActiveMembers(rows: map<int, Row>, caller: Scope, n: int)
    requires forall id | id in rows :: rows[id].record.id == id
    ensures DistinctIds(ActiveUpTo(rows, caller, n))
    ensures forall r :: r in ActiveUpTo(rows, caller, n) <==>
              1 <= r.id <= n && r.id in rows && rows[r.id].record == r && !r.archived && Applies(r.scope, caller)
    decreases if n < 0 then 0 else n
  {
    if n > 0 {
      ActiveMembers(rows, caller, n - 1);
      var init := ActiveUpTo(rows, caller, n - 1);
      forall i | 0 <= i < |init| ensures init[i].id < n {
        assert init[i] in init;
      }
    }
  }

  // ----- choosing a handoff -----

  predicate IsHandoff(r: Record) {
    r.purpose == "handoff"
  }

  predicate IsProjectHandoff(r: Record) {
    r.purpose == "handoff" && r.scope.project.Some?
  }

  predicate NotHandoff(r: Record) {
    r.purpose != "handoff"
  }

  function FirstWhere(xs: seq<Record>, p: Record -> bool): (k: int)
    ensures -1 <= k < |xs|
    ensures k >= 0 ==> p(xs[k]) && forall i | 0 <= i < k :: !p(xs[i])
    ensures k < 0 ==> forall i | 0 <= i < |xs| :: !p(xs[i])
  {
    if xs == [] then -1
    else if p(xs[0]) then 0
    else
      var k := FirstWhere(xs[1..], p);
      if k < 0 then -1 else k + 1
  }

  /** The first project handoff, or else the first handoff. */
  function Chosen(xs: seq<Record>): int {
    if FirstWhere(xs, IsProjectHandoff) >= 0 then FirstWhere(xs, IsProjectHandoff) else FirstWhere(xs, IsHandoff)
  }

  /** Everything but the handoffs that were not chosen. */
  function Selected(xs: seq<Record>, chosen: int): seq<Record> {
    if xs == [] then []
    else
      var n := |xs| - 1;
      Selected(xs[..n], chosen) + if IsHandoff(xs[n]) && n != chosen then [] else [xs[n]]
  }

  function Skipped(xs: seq<Record>, chosen: int): seq<Record> {
    if xs == [] then []
    else
      var n := |xs| - 1;
      Skipped(xs[..n], chosen) + if IsHandoff(xs[n]) && n != chosen then [xs[n]] else []
  }

  lemma SnocMultiset(xs: seq<Record>)
    requires xs != []
    ensures multiset(xs) == multiset(xs[..|xs| - 1]) + multiset{xs[|xs| - 1]}
  {
    assert xs == xs[..|xs| - 1] + [xs[|xs| - 1]];
  }

  lemma SnocFilter(xs: seq<Record>, p: Record -> bool)
    requires xs != []
    ensures Filter(xs, p) == Filter(xs[..|xs| - 1], p) + if p(xs[|xs| - 1]) then [xs[|xs| - 1]] else []
  {
    hide *;
    var init, last := xs[..|xs| - 1], xs[|xs| - 1];
    assert xs == init + [last];
    FilterSnoc(init, last, p);
  }

  lemma FilterSnoc(init: seq<Record>, last: Record, p: Record -> bool)
    ensures Filter(init + [last], p) == Filter(init, p) + if p(last) then [last] else []
  {
    hide *;
    FilterConcat(init, [last], p);
    FilterOne(last, p);
  }

  lemma FilterOne(r: Record, p: Record -> bool)
    ensures Filter([r], p) == if p(r) then [r] else []
  {
    assert [r][1..] == [];
  }

  /** Every record is selected or skipped, and only handoffs are skipped. */
  lemma {:induction false} SelectionSplits(xs: seq<Record>, chosen: int)
    ensures multiset(Selected(xs, chosen)) + multiset(Skipped(xs, chosen)) == multiset(xs)
    ensures forall r | r in Skipped(xs, chosen) :: IsHandoff(r)
  {
    if xs != [] {
      SelectionSplits(xs[..|xs| - 1], chosen);
      SnocMultiset(xs);
    }
  }

  lemma {:induction false} SelectionKeeps(xs: seq<Record>, chosen: int)
    ensures Filter(Selected(xs, chosen), NotHandoff) == Filter(xs, NotHandoff)
  {
    if xs != [] {
      var n := |xs| - 1;
      SelectionKeeps(xs[..n], chosen);
      SnocFilter(xs, NotHandoff);
      FilterConcat(Selected(xs[..n], chosen), [xs[n]], NotHandoff);
      if IsHandoff(xs[n]) && n != chosen {
        assert Selected(xs, chosen) == Selected(xs[..n], chosen);
      }
    }
  }

  /** Of the handoffs, the selection holds the chosen one alone. */
  lemma {:induction false} SelectionHandoff(xs: seq<Record>, chosen: int)
    ensures Filter(Selected(xs, chosen), IsHandoff) ==
            if 0 <= chosen < |xs| && IsHandoff(xs[chosen]) then [xs[chosen]] else []
  {
    if xs != [] {
      var n := |xs| - 1;
      SelectionHandoff(xs[..n], chosen);
      if IsHandoff(xs[n]) && n != chosen {
        assert Selected(xs, chosen) == Selected(xs[..n], chosen);
      } else {
        assert Selected(xs, chosen) == Selected(xs[..n], chosen) + [xs[n]];
        hide Filter, Selected;
        FilterConcat(Selected(xs[..n], chosen), [xs[n]], IsHandoff);
        FilterOne(xs[n], IsHandoff);
      }
    }
  }

  // ----- packing -----

  datatype Packing = Packing(taken: seq<Record>, left: seq<Record>, used: int)

  function Clamped(budget: int): (c: int)
    ensures 1024 <= c <= 65536 && (c < budget ==> c == 65536) && (c > budget ==> c == 1024)
  {
    if budget < 1024 then 1024 else if budget > 65536 then 65536 else budget
  }

  /** Takes each record that still fits, in order, passing over those that do not. */
  function Pack(xs: seq<Record>, budget: int, limit: int, size: Record -> nat): Packing
    decreases |xs|
  {
    if xs == [] then Packing([], [], 0)
    else
      var last := xs[|xs| - 1];
      var p := Pack(xs[..|xs| - 1], budget, limit, size);
      if p.used + size(last) > budget || (limit > 0 && |p.taken| >= limit) then p.(left := p.left + [last])
      else p.(taken := p.taken + [last], used := p.used + size(last))
  }

  function Total(xs: seq<Record>, size: Record -> nat): nat
    decreases |xs|
  {
    if xs == [] then 0 else Total(xs[..|xs| - 1], size) + size(xs[|xs| - 1])
  }

  lemma {:induction false} PackMultiset(xs: seq<Record>, budget: int, size: Record -> nat)
    ensures var p := Pack(xs, budget, 0, size); multiset(p.taken) + multiset(p.left) == multiset(xs)
    decreases |xs|
  {
    if xs != [] {
      PackMultiset(xs[..|xs| - 1], budget, size);
      assert xs == xs[..|xs| - 1] + [xs[|xs| - 1]];
    }
  }

  lemma {:induction false} PackUsed(xs: seq<Record>, budget: int, size: Record -> nat)
    requires budget >= 0
    ensures var p := Pack(xs, budget, 0, size); p.used == Total(p.taken, size) <= budget && p.used <= Total(xs, size)
    decreases |xs|
  {
    if xs != [] {
      PackUsed(xs[..|xs| - 1], budget, size);
      var p := Pack(xs[..|xs| - 1], budget, 0, size);
      assert (p.taken + [xs[|xs| - 1]])[..|p.taken|] == p.taken;
    }
  }

  lemma {:induction false} PackAll(xs: seq<Record>, budget: int, size: Record -> nat)
    requires budget >= 0
    ensures var p := Pack(xs, budget, 0, size);
            && (p.left == [] <==> Total(xs, size) <= budget)
            && (p.left == [] ==> p.taken == xs && p.used == Total(xs, size))
    decreases |xs|
  {
    if xs != [] {
      PackAll(xs[..|xs| - 1], budget, size);
      assert xs == xs[..|xs| - 1] + [xs[|xs| - 1]];
    }
  }

  /** A packing splits the list, stays within budget, and takes everything
      exactly when everything fits. */
  lemma PackSplits(xs: seq<Record>, budget: int, size: Record -> nat)
    requires budget >= 0
    ensures var p := Pack(xs, budget, 0, size);
            && multiset(p.taken) + multiset(p.left) == multiset(xs)
            && p.used == Total(p.taken, size) <= budget
            && (p.left == [] <==> Total(xs, size) <= budget)
            && (p.left == [] ==> p.taken == xs)
  {
    PackMultiset(xs, budget, size);
    PackUsed(xs, budget, size);
    PackAll(xs, budget, size);
  }

  /** The record at a place is taken exactly when it still fits with all taken
      before it and the limit, if any, is not reached; what is taken before it
      stays. */
  lemma PackTakes(xs: seq<Record>, budget: int, limit: int, size: Record -> nat, i: nat)
    requires i < |xs| && budget >= 0
    ensures var before := Pack(xs[..i], budget, limit, size).taken;
            var after := Pack(xs[..i + 1], budget, limit, size);
            var fits := Total(before, size) + size(xs[i]) <= budget && (limit <= 0 || |before| < limit);
            && after.taken == (if fits then before + [xs[i]] else before)
            && after.taken <= Pack(xs, budget, limit, size).taken
  {
    assert xs[..i + 1][..i] == xs[..i];
    PackCounts(xs[..i], budget, limit, size);
    PackGrows(xs, budget, limit, size, i + 1);
  }

  lemma {:induction false} PackGrows(xs: seq<Record>, budget: int, limit: int, size: Record -> nat, i: nat)
    requires i <= |xs|
    ensures Pack(xs[..i], budget, limit, size).taken <= Pack(xs, budget, limit, size).taken
    ensures |Pack(xs[..i], budget, limit, size).left| <= |Pack(xs, budget, limit, size).left|
    decreases |xs| - i
  {
    if i < |xs| {
      PackGrows(xs, budget, limit, size, i + 1);
      assert xs[..i + 1][..i] == xs[..i];
    } else {
      assert xs[..i] == xs;
    }
  }

  /** The running size is the size of what is taken, and neither budget nor
      limit is ever passed. */
  lemma {:induction false} PackCounts(xs: seq<Record>, budget: int, limit: int, size: Record -> nat)
    requires budget >= 0
    ensures var p := Pack(xs, budget, limit, size);
            p.used == Total(p.taken, size) <= budget && (limit > 0 ==> |p.taken| <= limit)
    decreases |xs|
  {
    if xs != [] {
      PackCounts(xs[..|xs| - 1], budget, limit, size);
      var p := Pack(xs[..|xs| - 1], budget, limit, size);
      assert (p.taken + [xs[|xs| - 1]])[..|p.taken|] == p.taken;
    }
  }

  /** Only the limit or its size leaves a record out: none that is left would
      still fit. */
  lemma {:induction false} LeftDoesNotFit(xs: seq<Record>, budget: int, limit: int, size: Record -> nat, r: Record)
    requires budget >= 0 && r in Pack(xs, budget, limit, size).left
    ensures var taken := Pack(xs, budget, limit, size).taken;
            Total(taken, size) + size(r) > budget || (limit > 0 && |taken| == limit)
    decreases |xs|
  {
    var init, last := xs[..|xs| - 1], xs[|xs| - 1];
    var p := Pack(init, budget, limit, size);
    PackCounts(init, budget, limit, size);
    PackCounts(xs, budget, limit, size);
    if r in p.left {
      LeftDoesNotFit(init, budget, limit, size, r);
      assert (p.taken + [last])[..|p.taken|] == p.taken;
    }
  }

  /** What is taken of a prefix does not depend on what follows it. */
  lemma {:induction false} PackPrefix(xs: seq<Record>, ys: seq<Record>, budget: int, size: Record -> nat)
    ensures Pack(xs, budget, 0, size).taken <= Pack(xs + ys, budget, 0, size).taken
    ensures forall r | r in Pack(xs + ys, budget, 0, size).taken[|Pack(xs, budget, 0, size).taken|..] :: r in ys
    decreases |ys|
  {
    if ys == [] {
      assert xs + ys == xs;
    } else {
      var init := ys[..|ys| - 1];
      PackPrefix(xs, init, budget, size);
      assert (xs + ys)[..|xs + ys| - 1] == xs + init;
      assert (xs + ys)[|xs + ys| - 1] == ys[|ys| - 1];
    }
  }

  /** Leading records that fit together are all taken. */
  lemma PackLeading(xs: seq<Record>, ys: seq<Record>, budget: int, size: Record -> nat)
    requires 0 <= Total(xs, size) <= budget
    ensures forall r | r in xs :: r in Pack(xs + ys, budget, 0, size).taken
  {
    PackSplits(xs, budget, size);
    PackPrefix(xs, ys, budget, size);
  }

  // ----- balancing scopes -----

  predicate IsGlobal(r: Record) {
    NotHandoff(r) && r.scope.project.None?
  }

  predicate IsProject(r: Record) {
    NotHandoff(r) && r.scope.project.Some?
  }

  function Take(xs: seq<Record>, oldest: bool): seq<Record> {
    if xs == [] then [] else if oldest then [xs[|xs| - 1]] else [xs[0]]
  }

  function Rest(xs: seq<Record>, oldest: bool): seq<Record> {
    if xs == [] then [] else if oldest then xs[..|xs| - 1] else xs[1..]
  }

  /** One record of each group a round, newest and oldest by turns. */
  function Alternate(global: seq<Record>, project: seq<Record>, oldest: bool): seq<Record>
    decreases |global| + |project|
  {
    if global == [] && project == [] then []
    else Take(global, oldest) + Take(project, oldest) + Alternate(Rest(global, oldest), Rest(project, oldest), !oldest)
  }

  function Balanced(xs: seq<Record>): seq<Record> {
    Alternate(Sort(ByNewest, Filter(xs, IsGlobal)), Sort(ByNewest, Filter(xs, IsProject)), false)
      + Filter(xs, IsHandoff)
  }

  /** One group's share of the alternation. */
  function Zigzag(xs: seq<Record>, oldest: bool): (ys: seq<Record>)
    ensures |ys| == |xs|
    decreases |xs|
  {
    if xs == [] then [] else Take(xs, oldest) + Zigzag(Rest(xs, oldest), !oldest)
  }

  lemma {:induction false} AlternateShare(g: seq<Record>, p: seq<Record>, oldest: bool, q: Record -> bool)
    requires (forall r | r in g :: q(r)) && (forall r | r in p :: !q(r))
    ensures Filter(Alternate(g, p, oldest), q) == Zigzag(g, oldest)
    decreases |g| + |p|
  {
    if g != [] || p != [] {
      var tg, tp := Take(g, oldest), Take(p, oldest);
      var rest := Alternate(Rest(g, oldest), Rest(p, oldest), !oldest);
      AlternateShare(Rest(g, oldest), Rest(p, oldest), !oldest, q);
      FilterConcat(tg + tp, rest, q);
      FilterConcat(tg, tp, q);
      FilterAll(tg, q);
      FilterNone(tp, q);
    }
  }

  lemma {:induction false} AlternateOther(g: seq<Record>, p: seq<Record>, oldest: bool, q: Record -> bool)
    requires (forall r | r in g :: !q(r)) && (forall r | r in p :: q(r))
    ensures Filter(Alternate(g, p, oldest), q) == Zigzag(p, oldest)
    decreases |g| + |p|
  {
    if g != [] || p != [] {
      var tg, tp := Take(g, oldest), Take(p, oldest);
      var rest := Alternate(Rest(g, oldest), Rest(p, oldest), !oldest);
      AlternateOther(Rest(g, oldest), Rest(p, oldest), !oldest, q);
      FilterConcat(tg + tp, rest, q);
      FilterConcat(tg, tp, q);
      FilterNone(tg, q);
      FilterAll(tp, q);
    }
  }

  lemma {:induction false} AlternateMultiset(g: seq<Record>, p: seq<Record>, oldest: bool)
    ensures multiset(Alternate(g, p, oldest)) == multiset(g) + multiset(p)
    decreases |g| + |p|
  {
    if g != [] || p != [] {
      hide Take, Rest;
      TakeRest(g, oldest);
      TakeRest(p, oldest);
      RestShorter(g, p, oldest);
      AlternateMultiset(Rest(g, oldest), Rest(p, oldest), !oldest);
    }
  }

  lemma RestShorter(g: seq<Record>, p: seq<Record>, oldest: bool)
    requires g != [] || p != []
    ensures |Rest(g, oldest)| + |Rest(p, oldest)| < |g| + |p|
  {
  }

  lemma TakeRest(xs: seq<Record>, oldest: bool)
    ensures multiset(xs) == multiset(Take(xs, oldest)) + multiset(Rest(xs, oldest))
  {
    if xs != [] {
      assert xs == [xs[0]] + xs[1..];
      assert xs == xs[..|xs| - 1] + [xs[|xs| - 1]];
    }
  }

  /** In closed form: even places run from one end, odd places from the other. */
  lemma {:induction false} ZigzagNewest(xs: seq<Record>, k: nat)
    requires k < |xs|
    ensures Zigzag(xs, false)[k] == if k % 2 == 0 then xs[k / 2] else xs[|xs| - 1 - k / 2]
    decreases |xs|
  {
    if k > 0 {
      assert Zigzag(xs, false)[k] == Zigzag(xs[1..], true)[k - 1];
      ZigzagOldest(xs[1..], k - 1);
    }
  }

  lemma {:induction false} ZigzagOldest(xs: seq<Record>, k: nat)
    requires k < |xs|
    ensures Zigzag(xs, true)[k] == if k % 2 == 0 then xs[|xs| - 1 - k / 2] else xs[k / 2]
    decreases |xs|
  {
    if k > 0 {
      var init := xs[..|xs| - 1];
      assert Zigzag(xs, true)[k] == Zigzag(init, false)[k - 1];
      ZigzagNewest(init, k - 1);
    }
  }

  /** Where one of two groups that take turns stands at a place. */
  function Turns(a: seq<Record>, b: seq<Record>, k: nat): Record
    requires k < |a| + |b|
  {
    var both := if |a| < |b| then |a| else |b|;
    if k < 2 * both then if k % 2 == 0 then a[k / 2] else b[k / 2]
    else if |a| > |b| then a[k - both] else b[k - both]
  }

  lemma TurnsOn(a: seq<Record>, b: seq<Record>, k: nat)
    requires a != [] && b != [] && 2 <= k < |a| + |b|
    ensures Turns(a, b, k) == Turns(a[1..], b[1..], k - 2)
  {
  }

  lemma {:induction false} AlternateAlone(g: seq<Record>, oldest: bool)
    ensures Alternate(g, [], oldest) == Zigzag(g, oldest) == Alternate([], g, oldest)
    decreases |g|
  {
    if g != [] {
      AlternateAlone(Rest(g, oldest), !oldest);
    }
  }

  /** The two groups' shares take turns, the global one first, while both last;
      then the longer one goes on alone. */
  lemma {:induction false} AlternateTurns(g: seq<Record>, p: seq<Record>, oldest: bool, k: nat)
    requires k < |g| + |p|
    ensures |Alternate(g, p, oldest)| == |g| + |p|
    ensures Alternate(g, p, oldest)[k] == Turns(Zigzag(g, oldest), Zigzag(p, oldest), k)
    decreases |g| + |p|
  {
    hide *;
    if g == [] {
      AlternateAlone(p, oldest);
      TurnsAlone(Zigzag(p, oldest), k);
    } else if p == [] {
      AlternateAlone(g, oldest);
      TurnsAlone(Zigzag(g, oldest), k);
    } else {
      BothTake(g, p, oldest);
      var g', p' := Rest(g, oldest), Rest(p, oldest);
      AlternateSize(g', p', !oldest);
      if k >= 2 {
        AlternateTurns(g', p', !oldest, k - 2);
      }
      TurnsStep(Zigzag(g, oldest), Zigzag(p, oldest), Alternate(g', p', !oldest), k);
    }
  }

  lemma TurnsAlone(a: seq<Record>, k: nat)
    requires k < |a|
    ensures Turns(a, [], k) == a[k] == Turns([], a, k)
  {
  }

  lemma TurnsStep(a: seq<Record>, b: seq<Record>, rest: seq<Record>, k: nat)
    requires a != [] && b != [] && k < |a| + |b| && |rest| == |a| + |b| - 2
    requires k >= 2 ==> rest[k - 2] == Turns(a[1..], b[1..], k - 2)
    ensures ([a[0], b[0]] + rest)[k] == Turns(a, b, k)
  {
    if k >= 2 {
      TurnsOn(a, b, k);
    }
  }

  lemma BothTake(g: seq<Record>, p: seq<Record>, oldest: bool)
    requires g != [] && p != []
    ensures |Rest(g, oldest)| == |g| - 1 && |Rest(p, oldest)| == |p| - 1
    ensures var zg, zp := Zigzag(g, oldest), Zigzag(p, oldest);
            && Alternate(g, p, oldest) == [zg[0], zp[0]] + Alternate(Rest(g, oldest), Rest(p, oldest), !oldest)
            && zg[1..] == Zigzag(Rest(g, oldest), !oldest) && zp[1..] == Zigzag(Rest(p, oldest), !oldest)
  {
  }

  lemma AlternateSize(g: seq<Record>, p: seq<Record>, oldest: bool)
    ensures |Alternate(g, p, oldest)| == |g| + |p|
  {
    AlternateMultiset(g, p, oldest);
    SameSize(Alternate(g, p, oldest), g + p);
  }

  function Alternated(xs: seq<Record>): seq<Record> {
    Alternate(Sort(ByNewest, Filter(xs, IsGlobal)), Sort(ByNewest, Filter(xs, IsProject)), false)
  }

  lemma AlternatedShape(xs: seq<Record>)
    ensures multiset(Alternated(xs)) == multiset(Filter(xs, NotHandoff))
    ensures Filter(Alternated(xs), IsGlobal) == Zigzag(Sort(ByNewest, Filter(xs, IsGlobal)), false)
    ensures Filter(Alternated(xs), IsProject) == Zigzag(Sort(ByNewest, Filter(xs, IsProject)), false)
  {
    hide Zigzag, Alternate, Sort;
    var g, p := Sort(ByNewest, Filter(xs, IsGlobal)), Sort(ByNewest, Filter(xs, IsProject));
    SameMembers(g, Filter(xs, IsGlobal));
    SameMembers(p, Filter(xs, IsProject));
    AlternateShare(g, p, false, IsGlobal);
    AlternateOther(g, p, false, IsProject);
    AlternateMultiset(g, p, false);
    FilterSplits(Filter(xs, NotHandoff), IsGlobal, IsProject);
    FilterTwice(xs, NotHandoff, IsGlobal);
    FilterTwice(xs, NotHandoff, IsProject);
  }

  /** The balanced order is a permutation: each group taken newest and oldest by
      turns, then the handoffs. */
  lemma BalancedShape(xs: seq<Record>)
    ensures multiset(Balanced(xs)) == multiset(xs) && |Balanced(xs)| == |xs| >= |Filter(xs, IsHandoff)|
    ensures Filter(Balanced(xs), IsGlobal) == Zigzag(Sort(ByNewest, Filter(xs, IsGlobal)), false)
    ensures Filter(Balanced(xs), IsProject) == Zigzag(Sort(ByNewest, Filter(xs, IsProject)), false)
    ensures Balanced(xs)[|xs| - |Filter(xs, IsHandoff)|..] == Filter(xs, IsHandoff)
  {
    hide Zigzag, Alternate, Sort, Filter;
    var a, h := Alternated(xs), Filter(xs, IsHandoff);
    AlternatedShape(xs);
    FilterConcat(a, h, IsGlobal);
    FilterConcat(a, h, IsProject);
    FilterNone(h, IsGlobal);
    FilterNone(h, IsProject);
    FilterSplits(xs, NotHandoff, IsHandoff);
    SameSize(a + h, xs);
  }

  // ----- the startup page -----

  /** In list order when everything fits, and balanced when it does not. */
  function StartupPack(xs: seq<Record>, budget: int, size: Record -> nat): Packing {
    var p := Pack(xs, Clamped(budget), 0, size);
    if p.left == [] then p else Pack(Balanced(xs), Clamped(budget), 0, size)
  }

  lemma {:induction false} TotalConcat(xs: seq<Record>, ys: seq<Record>, size: Record -> nat)
    ensures Total(xs + ys, size) == Total(xs, size) + Total(ys, size)
    decreases |ys|
  {
    if ys == [] {
      assert xs + ys == xs;
    } else {
      assert (xs + ys)[..|xs + ys| - 1] == xs + ys[..|ys| - 1];
      TotalConcat(xs, ys[..|ys| - 1], size);
    }
  }

  lemma Without(ys: seq<Record>, k: nat, size: Record -> nat)
    requires k < |ys|
    ensures multiset(ys) == multiset(ys[..k] + ys[k + 1..]) + multiset{ys[k]}
    ensures Total(ys, size) == Total(ys[..k] + ys[k + 1..], size) + size(ys[k])
  {
    hide Total;
    var before, one, after := ys[..k], [ys[k]], ys[k + 1..];
    assert ys == before + one + after;
    TotalConcat(before + one, after, size);
    TotalConcat(before, one, size);
    TotalConcat(before, after, size);
    TotalOne(ys[k], size);
  }

  lemma TotalOne(r: Record, size: Record -> nat)
    ensures Total([r], size) == size(r)
  {
    assert [r][..0] == [];
  }

  lemma {:induction false} TotalPermuted(xs: seq<Record>, ys: seq<Record>, size: Record -> nat)
    requires multiset(xs) == multiset(ys)
    ensures Total(xs, size) == Total(ys, size)
    decreases |xs|
  {
    if xs != [] {
      var last := xs[|xs| - 1];
      SnocMultiset(xs);
      assert last in multiset(ys);
      var k :| 0 <= k < |ys| && ys[k] == last;
      Without(ys, k, size);
      assert multiset(xs[..|xs| - 1]) == multiset(xs) - multiset{last};
      TotalPermuted(xs[..|xs| - 1], ys[..k] + ys[k + 1..], size);
    } else {
      SameSize(xs, ys);
    }
  }

  /** Nothing is lost, the budget is kept, and nothing is left out exactly when
      all the chosen records fit it together. */
  lemma StartupFits(xs: seq<Record>, budget: int, size: Record -> nat)
    ensures var p := StartupPack(xs, budget, size);
            && multiset(p.taken) + multiset(p.left) == multiset(xs)
            && Total(p.taken, size) <= Clamped(budget)
            && (p.left == [] <==> Total(xs, size) <= Clamped(budget))
            && (p.left == [] ==> p.taken == xs)
  {
    PackSplits(xs, Clamped(budget), size);
    PackSplits(Balanced(xs), Clamped(budget), size);
    BalancedShape(xs);
    TotalPermuted(xs, Balanced(xs), size);
  }

  /** And what is left out would not fit with what is loaded. */
  lemma StartupLeavesOut(xs: seq<Record>, budget: int, size: Record -> nat, r: Record)
    requires r in StartupPack(xs, budget, size).left
    ensures Total(StartupPack(xs, budget, size).taken, size) + size(r) > Clamped(budget)
  {
    hide Pack, Balanced;
    LeftDoesNotFit(Balanced(xs), Clamped(budget), 0, size, r);
  }

  /** What the other records alone come to: all of them when they all fit. */
  lemma OthersAllFit(xs: seq<Record>, budget: int, size: Record -> nat)
    requires Total(xs, size) <= budget
    ensures multiset(Pack(Alternated(xs), budget, 0, size).taken) == multiset(Filter(xs, NotHandoff))
  {
    hide Alternated, Filter;
    var others, h := Filter(xs, NotHandoff), Filter(xs, IsHandoff);
    FilterSplits(xs, NotHandoff, IsHandoff);
    assert multiset(others + h) == multiset(xs);
    TotalPermuted(xs, others + h, size);
    TotalConcat(others, h, size);
    AlternatedShape(xs);
    TotalPermuted(Alternated(xs), others, size);
    PackSplits(Alternated(xs), budget, size);
  }

  /** Handoffs come last, so what is taken before them is decided without them. */
  lemma OthersFirst(xs: seq<Record>, budget: int, size: Record -> nat)
    ensures Filter(Pack(Balanced(xs), budget, 0, size).taken, NotHandoff) == Pack(Alternated(xs), budget, 0, size).taken
  {
    hide Alternated, Filter, Pack, Balanced, Zigzag, Sort;
    var a, h := Alternated(xs), Filter(xs, IsHandoff);
    assert Balanced(xs) == a + h by { BalancedParts(xs); }
    PackPrefix(a, h, budget, size);
    PackMultiset(a, budget, size);
    assert multiset(a) == multiset(Filter(xs, NotHandoff)) by { AlternatedShape(xs); }
    var before := Pack(a, budget, 0, size).taken;
    var taken := Pack(a + h, budget, 0, size).taken;
    var after := taken[|before|..];
    assert taken == before + after;
    FilterConcat(before, after, NotHandoff);
    FilterNone(after, NotHandoff);
    TakenInside(before, Pack(a, budget, 0, size).left, Filter(xs, NotHandoff));
    FilterAll(before, NotHandoff);
  }

  lemma TakenInside(taken: seq<Record>, left: seq<Record>, all: seq<Record>)
    requires multiset(taken) + multiset(left) == multiset(all)
    ensures forall r | r in taken :: r in all
  {
    forall r | r in taken ensures r in all {
      assert r in multiset(taken);
      assert r in multiset(all);
    }
  }

  lemma BalancedParts(xs: seq<Record>)
    ensures Balanced(xs) == Alternated(xs) + Filter(xs, IsHandoff)
  {
  }

  /** The non-handoff part of what loads, decided before any handoff is looked at. */
  lemma LoadsWithoutHandoffs(xs: seq<Record>, budget: int, size: Record -> nat)
    ensures multiset(Filter(StartupPack(xs, budget, size).taken, NotHandoff)) ==
            multiset(Pack(Alternated(xs), Clamped(budget), 0, size).taken)
  {
    hide Alternated, Filter, Pack, Balanced;
    PackSplits(xs, Clamped(budget), size);
    if Total(xs, size) <= Clamped(budget) {
      OthersAllFit(xs, Clamped(budget), size);
    } else {
      OthersFirst(xs, Clamped(budget), size);
    }
  }

  lemma AlternatedDepends(xs: seq<Record>, ys: seq<Record>)
    requires Filter(xs, NotHandoff) == Filter(ys, NotHandoff)
    ensures Alternated(xs) == Alternated(ys)
  {
    FilterTwice(xs, NotHandoff, IsGlobal);
    FilterTwice(xs, NotHandoff, IsProject);
    FilterTwice(ys, NotHandoff, IsGlobal);
    FilterTwice(ys, NotHandoff, IsProject);
  }

  /** Adding or removing handoffs never changes which other records load. */
  lemma HandoffsCrowdNothing(xs: seq<Record>, ys: seq<Record>, budget: int, size: Record -> nat)
    requires Filter(xs, NotHandoff) == Filter(ys, NotHandoff)
    ensures multiset(Filter(StartupPack(xs, budget, size).taken, NotHandoff)) ==
            multiset(Filter(StartupPack(ys, budget, size).taken, NotHandoff))
  {
    hide Alternated, StartupPack;
    AlternatedDepends(xs, ys);
    LoadsWithoutHandoffs(xs, budget, size);
    LoadsWithoutHandoffs(ys, budget, size);
  }

  predicate NewestOf(r: Record, xs: seq<Record>, p: Record -> bool) {
    r in xs && p(r) && forall other | other in xs && p(other) :: !Newer(other, r)
  }

  lemma NewestIsFirst(r: Record, xs: seq<Record>, p: Record -> bool)
    requires NewestOf(r, xs, p) && (forall a, b | a in xs && b in xs && a.id == b.id :: a == b)
    ensures var s := Sort(ByNewest, Filter(xs, p)); s != [] && s[0] == r
  {
    var s := Sort(ByNewest, Filter(xs, p));
    SortSorted(ByNewest, Filter(xs, p));
    SameMembers(s, Filter(xs, p));
    assert r in s;
    var k :| 0 <= k < |s| && s[k] == r;
    assert s[0] in s;
    if k > 0 {
      assert !Less(ByNewest, s[k], s[0]);
    }
  }

  /** The newest global and the newest project record both load whenever the two
      fit the budget together. */
  lemma NewestPairLoads(xs: seq<Record>, g: Record, p: Record, budget: int, size: Record -> nat)
    requires forall a, b | a in xs && b in xs && a.id == b.id :: a == b
    requires NewestOf(g, xs, IsGlobal) && NewestOf(p, xs, IsProject)
    requires size(g) + size(p) <= Clamped(budget)
    ensures g in StartupPack(xs, budget, size).taken && p in StartupPack(xs, budget, size).taken
  {
    hide Filter, Pack, NewestOf;
    StartupFits(xs, budget, size);
    assert g in multiset(xs) && p in multiset(xs) by { NewestInside(g, p, xs); }
    if Pack(xs, Clamped(budget), 0, size).left != [] {
      var rest := PairLeads(xs, g, p);
      PairTotal(g, p, size);
      PackLeading([g, p], rest, Clamped(budget), size);
      assert g in [g, p] && p in [g, p];
    }
  }

  lemma NewestInside(g: Record, p: Record, xs: seq<Record>)
    requires NewestOf(g, xs, IsGlobal) && NewestOf(p, xs, IsProject)
    ensures g in xs && p in xs
  {
  }

  lemma PairTotal(g: Record, p: Record, size: Record -> nat)
    ensures Total([g, p], size) == size(g) + size(p)
  {
    assert [g, p][..1] == [g] && [g][..0] == [];
    assert Total([g], size) == size(g);
  }

  lemma PairLeads(xs: seq<Record>, g: Record, p: Record) returns (rest: seq<Record>)
    requires forall a, b | a in xs && b in xs && a.id == b.id :: a == b
    requires NewestOf(g, xs, IsGlobal) && NewestOf(p, xs, IsProject)
    ensures Balanced(xs) == [g, p] + rest
  {
    hide NewestOf, Sort;
    NewestIsFirst(g, xs, IsGlobal);
    NewestIsFirst(p, xs, IsProject);
    var sg, sp := Sort(ByNewest, Filter(xs, IsGlobal)), Sort(ByNewest, Filter(xs, IsProject));
    rest := Alternate(Rest(sg, false), Rest(sp, false), true) + Filter(xs, IsHandoff);
  }
}
