/** The reader's loops: scope keys, handoff choice, packing, balancing, agent
    context and the owner's preview, proved against Startup. */
module StartupReader {
  import opened Text
  import opened Records
  import opened Lists
  import opened Startup
  import StoreInvariant

  // ----- scope keys -----

  function Masked(s: Scope, mask: nat): Scope {
    Scope(if mask % 2 == 1 then s.project else None, if (mask / 2) % 2 == 1 then s.device else None,
          if (mask / 4) % 2 == 1 then s.platform else None, false)
  }

  /** The eight masks reach exactly the scopes that apply. */
  lemma MasksCover(s: Scope, k: Scope)
    ensures Applies(k, s) <==> exists mask :: 0 <= mask < 8 && Masked(s, mask) == k
  {
    if Applies(k, s) {
      var mask := (if k.project.Some? then 1 else 0) + (if k.device.Some? then 2 else 0)
                  + (if k.platform.Some? then 4 else 0);
      assert mask % 2 == 1 <==> k.project.Some?;
      assert (mask / 2) % 2 == 1 <==> k.device.Some?;
      assert (mask / 4) % 2 == 1 <==> k.platform.Some?;
      assert Masked(s, mask) == k;
    }
  }

  method ApplicableKeys(s: Scope) returns (r: Result<seq<Scope>, Error>)
    ensures r.Ok? <==> KeyOk(s) && !s.legacy
    ensures r.Ok? ==> forall k :: k in r.value <==> Applies(k, s)
    ensures r.Ok? ==> forall i, j | 0 <= i < j < |r.value| :: r.value[i] != r.value[j]
  {
    if !KeyOk(s) {
      return Err(InvalidScope);
    }
    if s.legacy {
      return Err(LegacyTarget);
    }
    var keys: seq<Scope> := [];
    for mask := 0 to 8
      invariant forall k :: k in keys <==> exists m :: 0 <= m < mask && Masked(s, m) == k
      invariant forall i, j | 0 <= i < j < |keys| :: keys[i] != keys[j]
    {
      var next := Masked(s, mask);
      if !KeyOk(next) {
        assert false;
        return Err(InvalidScope);
      }
      if next !in keys {
        ghost var before := keys;
        keys := keys + [next];
        assert forall k :: k in keys <==> k in before || k == next;
      }
    }
    forall k ensures k in keys <==> Applies(k, s) {
      MasksCover(s, k);
    }
    r := Ok(keys);
  }

  /** SELECT of the active rows in the keys that pass the filter, in list order. */
  function Query(rows: map<int, Row>, keys: seq<Scope>, n: int): seq<Record>
    decreases if n < 0 then 0 else n
  {
    if n <= 0 then []
    else Query(rows, keys, n - 1) +
         if n in rows && !rows[n].record.archived && rows[n].record.scope in keys then [rows[n].record] else []
  }

  lemma {:induction false} KeysSelect(rows: map<int, Row>, keys: seq<Scope>, caller: Scope, n: int)
    requires forall k :: k in keys <==> Applies(k, caller)
    ensures Query(rows, keys, n) == ActiveUpTo(rows, caller, n)
    decreases if n < 0 then 0 else n
  {
    if n > 0 {
      KeysSelect(rows, keys, caller, n - 1);
    }
  }

  // ----- choosing a handoff -----

  method ChooseIndex(records: seq<Record>) returns (chosen: int)
    ensures chosen == Chosen(records)
  {
    chosen := -1;
    for i := 0 to |records|
      invariant -1 <= chosen < i
      invariant chosen < 0 ==> forall j | 0 <= j < i :: !IsHandoff(records[j])
      invariant chosen >= 0 ==> IsHandoff(records[chosen])
      invariant chosen >= 0 && records[chosen].scope.project.Some? ==>
                  forall j | 0 <= j < chosen :: !IsProjectHandoff(records[j])
      invariant chosen >= 0 && records[chosen].scope.project.None? ==>
                  && (forall j | 0 <= j < i :: !IsProjectHandoff(records[j]))
                  && forall j | 0 <= j < chosen :: !IsHandoff(records[j])
    {
      if records[i].purpose != "handoff" {
        continue;
      }
      if chosen < 0 || (records[chosen].scope.project.None? && records[i].scope.project.Some?) {
        chosen := i;
      }
    }
  }

  method ChooseHandoff(records: seq<Record>) returns (selected: seq<Record>, skipped: seq<Record>)
    ensures selected == Selected(records, Chosen(records)) && skipped == Skipped(records, Chosen(records))
  {
    hide Chosen;
    var chosen := ChooseIndex(records);
    selected, skipped := [], [];
    for i := 0 to |records|
      invariant selected == Selected(records[..i], chosen) && skipped == Skipped(records[..i], chosen)
    {
      assert records[..i + 1][..i] == records[..i];
      if records[i].purpose == "handoff" && i != chosen {
        skipped := skipped + [records[i]];
        continue;
      }
      selected := selected + [records[i]];
    }
    assert records[..|records|] == records;
  }

  // ----- packing -----

  datatype Page = Page(records: seq<Record>, omitted: int, omittedIds: seq<int>, omittedRecords: seq<Reference>)

  function IdsOf(xs: seq<Record>): (ids: seq<int>)
    ensures |ids| == |xs| && forall i | 0 <= i < |xs| :: ids[i] == xs[i].id
  {
    if xs == [] then [] else IdsOf(xs[..|xs| - 1]) + [xs[|xs| - 1].id]
  }

  function FirstHundred<T>(xs: seq<T>): (ys: seq<T>)
    ensures ys <= xs && |ys| == if |xs| < 100 then |xs| else 100
  {
    if |xs| <= 100 then xs else xs[..100]
  }

  /** The page for a packing: everything left out is counted, the first hundred named. */
  function PageOf(p: Packing): Page {
    Page(p.taken, |p.left|, FirstHundred(IdsOf(p.left)), FirstHundred(References(p.left)))
  }

  /** The page with one more record left out. */
  function Leaving(page: Page, r: Record): Page {
    if |page.omittedIds| < 100
    then Page(page.records, page.omitted + 1, page.omittedIds + [r.id], page.omittedRecords + [ReferenceTo(r)])
    else page.(omitted := page.omitted + 1)
  }

  lemma LeavingOne(p: Packing, r: Record)
    ensures Leaving(PageOf(p), r) == PageOf(p.(left := p.left + [r]))
  {
    var left := p.left + [r];
    assert left[..|left| - 1] == p.left;
    assert IdsOf(left) == IdsOf(p.left) + [r.id];
    assert References(left) == References(p.left) + [ReferenceTo(r)];
  }

  method BoundRecords(records: seq<Record>, budget: int, limit: int, size: Record -> nat) returns (page: Page)
    ensures page == PageOf(Pack(records, Clamped(budget), limit, size))
  {
    hide PageOf, Leaving;
    var clamped := budget;
    if clamped < 1024 {
      clamped := 1024;
    } else if clamped > 65536 {
      clamped := 65536;
    }
    page := Page([], 0, [], []);
    var used := 0;
    assert page == PageOf(Packing([], [], 0)) by { EmptyPage(); }
    for i := 0 to |records|
      invariant var p := Pack(records[..i], clamped, limit, size);
                page == PageOf(p) && page.records == p.taken && used == p.used
    {
      ghost var p := Pack(records[..i], clamped, limit, size);
      assert records[..i + 1][..i] == records[..i];
      var record := records[i];
      if used + size(record) > clamped || (limit > 0 && |page.records| >= limit) {
        LeavingOne(p, record);
        PageParts(page, record, p);
        if |page.omittedIds| < 100 {
          page := Page(page.records, page.omitted + 1, page.omittedIds + [record.id],
                       page.omittedRecords + [ReferenceTo(record)]);
        } else {
          page := page.(omitted := page.omitted + 1);
        }
        continue;
      }
      used := used + size(record);
      TakingOne(p, record, used);
      page := page.(records := page.records + [record]);
    }
    assert records[..|records|] == records;
  }

  lemma EmptyPage()
    ensures PageOf(Packing([], [], 0)) == Page([], 0, [], [])
  {
  }

  lemma PageParts(page: Page, r: Record, p: Packing)
    ensures |page.omittedIds| < 100 ==>
              Leaving(page, r) == Page(page.records, page.omitted + 1, page.omittedIds + [r.id],
                                       page.omittedRecords + [ReferenceTo(r)])
    ensures |page.omittedIds| >= 100 ==> Leaving(page, r) == page.(omitted := page.omitted + 1)
    ensures PageOf(p.(left := p.left + [r])).records == p.taken
  {
  }

  lemma TakingOne(p: Packing, r: Record, used: int)
    ensures PageOf(p).(records := p.taken + [r]) == PageOf(p.(taken := p.taken + [r], used := used))
  {
  }

  // ----- balancing -----

  method BalanceStartupScopes(records: seq<Record>) returns (ordered: seq<Record>)
    ensures ordered == Balanced(records)
  {
    hide Sort, Filter;
    var global: seq<Record>, project: seq<Record>, handoffs: seq<Record> := [], [], [];
    assert Filter([], IsGlobal) == Filter([], IsProject) == Filter([], IsHandoff) == [] by { EmptyFilters(); }
    assert records[..0] == [];
    for i := 0 to |records|
      invariant global == Filter(records[..i], IsGlobal)
      invariant project == Filter(records[..i], IsProject)
      invariant handoffs == Filter(records[..i], IsHandoff)
    {
      var record := records[i];
      SnocFilters(records, i);
      if record.purpose == "handoff" {
        handoffs := handoffs + [record];
      } else if record.scope.project.None? {
        global := global + [record];
      } else {
        project := project + [record];
      }
    }
    assert records[..|records|] == records;
    var alternated := Interleave(Sort(ByNewest, global), Sort(ByNewest, project));
    ordered := alternated + handoffs;
  }

  lemma EmptyFilters()
    ensures Filter([], IsGlobal) == Filter([], IsProject) == Filter([], IsHandoff) == []
  {
  }

  /** Takes one record of each sorted group a round until both are used up. */
  method Interleave(g: seq<Record>, p: seq<Record>) returns (ordered: seq<Record>)
    ensures ordered == Alternate(g, p, false)
  {
    hide Alternate, Take, Rest;
    var global, project := g, p;
    ordered := [];
    var oldest := false;
    while |global| > 0 || |project| > 0
      invariant ordered + Alternate(global, project, oldest) == Alternate(g, p, false)
      decreases |global| + |project|
    {
      ghost var before := ordered;
      AlternateStep(before, global, project, oldest);
      var picked: seq<Record>;
      picked, global := DrawFrom(global, oldest);
      ordered := ordered + picked;
      picked, project := DrawFrom(project, oldest);
      ordered := ordered + picked;
      oldest := !oldest;
    }
    AlternateDone();
    assert ordered + [] == ordered;
  }

  lemma AlternateStep(before: seq<Record>, g: seq<Record>, p: seq<Record>, oldest: bool)
    requires g != [] || p != []
    ensures before + Alternate(g, p, oldest) ==
            before + Take(g, oldest) + Take(p, oldest) + Alternate(Rest(g, oldest), Rest(p, oldest), !oldest)
  {
    hide Take, Rest;
    RestShorter(g, p, oldest);
    ConcatFour(before, Take(g, oldest), Take(p, oldest), Alternate(Rest(g, oldest), Rest(p, oldest), !oldest));
  }

  lemma ConcatFour(a: seq<Record>, b: seq<Record>, c: seq<Record>, d: seq<Record>)
    ensures a + (b + c + d) == a + b + c + d
  {
  }

  lemma AlternateDone()
    ensures Alternate([], [], true) == [] && Alternate([], [], false) == []
  {
  }

  method DrawFrom(group: seq<Record>, oldest: bool) returns (picked: seq<Record>, rest: seq<Record>)
    ensures picked == Take(group, oldest) && rest == Rest(group, oldest)
    ensures group != [] ==> |rest| < |group|
    ensures group == [] ==> rest == []
  {
    if |group| == 0 {
      return [], [];
    }
    if oldest {
      var last := |group| - 1;
      return [group[last]], group[..last];
    }
    return [group[0]], group[1..];
  }

  lemma SnocFilters(records: seq<Record>, i: nat)
    requires i < |records|
    ensures var r := records[i];
            && Filter(records[..i + 1], IsGlobal) ==
               Filter(records[..i], IsGlobal) + (if IsGlobal(r) then [r] else [])
            && Filter(records[..i + 1], IsProject) ==
               Filter(records[..i], IsProject) + (if IsProject(r) then [r] else [])
            && Filter(records[..i + 1], IsHandoff) ==
               Filter(records[..i], IsHandoff) + (if IsHandoff(r) then [r] else [])
  {
    assert records[..i + 1][..i] == records[..i];
    SnocFilter(records[..i + 1], IsGlobal);
    SnocFilter(records[..i + 1], IsProject);
    SnocFilter(records[..i + 1], IsHandoff);
  }

  method BoundStartupRecords(records: seq<Record>, budget: int, size: Record -> nat) returns (page: Page)
    ensures page == PageOf(StartupPack(records, budget, size))
  {
    hide Pack, Balanced;
    page := BoundRecords(records, budget, 0, size);
    if page.omitted != 0 {
      var balanced := BalanceStartupScopes(records);
      page := BoundRecords(balanced, budget, 0, size);
    }
  }

  // ----- agent context and its preview -----

  method ScopedQuery(t: Tables, keys: seq<Scope>, filter: Record -> bool, ghost caller: Scope)
    returns (records: seq<Record>)
    requires forall k :: k in keys <==> Applies(k, caller)
    ensures records == ScopedRecords(t, caller, filter)
  {
    KeysSelect(t.rows, keys, caller, t.sequence);
    records := Sort(ByPurpose, Filter(Query(t.rows, keys, t.sequence), filter));
  }

  /** What an agent loads: the packing of the chosen records. */
  function Loading(t: Tables, caller: Scope, budget: int, size: Record -> nat): Packing {
    var eligible := ScopedRecords(t, caller, AgentLoads);
    StartupPack(Selected(eligible, Chosen(eligible)), budget, size)
  }

  /** The full count of what is left out: over budget, then the other handoffs. */
  function ContextLeft(t: Tables, caller: Scope, budget: int, size: Record -> nat): Packing {
    var eligible := ScopedRecords(t, caller, AgentLoads);
    var p := Loading(t, caller, budget, size);
    p.(left := p.left + Skipped(eligible, Chosen(eligible)))
  }

  method Context(t: Tables, caller: Scope, budget: int, size: Record -> nat) returns (r: Result<Page, Error>)
    ensures r.Ok? <==> KeyOk(caller) && !caller.legacy
    ensures r.Ok? ==> r.value == PageOf(ContextLeft(t, caller, budget, size))
  {
    hide PageOf, StartupPack, ScopedRecords;
    var keys := ApplicableKeys(caller);
    if keys.Err? {
      return Err(keys.error);
    }
    var records := ScopedQuery(t, keys.value, AgentLoads, caller);
    var selected, skipped := ChooseHandoff(records);
    var page := BoundStartupRecords(selected, budget, size);
    ghost var p := StartupPack(selected, budget, size);
    assert p.left + [] == p.left;
    for i := 0 to |skipped|
      invariant page == PageOf(p.(left := p.left + skipped[..i]))
    {
      var record := skipped[i];
      ghost var q := p.(left := p.left + skipped[..i]);
      assert q.left + [record] == p.left + skipped[..i + 1];
      LeavingOne(q, record);
      PageParts(page, record, q);
      if |page.omittedIds| < 100 {
        page := Page(page.records, page.omitted + 1, page.omittedIds + [record.id],
                     page.omittedRecords + [ReferenceTo(record)]);
      } else {
        page := page.(omitted := page.omitted + 1);
      }
    }
    assert skipped[..|skipped|] == skipped;
    r := Ok(page);
  }

  datatype Reason = OverBudget | OlderHandoff | NotConfirmed

  /** A record startup leaves out, and why. */
  datatype NotLoaded = NotLoaded(record: Record, reason: Reason)

  function Tagged(xs: seq<Record>, reason: Reason): seq<NotLoaded> {
    if xs == [] then [] else Tagged(xs[..|xs| - 1], reason) + [NotLoaded(xs[|xs| - 1], reason)]
  }

  function Unloaded(xs: seq<Record>, loaded: set<int>): seq<Record> {
    if xs == [] then []
    else Unloaded(xs[..|xs| - 1], loaded) + if xs[|xs| - 1].id in loaded then [] else [xs[|xs| - 1]]
  }

  function IdSet(xs: seq<Record>): set<int> {
    set r | r in xs :: r.id
  }

  /** Every exclusion with its reason. */
  function Exclusions(t: Tables, caller: Scope, budget: int, size: Record -> nat): seq<NotLoaded> {
    var eligible := ScopedRecords(t, caller, AgentLoads);
    var chosen := Chosen(eligible);
    var taken := Loading(t, caller, budget, size).taken;
    Tagged(Unloaded(Selected(eligible, chosen), IdSet(taken)), OverBudget)
    + Tagged(Skipped(eligible, chosen), OlderHandoff)
    + Tagged(ScopedRecords(t, caller, Unconfirmed), NotConfirmed)
  }

  datatype StartupView = StartupView(budget: int, records: seq<Record>, notLoaded: seq<NotLoaded>, total: int)

  method PreviewRecords(records: seq<Record>) returns (previews: seq<Record>)
    ensures previews == Previews(records)
  {
    previews := [];
    for i := 0 to |records|
      invariant previews == Previews(records[..i])
    {
      assert records[..i + 1][..i] == records[..i];
      var short := FirstRunes(records[i].content, 240);
      previews := previews + [records[i].(content := short)];
    }
    assert records[..|records|] == records;
  }

  /** Appends to the detail list, which stops at a hundred, and to the count. */
  method AddAll(view: StartupView, xs: seq<Record>, reason: Reason, ghost all: seq<NotLoaded>) returns (r: StartupView)
    requires view.notLoaded == FirstHundred(all) && view.total == |all|
    ensures r == view.(notLoaded := FirstHundred(all + Tagged(xs, reason)), total := |all + Tagged(xs, reason)|)
  {
    r := view;
    assert all + [] == all;
    for i := 0 to |xs|
      invariant var so := all + Tagged(xs[..i], reason);
                r == view.(notLoaded := FirstHundred(so), total := |so|)
    {
      assert xs[..i + 1][..i] == xs[..i];
      var item := NotLoaded(xs[i], reason);
      assert all + Tagged(xs[..i + 1], reason) == all + Tagged(xs[..i], reason) + [item];
      r := r.(total := r.total + 1);
      if |r.notLoaded| < 100 {
        r := r.(notLoaded := r.notLoaded + [item]);
      }
    }
    assert xs[..|xs|] == xs;
  }

  method Partition(active: seq<Record>) returns (eligible: seq<Record>, unconfirmed: seq<Record>)
    ensures eligible == Filter(active, AgentLoads) && unconfirmed == Filter(active, Unconfirmed)
  {
    eligible, unconfirmed := [], [];
    for i := 0 to |active|
      invariant eligible == Filter(active[..i], AgentLoads) && unconfirmed == Filter(active[..i], Unconfirmed)
    {
      assert active[..i + 1][..i] == active[..i];
      SnocFilter(active[..i + 1], AgentLoads);
      SnocFilter(active[..i + 1], Unconfirmed);
      if active[i].confirmed || active[i].purpose == "handoff" {
        eligible := eligible + [active[i]];
      } else {
        unconfirmed := unconfirmed + [active[i]];
      }
    }
    assert active[..|active|] == active;
  }

  method OverBudgetOf(selected: seq<Record>, loaded: set<int>) returns (over: seq<Record>)
    ensures over == Unloaded(selected, loaded)
  {
    over := [];
    for i := 0 to |selected|
      invariant over == Unloaded(selected[..i], loaded)
    {
      assert selected[..i + 1][..i] == selected[..i];
      if selected[i].id !in loaded {
        over := over + [selected[i]];
      }
    }
    assert selected[..|selected|] == selected;
  }

  method StartupPreview(t: Tables, caller: Scope, budget: int, size: Record -> nat)
    returns (r: Result<StartupView, Error>)
    ensures r.Ok? <==> KeyOk(caller) && !caller.legacy
    ensures r.Ok? ==>
              var all := Exclusions(t, caller, budget, size);
              r.value == StartupView(budget, Previews(Loading(t, caller, budget, size).taken), FirstHundred(all), |all|)
  {
    hide StartupPack, ScopedRecords, FirstHundred, Tagged, Selected, Skipped, Chosen, Unloaded;
    var keys := ApplicableKeys(caller);
    if keys.Err? {
      return Err(keys.error);
    }
    var active := ScopedQuery(t, keys.value, Everything, caller);
    var eligible, unconfirmed := Partition(active);
    PartitionIsQuery(t, caller, AgentLoads);
    PartitionIsQuery(t, caller, Unconfirmed);
    var selected, skipped := ChooseHandoff(eligible);
    var page := BoundStartupRecords(selected, budget, size);
    var loaded := set record | record in page.records :: record.id;
    var records := PreviewRecords(page.records);
    var over := OverBudgetOf(selected, loaded);
    var view := StartupView(budget, records, [], 0);
    assert FirstHundred<NotLoaded>([]) == [] by { NoneOfHundred(); }
    ghost var none: seq<NotLoaded> := [];
    view := AddAll(view, over, OverBudget, none);
    ghost var first := Tagged(over, OverBudget);
    assert none + first == first;
    view := AddAll(view, skipped, OlderHandoff, first);
    view := AddAll(view, unconfirmed, NotConfirmed, first + Tagged(skipped, OlderHandoff));
    r := Ok(view);
  }

  lemma NoneOfHundred()
    ensures FirstHundred<NotLoaded>([]) == []
  {
  }

  // ----- the preview's promises -----

  function RecordsOf(xs: seq<NotLoaded>): (ys: seq<Record>)
    ensures |ys| == |xs|
  {
    if xs == [] then [] else RecordsOf(xs[..|xs| - 1]) + [xs[|xs| - 1].record]
  }

  lemma {:induction false} RecordsOfConcat(xs: seq<NotLoaded>, ys: seq<NotLoaded>)
    ensures RecordsOf(xs + ys) == RecordsOf(xs) + RecordsOf(ys)
    decreases |ys|
  {
    if ys == [] {
      assert xs + ys == xs;
    } else {
      assert (xs + ys)[..|xs + ys| - 1] == xs + ys[..|ys| - 1];
      RecordsOfConcat(xs, ys[..|ys| - 1]);
    }
  }

  lemma {:induction false} TaggedRecords(xs: seq<Record>, reason: Reason)
    ensures RecordsOf(Tagged(xs, reason)) == xs
    ensures forall e | e in Tagged(xs, reason) :: e.reason == reason && e.record in xs
    decreases |xs|
  {
    if xs != [] {
      var init, last := xs[..|xs| - 1], xs[|xs| - 1];
      TaggedRecords(init, reason);
      TaggedLength(init, reason);
      assert Tagged(xs, reason) == Tagged(init, reason) + [NotLoaded(last, reason)];
      hide Tagged;
      assert Tagged(xs, reason)[..|xs| - 1] == Tagged(init, reason);
      assert xs == init + [last];
    }
  }

  lemma {:induction false} TaggedLength(xs: seq<Record>, reason: Reason)
    ensures |Tagged(xs, reason)| == |xs|
    decreases |xs|
  {
    if xs != [] {
      TaggedLength(xs[..|xs| - 1], reason);
    }
  }

  lemma {:induction false} UnloadedCounts(xs: seq<Record>, loaded: set<int>)
    ensures forall r :: multiset(Unloaded(xs, loaded))[r] == if r.id in loaded then 0 else multiset(xs)[r]
    decreases |xs|
  {
    if xs != [] {
      UnloadedCounts(xs[..|xs| - 1], loaded);
      SnocMultiset(xs);
    }
  }

  /** Recomputing what was not loaded by id gives exactly what packing left. */
  lemma UnloadedIsLeft(selected: seq<Record>, taken: seq<Record>, left: seq<Record>)
    requires multiset(taken) + multiset(left) == multiset(selected)
    requires forall a, b | a in selected && b in selected && a.id == b.id :: a == b
    requires forall r :: multiset(selected)[r] <= 1
    ensures multiset(Unloaded(selected, IdSet(taken))) == multiset(left)
  {
    UnloadedCounts(selected, IdSet(taken));
    forall r ensures multiset(Unloaded(selected, IdSet(taken)))[r] == multiset(left)[r] {
      assert multiset(taken)[r] + multiset(left)[r] == multiset(selected)[r] <= 1;
      if r in selected && r.id in IdSet(taken) {
        var other :| other in taken && other.id == r.id;
        assert other in multiset(selected);
        assert r in taken;
      }
    }
  }

  /** A part of a list whose elements occur once each has none twice. */
  lemma PartOnce(all: seq<Record>, part: seq<Record>, rest: multiset<Record>)
    requires multiset(part) + rest == multiset(all)
    requires forall a, b | a in all && b in all && a.id == b.id :: a == b
    requires forall r :: multiset(all)[r] <= 1
    ensures forall a, b | a in part && b in part && a.id == b.id :: a == b
    ensures forall r :: multiset(part)[r] <= 1
  {
    forall r | r in part ensures r in all {
      assert r in multiset(part);
      assert r in multiset(all);
    }
    forall r ensures multiset(part)[r] <= 1 {
      assert multiset(part)[r] <= multiset(all)[r];
    }
  }

  lemma ActiveOnce(t: Tables, caller: Scope)
    requires StoreInvariant.RowsOk(t)
    ensures var active := ScopedRecords(t, caller, Everything);
            (forall a, b | a in active && b in active && a.id == b.id :: a == b) && forall r :: multiset(active)[r] <= 1
    ensures forall r :: r in ScopedRecords(t, caller, Everything) <==>
              r.id in t.rows && t.rows[r.id].record == r && !r.archived && Applies(r.scope, caller)
  {
    var all := ActiveUpTo(t.rows, caller, t.sequence);
    ActiveMembers(t.rows, caller, t.sequence);
    DistinctOnce(all);
    FilterAll(all, Everything);
    SameMembers(ScopedRecords(t, caller, Everything), all);
  }

  /** The preview loads what an agent loads, in the same order, and lists every
      other active memory in scope exactly once with one reason. */
  lemma PreviewAgrees(t: Tables, caller: Scope, budget: int, size: Record -> nat)
    requires StoreInvariant.RowsOk(t)
    ensures var active := ScopedRecords(t, caller, Everything);
            var taken := Loading(t, caller, budget, size).taken;
            var excluded := Exclusions(t, caller, budget, size);
            && IdsOf(Previews(taken)) == IdsOf(PageOf(ContextLeft(t, caller, budget, size)).records)
            && multiset(taken) + multiset(RecordsOf(excluded)) == multiset(active)
            && (forall r :: multiset(active)[r] <= 1)
            && |excluded| == |active| - |taken|
  {
    hide *;
    ActiveOnce(t, caller);
    SameLoaded(t, caller, budget, size);
    ExclusionsRest(t, caller, budget, size);
    var taken := Loading(t, caller, budget, size).taken;
    var excluded := RecordsOf(Exclusions(t, caller, budget, size));
    SameSize(taken + excluded, ScopedRecords(t, caller, Everything));
  }

  lemma SameLoaded(t: Tables, caller: Scope, budget: int, size: Record -> nat)
    ensures IdsOf(Previews(Loading(t, caller, budget, size).taken)) ==
            IdsOf(PageOf(ContextLeft(t, caller, budget, size)).records)
  {
    hide ScopedRecords, StartupPack, Selected, Skipped, Chosen, IdsOf, References, FirstHundred;
    PreviewIds(Loading(t, caller, budget, size).taken);
  }

  /** What is not loaded is excluded, once. */
  lemma ExclusionsRest(t: Tables, caller: Scope, budget: int, size: Record -> nat)
    requires StoreInvariant.RowsOk(t)
    ensures multiset(Loading(t, caller, budget, size).taken) +
            multiset(RecordsOf(Exclusions(t, caller, budget, size))) ==
            multiset(ScopedRecords(t, caller, Everything))
  {
    hide ScopedRecords, StartupPack, Selected, Skipped, Chosen, Unloaded, Tagged, RecordsOf, Filter, IdSet;
    var active := ScopedRecords(t, caller, Everything);
    var eligible, unconfirmed := ScopedRecords(t, caller, AgentLoads), ScopedRecords(t, caller, Unconfirmed);
    PartitionIsQuery(t, caller, AgentLoads);
    PartitionIsQuery(t, caller, Unconfirmed);
    FilterSplits(active, AgentLoads, Unconfirmed);
    ActiveOnce(t, caller);
    PartOnce(active, eligible, multiset(unconfirmed));
    var selected, skipped := Selected(eligible, Chosen(eligible)), Skipped(eligible, Chosen(eligible));
    SelectionSplits(eligible, Chosen(eligible));
    PartOnce(eligible, selected, multiset(skipped));
    var p := Loading(t, caller, budget, size);
    StartupFits(selected, budget, size);
    UnloadedIsLeft(selected, p.taken, p.left);
    ExclusionRecords(Unloaded(selected, IdSet(p.taken)), skipped, unconfirmed);
  }

  lemma PreviewIds(xs: seq<Record>)
    ensures IdsOf(Previews(xs)) == IdsOf(xs)
  {
  }

  lemma ExclusionRecords(over: seq<Record>, skipped: seq<Record>, unconfirmed: seq<Record>)
    ensures RecordsOf(Tagged(over, OverBudget) + Tagged(skipped, OlderHandoff) + Tagged(unconfirmed, NotConfirmed)) ==
            over + skipped + unconfirmed
  {
    RecordsOfConcat(Tagged(over, OverBudget) + Tagged(skipped, OlderHandoff), Tagged(unconfirmed, NotConfirmed));
    RecordsOfConcat(Tagged(over, OverBudget), Tagged(skipped, OlderHandoff));
    TaggedRecords(over, OverBudget);
    TaggedRecords(skipped, OlderHandoff);
    TaggedRecords(unconfirmed, NotConfirmed);
  }

  lemma {:induction false} SkippedAt(xs: seq<Record>, chosen: int, r: Record)
    requires r in Skipped(xs, chosen)
    ensures IsHandoff(r) && exists j :: 0 <= j < |xs| && j != chosen && xs[j] == r
    decreases |xs|
  {
    var n := |xs| - 1;
    if r in Skipped(xs[..n], chosen) {
      SkippedAt(xs[..n], chosen, r);
      var j :| 0 <= j < n && j != chosen && xs[..n][j] == r;
      assert xs[j] == r;
    } else {
      assert xs[n] == r;
    }
  }

  lemma {:induction false} SelectedHas(xs: seq<Record>, chosen: nat)
    requires chosen < |xs|
    ensures xs[chosen] in Selected(xs, chosen)
    decreases |xs|
  {
    if chosen < |xs| - 1 {
      SelectedHas(xs[..|xs| - 1], chosen);
    }
  }

  /** h is the handoff loaded in r's place: a project's over one that is not, and
      otherwise one that is no older. */
  predicate ChosenOver(h: Record, r: Record) {
    && IsHandoff(h) && (r.scope.project.Some? ==> h.scope.project.Some?)
    && (h.scope.project.Some? == r.scope.project.Some? ==> !Newer(r, h))
  }

  lemma SkippedFor(xs: seq<Record>, r: Record)
    requires Sorted(ByPurpose, xs) && r in Skipped(xs, Chosen(xs))
    ensures 0 <= Chosen(xs) < |xs| && xs[Chosen(xs)] in Selected(xs, Chosen(xs)) && ChosenOver(xs[Chosen(xs)], r)
  {
    hide Selected, Skipped;
    var chosen := Chosen(xs);
    SkippedAt(xs, chosen, r);
    var j :| 0 <= j < |xs| && j != chosen && xs[j] == r;
    assert chosen >= 0;
    SelectedHas(xs, chosen);
    assert chosen < j ==> !Less(ByPurpose, xs[j], xs[chosen]);
  }

  /** Each reason means what it says: the record is not confirmed, or another
      handoff was loaded in its place, or it does not fit with what is loaded. */
  lemma ReasonsHold(t: Tables, caller: Scope, budget: int, size: Record -> nat, e: NotLoaded)
    requires e in Exclusions(t, caller, budget, size)
    ensures var eligible := ScopedRecords(t, caller, AgentLoads);
            var selected := Selected(eligible, Chosen(eligible));
            match e.reason
            case NotConfirmed =>
              e.record in ScopedRecords(t, caller, Unconfirmed) && !e.record.confirmed && !IsHandoff(e.record)
            case OlderHandoff =>
              e.record in eligible && IsHandoff(e.record) && exists h :: h in selected && ChosenOver(h, e.record)
            case OverBudget =>
              e.record in selected && e.record.id !in IdSet(Loading(t, caller, budget, size).taken)
              && Total(Loading(t, caller, budget, size).taken, size) + size(e.record) > Clamped(budget)
  {
    hide StartupPack, Tagged, Selected, Skipped, Chosen, Unloaded, ChosenOver, Filter, Sort, Total;
    var eligible, unconfirmed := ScopedRecords(t, caller, AgentLoads), ScopedRecords(t, caller, Unconfirmed);
    var chosen := Chosen(eligible);
    var selected := Selected(eligible, chosen);
    var over := Unloaded(selected, IdSet(Loading(t, caller, budget, size).taken));
    TaggedRecords(over, OverBudget);
    TaggedRecords(Skipped(eligible, chosen), OlderHandoff);
    TaggedRecords(unconfirmed, NotConfirmed);
    match e.reason
    case NotConfirmed =>
      SameMembers(unconfirmed, Filter(ActiveUpTo(t.rows, caller, t.sequence), Unconfirmed));
    case OlderHandoff =>
      SkippedInside(eligible, chosen, e.record);
      SortSorted(ByPurpose, Filter(ActiveUpTo(t.rows, caller, t.sequence), AgentLoads));
      SkippedFor(eligible, e.record);
    case OverBudget =>
      var p := Loading(t, caller, budget, size);
      OverInside(selected, p.taken, e.record);
      StartupFits(selected, budget, size);
      assert e.record in multiset(selected);
      assert e.record in multiset(p.taken) + multiset(p.left);
      assert e.record in p.left;
      StartupLeavesOut(selected, budget, size, e.record);
  }

  lemma SkippedInside(xs: seq<Record>, chosen: int, r: Record)
    requires r in Skipped(xs, chosen)
    ensures r in xs && IsHandoff(r)
  {
    hide Skipped;
    SkippedAt(xs, chosen, r);
  }

  lemma OverInside(selected: seq<Record>, taken: seq<Record>, r: Record)
    requires r in Unloaded(selected, IdSet(taken))
    ensures r in selected && r.id !in IdSet(taken) && r !in taken
  {
    hide Unloaded;
    UnloadedCounts(selected, IdSet(taken));
    assert r in multiset(Unloaded(selected, IdSet(taken)));
    assert r in multiset(selected);
  }

  // ----- what handoffs and budgets cannot keep out -----

  /** Active, in scope for the caller, and loaded by agents. */
  predicate Eligible(t: Tables, caller: Scope, r: Record) {
    r.id in t.rows && t.rows[r.id].record == r && !r.archived && Applies(r.scope, caller) && AgentLoads(r)
  }

  lemma EligibleOnce(t: Tables, caller: Scope)
    requires StoreInvariant.RowsOk(t)
    ensures var eligible := ScopedRecords(t, caller, AgentLoads);
            && (forall r :: r in eligible <==> Eligible(t, caller, r))
            && (forall a, b | a in eligible && b in eligible && a.id == b.id :: a == b)
  {
    var all := ActiveUpTo(t.rows, caller, t.sequence);
    ActiveMembers(t.rows, caller, t.sequence);
    SameMembers(ScopedRecords(t, caller, AgentLoads), Filter(all, AgentLoads));
  }

  /** No eligible record of a kind is newer. */
  ghost predicate NewestEligible(t: Tables, caller: Scope, r: Record, kind: Record -> bool) {
    Eligible(t, caller, r) && kind(r) && forall other :: Eligible(t, caller, other) && kind(other) ==> !Newer(other, r)
  }

  lemma NewestSelected(t: Tables, caller: Scope, r: Record, kind: Record -> bool)
    requires StoreInvariant.RowsOk(t) && NewestEligible(t, caller, r, kind) && NotHandoff(r)
    ensures var eligible := ScopedRecords(t, caller, AgentLoads);
            NewestOf(r, Selected(eligible, Chosen(eligible)), kind)
  {
    hide Selected, Chosen, ScopedRecords, Eligible;
    EligibleOnce(t, caller);
    var eligible := ScopedRecords(t, caller, AgentLoads);
    SelectedInside(eligible, Chosen(eligible));
    SelectionKeeps(eligible, Chosen(eligible));
    assert r in Filter(eligible, NotHandoff);
  }

  lemma SelectedInside(xs: seq<Record>, chosen: int)
    ensures forall r | r in Selected(xs, chosen) :: r in xs
  {
    hide Selected, Skipped;
    SelectionSplits(xs, chosen);
    TakenInside(Selected(xs, chosen), Skipped(xs, chosen), xs);
  }

  /** An agent always loads the newest confirmed global memory and the newest of
      its projects together, whatever else there is, if the two fit. */
  lemma NewestPairContext(t: Tables, caller: Scope, g: Record, p: Record, budget: int, size: Record -> nat)
    requires StoreInvariant.RowsOk(t)
    requires NewestEligible(t, caller, g, IsGlobal) && NewestEligible(t, caller, p, IsProject)
    requires size(g) + size(p) <= Clamped(budget)
    ensures g in Loading(t, caller, budget, size).taken && p in Loading(t, caller, budget, size).taken
  {
    hide Selected, Chosen, ScopedRecords, StartupPack, NewestOf;
    var eligible := ScopedRecords(t, caller, AgentLoads);
    assert NotHandoff(g) && NotHandoff(p);
    NewestSelected(t, caller, g, IsGlobal);
    NewestSelected(t, caller, p, IsProject);
    SelectedInside(eligible, Chosen(eligible));
    EligibleOnce(t, caller);
    NewestPairLoads(Selected(eligible, Chosen(eligible)), g, p, budget, size);
  }

  /** Two stores with the same memories but for handoffs. */
  predicate SameButHandoffs(a: map<int, Row>, b: map<int, Row>) {
    && (forall id | id in a && NotHandoff(a[id].record) :: id in b && b[id].record == a[id].record)
    && (forall id | id in b && NotHandoff(b[id].record) :: id in a && a[id].record == b[id].record)
  }

  lemma {:induction false} ActiveButHandoffs(a: map<int, Row>, b: map<int, Row>, caller: Scope, n: int)
    requires SameButHandoffs(a, b)
    ensures Filter(ActiveUpTo(a, caller, n), NotHandoff) == Filter(ActiveUpTo(b, caller, n), NotHandoff)
    decreases if n < 0 then 0 else n
  {
    if n > 0 {
      ActiveButHandoffs(a, b, caller, n - 1);
      ActiveNext(a, caller, n);
      ActiveNext(b, caller, n);
    }
  }

  lemma ActiveNext(rows: map<int, Row>, caller: Scope, n: nat)
    requires n > 0
    ensures Filter(ActiveUpTo(rows, caller, n), NotHandoff) ==
            Filter(ActiveUpTo(rows, caller, n - 1), NotHandoff) +
            if n in rows && !rows[n].record.archived && Applies(rows[n].record.scope, caller)
               && NotHandoff(rows[n].record)
            then [rows[n].record] else []
  {
    hide Filter, Applies;
    var init := ActiveUpTo(rows, caller, n - 1);
    assert init + [] == init;
    if n in rows && !rows[n].record.archived && Applies(rows[n].record.scope, caller) {
      FilterConcat(init, [rows[n].record], NotHandoff);
      FilterOne(rows[n].record, NotHandoff);
    }
  }

  lemma {:induction false} ActiveBeyond(rows: map<int, Row>, caller: Scope, n: int, m: int)
    requires n <= m && forall id | id in rows :: id <= n
    ensures ActiveUpTo(rows, caller, m) == ActiveUpTo(rows, caller, n)
    decreases m - n
  {
    if n < m {
      ActiveBeyond(rows, caller, n, m - 1);
    }
  }

  lemma {:induction false} FilterSwap(xs: seq<Record>, p: Record -> bool, q: Record -> bool)
    ensures Filter(Filter(xs, p), q) == Filter(Filter(xs, q), p)
  {
    if xs != [] {
      FilterSwap(xs[1..], p, q);
      if p(xs[0]) {
        FilterConcat([xs[0]], Filter(xs[1..], p), q);
        FilterOne(xs[0], q);
      }
      if q(xs[0]) {
        FilterConcat([xs[0]], Filter(xs[1..], q), p);
        FilterOne(xs[0], p);
      }
    }
  }

  /** The other records an agent may load do not depend on the handoffs. */
  lemma EligibleButHandoffs(t: Tables, n: Tables, caller: Scope)
    requires StoreInvariant.RowsOk(t) && StoreInvariant.RowsOk(n) && SameButHandoffs(t.rows, n.rows)
    ensures Filter(ScopedRecords(t, caller, AgentLoads), NotHandoff) ==
            Filter(ScopedRecords(n, caller, AgentLoads), NotHandoff)
  {
    hide Filter, Sort, SameButHandoffs, ActiveUpTo;
    var m := if t.sequence < n.sequence then n.sequence else t.sequence;
    ActiveBeyond(t.rows, caller, t.sequence, m);
    ActiveBeyond(n.rows, caller, n.sequence, m);
    ActiveButHandoffs(t.rows, n.rows, caller, m);
    var a, b := ActiveUpTo(t.rows, caller, m), ActiveUpTo(n.rows, caller, m);
    FilterSwap(a, AgentLoads, NotHandoff);
    FilterSwap(b, AgentLoads, NotHandoff);
    SortFilter(ByPurpose, Filter(a, AgentLoads), NotHandoff);
    SortFilter(ByPurpose, Filter(b, AgentLoads), NotHandoff);
  }

  /** Whatever handoffs a store holds, an agent loads the same other memories. */
  lemma HandoffsCrowdNoContext(t: Tables, n: Tables, caller: Scope, budget: int, size: Record -> nat)
    requires StoreInvariant.RowsOk(t) && StoreInvariant.RowsOk(n) && SameButHandoffs(t.rows, n.rows)
    ensures multiset(Filter(Loading(t, caller, budget, size).taken, NotHandoff)) ==
            multiset(Filter(Loading(n, caller, budget, size).taken, NotHandoff))
  {
    hide Selected, Chosen, ScopedRecords, StartupPack, Filter, SameButHandoffs;
    EligibleButHandoffs(t, n, caller);
    var a, b := ScopedRecords(t, caller, AgentLoads), ScopedRecords(n, caller, AgentLoads);
    SelectionKeeps(a, Chosen(a));
    SelectionKeeps(b, Chosen(b));
    HandoffsCrowdNothing(Selected(a, Chosen(a)), Selected(b, Chosen(b)), budget, size);
  }

  /** When all chosen memories fit, an agent loads them all, by purpose and then
      newest first. */
  lemma WholeContext(t: Tables, caller: Scope, budget: int, size: Record -> nat)
    requires StoreInvariant.RowsOk(t)
    requires var eligible := ScopedRecords(t, caller, AgentLoads);
             Total(Selected(eligible, Chosen(eligible)), size) <= Clamped(budget)
    ensures var eligible := ScopedRecords(t, caller, AgentLoads);
            && Sorted(ByPurpose, eligible)
            && Loading(t, caller, budget, size).taken == Selected(eligible, Chosen(eligible))
            && Filter(Loading(t, caller, budget, size).taken, NotHandoff) == Filter(eligible, NotHandoff)
  {
    hide Selected, Chosen, StartupPack, Filter, Sort, Total;
    var eligible := ScopedRecords(t, caller, AgentLoads);
    SortSorted(ByPurpose, Filter(ActiveUpTo(t.rows, caller, t.sequence), AgentLoads));
    StartupFits(Selected(eligible, Chosen(eligible)), budget, size);
    SelectionKeeps(eligible, Chosen(eligible));
  }

  // ----- what an agent is told was left out -----

  lemma NotTaken(taken: seq<Record>, left: seq<Record>, all: seq<Record>, r: Record)
    requires multiset(taken) + multiset(left) == multiset(all) && r in left && multiset(all)[r] <= 1
    ensures r !in taken
  {
    assert r in multiset(left);
    assert (multiset(taken) + multiset(left))[r] == multiset(taken)[r] + multiset(left)[r];
    assert r in taken ==> r in multiset(taken);
  }

  lemma LeftPart(taken: seq<Record>, left: seq<Record>, all: seq<Record>)
    requires multiset(taken) + multiset(left) == multiset(all)
    requires forall a, b | a in all && b in all && a.id == b.id :: a == b
    requires forall r :: multiset(all)[r] <= 1
    ensures forall r | r in left :: r in all && forall other | other in taken :: other.id != r.id
    ensures DistinctIds(left)
  {
    assert multiset(left) + multiset(taken) == multiset(all);
    TakenInside(left, taken, all);
    TakenInside(taken, left, all);
    forall r | r in left ensures forall other | other in taken :: other.id != r.id {
      NotTaken(taken, left, all, r);
    }
    forall i, j | 0 <= i < j < |left| ensures left[i].id != left[j].id {
      assert left[i] in left && left[j] in left;
      EqualTwice(left, i, j);
      assert multiset(left)[left[i]] <= multiset(all)[left[i]];
    }
  }

  /** Every eligible memory is loaded or counted as omitted, and the first
      hundred omitted, in order, are named: each once, none of them loaded. */
  lemma ContextTells(t: Tables, caller: Scope, budget: int, size: Record -> nat)
    requires StoreInvariant.RowsOk(t)
    ensures var page := PageOf(ContextLeft(t, caller, budget, size));
            && |page.records| + page.omitted == |ScopedRecords(t, caller, AgentLoads)|
            && |page.omittedIds| == |page.omittedRecords| == (if page.omitted < 100 then page.omitted else 100)
            && forall i | 0 <= i < |page.omittedIds| ::
                 var id := page.omittedIds[i];
                 && id in t.rows && Eligible(t, caller, t.rows[id].record)
                 && page.omittedRecords[i] == ReferenceTo(t.rows[id].record)
                 && (forall r | r in page.records :: r.id != id)
                 && forall j | 0 <= j < i :: page.omittedIds[j] != id
  {
    hide StartupPack, Selected, Skipped, Chosen, ScopedRecords, Eligible, PageOf;
    var eligible := ScopedRecords(t, caller, AgentLoads);
    var p := ContextLeft(t, caller, budget, size);
    EligibleOnce(t, caller);
    EligibleSingle(t, caller);
    SelectionSplits(eligible, Chosen(eligible));
    StartupFits(Selected(eligible, Chosen(eligible)), budget, size);
    forall r | r in eligible ensures r.id in t.rows && t.rows[r.id].record == r {
      EligibleIs(t, caller, r);
    }
    CountsAll(p, eligible);
    NamesLeft(p, eligible, t.rows);
  }

  lemma CountsAll(p: Packing, all: seq<Record>)
    requires multiset(p.taken) + multiset(p.left) == multiset(all)
    ensures var page := PageOf(p);
            && |page.records| + page.omitted == |all|
            && |page.omittedIds| == |page.omittedRecords| == (if page.omitted < 100 then page.omitted else 100)
  {
    hide FirstHundred, IdsOf, References;
    SameSize(p.taken + p.left, all);
  }

  lemma NamesLeft(p: Packing, all: seq<Record>, rows: map<int, Row>)
    requires multiset(p.taken) + multiset(p.left) == multiset(all) && forall r :: multiset(all)[r] <= 1
    requires forall r | r in all :: r.id in rows && rows[r.id].record == r
    ensures var page := PageOf(p);
            && |page.omittedIds| == |page.omittedRecords|
            && forall i | 0 <= i < |page.omittedIds| ::
                 var id := page.omittedIds[i];
                 && id in rows && rows[id].record in all && page.omittedRecords[i] == ReferenceTo(rows[id].record)
                 && (forall r | r in page.records :: r.id != id)
                 && forall j | 0 <= j < i :: page.omittedIds[j] != id
  {
    hide FirstHundred, IdsOf, References;
    LeftPart(p.taken, p.left, all);
    var page := PageOf(p);
    forall i | 0 <= i < |page.omittedIds|
      ensures page.omittedIds[i] == p.left[i].id && page.omittedRecords[i] == ReferenceTo(p.left[i])
      ensures p.left[i] in all
    {
      assert p.left[i] in p.left;
    }
  }

  lemma EligibleIs(t: Tables, caller: Scope, r: Record)
    requires Eligible(t, caller, r)
    ensures r.id in t.rows && t.rows[r.id].record == r
  {
  }

  lemma EligibleSingle(t: Tables, caller: Scope)
    requires StoreInvariant.RowsOk(t)
    ensures forall r :: multiset(ScopedRecords(t, caller, AgentLoads))[r] <= 1
  {
    hide ScopedRecords;
    ActiveOnce(t, caller);
    PartitionIsQuery(t, caller, AgentLoads);
    PartitionIsQuery(t, caller, Unconfirmed);
    FilterSplits(ScopedRecords(t, caller, Everything), AgentLoads, Unconfirmed);
    PartOnce(ScopedRecords(t, caller, Everything), ScopedRecords(t, caller, AgentLoads),
             multiset(ScopedRecords(t, caller, Unconfirmed)));
  }
}
