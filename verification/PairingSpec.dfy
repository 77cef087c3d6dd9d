/** Device pairing: requests that wait for the owner's decision, and the token
    table approvals write to. Times are read while the lock is held. */
module PairingSpec {
  import opened Text
  import opened Sets

  const LIFETIME := 300_000_000_000  // five minutes in nanoseconds
  const MAX_PENDING := 16

  datatype Status = Pending | Expired | Approved | Denied

  datatype Request = Request(code: string, device: string, hash: string, expires: int, status: Status)

  /** A row of client_tokens; its id is its place, counted from 1. */
  datatype Token = Token(device: string, hash: string, revoked: bool)

  /** `issued` are the random request ids handed out so far. */
  datatype State = State(requests: map<string, Request>, tokens: seq<Token>, issued: set<string>)

  const EMPTY := State(map[], [], {})

  // ----- the token table -----

  predicate DeviceOk(device: string) {
    !Blank(device) && ByteLen(device) <= 64 && !HasControl(device)
  }

  predicate HashKnown(tokens: seq<Token>, hash: string) {
    exists i | 0 <= i < |tokens| :: tokens[i].hash == hash
  }

  /** INSERT under the UNIQUE constraint on the hash; `healthy` is false when
      the database fails for a reason of its own. */
  function AddToken(tokens: seq<Token>, device: string, hash: string, healthy: bool): (seq<Token>, bool) {
    if !DeviceOk(device) || HashKnown(tokens, hash) || !healthy then (tokens, false)
    else (tokens + [Token(device, hash, false)], true)
  }

  predicate TokenValid(tokens: seq<Token>, hash: string) {
    exists i | 0 <= i < |tokens| :: tokens[i].hash == hash && !tokens[i].revoked
  }

  /** UPDATE of an unrevoked row by id. */
  function RevokeToken(tokens: seq<Token>, id: int): (seq<Token>, bool) {
    if 1 <= id <= |tokens| && !tokens[id - 1].revoked
    then (tokens[id - 1 := tokens[id - 1].(revoked := true)], true)
    else (tokens, false)
  }

  // ----- requests -----

  /** One request as an expire pass leaves it, if it stays. */
  function Aged(r: Request, now: int): Request {
    if r.expires <= now && r.status.Pending? then r.(status := Expired) else r
  }

  predicate Stays(r: Request, now: int) {
    now < r.expires + LIFETIME
  }

  function Expire(requests: map<string, Request>, now: int): map<string, Request> {
    map id | id in requests && Stays(requests[id], now) :: Aged(requests[id], now)
  }

  function PendingIds(requests: map<string, Request>): set<string> {
    set id | id in requests && requests[id].status.Pending?
  }

  datatype Reply = Started | TooMany | BadRequest | NotFound | Gone | Refused | Waiting | Ready
                 | Unavailable | WrongCode | Failed | Decided | Listed | Revoked | Unknown

  datatype Event =
    | Start(now: int, id: string, code: string, device: string, hash: string)
    | Poll(now: int, id: string)
    | List(now: int)
    | Decide(now: int, id: string, code: string, approve: bool, healthy: bool)
    | Revoke(now: int, token: int)

  function Step(s: State, e: Event): (State, Reply) {
    match e
    case Start(now, id, code, device, hash) =>
      if !DeviceOk(device) then (s, BadRequest)
      else
        var kept := Expire(s.requests, now);
        if |PendingIds(kept)| >= MAX_PENDING then (s.(requests := kept), TooMany)
        else
          var r := Request(code, device, hash, now + LIFETIME, Pending);
          (s.(requests := kept[id := r], issued := s.issued + {id}), Started)
    case Poll(now, id) =>
      var kept := Expire(s.requests, now);
      (s.(requests := kept),
       if id !in kept then NotFound
       else match kept[id].status
            case Expired => Gone
            case Denied => Refused
            case Approved => Ready
            case Pending => Waiting)
    case List(now) => (s.(requests := Expire(s.requests, now)), Listed)
    case Decide(now, id, code, approve, healthy) =>
      if id !in s.requests || s.requests[id].expires <= now || !s.requests[id].status.Pending? then (s, Unavailable)
      else if s.requests[id].code != code then (s, WrongCode)
      else
        var r := s.requests[id];
        if approve then
          var (tokens, added) := AddToken(s.tokens, r.device, r.hash, healthy);
          if !added then (s, Failed)
          else (s.(requests := s.requests[id := r.(status := Approved)], tokens := tokens), Decided)
        else (s.(requests := s.requests[id := r.(status := Denied)]), Decided)
    case Revoke(_, token) =>
      var (tokens, changed) := RevokeToken(s.tokens, token);
      (s.(tokens := tokens), if changed then Revoked else Unknown)
  }

  function Run(s: State, events: seq<Event>): State
    decreases |events|
  {
    if events == [] then s else Run(Step(s, events[0]).0, events[1..])
  }

  /** The clock never goes back and request ids are never issued twice. */
  predicate Lawful(s: State, clock: int, events: seq<Event>)
    decreases |events|
  {
    events == [] ||
    (events[0].now >= clock && (events[0].Start? ==> events[0].id !in s.issued)
     && Lawful(Step(s, events[0]).0, events[0].now, events[1..]))
  }

  /** The time a run has reached. */
  function ClockAfter(clock: int, events: seq<Event>): int {
    if events == [] then clock else events[|events| - 1].now
  }

  // ----- the invariant -----

  predicate Undecided(r: Request) {
    r.status.Pending? || r.status.Expired?
  }

  /** Undecided requests admitted within one lifetime up to x. */
  function Window(requests: map<string, Request>, x: int): set<string> {
    set id | id in requests && Undecided(requests[id]) && x - LIFETIME < requests[id].expires - LIFETIME <= x
  }

  ghost predicate Crowding(requests: map<string, Request>) {
    forall x: int :: |Window(requests, x)| <= MAX_PENDING
  }

  predicate HashesDistinct(tokens: seq<Token>) {
    forall i, j | 0 <= i < j < |tokens| :: tokens[i].hash != tokens[j].hash
  }

  ghost predicate Inv(s: State, clock: int) {
    && (forall id | id in s.requests ::
          id in s.issued && s.requests[id].expires <= clock + LIFETIME && DeviceOk(s.requests[id].device)
          && (s.requests[id].status.Expired? ==> s.requests[id].expires <= clock))
    && |PendingIds(s.requests)| <= MAX_PENDING
    && Crowding(s.requests)
    && HashesDistinct(s.tokens)
    && (forall id | id in s.requests && s.requests[id].status.Approved? :: HashKnown(s.tokens, s.requests[id].hash))
  }

  lemma ExpireShrinks(requests: map<string, Request>, now: int)
    ensures PendingIds(Expire(requests, now)) <= PendingIds(requests)
    ensures forall x :: Window(Expire(requests, now), x) <= Window(requests, x)
  {
  }

  lemma ExpireKeeps(s: State, clock: int, now: int)
    requires Inv(s, clock) && clock <= now
    ensures Inv(s.(requests := Expire(s.requests, now)), now)
  {
    ExpireShrinks(s.requests, now);
    var kept := Expire(s.requests, now);
    SubsetSize(PendingIds(kept), PendingIds(s.requests));
    forall x ensures |Window(kept, x)| <= MAX_PENDING {
      SubsetSize(Window(kept, x), Window(s.requests, x));
    }
  }

  /** Requests in a window that reaches the present are all still pending. */
  lemma WindowIsPending(requests: map<string, Request>, now: int, x: int)
    requires forall id | id in requests :: requests[id].expires <= now + LIFETIME
               && (requests[id].status.Expired? ==> requests[id].expires <= now)
    requires x - LIFETIME < now <= x
    ensures Window(requests, x) <= PendingIds(requests)
  {
  }

  lemma AdmitKeeps(s: State, now: int, id: string, r: Request)
    requires Inv(s, now) && id !in s.issued && |PendingIds(s.requests)| < MAX_PENDING
    requires r.status.Pending? && r.expires == now + LIFETIME && DeviceOk(r.device)
    ensures Inv(s.(requests := s.requests[id := r], issued := s.issued + {id}), now)
  {
    hide DeviceOk, HashKnown, HashesDistinct, Crowding, PendingIds;
    var n := s.requests[id := r];
    PendingGrows(s.requests, id, r);
    AdmitCrowds(s, now, id, r);
  }

  lemma PendingGrows(requests: map<string, Request>, id: string, r: Request)
    requires id !in requests && r.status.Pending?
    ensures |PendingIds(requests[id := r])| == |PendingIds(requests)| + 1
  {
    assert PendingIds(requests[id := r]) == PendingIds(requests) + {id};
  }

  /** Whoever was admitted in the same window is still pending, so there are
      fewer than the limit of them. */
  lemma AdmitCrowds(s: State, now: int, id: string, r: Request)
    requires Inv(s, now) && id !in s.requests && |PendingIds(s.requests)| < MAX_PENDING
    requires r.status.Pending? && r.expires == now + LIFETIME
    ensures Crowding(s.requests[id := r])
  {
    hide DeviceOk, HashKnown, HashesDistinct, PendingIds;
    var n := s.requests[id := r];
    forall x ensures |Window(n, x)| <= MAX_PENDING {
      if x - LIFETIME < now <= x {
        WindowIsPending(s.requests, now, x);
        SubsetSize(Window(s.requests, x), PendingIds(s.requests));
        assert Window(n, x) == Window(s.requests, x) + {id};
      } else {
        assert Window(n, x) == Window(s.requests, x);
      }
    }
  }

  lemma SettleKeeps(s: State, clock: int, id: string, status: Status, tokens: seq<Token>)
    requires Inv(s, clock) && id in s.requests && (status.Approved? || status.Denied?)
    requires HashesDistinct(tokens) && (status.Approved? ==> HashKnown(tokens, s.requests[id].hash))
    requires forall hash | HashKnown(s.tokens, hash) :: HashKnown(tokens, hash)
    ensures Inv(s.(requests := s.requests[id := s.requests[id].(status := status)], tokens := tokens), clock)
  {
    hide DeviceOk, HashKnown, HashesDistinct, PendingIds, Window;
    var n := s.requests[id := s.requests[id].(status := status)];
    DecidedShrinks(s.requests, id, status);
    SubsetSize(PendingIds(n), PendingIds(s.requests));
    forall x ensures |Window(n, x)| <= MAX_PENDING {
      SubsetSize(Window(n, x), Window(s.requests, x));
    }
  }

  lemma DecidedShrinks(requests: map<string, Request>, id: string, status: Status)
    requires id in requests && (status.Approved? || status.Denied?)
    ensures var n := requests[id := requests[id].(status := status)];
            PendingIds(n) <= PendingIds(requests) && forall x :: Window(n, x) <= Window(requests, x)
  {
  }

  lemma ClockMoves(s: State, clock: int, now: int)
    requires Inv(s, clock) && clock <= now
    ensures Inv(s, now)
  {
  }

  lemma TokensGrow(tokens: seq<Token>, device: string, hash: string, healthy: bool, id: int)
    ensures var (n, added) := AddToken(tokens, device, hash, healthy);
            && (HashesDistinct(tokens) ==> HashesDistinct(n)) && (added ==> HashKnown(n, hash))
            && forall h | HashKnown(tokens, h) :: HashKnown(n, h)
    ensures var (n, _) := RevokeToken(tokens, id);
            && (HashesDistinct(tokens) ==> HashesDistinct(n)) && forall h | HashKnown(tokens, h) :: HashKnown(n, h)
  {
    var n := AddToken(tokens, device, hash, healthy).0;
    if n != tokens {
      assert n[|tokens|].hash == hash;
    }
    forall h | HashKnown(tokens, h) ensures HashKnown(n, h) && HashKnown(RevokeToken(tokens, id).0, h) {
      var i :| 0 <= i < |tokens| && tokens[i].hash == h;
      assert n[i].hash == h && RevokeToken(tokens, id).0[i].hash == h;
    }
  }

  lemma StepKeeps(s: State, clock: int, e: Event)
    requires Inv(s, clock) && e.now >= clock && (e.Start? ==> e.id !in s.issued)
    ensures Inv(Step(s, e).0, e.now)
  {
    hide Inv, DeviceOk, AddToken, RevokeToken, HashesDistinct, HashKnown, PendingIds, Expire;
    ClockMoves(s, clock, e.now);
    match e
    case Start(now, id, code, device, hash) =>
      ExpireKeeps(s, clock, now);
      var kept := s.(requests := Expire(s.requests, now));
      if DeviceOk(device) && |PendingIds(kept.requests)| < MAX_PENDING {
        AdmitKeeps(kept, now, id, Request(code, device, hash, now + LIFETIME, Pending));
      }
    case Poll(now, _) => ExpireKeeps(s, clock, now);
    case List(now) => ExpireKeeps(s, clock, now);
    case Decide(now, id, code, approve, healthy) => DecideKeeps(s, now, e);
    case Revoke(now, token) =>
      InvTokens(s, now);
      TokensGrow(s.tokens, "", "", false, token);
      TokensKeep(s, now, RevokeToken(s.tokens, token).0);
  }

  lemma InvTokens(s: State, clock: int)
    requires Inv(s, clock)
    ensures HashesDistinct(s.tokens)
  {
  }

  lemma TokensKeep(s: State, clock: int, tokens: seq<Token>)
    requires Inv(s, clock) && HashesDistinct(tokens) && forall h | HashKnown(s.tokens, h) :: HashKnown(tokens, h)
    ensures Inv(s.(tokens := tokens), clock)
  {
  }

  lemma DecideKeeps(s: State, clock: int, e: Event)
    requires Inv(s, clock) && e.Decide?
    ensures Inv(Step(s, e).0, clock)
  {
    hide Inv, AddToken, HashKnown, HashesDistinct, DeviceOk;
    InvTokens(s, clock);
    if Step(s, e).1.Decided? {
      var r := s.requests[e.id];
      TokensGrow(s.tokens, r.device, r.hash, e.healthy, 0);
      if e.approve {
        SettleKeeps(s, clock, e.id, Approved, AddToken(s.tokens, r.device, r.hash, e.healthy).0);
      } else {
        SettleKeeps(s, clock, e.id, Denied, s.tokens);
      }
    }
  }

  lemma {:induction false} RunKeeps(s: State, clock: int, events: seq<Event>)
    requires Inv(s, clock) && Lawful(s, clock, events)
    ensures Inv(Run(s, events), ClockAfter(clock, events))
    decreases |events|
  {
    hide Inv, Step;
    if events != [] {
      StepKeeps(s, clock, events[0]);
      RunKeeps(Step(s, events[0]).0, events[0].now, events[1..]);
    }
  }

  lemma EmptyInv(clock: int)
    ensures Inv(EMPTY, clock)
  {
  }

  // ----- capacity -----

  /** In every run at most 16 requests are pending, and right after an expire
      pass at most 32 undecided requests remain. */
  lemma Capacity(clock: int, events: seq<Event>, now: int)
    requires Lawful(EMPTY, clock, events) && now >= ClockAfter(clock, events)
    ensures var s := Run(EMPTY, events);
            var kept := Expire(s.requests, now);
            && |PendingIds(s.requests)| <= MAX_PENDING
            && |set id | id in kept && Undecided(kept[id])| <= 2 * MAX_PENDING
  {
    EmptyInv(clock);
    RunKeeps(EMPTY, clock, events);
    var s := Run(EMPTY, events);
    ExpireKeeps(s, ClockAfter(clock, events), now);
    UndecidedFit(Expire(s.requests, now), s, now);
  }

  lemma UndecidedFit(kept: map<string, Request>, s: State, now: int)
    requires kept == Expire(s.requests, now) && Inv(s.(requests := kept), now)
    ensures |set id | id in kept && Undecided(kept[id])| <= 2 * MAX_PENDING
  {
    var undecided := set id | id in kept && Undecided(kept[id]);
    var recent, earlier := Window(kept, now), Window(kept, now - LIFETIME);
    assert undecided <= recent + earlier;
    SubsetSize(undecided, recent + earlier);
    assert |recent| <= MAX_PENDING && |earlier| <= MAX_PENDING;
    assert |recent + earlier| <= |recent| + |earlier|;
  }

  /** And no lifetime-long window ever holds more than 16 undecided admissions. */
  lemma NeverCrowded(clock: int, events: seq<Event>, x: int)
    requires Lawful(EMPTY, clock, events)
    ensures |Window(Run(EMPTY, events).requests, x)| <= MAX_PENDING
  {
    hide Window, PendingIds, Run;
    EmptyInv(clock);
    RunKeeps(EMPTY, clock, events);
  }

  // ----- decisions are final -----

  predicate Finished(r: Request) {
    !r.status.Pending?
  }

  /** After any event, a finished request is as it was or gone for good. */
  lemma StepFinal(s: State, e: Event, id: string)
    requires id in s.issued && (e.Start? ==> e.id !in s.issued)
    requires id in s.requests ==> Finished(s.requests[id])
    ensures var n := Step(s, e).0;
            && id in n.issued && (id in n.requests ==> id in s.requests && n.requests[id] == s.requests[id])
  {
    hide DeviceOk, AddToken, RevokeToken, PendingIds;
  }

  lemma {:induction false} FinalForever(s: State, clock: int, events: seq<Event>, id: string)
    requires Lawful(s, clock, events) && id in s.issued && (id in s.requests ==> Finished(s.requests[id]))
    ensures var n := Run(s, events);
            id in n.issued && (id in n.requests ==> id in s.requests && n.requests[id] == s.requests[id])
    decreases |events|
  {
    hide Step;
    if events != [] {
      StepFinal(s, events[0], id);
      FinalForever(Step(s, events[0]).0, events[0].now, events[1..], id);
    }
  }

  /** A decision is taken only on a pending request before it expires, and no
      later decision on the same request succeeds, in any lawful run between. */
  lemma DecidedOnce(s: State, clock: int, e: Event, between: seq<Event>, again: Event)
    requires Inv(s, clock) && e.now >= clock && e.Decide? && Step(s, e).1.Decided?
    requires Lawful(Step(s, e).0, e.now, between) && again.Decide? && again.id == e.id
    ensures e.id in s.requests && s.requests[e.id].status.Pending? && e.now < s.requests[e.id].expires
    ensures !Step(Run(Step(s, e).0, between), again).1.Decided?
  {
    hide DeviceOk, AddToken, Crowding, HashesDistinct, HashKnown, PendingIds;
    FinalForever(Step(s, e).0, e.now, between, e.id);
  }

  // ----- approvals and tokens -----

  predicate OnlyOne(tokens: seq<Token>, hash: string) {
    forall i, j | 0 <= i < |tokens| && 0 <= j < |tokens| && tokens[i].hash == hash && tokens[j].hash == hash :: i == j
  }

  /** A poll answers approved only when exactly one token row carries the
      request's hash. */
  lemma ReadyHasToken(clock: int, events: seq<Event>, e: Event)
    requires Lawful(EMPTY, clock, events) && e.Poll? && e.now >= ClockAfter(clock, events)
    requires Step(Run(EMPTY, events), e).1.Ready?
    ensures var s := Run(EMPTY, events);
            e.id in s.requests && HashKnown(s.tokens, s.requests[e.id].hash) && OnlyOne(s.tokens, s.requests[e.id].hash)
  {
    hide Crowding, PendingIds, DeviceOk;
    EmptyInv(clock);
    RunKeeps(EMPTY, clock, events);
    var s := Run(EMPTY, events);
  }

  /** Token rows are only ever added, and only ever become revoked. */
  predicate TokensOnward(a: seq<Token>, b: seq<Token>) {
    |a| <= |b| && forall i | 0 <= i < |a| ::
      a[i].hash == b[i].hash && a[i].device == b[i].device && (a[i].revoked ==> b[i].revoked)
  }

  lemma {:induction false} TokensRun(s: State, events: seq<Event>)
    ensures TokensOnward(s.tokens, Run(s, events).tokens)
    decreases |events|
  {
    hide DeviceOk, HashKnown, Expire, PendingIds;
    if events != [] {
      TokensRun(Step(s, events[0]).0, events[1..]);
    }
  }

  /** A hash once revoked is never valid again. */
  lemma RevokedForever(before: seq<Event>, clock: int, after: seq<Event>, i: nat)
    requires Lawful(EMPTY, clock, before) && Lawful(Run(EMPTY, before), ClockAfter(clock, before), after)
    requires i < |Run(EMPTY, before).tokens| && Run(EMPTY, before).tokens[i].revoked
    ensures !TokenValid(Run(Run(EMPTY, before), after).tokens, Run(EMPTY, before).tokens[i].hash)
  {
    hide Crowding, PendingIds, DeviceOk, Run, Step;
    EmptyInv(clock);
    RunKeeps(EMPTY, clock, before);
    var s := Run(EMPTY, before);
    RunKeeps(s, ClockAfter(clock, before), after);
    TokensRun(s, after);
  }

  /** An approval adds one row, valid for the request's hash, and denying or
      failing adds none. */
  lemma DecideTokens(s: State, e: Event)
    requires e.Decide?
    ensures var (n, reply) := Step(s, e);
            n.tokens == if reply.Decided? && e.approve
                        then s.tokens + [Token(s.requests[e.id].device, s.requests[e.id].hash, false)]
                        else s.tokens
    ensures Step(s, e).1.Decided? && e.approve ==>
              !HashKnown(s.tokens, s.requests[e.id].hash) && TokenValid(Step(s, e).0.tokens, s.requests[e.id].hash)
  {
    hide DeviceOk;
    if Step(s, e).1.Decided? && e.approve {
      assert Step(s, e).0.tokens[|s.tokens|].hash == s.requests[e.id].hash;
    }
  }
}
