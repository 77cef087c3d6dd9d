/** What each pairing call answers, and what becomes of one request over time. */
module PairingAnswers {
  import opened Text
  import opened Sets
  import opened PairingSpec

  /** A connection request is taken up exactly for a usable device name while
      fewer than 16 requests are undecided and not yet expired. */
  lemma StartAnswers(s: State, now: int, id: string, code: string, device: string, hash: string)
    ensures var (n, reply) := Step(s, Start(now, id, code, device, hash));
            var waiting := set x | x in s.requests && s.requests[x].status.Pending? && now < s.requests[x].expires;
            if !DeviceOk(device) then reply == BadRequest && n == s
            else if |waiting| >= 16 then reply == TooMany && n == s.(requests := n.requests)
            else
              && reply == Started && n.tokens == s.tokens && id in n.requests
              && n.requests[id] == Request(code, device, hash, now + LIFETIME, Pending)
    ensures var n := Step(s, Start(now, id, code, device, hash)).0;
            DeviceOk(device) ==> forall x | x != id :: PassedBy(s, n, x, now)
  {
    hide DeviceOk;
    var waiting := set x | x in s.requests && s.requests[x].status.Pending? && now < s.requests[x].expires;
    assert PendingIds(Expire(s.requests, now)) == waiting;
  }

  /** What an expire pass makes of a request: forgotten two lifetimes after it
      started, expired after one when still undecided, and otherwise left. */
  predicate PassedBy(s: State, n: State, id: string, now: int) {
    if id !in s.requests || now >= s.requests[id].expires + LIFETIME then id !in n.requests
    else
      && id in n.requests
      && n.requests[id] == if s.requests[id].status.Pending? && now >= s.requests[id].expires
                           then s.requests[id].(status := Expired) else s.requests[id]
  }

  lemma PollAnswers(s: State, now: int, id: string)
    ensures var (n, reply) := Step(s, Poll(now, id));
            && n == s.(requests := n.requests) && (forall x :: PassedBy(s, n, x, now))
            && reply == (if id !in s.requests || now >= s.requests[id].expires + LIFETIME then NotFound
                         else match s.requests[id].status
                              case Approved => Ready
                              case Denied => Refused
                              case Expired => Gone
                              case Pending => if now < s.requests[id].expires then Waiting else Gone)
  {
  }

  /** A decision counts exactly on an undecided request before its expiry and
      with its code; an approval needs the token stored, and a failure to store
      it leaves everything as it was. */
  lemma DecideAnswers(s: State, e: Event)
    requires e.Decide?
    ensures var (n, reply) := Step(s, e);
            if !(e.id in s.requests && e.now < s.requests[e.id].expires && s.requests[e.id].status.Pending?) then
              reply == Unavailable && n == s
            else
              var r := s.requests[e.id];
              if r.code != e.code then reply == WrongCode && n == s
              else if !e.approve then
                reply == Decided && n == s.(requests := s.requests[e.id := r.(status := Denied)])
              else if !e.healthy || !DeviceOk(r.device) || exists i :: 0 <= i < |s.tokens| && s.tokens[i].hash == r.hash
              then reply == Failed && n == s
              else
                && reply == Decided && n.requests == s.requests[e.id := r.(status := Approved)]
                && n.tokens == s.tokens + [Token(r.device, r.hash, false)] && n.issued == s.issued
  {
    hide DeviceOk;
  }

  /** A token is revoked exactly when there is one with that id in use, and no
      other is touched. */
  lemma RevokeAnswers(s: State, now: int, token: int)
    ensures var (n, reply) := Step(s, Revoke(now, token));
            && n == s.(tokens := n.tokens)
            && (reply == Revoked <==> 1 <= token <= |s.tokens| && !s.tokens[token - 1].revoked)
            && (reply != Revoked ==> reply == Unknown && n == s)
            && (reply == Revoked ==>
                  && |n.tokens| == |s.tokens|
                  && forall i | 0 <= i < |s.tokens| ::
                       n.tokens[i] == if i == token - 1 then s.tokens[i].(revoked := true) else s.tokens[i])
  {
  }

  // ----- one request over time -----

  /** No decision on it. */
  predicate Undisturbed(events: seq<Event>, id: string) {
    forall i | 0 <= i < |events| :: events[i].Decide? ==> events[i].id != id
  }

  /** What has become of a request by a time, whatever passes there were. */
  predicate Fades(r: Request, id: string, s: State, clock: int) {
    && id in s.issued
    && (id in s.requests ==>
          s.requests[id] == r ||
          (r.status.Pending? && r.expires <= clock && s.requests[id] == r.(status := Expired)))
    && (id !in s.requests ==> clock >= r.expires + LIFETIME)
  }

  lemma FadesOn(r: Request, id: string, s: State, clock: int, e: Event)
    requires Fades(r, id, s, clock) && clock <= e.now && (e.Start? ==> e.id !in s.issued)
    requires e.Decide? ==> e.id != id
    ensures Fades(r, id, Step(s, e).0, e.now)
  {
    hide DeviceOk, AddToken, PendingIds;
  }

  lemma {:induction false} FadesOverRun(r: Request, id: string, s: State, clock: int, events: seq<Event>)
    requires Fades(r, id, s, clock) && Lawful(s, clock, events) && Undisturbed(events, id)
    ensures Fades(r, id, Run(s, events), ClockAfter(clock, events))
    decreases |events|
  {
    hide Step, Fades;
    if events != [] {
      FadesOn(r, id, s, clock, events[0]);
      FadesOverRun(r, id, Step(s, events[0]).0, events[0].now, events[1..]);
    }
  }

  /** Whatever else happens, a started request that nobody decides is answered
      with waiting for one lifetime, then as gone for another, and then not
      found. */
  lemma StartedThenPolled(s: State, e: Event, events: seq<Event>, now: int)
    requires e.Start? && e.id !in s.issued && Step(s, e).1.Started?
    requires Lawful(Step(s, e).0, e.now, events) && Undisturbed(events, e.id) && now >= ClockAfter(e.now, events)
    ensures Step(Run(Step(s, e).0, events), Poll(now, e.id)).1 ==
            if now < e.now + LIFETIME then Waiting
            else if now < e.now + 2 * LIFETIME then Gone else NotFound
  {
    hide Run, Step, PassedBy;
    StartAnswers(s, e.now, e.id, e.code, e.device, e.hash);
    var r := Request(e.code, e.device, e.hash, e.now + LIFETIME, Pending);
    IssuedNow(s, e);
    FadesOverRun(r, e.id, Step(s, e).0, e.now, events);
    PollAnswers(Run(Step(s, e).0, events), now, e.id);
  }

  lemma IssuedNow(s: State, e: Event)
    requires e.Start? && Step(s, e).1.Started?
    ensures e.id in Step(s, e).0.issued
  {
    hide DeviceOk;
  }

  /** And one that is approved is answered with ready, one denied with refused,
      until two lifetimes after it started, whatever else happens. */
  lemma DecidedThenPolled(s: State, e: Event, events: seq<Event>, now: int)
    requires e.Decide? && e.id in s.issued && Step(s, e).1.Decided?
    requires Lawful(Step(s, e).0, e.now, events) && Undisturbed(events, e.id) && now >= ClockAfter(e.now, events)
    ensures e.id in s.requests
    ensures Step(Run(Step(s, e).0, events), Poll(now, e.id)).1 ==
            if now >= s.requests[e.id].expires + LIFETIME then NotFound else if e.approve then Ready else Refused
  {
    hide Run, Step;
    DecideAnswers(s, e);
    var n := Step(s, e).0;
    FadesOverRun(n.requests[e.id], e.id, n, e.now, events);
    PollAnswers(Run(n, events), now, e.id);
  }
}
