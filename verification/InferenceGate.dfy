/** The inference gate: one embedding call at a time, a call that outlives its
    request keeps the gate, and a call stuck for six timeouts ends the process.
    Requests and the goroutines they launch interleave one step at a time. */
module InferenceGate {
  import opened Text

  /** Where a request and the call it launched have got to. */
  datatype Phase =
    | Queued            // waiting for the gate
    | Entered           // past the gate, start time not yet stored
    | Stamped           // start time stored, call not yet launched
    | Waiting           // call launched, waiting for it or the timeout
    | Ended             // answered or timed out

  datatype Worker = Absent | Running | Sent | Cleared | Released

  datatype Request = Request(phase: Phase, worker: Worker, started: int)

  datatype State = State(requests: map<int, Request>, gate: Option<int>, heldSince: int, exiting: bool, exits: nat,
                         clock: int)

  datatype Step =
    | Arrive(r: int)
    | Enter(r: int)                // inferenceGate <- struct{}{}
    | Stamp(r: int, now: int)      // heldSince.Store(now)
    | Launch(r: int)               // go func
    | Finish(r: int)               // fn returns and its result is sent
    | Clear(r: int)                // heldSince.Store(0)
    | Release(r: int)              // <-inferenceGate
    | Receive(r: int)              // outcome := <-completed
    | TimeOut(r: int, now: int)    // inferenceCtx.Done, then timedOut

  predicate At(s: State, r: int, phase: Phase) {
    r in s.requests && s.requests[r].phase == phase
  }

  predicate WorkerAt(s: State, r: int, worker: Worker) {
    r in s.requests && s.requests[r].worker == worker
  }

  predicate Enabled(s: State, step: Step) {
    match step
    case Arrive(r) => r !in s.requests
    case Enter(r) => At(s, r, Queued) && s.gate.None?
    case Stamp(r, now) => At(s, r, Entered) && now >= s.clock && now > 0
    case Launch(r) => At(s, r, Stamped)
    case Finish(r) => WorkerAt(s, r, Running)
    case Clear(r) => WorkerAt(s, r, Sent)
    case Release(r) => WorkerAt(s, r, Cleared)
    case Receive(r) => At(s, r, Waiting) && s.requests[r].worker in {Sent, Cleared, Released}
    case TimeOut(r, now) => (At(s, r, Queued) || At(s, r, Waiting)) && now >= s.clock
  }

  /** The check a timed-out request makes; load and age are one step. */
  predicate Stuck(s: State, now: int, timeout: int) {
    s.heldSince != 0 && now - s.heldSince > 6 * timeout
  }

  function Moved(s: State, r: int, request: Request): State {
    s.(requests := s.requests[r := request])
  }

  function Next(s: State, step: Step, timeout: int): State
    requires Enabled(s, step)
  {
    match step
    case Arrive(r) => Moved(s, r, Request(Queued, Absent, 0))
    case Enter(r) => Moved(s, r, s.requests[r].(phase := Entered)).(gate := Some(r))
    case Stamp(r, now) => Moved(s, r, s.requests[r].(phase := Stamped, started := now)).(heldSince := now, clock := now)
    case Launch(r) => Moved(s, r, s.requests[r].(phase := Waiting, worker := Running))
    case Finish(r) => Moved(s, r, s.requests[r].(worker := Sent))
    case Clear(r) => Moved(s, r, s.requests[r].(worker := Cleared)).(heldSince := 0)
    case Release(r) => Moved(s, r, s.requests[r].(worker := Released)).(gate := None)
    case Receive(r) => Moved(s, r, s.requests[r].(phase := Ended))
    case TimeOut(r, now) =>
      var t := Moved(s, r, s.requests[r].(phase := Ended)).(clock := now);
      if Stuck(s, now, timeout) && !s.exiting then t.(exiting := true, exits := s.exits + 1) else t
  }

  const START := State(map[], None, 0, false, 0, 0)

  predicate Lawful(s: State, steps: seq<Step>, timeout: int)
    decreases |steps|
  {
    steps == [] || (Enabled(s, steps[0]) && Lawful(Next(s, steps[0], timeout), steps[1..], timeout))
  }

  function Run(s: State, steps: seq<Step>, timeout: int): State
    requires Lawful(s, steps, timeout)
    decreases |steps|
  {
    if steps == [] then s else Run(Next(s, steps[0], timeout), steps[1..], timeout)
  }

  /** The request has the gate: from entering until its call gives it back. */
  predicate Holds(q: Request) {
    q.phase.Entered? || q.phase.Stamped? || q.worker.Running? || q.worker.Sent? || q.worker.Cleared?
  }

  /** Its start time is stored and not yet cleared. */
  predicate Timed(q: Request) {
    q.phase.Stamped? || q.worker.Running? || q.worker.Sent?
  }

  /** Exactly the request in the gate holds it. */
  ghost predicate GateOk(s: State) {
    && (forall r | r in s.requests :: Holds(s.requests[r]) <==> s.gate == Some(r))
    && (s.gate.Some? ==> s.gate.value in s.requests)
  }

  /** A call exists only once its request launched it. */
  ghost predicate CallsOk(s: State) {
    && (forall r | r in s.requests && !s.requests[r].worker.Absent? ::
          s.requests[r].phase.Waiting? || s.requests[r].phase.Ended?)
    && (forall r | r in s.requests && s.requests[r].phase.Waiting? :: !s.requests[r].worker.Absent?)
  }

  /** heldSince is the start of the timed holder, and zero when there is none. */
  ghost predicate SinceOk(s: State) {
    && (s.heldSince != 0 ==> s.gate.Some?)
    && (s.gate.Some? ==> s.gate.value in s.requests
                         && var q := s.requests[s.gate.value];
                         && (s.heldSince != 0 ==> Timed(q))
                         && (Timed(q) ==> s.heldSince == q.started != 0))
    && s.heldSince <= s.clock && s.clock >= 0
  }

  ghost predicate Inv(s: State) {
    GateOk(s) && CallsOk(s) && SinceOk(s) && s.exits == (if s.exiting then 1 else 0)
  }

  lemma NextKeeps(s: State, step: Step, timeout: int)
    requires Inv(s) && Enabled(s, step)
    ensures Inv(Next(s, step, timeout))
  {
    hide GateOk, CallsOk, SinceOk;
    NextGate(s, step, timeout);
    NextCalls(s, step, timeout);
    NextSince(s, step, timeout);
  }

  lemma NextGate(s: State, step: Step, timeout: int)
    requires GateOk(s) && CallsOk(s) && Enabled(s, step)
    ensures GateOk(Next(s, step, timeout))
  {
  }

  lemma NextCalls(s: State, step: Step, timeout: int)
    requires CallsOk(s) && Enabled(s, step)
    ensures CallsOk(Next(s, step, timeout))
  {
  }

  lemma NextSince(s: State, step: Step, timeout: int)
    requires GateOk(s) && CallsOk(s) && SinceOk(s) && Enabled(s, step)
    ensures SinceOk(Next(s, step, timeout))
  {
  }

  lemma {:induction false} RunKeeps(s: State, steps: seq<Step>, timeout: int)
    requires Inv(s) && Lawful(s, steps, timeout)
    ensures Inv(Run(s, steps, timeout))
    decreases |steps|
  {
    hide Inv, Next, Enabled;
    if steps != [] {
      NextKeeps(s, steps[0], timeout);
      RunKeeps(Next(s, steps[0], timeout), steps[1..], timeout);
    }
  }

  /** In every interleaving at most one embedding call runs, a nonzero held-since
      is the start time of the one that holds the gate, and the process exits
      at most once. */
  lemma OneCall(steps: seq<Step>, timeout: int, a: int, b: int)
    requires Lawful(START, steps, timeout)
    ensures var s := Run(START, steps, timeout);
            && (WorkerAt(s, a, Running) && WorkerAt(s, b, Running) ==> a == b)
            && (s.heldSince != 0 ==>
                  s.gate.Some? && s.gate.value in s.requests && s.requests[s.gate.value].started == s.heldSince)
            && (WorkerAt(s, a, Running) ==> s.gate == Some(a) && s.heldSince == s.requests[a].started)
            && s.exits <= 1
  {
    RunKeeps(START, steps, timeout);
  }

  /** The process exits exactly when a request times out while one call has held
      the gate, since its own start, for more than six timeouts, and no exit
      was under way: never for requests merely queued behind shorter calls. */
  lemma ExitOnlyWhenStuck(steps: seq<Step>, timeout: int, step: Step)
    requires Lawful(START, steps, timeout) && Enabled(Run(START, steps, timeout), step)
    ensures var s := Run(START, steps, timeout);
            Next(s, step, timeout).exits == s.exits + 1 <==>
            step.TimeOut? && !s.exiting && s.gate.Some? && s.gate.value in s.requests
            && Timed(s.requests[s.gate.value]) && step.now - s.requests[s.gate.value].started > 6 * timeout
  {
    RunKeeps(START, steps, timeout);
  }

  /** From entering the gate until its own call gives it back, a request is the
      only one in it: no timeout, its own included, and no other request frees
      the gate or enters it. */
  lemma {:induction false} KeptUntilReleased(s: State, steps: seq<Step>, r: int, timeout: int)
    requires Inv(s) && Lawful(s, steps, timeout) && s.gate == Some(r) && Release(r) !in steps
    ensures Run(s, steps, timeout).gate == Some(r)
    ensures forall other :: Enter(other) !in steps
    decreases |steps|
  {
    if steps != [] {
      var next := Next(s, steps[0], timeout);
      NextKeeps(s, steps[0], timeout);
      GateStays(s, steps[0], r, timeout);
      KeptUntilReleased(next, steps[1..], r, timeout);
      assert forall step | step in steps :: step == steps[0] || step in steps[1..];
    }
  }

  lemma GateStays(s: State, step: Step, r: int, timeout: int)
    requires GateOk(s) && Enabled(s, step) && s.gate == Some(r) && step != Release(r)
    ensures Next(s, step, timeout).gate == Some(r) && !step.Enter?
  {
  }

  /** The next step of whoever holds the gate, towards giving it back. */
  function Onward(q: Request, r: int, now: int): Step
    requires Holds(q)
  {
    if q.worker.Running? then Finish(r) else if q.worker.Sent? then Clear(r) else if q.worker.Cleared? then Release(r)
    else if q.phase.Entered? then Stamp(r, now) else Launch(r)
  }

  function Distance(q: Request): nat {
    if q.worker.Running? then 3 else if q.worker.Sent? then 2 else if q.worker.Cleared? then 1
    else if q.phase.Entered? then 5 else if q.phase.Stamped? then 4 else 0
  }

  lemma HolderSteps(s: State, now: int, timeout: int)
    requires Inv(s) && s.gate.Some? && now >= s.clock && now > 0
    ensures var r := s.gate.value;
            && r in s.requests && Holds(s.requests[r])
            && var step := Onward(s.requests[r], r, now);
            && Enabled(s, step)
            && var n := Next(s, step, timeout);
            && Distance(n.requests[r]) == Distance(s.requests[r]) - 1 && n.clock <= now
            && (Distance(n.requests[r]) == 0 ==> n.gate.None?) && (Distance(n.requests[r]) > 0 ==> n.gate == Some(r))
  {
  }

  /** From any state with the gate taken, at most five steps of the holder
      alone free it, whatever has timed out meanwhile. */
  lemma {:induction false} GateFreed(s: State, now: int, timeout: int) returns (steps: seq<Step>)
    requires Inv(s) && s.gate.Some? && now >= s.clock && now > 0
    ensures s.gate.value in s.requests && |steps| == Distance(s.requests[s.gate.value]) <= 5
    ensures Lawful(s, steps, timeout) && Run(s, steps, timeout).gate.None?
    decreases if s.gate.value in s.requests then Distance(s.requests[s.gate.value]) else 0
  {
    hide Inv, Next, Onward, Distance, Holds;
    HolderSteps(s, now, timeout);
    DistanceBound(s.requests[s.gate.value]);
    var step := Onward(s.requests[s.gate.value], s.gate.value, now);
    var n := Next(s, step, timeout);
    NextKeeps(s, step, timeout);
    steps := [step];
    if n.gate.Some? {
      var rest := GateFreed(n, now, timeout);
      steps := [step] + rest;
      assert steps[1..] == rest;
    }
  }

  lemma DistanceBound(q: Request)
    ensures Distance(q) <= 5
  {
  }
}
