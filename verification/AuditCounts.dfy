/** Which failures are logged, and what count a logged line carries. */
module AuditCounts {
  import opened Sets
  import opened AuditThrottle

  /** A failure is held back while a line of its key is less than a minute old;
      a key not in the table needs one of the 1024 places that are not open,
      and else shares the overflow bucket. */
  lemma FailureAnswers(log: Log, key: Key, now: int)
    ensures var n := Fail(log, key, now);
            var open := set k | k in log.failures && now < log.failures[k].until;
            if key in open then HeldUnder(log, n, key)
            else if key in log.failures || |open| < 1024 then LoggedUnder(log, n, key, now)
            else if Overflow in open then HeldUnder(log, n, Overflow) else LoggedUnder(log, n, Overflow, now)
  {
    var open := set k | k in log.failures && now < log.failures[k].until;
    assert Open(log.failures, now).Keys == open;
    assert |Open(log.failures, now)| == |open|;
  }

  /** No line; the key's window counts one more. */
  predicate HeldUnder(log: Log, n: Log, key: Key) {
    && n.lines == log.lines && key in log.failures && key in n.failures
    && n.failures[key] == Window(log.failures[key].until, log.failures[key].suppressed + 1)
    && forall k | k in n.failures && k != key :: k in log.failures && n.failures[k] == log.failures[k]
  }

  /** A line at this time, which opens the key's window for a minute. */
  predicate LoggedUnder(log: Log, n: Log, key: Key, now: int) {
    && |n.lines| == |log.lines| + 1 && n.lines[..|log.lines|] == log.lines
    && n.lines[|log.lines|].time == now && n.lines[|log.lines|].key == key
    && key in n.failures && n.failures[key] == Window(now + 60_000_000_000, 0)
    && forall k | k in n.failures && k != key :: k in log.failures && n.failures[k] == log.failures[k]
  }

  // ----- counting what was held back -----

  /** What became of a failure. */
  datatype Happened = Logged(key: Key) | HeldBack(key: Key)

  function Outcome(log: Log, f: Failure): Happened {
    var n := Fail(log, f.key, f.now);
    if |n.lines| > |log.lines| then Logged(n.lines[|n.lines| - 1].key)
    else HeldBack(if f.key in log.failures then f.key else Overflow)
  }

  function Outcomes(log: Log, failures: seq<Failure>): seq<Happened>
    decreases |failures|
  {
    if failures == [] then []
    else [Outcome(log, failures[0])] + Outcomes(Fail(log, failures[0].key, failures[0].now), failures[1..])
  }

  /** How many failures were held back under a key since its last line. */
  function Since(happened: seq<Happened>, key: Key): nat {
    if happened == [] then 0
    else
      var last := happened[|happened| - 1];
      if last == Logged(key) then 0
      else Since(happened[..|happened| - 1], key) + if last == HeldBack(key) then 1 else 0
  }

  /** Every window holds just that count. */
  predicate Counted(log: Log, happened: seq<Happened>) {
    forall k | k in log.failures :: log.failures[k].suppressed == Since(happened, k)
  }

  lemma CountedOn(log: Log, happened: seq<Happened>, f: Failure)
    requires Counted(log, happened)
    ensures Counted(Fail(log, f.key, f.now), happened + [Outcome(log, f)])
  {
    hide Fail, Since;
    var n := Fail(log, f.key, f.now);
    FailureAnswers(log, f.key, f.now);
    forall k | k in n.failures
      ensures n.failures[k].suppressed == Since(happened + [Outcome(log, f)], k)
    {
      SinceOne(happened, Outcome(log, f), k);
    }
  }

  lemma SinceOne(happened: seq<Happened>, last: Happened, key: Key)
    ensures Since(happened + [last], key) ==
            if last == Logged(key) then 0 else Since(happened, key) + if last == HeldBack(key) then 1 else 0
  {
    assert (happened + [last])[..|happened|] == happened;
  }

  lemma {:induction false} CountedOverRun(log: Log, before: seq<Happened>, failures: seq<Failure>)
    requires Counted(log, before)
    ensures Counted(Run(log, failures), before + Outcomes(log, failures))
    decreases |failures|
  {
    hide Fail, Counted;
    if failures == [] {
      assert before + [] == before;
    } else {
      var next := Fail(log, failures[0].key, failures[0].now);
      CountedOn(log, before, failures[0]);
      CountedOverRun(next, before + [Outcome(log, failures[0])], failures[1..]);
      assert before + [Outcome(log, failures[0])] + Outcomes(next, failures[1..]) == before + Outcomes(log, failures);
    }
  }

  /** After any failures, a logged one carries the number held back under its
      key since that key's last line when the key still has a window, and zero
      when it has none. */
  lemma LineCarries(failures: seq<Failure>, f: Failure)
    ensures var log := Run(EMPTY, failures);
            var n := Fail(log, f.key, f.now);
            |n.lines| > |log.lines| ==>
              n.lines[|log.lines|].suppressed ==
              if f.key in log.failures then Since(Outcomes(EMPTY, failures), f.key) else 0
  {
    var log := Run(EMPTY, failures);
    CountedOverRun(EMPTY, [], failures);
    assert [] + Outcomes(EMPTY, failures) == Outcomes(EMPTY, failures);
  }
}
