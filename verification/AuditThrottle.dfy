/** The audit log's failure throttle: one line a minute for each kind of event,
    route and peer, with a bounded table and one overflow bucket. */
module AuditThrottle {
  import opened Sets

  const MINUTE := 60_000_000_000  // nanoseconds
  const CAPACITY := 1024

  /** A failure's event, route and peer, or the shared bucket. No named key
      reads "overflow", since named keys hold colons. */
  datatype Key = Named(event: string, route: string, peer: string) | Overflow

  datatype Window = Window(until: int, suppressed: nat)

  datatype Line = Line(time: int, key: Key, suppressed: nat)

  /** The table of windows and the lines written so far. */
  datatype Log = Log(failures: map<Key, Window>, lines: seq<Line>)

  const EMPTY := Log(map[], [])

  function Open(failures: map<Key, Window>, now: int): map<Key, Window> {
    map k | k in failures && now < failures[k].until :: failures[k]
  }

  function Suppress(log: Log, key: Key): Log
    requires key in log.failures
  {
    var w := log.failures[key];
    log.(failures := log.failures[key := w.(suppressed := w.suppressed + 1)])
  }

  function Write(failures: map<Key, Window>, lines: seq<Line>, key: Key, now: int): Log {
    var carried := if key in failures then failures[key].suppressed else 0;
    Log(failures[key := Window(now + MINUTE, 0)], lines + [Line(now, key, carried)])
  }

  /** One failure event. */
  function Fail(log: Log, key: Key, now: int): Log {
    if key in log.failures then
      if now < log.failures[key].until then Suppress(log, key) else Write(log.failures, log.lines, key, now)
    else
      var open := Open(log.failures, now);
      if |open| < CAPACITY then Write(open, log.lines, key, now)
      else if Overflow in open && now < open[Overflow].until then Suppress(Log(open, log.lines), Overflow)
      else Write(open, log.lines, Overflow, now)
  }

  datatype Failure = Failure(key: Key, now: int)

  function Run(log: Log, failures: seq<Failure>): Log
    decreases |failures|
  {
    if failures == [] then log else Run(Fail(log, failures[0].key, failures[0].now), failures[1..])
  }

  /** Failures are named, and the clock read under the lock never goes back. */
  predicate Lawful(clock: int, failures: seq<Failure>)
    decreases |failures|
  {
    failures == [] || (failures[0].key.Named? && clock <= failures[0].now && Lawful(failures[0].now, failures[1..]))
  }

  // ----- the bound on lines -----

  predicate Within(line: Line, x: int) {
    x <= line.time < x + MINUTE
  }

  /** How many lines fall in the minute from x. */
  function InMinute(lines: seq<Line>, x: int): nat {
    if lines == [] then 0 else InMinute(lines[..|lines| - 1], x) + if Within(lines[|lines| - 1], x) then 1 else 0
  }

  ghost predicate Sparse(lines: seq<Line>) {
    forall x: int :: InMinute(lines, x) <= CAPACITY + 1
  }

  ghost predicate Sized(failures: map<Key, Window>) {
    |failures| <= CAPACITY + 1 && |failures.Keys - {Overflow}| <= CAPACITY
  }

  ghost predicate Dated(log: Log, clock: int) {
    && (forall k | k in log.failures :: log.failures[k].until <= clock + MINUTE)
    && (forall i | 0 <= i < |log.lines| :: log.lines[i].time <= clock)
  }

  /** Whoever wrote a line in the last minute still has its window in the table. */
  ghost predicate Held(log: Log, clock: int) {
    forall i | 0 <= i < |log.lines| && clock < log.lines[i].time + MINUTE ::
      log.lines[i].key in log.failures && log.failures[log.lines[i].key].until == log.lines[i].time + MINUTE
  }

  /** Lines of one key are at least a minute apart. */
  ghost predicate Spaced(lines: seq<Line>) {
    forall i, j | 0 <= i < j < |lines| && lines[i].key == lines[j].key :: lines[i].time + MINUTE <= lines[j].time
  }

  ghost predicate Inv(log: Log, clock: int) {
    Sized(log.failures) && Dated(log, clock) && Held(log, clock) && Spaced(log.lines) && Sparse(log.lines)
  }

  /** Spaced lines in one minute have different keys, so they are no more than
      their keys. */
  lemma {:induction false} LinesByKey(lines: seq<Line>, x: int, keys: set<Key>)
    requires Spaced(lines)
    requires forall i | 0 <= i < |lines| && Within(lines[i], x) :: lines[i].key in keys
    ensures InMinute(lines, x) <= |keys|
    decreases |lines|
  {
    if lines != [] {
      var init, last := lines[..|lines| - 1], lines[|lines| - 1];
      if Within(last, x) {
        LinesByKey(init, x, keys - {last.key});
        assert |keys - {last.key}| == |keys| - 1;
      } else {
        LinesByKey(init, x, keys);
      }
    }
  }

  /** One more line, under a key whose window had run out, keeps every minute
      within the bound. */
  lemma WriteSparse(log: Log, clock: int, key: Key, now: int, carried: nat)
    requires Inv(log, clock) && clock <= now && key !in Open(log.failures, now)
    requires |Open(log.failures, now).Keys + {key}| <= CAPACITY + 1
    ensures Sparse(log.lines + [Line(now, key, carried)])
  {
    hide Sized, Dated, Held, Spaced, Open;
    var lines := log.lines + [Line(now, key, carried)];
    forall x: int ensures InMinute(lines, x) <= CAPACITY + 1 {
      assert lines[..|log.lines|] == log.lines;
      if x <= now < x + MINUTE {
        MinuteFits(log, clock, now, x);
        assert |Open(log.failures, now).Keys + {key}| == |Open(log.failures, now).Keys| + 1;
      }
    }
  }

  /** Whoever wrote in the minute up to now still has an open window. */
  lemma MinuteFits(log: Log, clock: int, now: int, x: int)
    requires Inv(log, clock) && clock <= now && x <= now < x + MINUTE
    requires forall i | 0 <= i < |log.lines| && Within(log.lines[i], x) :: now < log.lines[i].time + MINUTE
    ensures InMinute(log.lines, x) <= |Open(log.failures, now).Keys|
  {
    hide Sized, Sparse, Spaced;
    LinesByKey(log.lines, x, Open(log.failures, now).Keys);
  }

  lemma SuppressKeeps(log: Log, clock: int, key: Key, now: int)
    requires Inv(log, clock) && clock <= now && key in log.failures
    ensures Inv(Suppress(log, key), now)
  {
    hide Sparse, Spaced;
    assert Suppress(log, key).failures.Keys == log.failures.Keys;
    assert |Suppress(log, key).failures| == |log.failures|;
  }

  lemma OpenSized(failures: map<Key, Window>, now: int)
    requires Sized(failures)
    ensures Sized(Open(failures, now)) && Open(Open(failures, now), now) == Open(failures, now)
  {
    var open := Open(failures, now);
    SubsetSize(open.Keys, failures.Keys);
    SubsetSize(open.Keys - {Overflow}, failures.Keys - {Overflow});
    assert |open| == |open.Keys| && |failures| == |failures.Keys|;
  }

  lemma OpenKeeps(log: Log, clock: int, now: int)
    requires Inv(log, clock) && clock <= now
    ensures Inv(Log(Open(log.failures, now), log.lines), now)
  {
    hide Sparse, Spaced, Sized;
    OpenSized(log.failures, now);
  }

  lemma WriteSized(failures: map<Key, Window>, lines: seq<Line>, key: Key, now: int)
    requires |failures.Keys + {key}| <= CAPACITY + 1 && |(failures.Keys + {key}) - {Overflow}| <= CAPACITY
    ensures Sized(Write(failures, lines, key, now).failures)
  {
    var n := Write(failures, lines, key, now).failures;
    assert n.Keys == failures.Keys + {key};
    assert |n| == |n.Keys|;
  }

  lemma WriteKeeps(log: Log, clock: int, key: Key, now: int)
    requires Inv(log, clock) && clock <= now && (key in log.failures ==> log.failures[key].until <= now)
    requires |log.failures.Keys + {key}| <= CAPACITY + 1 && |(log.failures.Keys + {key}) - {Overflow}| <= CAPACITY
    ensures Inv(Write(log.failures, log.lines, key, now), now)
  {
    hide Sparse, Spaced, Held, Sized, Dated;
    WriteSized(log.failures, log.lines, key, now);
    WriteDated(log, clock, key, now);
    RanOut(log.failures, key, now);
    SubsetSize(Open(log.failures, now).Keys + {key}, log.failures.Keys + {key});
    hide Open;
    WriteSparse(log, clock, key, now, if key in log.failures then log.failures[key].suppressed else 0);
    WriteOrdered(log, clock, key, now);
  }

  lemma RanOut(failures: map<Key, Window>, key: Key, now: int)
    requires key in failures ==> failures[key].until <= now
    ensures key !in Open(failures, now) && Open(failures, now).Keys <= failures.Keys
  {
  }

  lemma WriteDated(log: Log, clock: int, key: Key, now: int)
    requires Dated(log, clock) && clock <= now
    ensures Dated(Write(log.failures, log.lines, key, now), now)
  {
  }

  lemma WriteOrdered(log: Log, clock: int, key: Key, now: int)
    requires Held(log, clock) && Spaced(log.lines) && Dated(log, clock)
    requires clock <= now && (key in log.failures ==> log.failures[key].until <= now)
    ensures Held(Write(log.failures, log.lines, key, now), now)
            && Spaced(Write(log.failures, log.lines, key, now).lines)
  {
  }

  lemma FailKeeps(log: Log, clock: int, key: Key, now: int)
    requires Inv(log, clock) && clock <= now && key.Named?
    ensures Inv(Fail(log, key, now), now)
  {
    hide Sparse, Spaced, Held, Dated, Write, Suppress;
    if key in log.failures {
      if now < log.failures[key].until {
        SuppressKeeps(log, clock, key, now);
      } else {
        assert log.failures.Keys + {key} == log.failures.Keys;
        WriteKeeps(log, clock, key, now);
      }
    } else {
      AdmitKeeps(log, clock, key, now);
    }
  }

  lemma AdmitKeeps(log: Log, clock: int, key: Key, now: int)
    requires Inv(log, clock) && clock <= now && key.Named? && key !in log.failures
    ensures Inv(Fail(log, key, now), now)
  {
    hide Inv, Write, Suppress, Open;
    OpenKeeps(log, clock, now);
    RanOut(log.failures, key, now);
    var open := Log(Open(log.failures, now), log.lines);
    if |open.failures| < CAPACITY {
      RoomForNamed(open, now, key);
      WriteKeeps(open, now, key, now);
    } else if Overflow in open.failures && now < open.failures[Overflow].until {
      SuppressKeeps(open, now, Overflow, now);
    } else {
      RoomForOverflow(open, now);
      WriteKeeps(open, now, Overflow, now);
    }
  }

  lemma RoomForNamed(log: Log, clock: int, key: Key)
    requires Inv(log, clock) && |log.failures| < CAPACITY
    ensures |log.failures.Keys + {key}| <= CAPACITY && |(log.failures.Keys + {key}) - {Overflow}| <= CAPACITY
  {
    assert |log.failures| == |log.failures.Keys|;
    SubsetSize((log.failures.Keys + {key}) - {Overflow}, log.failures.Keys + {key});
  }

  /** The overflow bucket is the one window beyond the capacity. */
  lemma RoomForOverflow(log: Log, clock: int)
    requires Inv(log, clock)
    ensures |log.failures.Keys + {Overflow}| <= CAPACITY + 1
            && |(log.failures.Keys + {Overflow}) - {Overflow}| <= CAPACITY
  {
    hide Dated, Held, Spaced, Sparse;
    var keys := log.failures.Keys;
    assert (keys + {Overflow}) - {Overflow} == keys - {Overflow};
    assert keys + {Overflow} == (keys - {Overflow}) + {Overflow};
  }

  function ClockAfter(clock: int, failures: seq<Failure>): int {
    if failures == [] then clock else failures[|failures| - 1].now
  }

  lemma {:induction false} RunKeeps(log: Log, clock: int, failures: seq<Failure>)
    requires Inv(log, clock) && Lawful(clock, failures)
    ensures Inv(Run(log, failures), ClockAfter(clock, failures))
    decreases |failures|
  {
    hide Inv, Fail;
    if failures != [] {
      FailKeeps(log, clock, failures[0].key, failures[0].now);
      RunKeeps(Fail(log, failures[0].key, failures[0].now), failures[0].now, failures[1..]);
    }
  }

  /** However the failures fall, at most 1025 lines are written in any minute
      and at most 1025 windows are held. */
  lemma Bounded(clock: int, failures: seq<Failure>, x: int)
    requires Lawful(clock, failures)
    ensures var log := Run(EMPTY, failures);
            InMinute(log.lines, x) <= 1025 && |log.failures| <= 1025
  {
    RunKeeps(EMPTY, clock, failures);
  }

  /** The throttle as it changes in place. */
  class Throttle {
    var failures: map<Key, Window>
    ghost var lines: seq<Line>

    ghost function Now(): Log
      reads this
    {
      Log(failures, lines)
    }

    constructor ()
      ensures Now() == EMPTY
    {
      failures, lines := map[], [];
    }

    method Prune(now: int)
      modifies this`failures
      ensures failures == Open(old(failures), now)
    {
      var all := failures;
      var keys := failures.Keys;
      while keys != {}
        invariant keys <= all.Keys
        invariant failures == map k | k in all && (k in keys || now < all[k].until) :: all[k]
        decreases |keys|
      {
        var other :| other in keys;
        keys := keys - {other};
        if now >= failures[other].until {
          failures := failures - {other};
        }
      }
    }

    /** Returns the suppressed count to log, or nothing when the line is held back. */
    method Event(name: Key, now: int) returns (logged: bool, suppressed: nat)
      requires name.Named?
      modifies this
      ensures Now() == Fail(old(Now()), name, now)
      ensures logged <==> |lines| == |old(lines)| + 1
      ensures logged ==> lines[|lines| - 1].time == now && lines[|lines| - 1].suppressed == suppressed
      ensures !logged ==> lines == old(lines)
    {
      var key := name;
      var known := key in failures;
      var window := if known then failures[key] else Window(0, 0);
      if known && now < window.until {
        failures := failures[key := window.(suppressed := window.suppressed + 1)];
        return false, 0;
      }
      if !known {
        Prune(now);
        if |failures| >= CAPACITY {
          key := Overflow;
          known := key in failures;
          window := if known then failures[key] else Window(0, 0);
          if known && now < window.until {
            failures := failures[key := window.(suppressed := window.suppressed + 1)];
            return false, 0;
          }
        }
      }
      failures := failures[key := Window(now + MINUTE, 0)];
      lines := lines + [Line(now, key, window.suppressed)];
      logged, suppressed := true, window.suppressed;
    }
  }
}
