/** The circuit breaker (app/mneme/infra/circuit_breaker.py) against a rule that looks only at the history:
    which calls succeeded and failed, and when. */
module CircuitBreaker {
  import opened Wrappers

  datatype Mode = Closed | Open | HalfOpen

  datatype Entry = Entry(mode: Mode, failures: nat, reopenAt: real)

  /** What happened to the dependencies, oldest first. */
  datatype Event =
    | Success(name: string)
    | Failure(name: string, at: real, threshold: int, timeout: real)

  // ----- the rule

  /** Failures of `name` since its last success. */
  function Failures(history: seq<Event>, name: string): nat {
    if history == [] then 0
    else
      var e := history[|history| - 1];
      if e.name != name then Failures(history[..|history| - 1], name)
      else if e.Success? then 0
      else Failures(history[..|history| - 1], name) + 1
  }

  /** Until when calls of `name` are blocked: set by the last failure that reached its threshold, cleared by a
      success. */
  function BlockedUntil(history: seq<Event>, name: string): Option<real> {
    if history == [] then None
    else
      var e := history[|history| - 1];
      var earlier := BlockedUntil(history[..|history| - 1], name);
      if e.name != name then earlier
      else if e.Success? then None
      else if Failures(history, name) >= e.threshold then Some(e.at + e.timeout)
      else earlier
  }

  predicate Blocked(history: seq<Event>, name: string, now: real) {
    BlockedUntil(history, name).Some? && now < BlockedUntil(history, name).value
  }

  lemma OneMoreEvent(history: seq<Event>, e: Event, name: string)
    ensures Failures(history + [e], name)
            == if e.name != name then Failures(history, name) else if e.Success? then 0 else Failures(history, name) + 1
    ensures BlockedUntil(history + [e], name)
            == if e.name != name then BlockedUntil(history, name)
               else if e.Success? then None
               else if Failures(history, name) + 1 >= e.threshold then Some(e.at + e.timeout)
               else BlockedUntil(history, name)
  {
    assert (history + [e])[..|history|] == history;
  }

  /** What the breaker keeps about `name` says what the history says. */
  ghost predicate InStep(entries: map<string, Entry>, history: seq<Event>, clock: real, name: string) {
    if name in entries then
      var e := entries[name];
      && e.failures == Failures(history, name)
      && BlockedUntil(history, name) == (if e.mode == Closed then None else Some(e.reopenAt))
      && (e.mode == HalfOpen ==> e.reopenAt <= clock)
    else Failures(history, name) == 0 && BlockedUntil(history, name) == None
  }

  // ----- the breaker

  class Breaker {
    var entries: map<string, Entry>
    ghost var history: seq<Event>
    ghost var clock: real

    /** Each entry says what the history says; an entry is half-open only once its time has passed. */
    ghost predicate Valid()
      reads this
    {
      forall n :: InStep(entries, history, clock, n)
    }

    constructor (now: real)
      ensures Valid() && history == [] && clock == now
    {
      entries, history, clock := map[], [], now;
    }

    /** `before_call`: blocked exactly when the rule says so, provided the clock does not run backwards. */
    method BeforeCall(name: string, now: real) returns (blocked: bool)
      requires Valid() && now >= clock
      modifies this
      ensures Valid() && history == old(history) && clock == now
      ensures blocked <==> Blocked(history, name, now)
      ensures forall n | n != name :: n in entries <==> n in old(entries)
      ensures forall n | n != name && n in entries :: entries[n] == old(entries[n])
    {
      clock := now;
      hide Failures, BlockedUntil;
      assert forall n :: InStep(old(entries), history, old(clock), n) ==> InStep(entries, history, clock, n);
      assert InStep(entries, history, clock, name);
      if name !in entries {
        return false;
      }
      var entry := entries[name];
      if entry.mode == Open {
        if now < entry.reopenAt {
          return true;
        }
        entries := entries[name := entry.(mode := HalfOpen)];
        assert forall n :: InStep(old(entries), history, clock, n) ==> InStep(entries, history, clock, n);
      }
      return false;
    }

    /** `record_success`. */
    method RecordSuccess(name: string)
      requires Valid()
      modifies this
      ensures Valid() && history == old(history) + [Success(name)] && clock == old(clock)
      ensures entries == old(entries)[name := Entry(Closed, 0, 0.0)]
    {
      hide Failures, BlockedUntil;
      entries := entries[name := Entry(Closed, 0, 0.0)];
      history := history + [Success(name)];
      forall n ensures InStep(entries, history, clock, n) {
        assert InStep(old(entries), old(history), clock, n);
        OneMoreEvent(old(history), Success(name), n);
      }
    }

    /** `record_failure`. */
    method RecordFailure(name: string, threshold: int, timeout: real, now: real)
      requires Valid() && now >= clock
      modifies this
      ensures Valid() && history == old(history) + [Failure(name, now, threshold, timeout)] && clock == now
      ensures name in entries && entries == old(entries)[name := entries[name]]
    {
      hide Failures, BlockedUntil;
      var entry := if name in entries then entries[name] else Entry(Closed, 0, 0.0);
      assert InStep(entries, history, clock, name);
      entry := entry.(failures := entry.failures + 1);
      if entry.failures >= threshold {
        entry := entry.(mode := Open, reopenAt := now + timeout);
      }
      entries := entries[name := entry];
      history, clock := history + [Failure(name, now, threshold, timeout)], now;
      forall n ensures InStep(entries, history, clock, n) {
        assert InStep(old(entries), old(history), old(clock), n);
        OneMoreEvent(old(history), Failure(name, now, threshold, timeout), n);
      }
    }
  }

  // ----- consequences of the rule

  function About(history: seq<Event>, name: string): seq<Event> {
    if history == [] then []
    else
      var e := history[|history| - 1];
      About(history[..|history| - 1], name) + if e.name == name then [e] else []
  }

  /** Names do not interfere: only the events of a name decide about it. */
  lemma {:induction false} OnlyOwnEventsMatter(history: seq<Event>, name: string, now: real)
    ensures Failures(About(history, name), name) == Failures(history, name)
    ensures BlockedUntil(About(history, name), name) == BlockedUntil(history, name)
    ensures Blocked(About(history, name), name, now) == Blocked(history, name, now)
  {
    if history != [] {
      var front := history[..|history| - 1];
      OnlyOwnEventsMatter(front, name, now);
      var e := history[|history| - 1];
      if e.name == name {
        assert About(history, name)[..|About(front, name)|] == About(front, name);
      } else {
        assert About(history, name) == About(front, name);
      }
    }
  }

  /** All failures of `name` use the same threshold and timeout. */
  ghost predicate Fixed(history: seq<Event>, name: string, threshold: int, timeout: real) {
    forall i | 0 <= i < |history| && history[i].name == name && history[i].Failure? ::
      history[i].threshold == threshold && history[i].timeout == timeout
  }

  /** The time of the last failure of `name`. */
  function LastFailure(history: seq<Event>, name: string): Option<real> {
    if history == [] then None
    else
      var e := history[|history| - 1];
      if e.name == name && e.Failure? then Some(e.at) else LastFailure(history[..|history| - 1], name)
  }

  /** With one threshold of at least one and one timeout: a call is blocked exactly when the failures since the last
      success have reached the threshold and the last of them is less than the timeout ago. */
  lemma {:induction false} FixedRule(history: seq<Event>, name: string, threshold: int, timeout: real, now: real)
    requires Fixed(history, name, threshold, timeout) && threshold >= 1
    ensures Failures(history, name) < threshold ==> BlockedUntil(history, name) == None
    ensures Failures(history, name) >= threshold ==>
              && LastFailure(history, name).Some?
              && BlockedUntil(history, name) == Some(LastFailure(history, name).value + timeout)
    ensures Blocked(history, name, now) <==>
              && Failures(history, name) >= threshold && LastFailure(history, name).Some?
              && now < LastFailure(history, name).value + timeout
  {
    if history != [] {
      var front := history[..|history| - 1];
      assert forall i | 0 <= i < |front| :: front[i] == history[i];
      FixedRule(front, name, threshold, timeout, now);
    }
  }

  /** With a threshold of zero the first failure already blocks, but no failures at all do not. */
  lemma ZeroThreshold(name: string, at: real, timeout: real)
    ensures BlockedUntil([], name) == None
    ensures BlockedUntil([Failure(name, at, 0, timeout)], name) == Some(at + timeout)
  {
    assert [Failure(name, at, 0, timeout)][..0] == [];
  }
}
