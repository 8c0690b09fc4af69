/** The circuit breaker: backend/internal/platform/resilience/breaker.go. Times
    are in nanoseconds. */
module Breakers {
  import opened Common

  datatype Circuit = Closed | Open | HalfOpen

  datatype State = State(circuit: Circuit, failures: int, successes: int, openedAt: Time)

  /** Settings NewBreaker leaves: at least one failure, a real cool down. */
  datatype Settings = Settings(failureThreshold: int, cooldown: Time)

  const SUCCESS_THRESHOLD := 1
  const DEFAULT_COOLDOWN := 5_000_000_000
  const START := State(Closed, 0, 0, 0)

  function NewSettings(failureThreshold: int, cooldown: Time): (s: Settings)
    ensures Usable(s)
    ensures failureThreshold >= 1 && cooldown > 0 ==> s == Settings(failureThreshold, cooldown)
    ensures failureThreshold < 1 ==> s.failureThreshold == 1
    ensures cooldown <= 0 ==> s.cooldown == 5_000_000_000
  {
    Settings(if failureThreshold < 1 then 1 else failureThreshold,
             if cooldown <= 0 then DEFAULT_COOLDOWN else cooldown)
  }

  predicate Usable(s: Settings) {
    s.failureThreshold >= 1 && s.cooldown > 0
  }

  /** One locked section of the breaker. Any number of calls may be under way, so
      they come in any order. */
  datatype Action = Allow | RecordSuccess | RecordFailure

  datatype Event = Event(now: Time, action: Action)

  predicate Admits(settings: Settings, b: State, now: Time) {
    b.circuit == Open ==> now - b.openedAt >= settings.cooldown
  }

  function Step(settings: Settings, b: State, e: Event): State {
    match e.action
    case Allow =>
      if b.circuit == Open && Admits(settings, b, e.now) then b.(circuit := HalfOpen, successes := 0) else b
    case RecordSuccess =>
      if b.circuit == HalfOpen then
        if b.successes + 1 >= SUCCESS_THRESHOLD then b.(circuit := Closed, failures := 0, successes := 0)
        else b.(failures := 0, successes := b.successes + 1)
      else b.(failures := 0)
    case RecordFailure =>
      if b.circuit == HalfOpen then b.(circuit := Open, openedAt := e.now, failures := settings.failureThreshold)
      else if b.failures + 1 >= settings.failureThreshold then
        b.(circuit := Open, openedAt := e.now, failures := b.failures + 1)
      else b.(failures := b.failures + 1)
  }

  datatype Outcome = Succeeded | Permanent | Failed

  /** What a caller gets: its operation's own outcome, or a refusal. */
  datatype Answer = Ran(outcome: Outcome) | BreakerOpen

  function Record(outcome: Outcome): Action {
    if outcome == Failed then RecordFailure else RecordSuccess
  }

  /** One call on its own: started and ended with nothing in between. */
  datatype Call = Call(started: Time, ended: Time, outcome: Outcome)

  function Doing(settings: Settings, b: State, c: Call): (State, Answer) {
    if !Admits(settings, b, c.started) then (b, BreakerOpen)
    else
      (Step(settings, Step(settings, b, Event(c.started, Allow)), Event(c.ended, Record(c.outcome))), Ran(c.outcome))
  }

  class Breaker {
    const settings: Settings
    var state: Circuit
    var failures: int
    var successes: int
    var openedAt: Time

    ghost function Now(): State
      reads this
    {
      State(state, failures, successes, openedAt)
    }

    constructor (failureThreshold: int, cooldown: Time)
      ensures settings == NewSettings(failureThreshold, cooldown)
      ensures Now() == START
    {
      settings := Settings(if failureThreshold < 1 then 1 else failureThreshold,
                           if cooldown <= 0 then DEFAULT_COOLDOWN else cooldown);
      state, failures, successes, openedAt := Closed, 0, 0, 0;
    }

    method Allow(now: Time) returns (allowed: bool)
      modifies this
      ensures allowed <==> Admits(settings, old(Now()), now)
      ensures allowed <==> !(old(state) == Open && now < old(openedAt) + settings.cooldown)
      ensures Now() == Step(settings, old(Now()), Event(now, Action.Allow))
    {
      if state == Open {
        if now - openedAt < settings.cooldown {
          return false;
        }
        state := HalfOpen;
        successes := 0;
      }
      allowed := true;
    }

    method RecordSuccess()
      modifies this
      ensures forall now :: Now() == Step(settings, old(Now()), Event(now, Action.RecordSuccess))
    {
      failures := 0;
      if state == HalfOpen {
        successes := successes + 1;
        if successes >= SUCCESS_THRESHOLD {
          state := Closed;
          successes := 0;
        }
      }
    }

    method RecordFailure(now: Time)
      modifies this
      ensures Now() == Step(settings, old(Now()), Event(now, Action.RecordFailure))
    {
      if state == HalfOpen {
        state := Open;
        openedAt := now;
        failures := settings.failureThreshold;
        return;
      }
      failures := failures + 1;
      if failures >= settings.failureThreshold {
        state := Open;
        openedAt := now;
      }
    }

    /** Do, when no other call overlaps it. */
    method Do(c: Call) returns (answer: Answer)
      modifies this
      ensures (Now(), answer) == Doing(settings, old(Now()), c)
    {
      var allowed := Allow(c.started);
      if !allowed {
        return BreakerOpen;
      }
      if c.outcome == Failed {
        RecordFailure(c.ended);
      } else {
        RecordSuccess();
      }
      answer := Ran(c.outcome);
    }

    /** What health reports: an open circuit is half open once it cooled down. */
    method Report(now: Time) returns (text: string)
      ensures text == "open" <==> state == Open && now < openedAt + settings.cooldown
      ensures text == "closed" <==> state == Closed
      ensures text in {"open", "half-open", "closed"}
    {
      match state
      case Open => text := if now - openedAt >= settings.cooldown then "half-open" else "open";
      case HalfOpen => text := "half-open";
      case Closed => text := "closed";
    }
  }

  // ---- Every interleaving ----------------------------------------------------------

  ghost predicate Ordered(events: seq<Event>) {
    forall i, j :: 0 <= i < j < |events| ==> events[i].now <= events[j].now
  }

  /** The breaker after the first n events. */
  function After(settings: Settings, events: seq<Event>, n: nat): State
    requires n <= |events|
  {
    if n == 0 then START else Step(settings, After(settings, events, n - 1), events[n - 1])
  }

  /** The failures recorded since the last success, among the first n events. */
  function TrailingFailures(events: seq<Event>, n: nat): nat
    requires n <= |events|
  {
    if n == 0 then 0
    else match events[n - 1].action
      case Allow => TrailingFailures(events, n - 1)
      case RecordSuccess => 0
      case RecordFailure => TrailingFailures(events, n - 1) + 1
  }

  /** While the circuit is closed it counts the failures in a row, and they are
      fewer than the threshold; so that many in a row always open it. */
  lemma {:induction false} ClosedCountsFailures(settings: Settings, events: seq<Event>, n: nat)
    requires Usable(settings) && n <= |events|
    ensures var b := After(settings, events, n);
      && (b.circuit == Closed ==> b.failures == TrailingFailures(events, n) < settings.failureThreshold)
      && b.successes == 0 && b.failures >= 0
  {
    if n > 0 {
      ClosedCountsFailures(settings, events, n - 1);
    }
  }

  /** The circuit closes only on a success of a call while it is half open, opens
      only on a failure, and is probed only when it cooled down. */
  lemma TransitionsIff(settings: Settings, events: seq<Event>, n: nat)
    requires Usable(settings) && n < |events|
    ensures var b, b', e := After(settings, events, n), After(settings, events, n + 1), events[n];
      && (b.circuit != Closed && b'.circuit == Closed <==> b.circuit == HalfOpen && e.action == RecordSuccess)
      && (b.circuit != Open && b'.circuit == Open <==>
           e.action == RecordFailure &&
             (b.circuit == HalfOpen ||
              (b.circuit == Closed && TrailingFailures(events, n) + 1 >= settings.failureThreshold)))
      && (b.circuit != HalfOpen && b'.circuit == HalfOpen <==>
           b.circuit == Open && e.action == Allow && e.now >= b.openedAt + settings.cooldown)
  {
    ClosedCountsFailures(settings, events, n);
  }

  /** A result that comes in late, while the circuit is open, changes the count: a
      success clears it, and the failure that fills the threshold again starts the cool
      down anew. While half open one result decides. */
  lemma ResultsCount(settings: Settings, b: State, now: Time)
    requires Usable(settings)
    ensures var success, failure := Step(settings, b, Event(now, RecordSuccess)), Step(settings, b, Event(now, RecordFailure));
      && (b.circuit == Open ==>
           && success == State(Open, 0, b.successes, b.openedAt)
           && failure == State(Open, b.failures + 1, b.successes,
                               if b.failures + 1 < settings.failureThreshold then b.openedAt else now))
      && (b.circuit == HalfOpen ==>
           && failure == State(Open, settings.failureThreshold, b.successes, now)
           && (b.successes >= 0 ==> success == State(Closed, 0, 0, b.openedAt)))
  {
  }

  /** While the circuit is open the moment it opened only moves forward. */
  lemma {:induction false} OpenOrCooled(settings: Settings, events: seq<Event>, i: nat, j: nat, since: Time)
    requires Usable(settings) && Ordered(events) && i <= j < |events|
    requires After(settings, events, i).circuit == Open && After(settings, events, i).openedAt == since
    requires forall k :: i <= k < |events| ==> events[k].now >= since
    requires events[j].now < since + settings.cooldown
    ensures After(settings, events, j).circuit == Open && After(settings, events, j).openedAt >= since
    decreases j
  {
    if i < j {
      OpenOrCooled(settings, events, i, j - 1, since);
    }
  }

  /** A circuit opened at a moment lets nothing through before the cool down is
      over, whatever calls were still under way. */
  lemma NothingBeforeCooldown(settings: Settings, events: seq<Event>, i: nat, j: nat)
    requires Usable(settings) && Ordered(events) && i < j < |events|
    requires After(settings, events, i).circuit != Open && After(settings, events, i + 1).circuit == Open
    requires events[j].action == Allow && events[j].now < events[i].now + settings.cooldown
    ensures !Admits(settings, After(settings, events, j), events[j].now)
  {
    assert After(settings, events, i + 1).openedAt == events[i].now;
    OpenOrCooled(settings, events, i + 1, j, events[i].now);
  }

  // ---- Calls one after the other -----------------------------------------------------

  /** The failures at the end of a history, rejections not counted. */
  function FailuresInARow(history: seq<Call>): nat {
    if history == [] || history[|history| - 1].outcome != Failed then 0
    else FailuresInARow(history[..|history| - 1]) + 1
  }

  /** The rule in terms of what happened: a call goes through unless as many calls
      in a row failed as the threshold says, the last of them too recently. */
  predicate GoesThrough(settings: Settings, history: seq<Call>, now: Time)
    requires Usable(settings)
  {
    FailuresInARow(history) >= settings.failureThreshold ==>
      history != [] && now >= history[|history| - 1].ended + settings.cooldown
  }

  /** The calls that went through. */
  function History(settings: Settings, calls: seq<Call>): seq<Call>
    requires Usable(settings)
  {
    if calls == [] then []
    else
      var before, c := History(settings, calls[..|calls| - 1]), calls[|calls| - 1];
      if GoesThrough(settings, before, c.started) then before + [c] else before
  }

  function DoAll(settings: Settings, calls: seq<Call>): State {
    if calls == [] then START else Doing(settings, DoAll(settings, calls[..|calls| - 1]), calls[|calls| - 1]).0
  }

  /** The state a history of calls stands for. */
  ghost predicate StandsFor(settings: Settings, b: State, history: seq<Call>) {
    var row := FailuresInARow(history);
    && b.successes == 0
    && if row < settings.failureThreshold then b.circuit == Closed && b.failures == row
       else history != [] && b.circuit == Open && b.openedAt == history[|history| - 1].ended
            && b.failures >= settings.failureThreshold
  }

  lemma HistoryExtended(settings: Settings, history: seq<Call>, c: Call)
    ensures FailuresInARow(history + [c]) == if c.outcome == Failed then FailuresInARow(history) + 1 else 0
    ensures (history + [c])[|history + [c]| - 1] == c
  {
    assert (history + [c])[..|history|] == history;
  }

  /** When calls do not overlap, what the breaker does is a function of the
      outcomes so far: it stands for the history, and the next call goes through
      exactly when the rule says so. */
  lemma {:induction false} SequentialCalls(settings: Settings, calls: seq<Call>, next: Call)
    requires Usable(settings)
    ensures StandsFor(settings, DoAll(settings, calls), History(settings, calls))
    ensures Doing(settings, DoAll(settings, calls), next).1
         == if GoesThrough(settings, History(settings, calls), next.started) then Ran(next.outcome) else BreakerOpen
  {
    if calls != [] {
      var before, c := calls[..|calls| - 1], calls[|calls| - 1];
      SequentialCalls(settings, before, c);
      OneCall(settings, DoAll(settings, before), History(settings, before), c);
    }
    OneCall(settings, DoAll(settings, calls), History(settings, calls), next);
  }

  lemma OneCall(settings: Settings, b: State, history: seq<Call>, c: Call)
    requires Usable(settings) && StandsFor(settings, b, history)
    ensures var (b', answer) := Doing(settings, b, c);
      if GoesThrough(settings, history, c.started) then answer == Ran(c.outcome) && StandsFor(settings, b', history + [c])
      else answer == BreakerOpen && b' == b
  {
    HistoryExtended(settings, history, c);
  }
}
