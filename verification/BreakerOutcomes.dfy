/**
 * Which calls the breaker lets through, told from the history of calls alone, and what each way of ending a call
 * counts.
 */
module BreakerOutcomes {
  import opened CircuitBreaker

  /** The calls that were let through and have not ended. */
  ghost function OutstandingBy(threshold: int, cooldown: int, events: seq<Timed>): set<nat>
    decreases |events|, 0
  {
    if events == [] then {}
    else
      var init, e := events[..|events| - 1], events[|events| - 1];
      var before := OutstandingBy(threshold, cooldown, init);
      match e.event
      case Look => before
      case Ask(call) => if LetThrough(threshold, cooldown, init, e.now) then before + {call} else before
      case End(call, _) => before - {call}
  }

  /** A call was let through to try the engine, and no call has ended since. */
  ghost predicate TryingBy(threshold: int, cooldown: int, events: seq<Timed>)
    decreases |events|, 0
  {
    events != [] &&
    var init, e := events[..|events| - 1], events[|events| - 1];
    match e.event
    case Look => TryingBy(threshold, cooldown, init)
    case Ask(call) =>
      TryingBy(threshold, cooldown, init)
      || (call !in OutstandingBy(threshold, cooldown, init)
          && PhaseByHistory(threshold, cooldown, init, e.now) == HalfOpen)
    case End(call, _) =>
      TryingBy(threshold, cooldown, init) && call !in OutstandingBy(threshold, cooldown, init)
  }

  /** A call is let through while the breaker is closed, and after the cooldown if none is trying the engine. */
  ghost predicate LetThrough(threshold: int, cooldown: int, events: seq<Timed>, now: int)
    decreases |events|, 1
  {
    match PhaseByHistory(threshold, cooldown, events, now)
    case Closed => true
    case HalfOpen => !TryingBy(threshold, cooldown, events)
    case Open => false
  }

  ghost predicate Upto(events: seq<Timed>, now: int) {
    Monotone(events) && forall i :: 0 <= i < |events| ==> events[i].now <= now
  }

  /** What the stored flag and the outstanding calls are, by the history. */
  ghost predicate Follows(threshold: int, cooldown: int, events: seq<Timed>) {
    var w := After(threshold, cooldown, events);
    && w.outstanding.Keys == OutstandingBy(threshold, cooldown, events)
    && (w.breaker.trial <==> TryingBy(threshold, cooldown, events))
  }

  lemma AllowedIff(threshold: int, cooldown: int, events: seq<Timed>, now: int)
    requires Upto(events, now) && Follows(threshold, cooldown, events)
    ensures Allowed(After(threshold, cooldown, events).breaker, cooldown, now).1
      <==> LetThrough(threshold, cooldown, events, now)
  {
    BreakerRefinesHistory(threshold, cooldown, events, now);
  }

  lemma {:induction false} RunFollows(threshold: int, cooldown: int, events: seq<Timed>)
    requires Monotone(events)
    ensures Follows(threshold, cooldown, events)
  {
    if events != [] {
      var init, e := events[..|events| - 1], events[|events| - 1];
      RunFollows(threshold, cooldown, init);
      AllowedIff(threshold, cooldown, init, e.now);
      BreakerRefinesHistory(threshold, cooldown, init, e.now);
      StepFollows(threshold, cooldown, events);
    }
  }

  lemma StepFollows(threshold: int, cooldown: int, events: seq<Timed>)
    requires events != [] && Follows(threshold, cooldown, events[..|events| - 1])
    requires var init, now := events[..|events| - 1], events[|events| - 1].now;
      var breaker := After(threshold, cooldown, init).breaker;
      && (Allowed(breaker, cooldown, now).1 <==> LetThrough(threshold, cooldown, init, now))
      && Refreshed(breaker, cooldown, now).phase == PhaseByHistory(threshold, cooldown, init, now)
    ensures Follows(threshold, cooldown, events)
  {
    var init, e := events[..|events| - 1], events[|events| - 1];
    var w := After(threshold, cooldown, init);
    match e.event
    case Ask(call) =>
      if call !in w.outstanding && Allowed(w.breaker, cooldown, e.now).1 {
        assert w.outstanding[call := e.now].Keys == w.outstanding.Keys + {call};
      }
    case End(call, _) => assert (w.outstanding - {call}).Keys == w.outstanding.Keys - {call};
    case Look =>
  }

  /** After every run in order of time, a call is let through exactly if the history says so. */
  lemma AdmittedIff(threshold: int, cooldown: int, events: seq<Timed>, now: int)
    requires Upto(events, now)
    ensures Allowed(After(threshold, cooldown, events).breaker, cooldown, now).1
      <==> LetThrough(threshold, cooldown, events, now)
  {
    RunFollows(threshold, cooldown, events);
    AllowedIff(threshold, cooldown, events, now);
  }

  /** A result or a bad image clears the failures; a busy engine, and a photo that took too long, count for nothing; a
      live frame that took too long, an engine that is down and any other error count one failure more, and the call
      fails over exactly unless there was a result or a bad image. */
  lemma EndCounts(threshold: int, cooldown: int, events: seq<Timed>, call: nat, answer: Answer, mode: Mode, now: int)
    requires call in After(threshold, cooldown, events).outstanding
    ensures var failures := TrailingFailures(threshold, cooldown, events);
      TrailingFailures(threshold, cooldown, events + [Timed(now, End(call, ReportOf(answer, mode)))])
      == if answer == Result || answer == InvalidImage then 0
         else if answer == Unavailable(Busy) || (answer == Unavailable(Timeout) && mode == Photo) then failures
         else failures + 1
    ensures NextOf(answer) == if answer == Result then Return else if answer == InvalidImage then Rethrow else FailOver
  {
    var more := events + [Timed(now, End(call, ReportOf(answer, mode)))];
    assert more[..|more| - 1] == events;
  }
}
