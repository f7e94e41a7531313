/**
 * The circuit breaker with its lazily evaluated timed state, proved equal to a specification over
 * the history of calls, together with the caller that reports how each call ended.
 */
module CircuitBreaker {
  import opened Options

  datatype Phase = Closed | Open | HalfOpen

  /** How a call to the protected engine ended. */
  datatype Report = Succeeded | FailedCall | Released

  datatype State = State(failures: nat, openedAt: int, trial: bool, phase: Phase)

  const INITIAL := State(0, 0, false, Closed)

  /** Reading the state moves an open breaker whose cooldown is over to half-open. */
  function Refreshed(s: State, cooldown: int, now: int): State {
    if s.phase.Open? && now - s.openedAt >= cooldown then s.(phase := HalfOpen) else s
  }

  function Allowed(s: State, cooldown: int, now: int): (State, bool) {
    var r := Refreshed(s, cooldown, now);
    if r.phase.Closed? then (r, true)
    else if r.phase.HalfOpen? && !r.trial then (r.(trial := true), true)
    else (r, false)
  }

  function Recorded(s: State, threshold: int, report: Report, now: int): State {
    match report
    case Succeeded => s.(failures := 0, trial := false, phase := Closed)
    case Released => s.(trial := false)
    case FailedCall =>
      var counted := s.(trial := false, failures := s.failures + 1);
      if s.phase.HalfOpen? || s.failures + 1 >= threshold then counted.(phase := Open, openedAt := now) else counted
  }

  class Breaker {
    const threshold: int
    const cooldown: int
    var failures: nat
    var openedAt: int
    var trialInFlight: bool
    var stateValue: Phase

    ghost function Value(): State
      reads this
    {
      State(failures, openedAt, trialInFlight, stateValue)
    }

    constructor (threshold: int, cooldown: int)
      ensures this.threshold == threshold && this.cooldown == cooldown && Value() == INITIAL
    {
      this.threshold, this.cooldown := threshold, cooldown;
      failures, openedAt, trialInFlight, stateValue := 0, 0, false, Closed;
    }

    method ReadState(now: int) returns (phase: Phase)
      modifies this`stateValue
      ensures Value() == Refreshed(old(Value()), cooldown, now) && phase == stateValue
    {
      if stateValue.Open? && now - openedAt >= cooldown { stateValue := HalfOpen; }
      return stateValue;
    }

    method AllowRequest(now: int) returns (allowed: bool)
      modifies this
      ensures (Value(), allowed) == Allowed(old(Value()), cooldown, now)
    {
      var phase := ReadState(now);
      if phase.Closed? { return true; }
      if phase.HalfOpen? && !trialInFlight {
        trialInFlight := true;
        return true;
      }
      return false;
    }

    method RecordSuccess()
      modifies this
      ensures Value() == Recorded(old(Value()), threshold, Succeeded, 0)
    {
      failures, trialInFlight, stateValue := 0, false, Closed;
    }

    method Release()
      modifies this
      ensures Value() == Recorded(old(Value()), threshold, Released, 0)
    {
      trialInFlight := false;
    }

    method RecordFailure(now: int)
      modifies this
      ensures Value() == Recorded(old(Value()), threshold, FailedCall, now)
    {
      trialInFlight := false;
      failures := failures + 1;
      if stateValue.HalfOpen? || failures >= threshold {
        stateValue := Open;
        openedAt := now;
      }
    }

    /** The end of an admitted call, reported to the breaker as `recognize` does; a failover is logged with the state
        as it reads a little later. */
    method EndCall(answer: Answer, mode: Mode, now: int, later: int) returns (next: Next)
      modifies this
      ensures next == NextOf(answer)
      ensures var recorded := Recorded(old(Value()), threshold, ReportOf(answer, mode), now);
        Value() == if next.FailOver? then Refreshed(recorded, cooldown, later) else recorded
    {
      match answer {
        case Result => RecordSuccess(); return Return;
        case InvalidImage => RecordSuccess(); return Rethrow;
        case Unavailable(kind) =>
          var neutral := kind.Busy? || (mode.Photo? && kind.Timeout?);
          if neutral { Release(); } else { RecordFailure(now); }
        case OtherError => RecordFailure(now);
      }
      var logged := ReadState(later);
      return FailOver;
    }
  }

  // ---------------------------------------------------------------- the caller

  datatype Mode = Live | Photo

  datatype Kind = Timeout | Busy | Down

  /** What the Python engine answered. */
  datatype Answer = Result | InvalidImage | Unavailable(kind: Kind) | OtherError

  datatype Next = Return | Rethrow | FailOver

  function ReportOf(answer: Answer, mode: Mode): Report {
    match answer
    case Result => Succeeded
    case InvalidImage => Succeeded
    case Unavailable(kind) => if kind.Busy? || (mode.Photo? && kind.Timeout?) then Released else FailedCall
    case OtherError => FailedCall
  }

  function NextOf(answer: Answer): Next {
    match answer
    case Result => Return
    case InvalidImage => Rethrow
    case _ => FailOver
  }

  // ---------------------------------------------------------------- history

  /** An attempt to call, the end of an admitted call, or a plain reading of the state. */
  datatype Event = Ask(call: nat) | End(call: nat, report: Report) | Look

  datatype Timed = Timed(now: int, event: Event)

  /** The calls now outstanding, each with the time it was admitted; the one the trial flag is up for; and the
      outstanding calls that were admitted in half-open. */
  datatype World = World(breaker: State, outstanding: map<nat, int>, trialCall: Option<nat>, trials: set<nat>)

  function Step(threshold: int, cooldown: int, w: World, e: Timed): World {
    match e.event
    case Look => w.(breaker := Refreshed(w.breaker, cooldown, e.now))
    case Ask(call) =>
      if call in w.outstanding then w
      else
        var (after, allowed) := Allowed(w.breaker, cooldown, e.now);
        if !allowed then w.(breaker := after)
        else if after.phase.HalfOpen? then World(after, w.outstanding[call := e.now], Some(call), w.trials + {call})
        else World(after, w.outstanding[call := e.now], w.trialCall, w.trials)
    case End(call, report) =>
      if call !in w.outstanding then w
      else World(Recorded(w.breaker, threshold, report, e.now), w.outstanding - {call}, None, w.trials - {call})
  }

  function After(threshold: int, cooldown: int, events: seq<Timed>): World {
    if events == [] then World(INITIAL, map[], None, {})
    else Step(threshold, cooldown, After(threshold, cooldown, events[..|events| - 1]), events[|events| - 1])
  }

  ghost predicate Monotone(events: seq<Timed>) {
    forall i, j :: 0 <= i < j < |events| ==> events[i].now <= events[j].now
  }

  /** The events that ended an admitted call. */
  predicate Ended(threshold: int, cooldown: int, events: seq<Timed>)
    requires events != []
  {
    var last := events[|events| - 1].event;
    last.End? && last.call in After(threshold, cooldown, events[..|events| - 1]).outstanding
  }

  /** The trailing run of failures, ignoring releases. */
  function TrailingFailures(threshold: int, cooldown: int, events: seq<Timed>): nat {
    if events == [] then 0
    else
      var before := TrailingFailures(threshold, cooldown, events[..|events| - 1]);
      if !Ended(threshold, cooldown, events) then before
      else match events[|events| - 1].event.report
        case Succeeded => 0
        case Released => before
        case FailedCall => before + 1
  }

  /** When the last failure was reported. */
  function LastFailure(threshold: int, cooldown: int, events: seq<Timed>): int {
    if events == [] then 0
    else if Ended(threshold, cooldown, events) && events[|events| - 1].event.report.FailedCall?
    then events[|events| - 1].now
    else LastFailure(threshold, cooldown, events[..|events| - 1])
  }

  /** The specification: closed while the trailing failures are below the threshold (a threshold below one acts as
      one), and otherwise open or half-open by the time since the last failure. */
  function PhaseByHistory(threshold: int, cooldown: int, events: seq<Timed>, now: int): Phase {
    var limit := if threshold >= 1 then threshold else 1;
    if TrailingFailures(threshold, cooldown, events) < limit then Closed
    else if now - LastFailure(threshold, cooldown, events) >= cooldown then HalfOpen
    else Open
  }

  /** What links the stored fields to the history. */
  ghost predicate Links(threshold: int, cooldown: int, events: seq<Timed>, now: int) {
    var s := After(threshold, cooldown, events).breaker;
    var limit := if threshold >= 1 then threshold else 1;
    && s.failures == TrailingFailures(threshold, cooldown, events)
    && (s.phase.Closed? <==> s.failures < limit)
    && (!s.phase.Closed? ==> s.openedAt == LastFailure(threshold, cooldown, events))
    && (s.phase.HalfOpen? ==> now - s.openedAt >= cooldown)
  }

  lemma {:induction false} RunLinks(threshold: int, cooldown: int, events: seq<Timed>, now: int)
    requires Monotone(events) && forall i :: 0 <= i < |events| ==> events[i].now <= now
    ensures Links(threshold, cooldown, events, now)
  {
    if events != [] { RunLinks(threshold, cooldown, events[..|events| - 1], events[|events| - 1].now); }
  }

  /** The breaker refines its history: what a reading returns is what the history says. */
  lemma BreakerRefinesHistory(threshold: int, cooldown: int, events: seq<Timed>, now: int)
    requires Monotone(events) && forall i :: 0 <= i < |events| ==> events[i].now <= now
    ensures Refreshed(After(threshold, cooldown, events).breaker, cooldown, now).phase
      == PhaseByHistory(threshold, cooldown, events, now)
  {
    RunLinks(threshold, cooldown, events, now);
  }

  // ---------------------------------------------------------------- trials

  /** The trial flag is up only while the trial call is outstanding, so it can never stick. */
  ghost predicate TrialIsOutstanding(w: World) {
    && (w.breaker.trial ==> w.trialCall.Some?)
    && (w.trialCall.Some? ==> w.breaker.trial && w.trialCall.value in w.trials)
    && (w.breaker.trial ==> w.breaker.phase.HalfOpen?)
    && w.trials <= w.outstanding.Keys
  }

  lemma {:induction false} TrialNeverSticks(threshold: int, cooldown: int, events: seq<Timed>)
    ensures TrialIsOutstanding(After(threshold, cooldown, events))
  {
    if events != [] {
      TrialNeverSticks(threshold, cooldown, events[..|events| - 1]);
      StepKeepsTrial(threshold, cooldown, After(threshold, cooldown, events[..|events| - 1]), events[|events| - 1]);
    }
  }

  lemma StepKeepsTrial(threshold: int, cooldown: int, w: World, e: Timed)
    requires TrialIsOutstanding(w)
    ensures TrialIsOutstanding(Step(threshold, cooldown, w, e))
  {
  }

  /** At every event, every outstanding call was admitted less than a cooldown ago. */
  ghost predicate Prompt(threshold: int, cooldown: int, events: seq<Timed>) {
    forall i :: 0 <= i < |events| ==> NoneOverdue(After(threshold, cooldown, events[..i]), cooldown, events[i].now)
  }

  ghost predicate NoneOverdue(w: World, cooldown: int, now: int) {
    forall c :: c in w.outstanding ==> now < w.outstanding[c] + cooldown
  }

  /** While the breaker is not closed, every outstanding call but the trial was admitted before it opened. */
  ghost predicate OthersAreOld(w: World) {
    !w.breaker.phase.Closed? ==>
      forall c :: c in w.outstanding ==> w.outstanding[c] <= w.breaker.openedAt || w.trialCall == Some(c)
  }

  lemma PromptPrefix(threshold: int, cooldown: int, events: seq<Timed>)
    requires events != [] && Prompt(threshold, cooldown, events)
    ensures Prompt(threshold, cooldown, events[..|events| - 1])
    ensures NoneOverdue(After(threshold, cooldown, events[..|events| - 1]), cooldown, events[|events| - 1].now)
  {
    var init := events[..|events| - 1];
    forall i | 0 <= i < |init| ensures NoneOverdue(After(threshold, cooldown, init[..i]), cooldown, init[i].now) {
      assert init[..i] == events[..i];
    }
  }

  /** With prompt calls, in half-open nothing is outstanding but the trial. */
  lemma OnlyTheTrial(w: World, cooldown: int, now: int)
    requires OthersAreOld(w) && NoneOverdue(w, cooldown, now) && w.breaker.phase.HalfOpen?
      && now - w.breaker.openedAt >= cooldown
    ensures forall c :: c in w.outstanding ==> w.trialCall == Some(c)
  {
  }

  ghost predicate AdmittedBy(w: World, now: int) {
    forall c :: c in w.outstanding ==> w.outstanding[c] <= now
  }

  lemma {:induction false} RunAdmitted(threshold: int, cooldown: int, events: seq<Timed>, now: int)
    requires Monotone(events) && forall i :: 0 <= i < |events| ==> events[i].now <= now
    ensures AdmittedBy(After(threshold, cooldown, events), now)
  {
    if events != [] { RunAdmitted(threshold, cooldown, events[..|events| - 1], events[|events| - 1].now); }
  }

  lemma {:induction false} RunKeepsOthersOld(threshold: int, cooldown: int, events: seq<Timed>)
    requires Monotone(events) && Prompt(threshold, cooldown, events)
    ensures OthersAreOld(After(threshold, cooldown, events))
  {
    if events != [] {
      var init, e := events[..|events| - 1], events[|events| - 1];
      PromptPrefix(threshold, cooldown, events);
      RunKeepsOthersOld(threshold, cooldown, init);
      TrialNeverSticks(threshold, cooldown, init);
      RunLinks(threshold, cooldown, init, e.now);
      RunAdmitted(threshold, cooldown, init, e.now);
      StepKeepsOthersOld(threshold, cooldown, After(threshold, cooldown, init), e);
    }
  }

  lemma StepKeepsOthersOld(threshold: int, cooldown: int, w: World, e: Timed)
    requires OthersAreOld(w) && TrialIsOutstanding(w) && NoneOverdue(w, cooldown, e.now)
    requires w.breaker.phase.HalfOpen? ==> e.now - w.breaker.openedAt >= cooldown
    requires AdmittedBy(w, e.now)
    ensures OthersAreOld(Step(threshold, cooldown, w, e))
  {
    if w.breaker.phase.HalfOpen? { OnlyTheTrial(w, cooldown, e.now); }
    if e.event.Ask? && w.breaker.phase.Open? && e.now - w.breaker.openedAt >= cooldown {
      OnlyTheTrial(w.(breaker := w.breaker.(phase := HalfOpen)), cooldown, e.now);
    }
  }

  /** If every call ends in less than the cooldown, half-open lets at most one call be outstanding. */
  lemma OneTrialAtATime(threshold: int, cooldown: int, events: seq<Timed>, now: int)
    requires Monotone(events) && Prompt(threshold, cooldown, events)
      && (forall i :: 0 <= i < |events| ==> events[i].now <= now)
    ensures var w := After(threshold, cooldown, events);
      NoneOverdue(w, cooldown, now) && PhaseByHistory(threshold, cooldown, events, now).HalfOpen? ==>
        |w.outstanding.Keys| <= 1
  {
    var w := After(threshold, cooldown, events);
    RunKeepsOthersOld(threshold, cooldown, events);
    RunLinks(threshold, cooldown, events, now);
    if NoneOverdue(w, cooldown, now) && PhaseByHistory(threshold, cooldown, events, now).HalfOpen? {
      OnlyTheTrial(w.(breaker := Refreshed(w.breaker, cooldown, now)), cooldown, now);
      if w.outstanding.Keys != {} {
        var c :| c in w.outstanding.Keys;
        assert w.outstanding.Keys == {c};
      }
    }
  }

  /** Without that bound, call by call: a trial leaves at most one call outstanding exactly when none was before it. */
  lemma TrialIsAloneIffIdle(threshold: int, cooldown: int, w: World, call: nat, now: int)
    requires call !in w.outstanding && Allowed(w.breaker, cooldown, now).1
    requires Refreshed(w.breaker, cooldown, now).phase.HalfOpen?
    ensures |Step(threshold, cooldown, w, Timed(now, Ask(call))).outstanding.Keys| <= 1 <==> w.outstanding.Keys == {}
  {
    var after := Step(threshold, cooldown, w, Timed(now, Ask(call))).outstanding.Keys;
    assert after == w.outstanding.Keys + {call};
    assert |after| == |w.outstanding.Keys| + 1;
  }

  // ---------------------------------------------------------------- more than one trial

  /** An attempt that half-open admits. */
  predicate IsTrialAsk(w: World, cooldown: int, call: nat, now: int) {
    call !in w.outstanding && Refreshed(w.breaker, cooldown, now).phase.HalfOpen? && !w.breaker.trial
  }

  /** An attempt makes two trials outstanding exactly if one already is, and in half-open the flag is down. */
  lemma SecondTrialIff(threshold: int, cooldown: int, w: World, call: nat, now: int)
    requires TrialIsOutstanding(w) && |w.trials| <= 1
    ensures |Step(threshold, cooldown, w, Timed(now, Ask(call))).trials| > 1
      <==> |w.trials| == 1 && IsTrialAsk(w, cooldown, call, now)
  {
    var after := Step(threshold, cooldown, w, Timed(now, Ask(call))).trials;
    if IsTrialAsk(w, cooldown, call, now) {
      assert after == w.trials + {call} && call !in w.trials;
      assert |after| == |w.trials| + 1;
    } else {
      assert after == w.trials;
    }
  }

  /** The end of a call that is not the trial, while one is outstanding: it lowers a flag that is not its own. */
  predicate IsForeignEnd(w: World, event: Event) {
    event.End? && event.call in w.outstanding && event.call !in w.trials && w.trials != {}
  }

  ghost predicate NoForeignEnd(threshold: int, cooldown: int, events: seq<Timed>) {
    forall i :: 0 <= i < |events| ==> !IsForeignEnd(After(threshold, cooldown, events[..i]), events[i].event)
  }

  /** Unless that happens, one trial at a time is outstanding, and the flag is up for it. */
  lemma {:induction false} OneTrialUnlessForeignEnd(threshold: int, cooldown: int, events: seq<Timed>)
    requires NoForeignEnd(threshold, cooldown, events)
    ensures var w := After(threshold, cooldown, events);
      w.trials == match w.trialCall case Some(call) => {call} case None => {}
  {
    if events != [] {
      var init, e := events[..|events| - 1], events[|events| - 1];
      forall i | 0 <= i < |init| ensures !IsForeignEnd(After(threshold, cooldown, init[..i]), init[i].event) {
        assert init[..i] == events[..i];
      }
      OneTrialUnlessForeignEnd(threshold, cooldown, init);
      TrialNeverSticks(threshold, cooldown, init);
      assert events[..|init|] == init;
      StepKeepsOneTrial(threshold, cooldown, After(threshold, cooldown, init), e);
    }
  }

  lemma StepKeepsOneTrial(threshold: int, cooldown: int, w: World, e: Timed)
    requires TrialIsOutstanding(w) && !IsForeignEnd(w, e.event)
    requires w.trials == match w.trialCall case Some(call) => {call} case None => {}
    ensures var after := Step(threshold, cooldown, w, e);
      after.trials == match after.trialCall case Some(call) => {call} case None => {}
  {
  }

  // ---------------------------------------------------------------- and it can happen

  lemma AfterOne(threshold: int, cooldown: int, events: seq<Timed>, e: Timed)
    ensures After(threshold, cooldown, events + [e]) == Step(threshold, cooldown, After(threshold, cooldown, events), e)
  {
    assert (events + [e])[..|events|] == events;
  }

  /** Two calls are let through, one of them fails, and after the cooldown a trial is let through. */
  const SLOW: seq<Timed> :=
    [Timed(0, Ask(1))] + [Timed(0, Ask(2))] + [Timed(0, End(2, FailedCall))] + [Timed(10, Ask(3))]

  /** The slow call admitted while closed is still outstanding beside the trial. */
  lemma SlowCallBesideTrial()
    ensures After(1, 10, SLOW) == World(State(1, 0, true, HalfOpen), map[1 := 0, 3 := 10], Some(3), {3})
  {
    assert After(1, 10, []) == World(INITIAL, map[], None, {});
    AfterOne(1, 10, [], Timed(0, Ask(1)));
    AfterOne(1, 10, [Timed(0, Ask(1))], Timed(0, Ask(2)));
    AfterOne(1, 10, [Timed(0, Ask(1))] + [Timed(0, Ask(2))], Timed(0, End(2, FailedCall)));
    AfterOne(1, 10, [Timed(0, Ask(1))] + [Timed(0, Ask(2))] + [Timed(0, End(2, FailedCall))], Timed(10, Ask(3)));
    assert [] + [Timed(0, Ask(1))] == [Timed(0, Ask(1))];
    assert map[1 := 0, 2 := 0] - {2} == map[1 := 0];
  }

  /** When the slow call ends it lowers the trial's flag, and a second trial is let through beside the first. */
  lemma TwoTrialsAtOnce()
    ensures After(1, 10, SLOW + [Timed(10, End(1, Released))] + [Timed(10, Ask(4))]).trials == {3, 4}
  {
    SlowCallBesideTrial();
    AfterOne(1, 10, SLOW, Timed(10, End(1, Released)));
    AfterOne(1, 10, SLOW + [Timed(10, End(1, Released))], Timed(10, Ask(4)));
    assert map[1 := 0, 3 := 10] - {1} == map[3 := 10];
  }
}
