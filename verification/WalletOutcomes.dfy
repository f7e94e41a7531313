/**
 * The wallet as payers see it: what each step answers and stores, spelt with its own limits, and over every
 * interleaving what must have happened for a top-up to be verified, failed or cancelled.
 */
module WalletOutcomes {
  import opened Options
  import opened WalletModel

  // ---------------------------------------------------------------- step by step

  /** A session is opened for a whole number of Rials, from ten thousand to two billion. */
  lemma StartOutcome(s: State, factory: nat, amount: int, gatewayOpens: bool, now: int)
    ensures var (after, reply) := Apply(s, DoStart(factory, amount, gatewayOpens), now);
      if (exists rials :: 10_000 <= rials <= 2_000_000_000 && amount == 100 * rials)
         && factory < |s.balances| && gatewayOpens
      then reply == Accepted && after == s.(topUps := s.topUps + [TopUp(factory, amount, Initiated, now, None)])
      else reply == Rejected && after == s
  {
    if amount % 100 == 0 { assert amount == 100 * (amount / 100); }
  }

  lemma ManualOutcome(s: State, factory: nat, amount: int, now: int)
    ensures var (after, reply) := Apply(s, DoManual(factory, amount), now);
      if amount > 0 && factory < |s.balances| then
        && reply == Accepted && after.passes == s.passes && after.pending == s.pending
        && |after.balances| == |s.balances| && after.balances[factory] == s.balances[factory] + amount
        && (forall f :: 0 <= f < |s.balances| && f != factory ==> after.balances[f] == s.balances[f])
        && after.topUps == s.topUps + [TopUp(factory, amount, Verified, now, Some(after.balances[factory]))]
        && after.moves == s.moves + [Credited(|s.topUps|)]
      else reply == Rejected && after == s
  {
  }

  /** A day after it was opened an undecided session of the factory is abandoned. */
  lemma SweepOutcome(s: State, factory: nat, now: int)
    ensures var after := Apply(s, DoSweep(factory), now).0;
      && after == s.(topUps := after.topUps) && |after.topUps| == |s.topUps|
      && forall t :: 0 <= t < |s.topUps| ==>
           after.topUps[t]
           == if s.topUps[t].factory == factory && s.topUps[t].status == Initiated
                 && now - s.topUps[t].created > 86_400_000
              then s.topUps[t].(status := Cancelled) else s.topUps[t]
  {
  }

  /** What becomes of a session: the payer backed out, the payment cannot be accepted, or it is good. */
  function Verdict(created: int, ok: bool, allowed: bool, confirmed: bool, now: int): Status {
    if !ok then Cancelled
    else if allowed && confirmed && now - created <= 86_400_000 then Verified
    else Failed
  }

  function ToDo(t: nat, to: Status): Action { if to == Verified then Credit(t) else MarkFailed(t, to) }

  lemma ReadOutcome(s: State, actor: nat, t: nat, ok: bool, allowed: bool, confirmed: bool, now: int)
    ensures var (after, reply) := Apply(s, DoRead(actor, t, ok, allowed, confirmed), now);
      if actor in s.pending then after == s && reply == Rejected
      else if t < |s.topUps| && s.topUps[t].status == Initiated then
        var todo := ToDo(t, Verdict(s.topUps[t].created, ok, allowed, confirmed, now));
        reply == Waiting && after == s.(pending := s.pending[actor := todo])
      else after == s && reply == (if t < |s.topUps| && s.topUps[t].status == Verified then Success else Failure)
  {
  }

  /** A free pass is made at once; a charged one waits, if the balance is enough. */
  lemma ReadBalanceOutcome(s: State, actor: nat, factory: nat, required: bool, fee: int, now: int)
    ensures var (after, reply) := Apply(s, DoReadBalance(actor, factory, required, fee), now);
      if actor in s.pending || factory >= |s.balances| then after == s && reply == Rejected
      else if required && fee > 0 then
        if fee <= s.balances[factory]
        then after == s.(pending := s.pending[actor := Charge(factory, fee)]) && reply == Waiting
        else after == s && reply == Rejected
      else after == s.(passes := s.passes + [Pass(factory, 0)]) && reply == Accepted
  {
  }

  /** What a transaction writes: only a session still undecided gets a verdict, and only a balance that covers the fee
      is charged. */
  ghost predicate Commits(s: State, todo: Action, after: State, reply: Reply) {
    match todo
    case Charge(factory, fee) =>
      if factory < |s.balances| && fee <= s.balances[factory] then
        && reply == Accepted && after.topUps == s.topUps && |after.balances| == |s.balances|
        && after.balances[factory] == s.balances[factory] - fee
        && (forall f :: 0 <= f < |s.balances| && f != factory ==> after.balances[f] == s.balances[f])
        && after.passes == s.passes + [Pass(factory, fee)] && after.moves == s.moves + [Debited(factory, fee)]
      else reply == Rejected && after == s
    case Credit(t) =>
      if t < |s.topUps| && s.topUps[t].status == Initiated && s.topUps[t].factory < |s.balances| then
        var row := s.topUps[t];
        && reply == Success && after.passes == s.passes && |after.balances| == |s.balances|
        && after.balances[row.factory] == s.balances[row.factory] + row.amount
        && (forall f :: 0 <= f < |s.balances| && f != row.factory ==> after.balances[f] == s.balances[f])
        && after.topUps == s.topUps[t := row.(status := Verified, balanceAfter := Some(after.balances[row.factory]))]
        && after.moves == s.moves + [Credited(t)]
      else after == s && reply == (if t < |s.topUps| && s.topUps[t].status == Verified then Success else Failure)
    case MarkFailed(t, to) =>
      && reply == Failure
      && after == if t < |s.topUps| && s.topUps[t].status == Initiated
                  then s.(topUps := s.topUps[t := s.topUps[t].(status := to)]) else s
  }

  lemma ActCommits(s: State, todo: Action)
    ensures Commits(s, todo, Act(s, todo).0, Act(s, todo).1) && Act(s, todo).0.pending == s.pending
  {
  }

  lemma FinishOutcome(s: State, actor: nat, now: int)
    ensures var (after, reply) := Apply(s, DoFinish(actor), now);
      if actor in s.pending
      then Commits(s.(pending := after.pending), s.pending[actor], after, reply) && after.pending == s.pending - {actor}
      else after == s && reply == Rejected
  {
    if actor in s.pending { ActCommits(Dropped(s, actor), s.pending[actor]); }
  }

  /** A request that throws leaves what its transaction committed, and is forgotten. */
  lemma ThrowOutcome(s: State, actor: nat, late: bool, now: int)
    ensures var (after, reply) := Apply(s, DoThrow(actor, late), now);
      && reply == (if actor in s.pending && s.pending[actor].Charge? then Rejected else Failure)
      && after == (if late then Apply(s, DoFinish(actor), now).0 else s.(pending := s.pending - {actor}))
  {
  }

  // ---------------------------------------------------------------- what must have happened

  /** The request of the actor is over, and its transaction was committed. */
  predicate Concludes(step: Step, actor: nat) { step == DoFinish(actor) || step == DoThrow(actor, true) }

  predicate Ends(step: Step, actor: nat) { step == DoFinish(actor) || (step.DoThrow? && step.actor == actor) }

  /** The actor read the undecided session with these answers, and its request is not over. */
  ghost predicate Asked(factories: nat, events: seq<Event>, r: nat, actor: nat, t: nat, to: Status) {
    && r < |events| && IsVerdict(After(factories, events[..r]), events[r], actor, t, to)
    && forall k :: r < k < |events| ==> !Ends(events[k].step, actor)
  }

  /** The read of a session that is undecided, with answers that come to the verdict. */
  ghost predicate IsVerdict(s: State, e: Event, actor: nat, t: nat, to: Status) {
    && e.step.DoRead? && e.step.actor == actor && e.step.t == t && t < |s.topUps| && s.topUps[t].status == Initiated
    && to == Verdict(s.topUps[t].created, e.step.ok, e.step.allowed, e.step.confirmed, e.now)
  }

  ghost predicate IsAsked(factories: nat, events: seq<Event>, actor: nat, t: nat, to: Status) {
    exists r: nat :: Asked(factories, events, r, actor, t, to)
  }

  /** The session got its verdict from a request that had read it, when that request was concluded. */
  ghost predicate Answered(factories: nat, events: seq<Event>, f: nat, actor: nat, t: nat, to: Status) {
    f < |events| && Concludes(events[f].step, actor) && IsAsked(factories, events[..f], actor, t, to)
  }

  /** A sweep of the factory found the session more than a day old. */
  ghost predicate Abandoned(factories: nat, events: seq<Event>, f: nat, t: nat) {
    f < |events| && IsAbandoned(After(factories, events[..f]), events[f], t)
  }

  ghost predicate IsAbandoned(s: State, e: Event, t: nat) {
    t < |s.topUps| && e.step == DoSweep(s.topUps[t].factory) && e.now - s.topUps[t].created > 86_400_000
  }

  /** The event made the top-up. */
  ghost predicate Opens(factories: nat, events: seq<Event>, f: nat, t: nat) {
    f < |events| && IsOpening(After(factories, events[..f]), events[f], t)
  }

  ghost predicate IsOpening(s: State, e: Event, t: nat) { |s.topUps| == t < |Apply(s, e.step, e.now).0.topUps| }

  ghost predicate MadeManually(factories: nat, events: seq<Event>, f: nat, t: nat) {
    Opens(factories, events, f, t) && events[f].step.DoManual?
  }

  /** Why a top-up has the status it has. */
  ghost predicate Explained(factories: nat, events: seq<Event>, t: nat, to: Status) {
    || to == Initiated
    || (exists f: nat, actor: nat :: Answered(factories, events, f, actor, t, to))
    || (to == Cancelled && exists f: nat :: Abandoned(factories, events, f, t))
    || (to == Verified && exists f: nat :: MadeManually(factories, events, f, t))
  }

  lemma EarlierAsked(factories: nat, events: seq<Event>, e: Event, actor: nat, t: nat, to: Status)
    requires IsAsked(factories, events, actor, t, to) && !Ends(e.step, actor)
    ensures IsAsked(factories, events + [e], actor, t, to)
  {
    var r: nat :| Asked(factories, events, r, actor, t, to);
    assert (events + [e])[..r] == events[..r];
    assert Asked(factories, events + [e], r, actor, t, to);
  }

  lemma EarlierExplains(factories: nat, events: seq<Event>, e: Event, t: nat, to: Status)
    requires Explained(factories, events, t, to)
    ensures Explained(factories, events + [e], t, to)
  {
    var more := events + [e];
    forall f: nat | f < |events| ensures more[..f] == events[..f] && more[f] == events[f] {}
    if f: nat, actor: nat :| Answered(factories, events, f, actor, t, to) {
      assert Answered(factories, more, f, actor, t, to);
    } else if f: nat :| to == Cancelled && Abandoned(factories, events, f, t) {
      assert Abandoned(factories, more, f, t);
    } else if f: nat :| to == Verified && MadeManually(factories, events, f, t) {
      assert MadeManually(factories, more, f, t);
    }
  }

  /** Every waiting callback has read its session, and every status has its reason. */
  ghost predicate HasReasons(factories: nat, events: seq<Event>) {
    var s := After(factories, events);
    && (forall a :: a in s.pending ==> PendingAsked(factories, events, a, s.pending[a]))
    && (forall t: nat :: t < |s.topUps| ==> Explained(factories, events, t, s.topUps[t].status))
  }

  ghost predicate PendingAsked(factories: nat, events: seq<Event>, actor: nat, todo: Action) {
    match todo
    case Charge(_, _) => true
    case Credit(t) => IsAsked(factories, events, actor, t, Verified)
    case MarkFailed(t, to) => to != Verified && to != Initiated && IsAsked(factories, events, actor, t, to)
  }

  /** A session the step newly decides, and why. */
  ghost predicate Decides(s: State, e: Event, t: nat, to: Status) {
    || (exists actor :: actor in s.pending && Concludes(e.step, actor) && s.pending[actor] == ToDo(t, to))
    || (to == Cancelled && IsAbandoned(s, e, t))
    || (to == Verified && e.step.DoManual? && IsOpening(s, e, t))
  }

  /** The status of a top-up after a step is the one before, or newly decided, or it was just opened. */
  lemma StatusStep(s: State, e: Event, t: nat)
    requires Sound(s) && t < |Apply(s, e.step, e.now).0.topUps|
    ensures var to := Apply(s, e.step, e.now).0.topUps[t].status;
      (t < |s.topUps| && to == s.topUps[t].status) || to == Initiated || Decides(s, e, t, to)
  {
    match e.step
    case DoStart(factory, amount, gatewayOpens) => StartOutcome(s, factory, amount, gatewayOpens, e.now);
    case DoManual(factory, amount) => ManualOutcome(s, factory, amount, e.now);
    case DoSweep(factory) => SweepOutcome(s, factory, e.now);
    case DoRead(actor, u, ok, allowed, confirmed) => ReadOutcome(s, actor, u, ok, allowed, confirmed, e.now);
    case DoReadBalance(actor, factory, required, fee) => ReadBalanceOutcome(s, actor, factory, required, fee, e.now);
    case DoFinish(actor) => FinishOutcome(s, actor, e.now);
    case DoThrow(actor, late) => ThrowOutcome(s, actor, late, e.now); FinishOutcome(s, actor, e.now);
  }

  lemma AfterSnoc(factories: nat, events: seq<Event>, e: Event)
    ensures After(factories, events + [e]) == Apply(After(factories, events), e.step, e.now).0
  {
    assert (events + [e])[..|events|] == events;
  }

  lemma DecidedIsExplained(factories: nat, events: seq<Event>, e: Event, t: nat, to: Status)
    requires HasReasons(factories, events) && Decides(After(factories, events), e, t, to) && to != Initiated
    ensures Explained(factories, events + [e], t, to)
  {
    var s, more, n := After(factories, events), events + [e], |events|;
    assert more[..n] == events && more[n] == e;
    if actor: nat :| actor in s.pending && Concludes(e.step, actor) && s.pending[actor] == ToDo(t, to) {
      assert PendingAsked(factories, events, actor, s.pending[actor]);
      assert Answered(factories, more, n, actor, t, to);
    } else if to == Cancelled && IsAbandoned(s, e, t) {
      assert Abandoned(factories, more, n, t);
    } else {
      assert MadeManually(factories, more, n, t);
    }
  }

  /** The requests that wait after a step: those before it that are not over, and the one that has just read. */
  lemma PendingStep(factories: nat, events: seq<Event>, e: Event, actor: nat)
    requires HasReasons(factories, events) && actor in After(factories, events + [e]).pending
    ensures PendingAsked(factories, events + [e], actor, After(factories, events + [e]).pending[actor])
  {
    var s, more := After(factories, events), events + [e];
    AfterSnoc(factories, events, e);
    var after := After(factories, more);
    if e.step.DoRead? && e.step.actor == actor && actor !in s.pending {
      ReadIsAsked(factories, events, e, actor);
    } else {
      PendingStays(s, e, actor);
      if actor in s.pending && !s.pending[actor].Charge? {
        assert PendingAsked(factories, events, actor, s.pending[actor]);
        EarlierAsked(factories, events, e, actor, s.pending[actor].t, Aim(s.pending[actor]));
      }
    }
  }

  function Aim(todo: Action): Status
    requires !todo.Charge?
  {
    if todo.Credit? then Verified else todo.to
  }

  lemma PendingStays(s: State, e: Event, actor: nat)
    requires actor in Apply(s, e.step, e.now).0.pending
    requires !(e.step.DoRead? && e.step.actor == actor && actor !in s.pending)
    ensures var todo := Apply(s, e.step, e.now).0.pending[actor];
      (actor in s.pending && todo == s.pending[actor] && !Ends(e.step, actor)) || todo.Charge?
  {
    match e.step
    case DoRead(other, t, ok, allowed, confirmed) => ReadOutcome(s, other, t, ok, allowed, confirmed, e.now);
    case DoReadBalance(other, factory, required, fee) => ReadBalanceOutcome(s, other, factory, required, fee, e.now);
    case DoFinish(other) => FinishOutcome(s, other, e.now);
    case DoThrow(other, late) => ThrowOutcome(s, other, late, e.now); FinishOutcome(s, other, e.now);
    case _ =>
  }

  lemma ReadIsAsked(factories: nat, events: seq<Event>, e: Event, actor: nat)
    requires e.step.DoRead? && e.step.actor == actor && actor !in After(factories, events).pending
    requires actor in After(factories, events + [e]).pending
    ensures PendingAsked(factories, events + [e], actor, After(factories, events + [e]).pending[actor])
  {
    var s, n := After(factories, events), |events|;
    var t := e.step.t;
    AfterSnoc(factories, events, e);
    ReadOutcome(s, actor, t, e.step.ok, e.step.allowed, e.step.confirmed, e.now);
    var to := Verdict(s.topUps[t].created, e.step.ok, e.step.allowed, e.step.confirmed, e.now);
    assert (events + [e])[..n] == events;
    assert IsVerdict(s, e, actor, t, to);
    assert Asked(factories, events + [e], n, actor, t, to);
  }

  lemma StepKeepsReasons(factories: nat, events: seq<Event>, e: Event)
    requires HasReasons(factories, events)
    ensures HasReasons(factories, events + [e])
  {
    var s, after := After(factories, events), After(factories, events + [e]);
    AfterSnoc(factories, events, e);
    RunIsSound(factories, events);
    forall a | a in after.pending ensures PendingAsked(factories, events + [e], a, after.pending[a]) {
      PendingStep(factories, events, e, a);
    }
    forall t: nat | t < |after.topUps| ensures Explained(factories, events + [e], t, after.topUps[t].status) {
      StatusStep(s, e, t);
      var to := after.topUps[t].status;
      if t < |s.topUps| && to == s.topUps[t].status {
        EarlierExplains(factories, events, e, t, to);
      } else if to != Initiated {
        DecidedIsExplained(factories, events, e, t, to);
      }
    }
  }

  lemma {:induction false} RunHasReasons(factories: nat, events: seq<Event>)
    ensures HasReasons(factories, events)
  {
    if events != [] {
      var init, e := events[..|events| - 1], events[|events| - 1];
      RunHasReasons(factories, init);
      StepKeepsReasons(factories, init, e);
      assert init + [e] == events;
    }
  }

  /** Under every interleaving a top-up is verified only by hand, or because a callback read it undecided, at most a day
      after it was opened, with the payer's yes, an allowed provider and the provider's confirmation, and was then
      concluded; failed only because one read it with the payer's yes and anything else missing or too late; and
      cancelled only because one read the payer's no, or a sweep found it more than a day old. */
  lemma StatusHasReason(factories: nat, events: seq<Event>, t: nat)
    requires t < |After(factories, events).topUps|
    ensures Explained(factories, events, t, After(factories, events).topUps[t].status)
  {
    RunHasReasons(factories, events);
  }

  /** The session as the event that made it says, whatever happens later. */
  ghost predicate IsOpened(row: TopUp, e: Event) {
    row.created == e.now
    && (e.step == DoManual(row.factory, row.amount)
        || (e.step == DoStart(row.factory, row.amount, true)
            && 1_000_000 <= row.amount <= 200_000_000_000 && row.amount % 100 == 0))
  }

  lemma RowStays(s: State, e: Event, t: nat)
    requires t < |s.topUps|
    ensures var after := Apply(s, e.step, e.now).0;
      t < |after.topUps| && after.topUps[t].created == s.topUps[t].created
      && after.topUps[t].factory == s.topUps[t].factory && after.topUps[t].amount == s.topUps[t].amount
  {
  }

  lemma OpeningIs(s: State, e: Event, t: nat)
    requires IsOpening(s, e, t)
    ensures IsOpened(Apply(s, e.step, e.now).0.topUps[t], e)
  {
  }

  /** Every top-up was made by exactly one event, whose moment, factory and amount it keeps. */
  lemma {:induction false} MadeOnce(factories: nat, events: seq<Event>, f: nat, t: nat)
    requires Opens(factories, events, f, t)
    ensures t < |After(factories, events).topUps| && IsOpened(After(factories, events).topUps[t], events[f])
    ensures forall g: nat :: Opens(factories, events, g, t) ==> g == f
    decreases events
  {
    var n := |events| - 1;
    var init, e := events[..n], events[n];
    assert init + [e] == events;
    AfterSnoc(factories, init, e);
    if f < n {
      assert init[..f] == events[..f];
      MadeOnce(factories, init, f, t);
      RowStays(After(factories, init), e, t);
      forall g: nat | Opens(factories, events, g, t) ensures g == f {
        if g < n { assert init[..g] == events[..g] && Opens(factories, init, g, t); }
      }
    } else {
      OpeningIs(After(factories, init), e, t);
      forall g: nat | Opens(factories, events, g, t) ensures g == f {
        if g < n {
          assert init[..g] == events[..g] && Opens(factories, init, g, t);
          MadeOnce(factories, init, g, t);
        }
      }
    }
  }

  /** So a session opened at the gateway is verified only by a callback, which read it at most a day after that. */
  lemma SessionHasReason(factories: nat, events: seq<Event>, f: nat, t: nat)
    requires Opens(factories, events, f, t) && events[f].step.DoStart?
    ensures t < |After(factories, events).topUps| && After(factories, events).topUps[t].created == events[f].now
    ensures After(factories, events).topUps[t].status == Verified ==>
              exists g: nat, actor: nat :: Answered(factories, events, g, actor, t, Verified)
  {
    MadeOnce(factories, events, f, t);
    StatusHasReason(factories, events, t);
  }
}
