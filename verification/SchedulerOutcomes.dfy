/**
 * The scanning socket as its client sees it: what each event starts, arms and acknowledges, in milliseconds, and over
 * every run why a frame was acknowledged as it was.
 */
module SchedulerOutcomes {
  import opened FrameScheduler
  import opened Options

  // ---------------------------------------------------------------- event by event

  /** The waiting frame is left waiting while another is in processing or a timer is set; before 125 milliseconds have
      passed since the last start a timer is set for it; and otherwise it is started. */
  ghost predicate PicksUp(s: State, now: int, after: State) {
    && after.connected == s.connected && after.accepted == s.accepted && after.acks == s.acks
    && (if s.pending == None || s.busy || s.timer then after == s
        else if now - s.lastStart < 125 then
          after.timer && after.armed && !after.busy && after.pending == s.pending && after.lastStart == s.lastStart
          && after.running == s.running && after.starts == s.starts
        else
          after.pending == None && after.busy && after.lastStart == now && !after.timer && after.armed == s.armed
          && after.running == s.running + {s.pending.value}
          && after.starts == s.starts + [Start(s.pending.value, now)])
  }

  lemma ScheduleOutcome(s: State, now: int)
    ensures PicksUp(s, now, Schedule(s, now))
  {
  }

  /** A new frame takes the place of the waiting one, which is acknowledged as superseded. */
  lemma FrameOutcome(s: State, now: int)
    requires Enabled(s, Frame)
    ensures exists taken: State ::
      && taken == s.(pending := Some(s.accepted), accepted := s.accepted + 1, acks := taken.acks)
      && taken.acks == s.acks + (if s.pending == None then [] else [Ack(s.pending.value, Superseded)])
      && PicksUp(taken, now, Step(s, Frame, now))
  {
    var taken := s.(pending := Some(s.accepted), accepted := s.accepted + 1,
                    acks := s.acks + (if s.pending == None then [] else [Ack(s.pending.value, Superseded)]));
    ScheduleOutcome(taken, now);
    assert s.acks + [] == s.acks;
    assert Step(s, Frame, now) == Schedule(taken, now);
  }

  lemma TimerOutcome(s: State, now: int)
    requires Enabled(s, TimerFires)
    ensures PicksUp(s.(timer := false, armed := false), now, Step(s, TimerFires, now))
  {
    ScheduleOutcome(s.(timer := false, armed := false), now);
  }

  /** A frame that was recognised is acknowledged as processed, and any other one as failed. */
  lemma DoneOutcome(s: State, frame: nat, ok: bool, now: int)
    requires Enabled(s, Done(frame, ok))
    ensures Step(s, Done(frame, ok), now)
      == s.(running := s.running - {frame}, acks := s.acks + [if ok then Ack(frame, Processed) else Ack(frame, Failed)])
  {
  }

  /** After that the waiting frame is picked up, if the client is still there. */
  lemma SettledOutcome(s: State, now: int)
    requires Enabled(s, Settled)
    ensures if s.connected then PicksUp(s.(busy := false), now, Step(s, Settled, now))
            else Step(s, Settled, now) == s.(busy := false)
  {
    ScheduleOutcome(s.(busy := false), now);
  }

  lemma DisconnectOutcome(s: State, now: int)
    requires Enabled(s, Disconnect)
    ensures var after := Step(s, Disconnect, now);
      && after == s.(connected := false, armed := false, pending := None, acks := after.acks)
      && after.acks == s.acks + if s.pending == None then [] else [Ack(s.pending.value, Disconnected)]
  {
    assert s.acks + [] == s.acks;
  }

  // ---------------------------------------------------------------- over every run

  /** Starts are at least 125 milliseconds apart, in the order in which the frames arrived. */
  lemma StartsAreApart(events: seq<Timed>, i: nat, j: nat)
    requires IsRun(events) && i < j < |After(events).starts|
    ensures var starts := After(events).starts;
      starts[j].at - starts[i].at >= 125 && starts[i].frame < starts[j].frame
  {
    RunIsSound(events);
    assert Precedes(After(events).starts[i], After(events).starts[j]);
  }

  /** The event for which a frame is acknowledged: its recognition ended, a newer frame came while it waited, or the
      client left while it waited. */
  predicate Because(s: State, event: Event, ack: Ack) {
    match ack.outcome
    case Processed => event == Done(ack.frame, true) && ack.frame in s.running
    case Failed => event == Done(ack.frame, false) && ack.frame in s.running
    case Superseded => event == Frame && s.pending == Some(ack.frame)
    case Disconnected => event == Disconnect && s.pending == Some(ack.frame)
  }

  ghost predicate Caused(events: seq<Timed>, k: nat, ack: Ack)
    requires IsRun(events)
  {
    k < |events| && IsRun(events[..k]) && Because(After(events[..k]), events[k].event, ack)
  }

  /** A step acknowledges at most one frame, and for that reason. */
  lemma StepAcks(s: State, event: Event, now: int)
    requires Enabled(s, event)
    ensures var after := Step(s, event, now);
      after.acks == s.acks
      || (|after.acks| == |s.acks| + 1 && after.acks[..|s.acks|] == s.acks
          && Because(s, event, after.acks[|s.acks|]))
  {
    match event
    case Frame => FrameOutcome(s, now);
    case TimerFires => TimerOutcome(s, now);
    case Done(frame, ok) => DoneOutcome(s, frame, ok, now);
    case Settled => SettledOutcome(s, now);
    case Disconnect => DisconnectOutcome(s, now);
  }

  /** Over every run each acknowledgement has its cause. */
  lemma {:induction false} AckHasCause(events: seq<Timed>, n: nat)
    requires IsRun(events) && n < |After(events).acks|
    ensures exists k: nat :: Caused(events, k, After(events).acks[n])
    decreases |events|
  {
    var last := |events| - 1;
    var init, ack := events[..last], After(events).acks[n];
    StepAcks(After(init), events[last].event, events[last].now);
    if n < |After(init).acks| {
      AckHasCause(init, n);
      var k: nat :| Caused(init, k, ack);
      assert init[..k] == events[..k] && Caused(events, k, ack);
    } else {
      assert Caused(events, last, ack);
    }
  }

  /** A frame that reaches an idle socket 125 milliseconds after the last start is in processing at once. */
  lemma IdleStartsAtOnce(events: seq<Timed>, now: int)
    requires IsRun(events) && After(events).connected && !After(events).busy && !After(events).timer
    ensures var s := After(events);
      var after := Step(s, Frame, now);
      if now - s.lastStart >= 125
      then after.running == {s.accepted} && after.starts == s.starts + [Start(s.accepted, now)]
      else after.armed && after.pending == Some(s.accepted)
  {
    var s := After(events);
    RunIsSound(events);
    FrameOutcome(s, now);
    assert s.running == {};
  }
}
