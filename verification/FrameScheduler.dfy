/**
 * The one-slot, latest-frame-wins scheduler of a scanning socket: at most one frame in processing,
 * starts spaced apart, and every accepted frame acknowledged exactly once.
 */
module FrameScheduler {
  import opened Options

  /** Frames are numbered in order of arrival. */
  datatype Outcome = Processed | Failed | Superseded | Disconnected

  datatype Ack = Ack(frame: nat, outcome: Outcome)

  datatype Start = Start(frame: nat, at: int)

  const MIN_FRAME_INTERVAL_MS: int := 125

  /** The socket's fields, and what has happened so far: how many frames were accepted, which are in processing, which
      were started when, and which were acknowledged how.  `timer` is the stored handle and `armed` says that it will
      fire. */
  datatype State = State(
    connected: bool, busy: bool, lastStart: int, pending: Option<nat>, timer: bool, armed: bool,
    accepted: nat, running: set<nat>, starts: seq<Start>, acks: seq<Ack>)

  function Connected(): State { State(true, false, 0, None, false, false, 0, {}, [], []) }

  /** Starts the pending frame, or arms a timer for it, unless something will do so later. */
  function Schedule(s: State, now: int): State {
    if s.busy || s.timer || s.pending.None? then s
    else if s.lastStart + MIN_FRAME_INTERVAL_MS - now > 0 then s.(timer := true, armed := true)
    else
      s.(pending := None, busy := true, lastStart := now,
         running := s.running + {s.pending.value}, starts := s.starts + [Start(s.pending.value, now)])
  }

  function Acked(s: State, frame: Option<nat>, outcome: Outcome): seq<Ack> {
    match frame case Some(f) => s.acks + [Ack(f, outcome)] case None => s.acks
  }

  function OnFrame(s: State, now: int): State {
    Schedule(s.(acks := Acked(s, s.pending, Superseded), pending := Some(s.accepted), accepted := s.accepted + 1), now)
  }

  function OnTimer(s: State, now: int): State { Schedule(s.(timer := false, armed := false), now) }

  /** A frame's recognition ends and is acknowledged. */
  function OnDone(s: State, frame: nat, ok: bool): State {
    s.(running := s.running - {frame}, acks := s.acks + [Ack(frame, if ok then Processed else Failed)])
  }

  /** The `finally` after it. */
  function OnSettled(s: State, now: int): State {
    if s.connected then Schedule(s.(busy := false), now) else s.(busy := false)
  }

  function OnDisconnect(s: State): State {
    s.(connected := false, armed := false, acks := Acked(s, s.pending, Disconnected), pending := None)
  }

  /** Timers may fire early or late; only a socket that is still connected delivers frames, and only once does it
      disconnect. */
  datatype Event = Frame | TimerFires | Done(frame: nat, ok: bool) | Settled | Disconnect

  predicate Enabled(s: State, e: Event) {
    match e
    case Frame => s.connected
    case TimerFires => s.armed
    case Done(frame, _) => frame in s.running
    case Settled => s.busy && s.running == {}
    case Disconnect => s.connected
  }

  function Step(s: State, e: Event, now: int): State
    requires Enabled(s, e)
  {
    match e
    case Frame => OnFrame(s, now)
    case TimerFires => OnTimer(s, now)
    case Done(frame, ok) => OnDone(s, frame, ok)
    case Settled => OnSettled(s, now)
    case Disconnect => OnDisconnect(s)
  }

  class SocketState {
    var connected: bool
    var busy: bool
    var lastStart: int
    var pending: Option<nat>
    var timer: bool
    ghost var armed: bool
    var accepted: nat
    ghost var running: set<nat>
    ghost var starts: seq<Start>
    ghost var acks: seq<Ack>

    ghost function Value(): State
      reads this
    {
      State(connected, busy, lastStart, pending, timer, armed, accepted, running, starts, acks)
    }

    constructor ()
      ensures Value() == Connected()
    {
      connected, busy, lastStart, pending, timer := true, false, 0, None, false;
      armed, accepted, running, starts, acks := false, 0, {}, [], [];
    }

    /** Gives the frame to process, if one is started now. */
    method Dispatch(now: int) returns (started: Option<nat>)
      modifies this
      ensures Value() == Schedule(old(Value()), now)
      ensures started == (if starts == old(starts) then None else old(pending))
    {
      if busy || timer || pending.None? { return None; }
      var wait := lastStart + MIN_FRAME_INTERVAL_MS - now;
      if wait > 0 {
        timer, armed := true, true;
        return None;
      }
      var frame := pending.value;
      pending, busy, lastStart := None, true, now;
      running, starts := running + {frame}, starts + [Start(frame, now)];
      assert |starts| > |old(starts)|;
      return Some(frame);
    }

    method AcceptFrame(now: int) returns (started: Option<nat>)
      requires Enabled(Value(), Frame)
      modifies this
      ensures Value() == Step(old(Value()), Frame, now)
    {
      if pending.Some? { acks := acks + [Ack(pending.value, Superseded)]; }
      pending, accepted := Some(accepted), accepted + 1;
      started := Dispatch(now);
    }

    method FireTimer(now: int) returns (started: Option<nat>)
      requires Enabled(Value(), TimerFires)
      modifies this
      ensures Value() == Step(old(Value()), TimerFires, now)
    {
      timer, armed := false, false;
      started := Dispatch(now);
    }

    method FinishFrame(frame: nat, ok: bool)
      requires Enabled(Value(), Done(frame, ok))
      modifies this`running, this`acks
      ensures Value() == Step(old(Value()), Done(frame, ok), 0)
    {
      running := running - {frame};
      acks := acks + [Ack(frame, if ok then Processed else Failed)];
    }

    method SettleFrame(now: int) returns (started: Option<nat>)
      requires Enabled(Value(), Settled)
      modifies this
      ensures Value() == Step(old(Value()), Settled, now)
    {
      busy := false;
      started := None;
      if connected { started := Dispatch(now); }
    }

    method HandleDisconnect()
      requires Enabled(Value(), Disconnect)
      modifies this
      ensures Value() == Step(old(Value()), Disconnect, 0)
    {
      connected, armed := false, false;
      if pending.Some? { acks := acks + [Ack(pending.value, Disconnected)]; }
      pending := None;
    }
  }

  // ---------------------------------------------------------------- every order of events

  function AckCount(acks: seq<Ack>, frame: nat): nat {
    if acks == [] then 0
    else AckCount(acks[..|acks| - 1], frame) + if acks[|acks| - 1].frame == frame then 1 else 0
  }

  predicate Waiting(s: State, frame: nat) { s.pending == Some(frame) || frame in s.running }

  predicate Precedes(a: Start, b: Start) { a.at + MIN_FRAME_INTERVAL_MS <= b.at && a.frame < b.frame }

  /** Starts are an interval apart, in order of arrival. */
  ghost predicate Spaced(starts: seq<Start>) {
    forall i, j :: 0 <= i < j < |starts| ==> Precedes(starts[i], starts[j])
  }

  ghost predicate StartsOk(s: State) {
    && (forall i :: 0 <= i < |s.starts| ==> s.starts[i].frame < s.accepted && s.starts[i].at <= s.lastStart)
    && Spaced(s.starts)
    && (s.starts != [] ==> s.starts[|s.starts| - 1].at == s.lastStart)
    && (s.pending.Some? ==> forall i :: 0 <= i < |s.starts| ==> s.starts[i].frame < s.pending.value)
  }

  /** A frame is acknowledged once if it was accepted and is not waiting, and otherwise not at all. */
  ghost predicate AccountedAt(s: State, f: nat) {
    AckCount(s.acks, f) == (if f < s.accepted && !Waiting(s, f) then 1 else 0)
  }

  ghost predicate Accounted(s: State) { forall f: nat :: AccountedAt(s, f) }

  /** The waiting frame is the newest, and at most one is in processing. */
  ghost predicate FramesOk(s: State) {
    && (s.pending.Some? ==> s.pending.value == s.accepted - 1 && s.pending.value !in s.running)
    && (forall f :: f in s.running ==> f < s.accepted)
    && |s.running| <= 1 && (s.running != {} ==> s.busy)
  }

  /** Every accepted frame is waiting or acknowledged exactly once; at most one is in processing; the waiting frame is
      the newest; and while connected it has a running frame or an armed timer to pick it up. */
  ghost predicate Sound(s: State) {
    && Accounted(s) && FramesOk(s) && StartsOk(s)
    && (s.pending.Some? ==> s.connected && (s.busy || s.armed))
    && (s.armed ==> s.timer && s.connected && !s.busy) && (s.connected ==> s.armed == s.timer)
  }

  lemma AckOneMore(acks: seq<Ack>, ack: Ack, f: nat)
    ensures AckCount(acks + [ack], f) == AckCount(acks, f) + (if ack.frame == f then 1 else 0)
  {
    assert (acks + [ack])[..|acks|] == acks;
  }

  /** A connected state whose pending frame may still have nothing to pick it up. */
  ghost predicate Ready(s: State) {
    Accounted(s) && FramesOk(s) && StartsOk(s) && s.connected && s.armed == s.timer && (s.armed ==> !s.busy)
  }

  /** The account depends only on the acknowledgements and on which frames are waiting. */
  lemma SameAccount(s: State, after: State)
    requires Accounted(s) && after.acks == s.acks && after.accepted == s.accepted
    requires forall f: nat :: Waiting(after, f) == Waiting(s, f)
    ensures Accounted(after)
  {
    forall f: nat ensures AccountedAt(after, f) { assert AccountedAt(s, f); }
  }

  /** Scheduling starts a frame only when none is in processing, and never forgets the pending one. */
  lemma ScheduleKeepsSound(s: State, now: int)
    requires Ready(s)
    ensures Sound(Schedule(s, now))
  {
    var after := Schedule(s, now);
    if after.starts != s.starts {
      assert s.running == {} && after.running == {s.pending.value};
      SameAccount(s, after);
      ScheduleKeepsStarts(s, now);
    } else {
      SameAccount(s, after);
    }
  }

  lemma ScheduleKeepsStarts(s: State, now: int)
    requires FramesOk(s) && StartsOk(s)
    ensures StartsOk(Schedule(s, now))
  {
    if Schedule(s, now).starts != s.starts { SpacedAppend(s.starts, Start(s.pending.value, now)); }
  }

  lemma SpacedAppend(starts: seq<Start>, last: Start)
    requires Spaced(starts) && forall i :: 0 <= i < |starts| ==> Precedes(starts[i], last)
    ensures Spaced(starts + [last])
  {
  }

  /** Acknowledging the pending frame, whether or not a newer one takes its place, keeps the account. */
  lemma PendingAccounted(s: State, outcome: Outcome, after: State)
    requires Accounted(s) && FramesOk(s) && after.acks == Acked(s, s.pending, outcome) && after.running == s.running
    requires (after.accepted == s.accepted && after.pending.None?)
      || (after.accepted == s.accepted + 1 && after.pending == Some(s.accepted))
    ensures Accounted(after)
  {
    forall f: nat ensures AccountedAt(after, f) {
      assert AccountedAt(s, f);
      if s.pending.Some? { AckOneMore(s.acks, Ack(s.pending.value, outcome), f); }
    }
  }

  /** The state just after a newer frame took the slot. */
  function Taken(s: State): State {
    s.(acks := Acked(s, s.pending, Superseded), pending := Some(s.accepted), accepted := s.accepted + 1)
  }

  lemma FrameTaken(s: State)
    requires Sound(s) && s.connected
    ensures Ready(Taken(s))
  {
    PendingAccounted(s, Superseded, Taken(s));
  }

  lemma FrameKeepsSound(s: State, now: int)
    requires Sound(s) && s.connected
    ensures Sound(OnFrame(s, now))
  {
    FrameTaken(s);
    ScheduleKeepsSound(Taken(s), now);
    assert OnFrame(s, now) == Schedule(Taken(s), now);
  }

  lemma DoneKeepsSound(s: State, frame: nat, ok: bool)
    requires Sound(s) && frame in s.running
    ensures Sound(OnDone(s, frame, ok))
  {
    var after := OnDone(s, frame, ok);
    OnlyOne(s.running, frame);
    forall f: nat ensures AccountedAt(after, f) {
      assert AccountedAt(s, f);
      AckOneMore(s.acks, Ack(frame, if ok then Processed else Failed), f);
    }
  }

  lemma OnlyOne(running: set<nat>, frame: nat)
    requires |running| <= 1 && frame in running
    ensures running == {frame} && running - {frame} == {}
  {
    assert |running - {frame}| == 0;
  }

  lemma DisconnectKeepsSound(s: State)
    requires Sound(s) && s.connected
    ensures Sound(OnDisconnect(s))
  {
    PendingAccounted(s, Disconnected, OnDisconnect(s));
  }

  lemma TimerKeepsSound(s: State, now: int)
    requires Sound(s) && s.armed
    ensures Sound(OnTimer(s, now))
  {
    SameAccount(s, s.(timer := false, armed := false));
    ScheduleKeepsSound(s.(timer := false, armed := false), now);
  }

  lemma SettledKeepsSound(s: State, now: int)
    requires Sound(s) && s.busy && s.running == {}
    ensures Sound(OnSettled(s, now))
  {
    SameAccount(s, s.(busy := false));
    if s.connected { ScheduleKeepsSound(s.(busy := false), now); }
  }

  lemma StepKeepsSound(s: State, e: Event, now: int)
    requires Sound(s) && Enabled(s, e)
    ensures Sound(Step(s, e, now))
  {
    match e
    case Frame => FrameKeepsSound(s, now);
    case TimerFires => TimerKeepsSound(s, now);
    case Done(frame, ok) => DoneKeepsSound(s, frame, ok);
    case Settled => SettledKeepsSound(s, now);
    case Disconnect => DisconnectKeepsSound(s);
  }

  datatype Timed = Timed(now: int, event: Event)

  /** A run of events, each possible when it happens; clocks need not be monotone. */
  ghost predicate IsRun(events: seq<Timed>)
    decreases |events|, 0
  {
    events == []
    || (IsRun(events[..|events| - 1])
        && Enabled(After(events[..|events| - 1]), events[|events| - 1].event))
  }

  ghost function After(events: seq<Timed>): State
    requires IsRun(events)
    decreases |events|, 1
  {
    if events == [] then Connected()
    else Step(After(events[..|events| - 1]), events[|events| - 1].event, events[|events| - 1].now)
  }

  /** Safety for every event order. */
  lemma {:induction false} RunIsSound(events: seq<Timed>)
    requires IsRun(events)
    ensures Sound(After(events))
    decreases |events|
  {
    if events != [] {
      RunIsSound(events[..|events| - 1]);
      StepKeepsSound(After(events[..|events| - 1]), events[|events| - 1].event, events[|events| - 1].now);
    }
  }

  // ---------------------------------------------------------------- what was acknowledged how

  ghost predicate Started(s: State, frame: nat) {
    exists i :: 0 <= i < |s.starts| && s.starts[i].frame == frame
  }

  /** Exactly the started frames are acknowledged as processed or failed. */
  ghost predicate AcksMatch(s: State) {
    && (forall f :: f in s.running ==> Started(s, f))
    && (forall k :: 0 <= k < |s.acks| ==>
          (Started(s, s.acks[k].frame) <==> s.acks[k].outcome.Processed? || s.acks[k].outcome.Failed?))
  }

  lemma {:induction false} NoAck(acks: seq<Ack>, frame: nat)
    requires AckCount(acks, frame) == 0
    ensures forall k :: 0 <= k < |acks| ==> acks[k].frame != frame
  {
    if acks != [] { NoAck(acks[..|acks| - 1], frame); }
  }

  lemma ScheduleKeepsMatch(s: State, now: int)
    requires AcksMatch(s) && Accounted(s)
    ensures AcksMatch(Schedule(s, now))
  {
    var after := Schedule(s, now);
    if after.starts != s.starts {
      var frame := s.pending.value;
      assert AccountedAt(s, frame);
      NoAck(s.acks, frame);
      assert after.starts[|s.starts|].frame == frame;
      forall f | f != frame ensures Started(after, f) <==> Started(s, f) { OneMoreStart(s, after, f); }
    }
  }

  lemma OneMoreStart(s: State, after: State, f: nat)
    requires |after.starts| == |s.starts| + 1 && after.starts[..|s.starts|] == s.starts
      && after.starts[|s.starts|].frame != f
    ensures Started(after, f) <==> Started(s, f)
  {
    if Started(s, f) {
      var i :| 0 <= i < |s.starts| && s.starts[i].frame == f;
      assert after.starts[i] == s.starts[i];
    }
    if Started(after, f) {
      var i :| 0 <= i < |after.starts| && after.starts[i].frame == f;
      assert after.starts[i] == s.starts[i];
    }
  }

  lemma StepKeepsMatch(s: State, e: Event, now: int)
    requires Sound(s) && AcksMatch(s) && Enabled(s, e)
    ensures AcksMatch(Step(s, e, now))
  {
    match e
    case Frame =>
      FrameTaken(s);
      SameStarts(s, Taken(s));
      ScheduleKeepsMatch(Taken(s), now);
    case TimerFires =>
      SameAccount(s, s.(timer := false, armed := false));
      SameStarts(s, s.(timer := false, armed := false));
      ScheduleKeepsMatch(s.(timer := false, armed := false), now);
    case Done(frame, ok) => SameStarts(s, OnDone(s, frame, ok));
    case Settled =>
      SameAccount(s, s.(busy := false));
      SameStarts(s, s.(busy := false));
      if s.connected { ScheduleKeepsMatch(s.(busy := false), now); }
    case Disconnect => SameStarts(s, OnDisconnect(s));
  }

  /** The starts are as before, and at most one acknowledgement is new: of the running frame as processed or failed, or
      of the pending one otherwise. */
  lemma SameStarts(s: State, after: State)
    requires Sound(s) && AcksMatch(s) && after.starts == s.starts && after.running <= s.running
    requires after.acks == s.acks || (|after.acks| == |s.acks| + 1 && after.acks[..|s.acks|] == s.acks
      && (if after.acks[|s.acks|].outcome.Processed? || after.acks[|s.acks|].outcome.Failed?
          then after.acks[|s.acks|].frame in s.running else s.pending == Some(after.acks[|s.acks|].frame)))
    ensures AcksMatch(after)
  {
    forall f ensures Started(after, f) <==> Started(s, f) {}
    forall k | 0 <= k < |after.acks|
      ensures Started(after, after.acks[k].frame) <==> after.acks[k].outcome.Processed? || after.acks[k].outcome.Failed?
    {
      if k < |s.acks| { assert after.acks[k] == s.acks[k]; }
    }
  }

  /** Processed and failed are exactly the started frames, which follow each other in order of arrival. */
  lemma {:induction false} RunAcksMatch(events: seq<Timed>)
    requires IsRun(events)
    ensures AcksMatch(After(events))
    decreases |events|
  {
    if events != [] {
      RunAcksMatch(events[..|events| - 1]);
      RunIsSound(events[..|events| - 1]);
      StepKeepsMatch(After(events[..|events| - 1]), events[|events| - 1].event, events[|events| - 1].now);
    }
  }

  /** Once a disconnected socket has finished its frame, every accepted frame has been acknowledged exactly once. */
  lemma AllAckedOnce(events: seq<Timed>, frame: nat)
    requires IsRun(events) && !After(events).connected && After(events).running == {} && frame < After(events).accepted
    ensures AckCount(After(events).acks, frame) == 1
  {
    RunIsSound(events);
    assert AccountedAt(After(events), frame);
  }

  /** A waiting frame is picked up: by the timer that is due, or when the running frame settles, it is started or a
      timer is armed for it. */
  lemma WaitingIsPickedUp(s: State, now: int)
    requires Sound(s) && s.pending.Some?
    ensures s.armed && now >= s.lastStart + MIN_FRAME_INTERVAL_MS ==>
      Step(s, TimerFires, now).running == s.running + {s.pending.value}
    ensures s.busy && s.running == {} ==>
      var after := Step(s, Settled, now);
      after.running == {s.pending.value} || (after.armed && after.pending == s.pending)
  {
  }
}
