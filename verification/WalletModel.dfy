/**
 * The gate-pass wallet as a protocol: callbacks and pass creations read first and act later, in one
 * conditional transaction, interleaved in any order with each other, with expiry sweeps and with
 * manual credits.
 */
module WalletModel {
  import opened Options

  datatype Status = Initiated | Verified | Failed | Cancelled

  datatype TopUp = TopUp(factory: nat, amount: int, status: Status, created: int, balanceAfter: Option<int>)

  /** A gate pass and the fee it was charged. */
  datatype Pass = Pass(factory: nat, fee: int)

  /** What a request that has read its rows will do in its transaction. */
  datatype Action = MarkFailed(t: nat, to: Status) | Credit(t: nat) | Charge(factory: nat, fee: int)

  /** The movements of money so far, in order. */
  datatype Move = Credited(t: nat) | Debited(factory: nat, fee: int)

  datatype State = State(balances: seq<int>, topUps: seq<TopUp>, passes: seq<Pass>,
    pending: map<nat, Action>, moves: seq<Move>)

  datatype Reply = Accepted | Rejected | Waiting | Success | Failure

  /** Amounts are in hundredths of a Rial. */
  const TOP_UP_MIN: int := 10_000 * 100
  const TOP_UP_MAX: int := 2_000_000_000 * 100
  const EXPIRY: int := 24 * 60 * 60 * 1000

  /** A gateway session is opened for a whole number of Rials. */
  function Start(s: State, factory: nat, amount: int, gatewayOpens: bool, now: int): (State, Reply) {
    if amount % 100 != 0 || amount < TOP_UP_MIN || amount > TOP_UP_MAX || factory >= |s.balances| || !gatewayOpens
    then (s, Rejected)
    else (s.(topUps := s.topUps + [TopUp(factory, amount, Initiated, now, None)]), Accepted)
  }

  /** A manual credit, verified at once. */
  function Manual(s: State, factory: nat, amount: int, now: int): (State, Reply) {
    if amount <= 0 || factory >= |s.balances| then (s, Rejected)
    else
      var balance := s.balances[factory] + amount;
      (s.(balances := s.balances[factory := balance],
          topUps := s.topUps + [TopUp(factory, amount, Verified, now, Some(balance))],
          moves := s.moves + [Credited(|s.topUps|)]), Accepted)
  }

  function Swept(t: TopUp, factory: nat, now: int): TopUp {
    if t.factory == factory && t.status.Initiated? && t.created < now - EXPIRY then t.(status := Cancelled) else t
  }

  /** Reading the wallet abandons its sessions older than a day. */
  function Sweep(s: State, factory: nat, now: int): State {
    s.(topUps := seq(|s.topUps|, i requires 0 <= i < |s.topUps| => Swept(s.topUps[i], factory, now)))
  }

  /** What a callback decides from the row it read and the answers it got. */
  function Decide(row: TopUp, t: nat, ok: bool, allowed: bool, confirmed: bool, now: int): Action {
    if !ok then MarkFailed(t, Cancelled)
    else if !allowed || now - row.created > EXPIRY || !confirmed then MarkFailed(t, Failed)
    else Credit(t)
  }

  /** The first half of a callback: `ok` is what the payer reports, `allowed` whether its provider may be used, and
      `confirmed` what the provider answers. */
  function ReadCallback(s: State, actor: nat, t: nat, ok: bool, allowed: bool,
    confirmed: bool, now: int): (State, Reply) {
    if actor in s.pending then (s, Rejected)
    else if t >= |s.topUps| then (s, Failure)
    else if s.topUps[t].status.Verified? then (s, Success)
    else if !s.topUps[t].status.Initiated? then (s, Failure)
    else (s.(pending := s.pending[actor := Decide(s.topUps[t], t, ok, allowed, confirmed, now)]), Waiting)
  }

  /** The first half of creating a pass: the balance is read, and refused if already too small. */
  function ReadBalance(s: State, actor: nat, factory: nat, required: bool, fee: int): (State, Reply) {
    if actor in s.pending || factory >= |s.balances| then (s, Rejected)
    else if !required || fee <= 0 then (s.(passes := s.passes + [Pass(factory, 0)]), Accepted)
    else if s.balances[factory] < fee then (s, Rejected)
    else (s.(pending := s.pending[actor := Charge(factory, fee)]), Waiting)
  }

  function Settled(topUps: seq<TopUp>, t: nat): Reply {
    if t < |topUps| && topUps[t].status.Verified? then Success else Failure
  }

  /** The second half: one conditional transaction. */
  function Act(s: State, action: Action): (State, Reply) {
    match action
    case MarkFailed(t, to) =>
      if t < |s.topUps| && s.topUps[t].status.Initiated?
      then (s.(topUps := s.topUps[t := s.topUps[t].(status := to)]), Failure)
      else (s, Failure)
    case Credit(t) =>
      if t < |s.topUps| && s.topUps[t].status.Initiated? && s.topUps[t].factory < |s.balances| then
        var row := s.topUps[t];
        var balance := s.balances[row.factory] + row.amount;
        (s.(balances := s.balances[row.factory := balance],
            topUps := s.topUps[t := row.(status := Verified, balanceAfter := Some(balance))],
            moves := s.moves + [Credited(t)]), Success)
      else (s, Settled(s.topUps, t))
    case Charge(factory, fee) =>
      if factory < |s.balances| && s.balances[factory] >= fee then
        (s.(balances := s.balances[factory := s.balances[factory] - fee],
            passes := s.passes + [Pass(factory, fee)],
            moves := s.moves + [Debited(factory, fee)]), Accepted)
      else (s, Rejected)
  }

  function Dropped(s: State, actor: nat): State { s.(pending := s.pending - {actor}) }

  function Finish(s: State, actor: nat): (State, Reply) {
    if actor !in s.pending then (s, Rejected) else Act(Dropped(s, actor), s.pending[actor])
  }

  /** A request that throws instead: before its transaction, as when the provider cannot be asked, or `late`, in what
      follows the transaction.  A callback answers "failed" whatever it threw, even at its first read. */
  function Throw(s: State, actor: nat, late: bool): (State, Reply) {
    var reply := if actor in s.pending && s.pending[actor].Charge? then Rejected else Failure;
    (if late then Finish(s, actor).0 else Dropped(s, actor), reply)
  }

  datatype Step =
    | DoStart(factory: nat, amount: int, gatewayOpens: bool)
    | DoManual(factory: nat, amount: int)
    | DoSweep(factory: nat)
    | DoRead(actor: nat, t: nat, ok: bool, allowed: bool, confirmed: bool)
    | DoReadBalance(actor: nat, factory: nat, required: bool, fee: int)
    | DoFinish(actor: nat)
    | DoThrow(actor: nat, late: bool)

  function Apply(s: State, step: Step, now: int): (State, Reply) {
    match step
    case DoStart(factory, amount, gatewayOpens) => Start(s, factory, amount, gatewayOpens, now)
    case DoManual(factory, amount) => Manual(s, factory, amount, now)
    case DoSweep(factory) => (Sweep(s, factory, now), Accepted)
    case DoRead(actor, t, ok, allowed, confirmed) => ReadCallback(s, actor, t, ok, allowed, confirmed, now)
    case DoReadBalance(actor, factory, required, fee) => ReadBalance(s, actor, factory, required, fee)
    case DoFinish(actor) => Finish(s, actor)
    case DoThrow(actor, late) => Throw(s, actor, late)
  }

  // ---------------------------------------------------------------- what the wallet promises

  function VerifiedTotal(topUps: seq<TopUp>, factory: nat): int {
    if topUps == [] then 0
    else
      var t := topUps[|topUps| - 1];
      VerifiedTotal(topUps[..|topUps| - 1], factory) + if t.factory == factory && t.status.Verified?
        then t.amount else 0
  }

  function FeeTotal(passes: seq<Pass>, factory: nat): int {
    if passes == [] then 0
    else
      var p := passes[|passes| - 1];
      FeeTotal(passes[..|passes| - 1], factory) + if p.factory == factory then p.fee else 0
  }

  /** What one movement does to a factory's balance. */
  function Effect(move: Move, topUps: seq<TopUp>, factory: nat): int {
    match move
    case Credited(t) => if t < |topUps| && topUps[t].factory == factory then topUps[t].amount else 0
    case Debited(f, fee) => if f == factory then -fee else 0
  }

  /** The balance after some movements. */
  function Replay(moves: seq<Move>, topUps: seq<TopUp>, factory: nat): int {
    if moves == [] then 0
    else Replay(moves[..|moves| - 1], topUps, factory) + Effect(moves[|moves| - 1], topUps, factory)
  }

  /** How often a top-up was credited. */
  function Credits(moves: seq<Move>, t: nat): nat {
    if moves == [] then 0
    else Credits(moves[..|moves| - 1], t) + if moves[|moves| - 1] == Credited(t) then 1 else 0
  }

  ghost predicate CreditRecorded(s: State, k: nat)
    requires k < |s.moves|
  {
    s.moves[k].Credited? ==>
      var t := s.moves[k].t;
      t < |s.topUps| && s.topUps[t].balanceAfter == Some(Replay(s.moves[..k + 1], s.topUps, s.topUps[t].factory))
  }

  ghost predicate ActionOk(s: State, action: Action) {
    match action
    case MarkFailed(t, to) => t < |s.topUps| && (to.Failed? || to.Cancelled?)
    case Credit(t) => t < |s.topUps|
    case Charge(factory, fee) => factory < |s.balances| && fee > 0
  }

  /** A balance is not negative, and equals verified amounts less fees, and the movements so far. */
  ghost predicate BalanceOk(s: State, f: nat)
    requires f < |s.balances|
  {
    && s.balances[f] >= 0 && s.balances[f] == VerifiedTotal(s.topUps, f) - FeeTotal(s.passes, f)
    && s.balances[f] == Replay(s.moves, s.topUps, f)
  }

  /** A top-up is credited once if it is verified and never otherwise, and has `balanceAfter` only then. */
  ghost predicate TopUpOk(s: State, t: nat)
    requires t < |s.topUps|
  {
    && s.topUps[t].factory < |s.balances| && s.topUps[t].amount > 0
    && Credits(s.moves, t) == (if s.topUps[t].status.Verified? then 1 else 0)
    && (s.topUps[t].balanceAfter.Some? <==> s.topUps[t].status.Verified?)
  }

  /** Every balance and every top-up is in order, `balanceAfter` is the balance just after its credit, and every waiting
      request is about rows there are. */
  ghost predicate Sound(s: State) {
    && (forall f :: 0 <= f < |s.balances| ==> BalanceOk(s, f))
    && (forall t :: 0 <= t < |s.topUps| ==> TopUpOk(s, t))
    && (forall k :: 0 <= k < |s.moves| ==> CreditRecorded(s, k))
    && (forall a :: a in s.pending ==> ActionOk(s, s.pending[a]))
  }

  function Opened(factories: nat): State { State(seq(factories, _ => 0), [], [], map[], []) }

  /** Top-ups keep their amount and factory; a top-up that is no longer initiated never changes. */
  ghost predicate Evolves(before: seq<TopUp>, after: seq<TopUp>) {
    && |before| <= |after|
    && (forall t :: 0 <= t < |before| ==>
          after[t].factory == before[t].factory && after[t].amount == before[t].amount
          && (!before[t].status.Initiated? ==> after[t] == before[t]))
  }

  // ---------------------------------------------------------------- sums

  lemma {:induction false} ReplaySame(moves: seq<Move>, before: seq<TopUp>, after: seq<TopUp>, factory: nat)
    requires Evolves(before, after) && (forall k :: 0 <= k < |moves| && moves[k].Credited? ==> moves[k].t < |before|)
    ensures Replay(moves, after, factory) == Replay(moves, before, factory)
  {
    if moves != [] { ReplaySame(moves[..|moves| - 1], before, after, factory); }
  }

  lemma {:induction false} NoCredit(moves: seq<Move>, t: nat)
    requires forall k :: 0 <= k < |moves| ==> moves[k] != Credited(t)
    ensures Credits(moves, t) == 0
  {
    if moves != [] { NoCredit(moves[..|moves| - 1], t); }
  }

  /** Verifying one top-up adds its amount to its factory's total. */
  lemma {:induction false} VerifiedUpdate(topUps: seq<TopUp>, t: nat, row: TopUp, factory: nat)
    requires t < |topUps| && row.factory == topUps[t].factory && row.amount == topUps[t].amount
      && topUps[t].status.Initiated?
    ensures VerifiedTotal(topUps[t := row], factory)
      == VerifiedTotal(topUps, factory) + if row.status.Verified? && row.factory == factory then row.amount else 0
  {
    var init, after := topUps[..|topUps| - 1], topUps[t := row];
    if t < |init| {
      VerifiedUpdate(init, t, row, factory);
      assert after[..|after| - 1] == init[t := row];
    } else {
      assert after[..|after| - 1] == init;
    }
  }

  lemma {:induction false} VerifiedSame(before: seq<TopUp>, after: seq<TopUp>, factory: nat)
    requires |before| == |after|
    requires forall t :: 0 <= t < |before| ==>
      after[t].factory == before[t].factory && after[t].amount == before[t].amount
      && (after[t].status.Verified? <==> before[t].status.Verified?)
    ensures VerifiedTotal(after, factory) == VerifiedTotal(before, factory)
  {
    if before != [] { VerifiedSame(before[..|before| - 1], after[..|after| - 1], factory); }
  }

  /** Recorded credits stay recorded when top-ups evolve and movements are appended. */
  lemma RecordsStay(s: State, after: State, k: nat)
    requires Sound(s) && Evolves(s.topUps, after.topUps) && s.moves <= after.moves && k < |s.moves|
    ensures CreditRecorded(after, k)
  {
    assert CreditRecorded(s, k);
    assert after.moves[..k + 1] == s.moves[..k + 1];
    if s.moves[k].Credited? {
      var t := s.moves[k].t;
      AllCreditsKnown(s);
      ReplaySame(s.moves[..k + 1], s.topUps, after.topUps, s.topUps[t].factory);
      CreditedIsVerified(s, k);
    }
  }

  lemma {:induction false} CreditCounts(moves: seq<Move>, k: nat)
    requires k < |moves| && moves[k].Credited?
    ensures Credits(moves, moves[k].t) > 0
  {
    if k < |moves| - 1 { CreditCounts(moves[..|moves| - 1], k); }
  }

  lemma CreditedIsVerified(s: State, k: nat)
    requires Sound(s) && k < |s.moves| && s.moves[k].Credited?
    ensures s.moves[k].t < |s.topUps| && s.topUps[s.moves[k].t].status.Verified?
  {
    assert CreditRecorded(s, k);
    CreditCounts(s.moves, k);
    assert TopUpOk(s, s.moves[k].t);
  }

  lemma AllCreditsKnown(s: State)
    requires Sound(s)
    ensures forall k :: 0 <= k < |s.moves| && s.moves[k].Credited? ==> s.moves[k].t < |s.topUps|
  {
    forall k | 0 <= k < |s.moves| && s.moves[k].Credited? ensures s.moves[k].t < |s.topUps| {
      assert CreditRecorded(s, k);
    }
  }

  // ---------------------------------------------------------------- one movement more

  lemma ReplayAdd(s: State, move: Move, topUps: seq<TopUp>, f: nat)
    requires Sound(s) && Evolves(s.topUps, topUps)
    ensures Replay(s.moves + [move], topUps, f) == Replay(s.moves, s.topUps, f) + Effect(move, topUps, f)
  {
    assert (s.moves + [move])[..|s.moves|] == s.moves;
    AllCreditsKnown(s);
    ReplaySame(s.moves, s.topUps, topUps, f);
  }

  lemma CreditsAdd(moves: seq<Move>, move: Move, t: nat)
    ensures Credits(moves + [move], t) == Credits(moves, t) + (if move == Credited(t) then 1 else 0)
  {
    assert (moves + [move])[..|moves|] == moves;
  }

  // ---------------------------------------------------------------- step by step

  /** Nothing that counts is different: only the statuses of top-ups that stay unverified, and passes without a fee. */
  ghost predicate Quiet(s: State, after: State) {
    && after.balances == s.balances && after.moves == s.moves && |after.topUps| == |s.topUps|
    && Evolves(s.topUps, after.topUps)
    && (forall t :: 0 <= t < |s.topUps| ==> SameCredit(s.topUps[t], after.topUps[t]))
    && (forall f :: 0 <= f < |s.balances| ==> FeeTotal(after.passes, f) == FeeTotal(s.passes, f))
    && (forall a :: a in after.pending ==> ActionOk(s, after.pending[a]))
  }

  ghost predicate SameCredit(before: TopUp, after: TopUp) {
    (after.status.Verified? <==> before.status.Verified?) && after.balanceAfter == before.balanceAfter
  }

  lemma QuietBalance(s: State, after: State, f: nat)
    requires Sound(s) && Quiet(s, after) && f < |s.balances|
    ensures BalanceOk(after, f)
  {
    assert BalanceOk(s, f);
    VerifiedSame(s.topUps, after.topUps, f);
    AllCreditsKnown(s);
    ReplaySame(s.moves, s.topUps, after.topUps, f);
  }

  lemma QuietKeepsSound(s: State, after: State)
    requires Sound(s) && Quiet(s, after)
    ensures Sound(after)
  {
    forall f | 0 <= f < |after.balances| ensures BalanceOk(after, f) { QuietBalance(s, after, f); }
    forall t | 0 <= t < |after.topUps| ensures TopUpOk(after, t) {
      assert TopUpOk(s, t) && SameCredit(s.topUps[t], after.topUps[t]);
    }
    forall k | 0 <= k < |after.moves| ensures CreditRecorded(after, k) { RecordsStay(s, after, k); }
  }

  function Sessions(s: State, factory: nat, amount: int, now: int): State {
    s.(topUps := s.topUps + [TopUp(factory, amount, Initiated, now, None)])
  }

  lemma StartBalance(s: State, factory: nat, amount: int, now: int, f: nat)
    requires Sound(s) && factory < |s.balances| && amount > 0 && f < |s.balances|
    ensures BalanceOk(Sessions(s, factory, amount, now), f)
  {
    var after := Sessions(s, factory, amount, now);
    assert BalanceOk(s, f);
    assert after.topUps[..|after.topUps| - 1] == s.topUps;
    AllCreditsKnown(s);
    ReplaySame(s.moves, s.topUps, after.topUps, f);
  }

  lemma StartTopUp(s: State, factory: nat, amount: int, now: int, t: nat)
    requires Sound(s) && factory < |s.balances| && amount > 0 && t <= |s.topUps|
    ensures TopUpOk(Sessions(s, factory, amount, now), t)
  {
    if t < |s.topUps| {
      assert TopUpOk(s, t);
    } else {
      AllCreditsKnown(s);
      NoCredit(s.moves, t);
    }
  }

  lemma StartKeepsSound(s: State, factory: nat, amount: int, now: int)
    requires Sound(s) && factory < |s.balances| && amount > 0
    ensures Sound(Sessions(s, factory, amount, now))
  {
    var after := Sessions(s, factory, amount, now);
    forall f | 0 <= f < |after.balances| ensures BalanceOk(after, f) { StartBalance(s, factory, amount, now, f); }
    forall t | 0 <= t < |after.topUps| ensures TopUpOk(after, t) { StartTopUp(s, factory, amount, now, t); }
    forall k | 0 <= k < |after.moves| ensures CreditRecorded(after, k) { RecordsStay(s, after, k); }
    forall a | a in after.pending ensures ActionOk(after, after.pending[a]) { assert ActionOk(s, s.pending[a]); }
  }

  /** A session that a credit finds still initiated. */
  ghost predicate Creditable(s: State, t: nat) { Sound(s) && t < |s.topUps| && s.topUps[t].status.Initiated? }

  function AfterCredit(s: State, t: nat): State { Act(s, Credit(t)).0 }

  /** What the credit writes. */
  lemma CreditWrites(s: State, t: nat)
    requires Creditable(s, t)
    ensures var row, after := s.topUps[t], AfterCredit(s, t);
      && row.factory < |s.balances| && row.amount > 0
      && after.balances == s.balances[row.factory := s.balances[row.factory] + row.amount]
      && after.topUps == s.topUps[t := row.(status := Verified, balanceAfter := Some(after.balances[row.factory]))]
      && after.passes == s.passes && after.moves == s.moves + [Credited(t)] && after.pending == s.pending
      && Evolves(s.topUps, after.topUps)
  {
    assert TopUpOk(s, t);
  }

  /** It raises one balance by the amount and leaves the others. */
  lemma CreditBalances(s: State, t: nat, f: nat)
    requires Creditable(s, t) && f < |s.balances|
    ensures f < |AfterCredit(s, t).balances| && BalanceOk(AfterCredit(s, t), f)
  {
    var after := AfterCredit(s, t);
    CreditWrites(s, t);
    assert BalanceOk(s, f);
    VerifiedUpdate(s.topUps, t, after.topUps[t], f);
    ReplayAdd(s, Credited(t), after.topUps, f);
  }

  lemma CreditTopUp(s: State, t: nat, u: nat)
    requires Creditable(s, t) && u < |s.topUps|
    ensures u < |AfterCredit(s, t).topUps| && TopUpOk(AfterCredit(s, t), u)
  {
    CreditWrites(s, t);
    assert TopUpOk(s, u);
    CreditsAdd(s.moves, Credited(t), u);
  }

  lemma CreditRecords(s: State, t: nat, k: nat)
    requires Creditable(s, t) && k <= |s.moves|
    ensures k < |AfterCredit(s, t).moves| && CreditRecorded(AfterCredit(s, t), k)
  {
    var after := AfterCredit(s, t);
    CreditWrites(s, t);
    if k < |s.moves| {
      RecordsStay(s, after, k);
    } else {
      CreditBalances(s, t, s.topUps[t].factory);
      assert after.moves[..k + 1] == after.moves;
    }
  }

  lemma CreditKeepsSound(s: State, t: nat)
    requires Sound(s) && t < |s.topUps| && s.topUps[t].status.Initiated?
    ensures Sound(Act(s, Credit(t)).0)
  {
    var after := AfterCredit(s, t);
    CreditWrites(s, t);
    forall f | 0 <= f < |after.balances| ensures BalanceOk(after, f) { CreditBalances(s, t, f); }
    forall u | 0 <= u < |after.topUps| ensures TopUpOk(after, u) { CreditTopUp(s, t, u); }
    forall k | 0 <= k < |after.moves| ensures CreditRecorded(after, k) { CreditRecords(s, t, k); }
    forall a | a in after.pending ensures ActionOk(after, after.pending[a]) { assert ActionOk(s, s.pending[a]); }
  }

  /** A charge that finds enough. */
  ghost predicate Chargeable(s: State, factory: nat, fee: int) {
    Sound(s) && factory < |s.balances| && 0 < fee <= s.balances[factory]
  }

  function AfterCharge(s: State, factory: nat, fee: int): State { Act(s, Charge(factory, fee)).0 }

  lemma ChargeWrites(s: State, factory: nat, fee: int)
    requires Chargeable(s, factory, fee)
    ensures var after := AfterCharge(s, factory, fee);
      && after.balances == s.balances[factory := s.balances[factory] - fee] && after.topUps == s.topUps
      && after.passes == s.passes + [Pass(factory, fee)] && after.moves == s.moves + [Debited(factory, fee)]
      && after.pending == s.pending
  {
  }

  lemma FeeAdd(passes: seq<Pass>, pass: Pass, f: nat)
    ensures FeeTotal(passes + [pass], f) == FeeTotal(passes, f) + (if pass.factory == f then pass.fee else 0)
  {
    assert (passes + [pass])[..|passes|] == passes;
  }

  /** It lowers one balance by the fee and leaves the others. */
  lemma ChargeBalances(s: State, factory: nat, fee: int, f: nat)
    requires Chargeable(s, factory, fee) && f < |s.balances|
    ensures f < |AfterCharge(s, factory, fee).balances| && BalanceOk(AfterCharge(s, factory, fee), f)
  {
    ChargeWrites(s, factory, fee);
    assert BalanceOk(s, f);
    FeeAdd(s.passes, Pass(factory, fee), f);
    ReplayAdd(s, Debited(factory, fee), s.topUps, f);
  }

  lemma ChargeTopUp(s: State, factory: nat, fee: int, t: nat)
    requires Chargeable(s, factory, fee) && t < |s.topUps|
    ensures t < |AfterCharge(s, factory, fee).topUps| && TopUpOk(AfterCharge(s, factory, fee), t)
  {
    ChargeWrites(s, factory, fee);
    assert TopUpOk(s, t);
    CreditsAdd(s.moves, Debited(factory, fee), t);
  }

  lemma ChargeRecords(s: State, factory: nat, fee: int, k: nat)
    requires Chargeable(s, factory, fee) && k <= |s.moves|
    ensures k < |AfterCharge(s, factory, fee).moves| && CreditRecorded(AfterCharge(s, factory, fee), k)
  {
    ChargeWrites(s, factory, fee);
    if k < |s.moves| { RecordsStay(s, AfterCharge(s, factory, fee), k); }
  }

  lemma ChargeKeepsSound(s: State, factory: nat, fee: int)
    requires Sound(s) && factory < |s.balances| && 0 < fee <= s.balances[factory]
    ensures Sound(Act(s, Charge(factory, fee)).0)
  {
    var after := AfterCharge(s, factory, fee);
    ChargeWrites(s, factory, fee);
    forall f | 0 <= f < |after.balances| ensures BalanceOk(after, f) { ChargeBalances(s, factory, fee, f); }
    forall t | 0 <= t < |after.topUps| ensures TopUpOk(after, t) { ChargeTopUp(s, factory, fee, t); }
    forall k | 0 <= k < |after.moves| ensures CreditRecorded(after, k) { ChargeRecords(s, factory, fee, k); }
    forall a | a in after.pending ensures ActionOk(after, after.pending[a]) { assert ActionOk(s, s.pending[a]); }
  }

  /** A manual credit is a session opened and credited in one transaction. */
  lemma ManualKeepsSound(s: State, factory: nat, amount: int, now: int)
    requires Sound(s)
    ensures Sound(Manual(s, factory, amount, now).0)
  {
    if amount > 0 && factory < |s.balances| {
      var started := Sessions(s, factory, amount, now);
      StartKeepsSound(s, factory, amount, now);
      CreditKeepsSound(started, |s.topUps|);
      assert Manual(s, factory, amount, now).0 == Act(started, Credit(|s.topUps|)).0;
    }
  }

  lemma ActKeepsSound(s: State, action: Action)
    requires Sound(s) && ActionOk(s, action)
    ensures Sound(Act(s, action).0) && Evolves(s.topUps, Act(s, action).0.topUps)
  {
    match action
    case MarkFailed(t, to) =>
      assert TopUpOk(s, t);
      if s.topUps[t].status.Initiated? { QuietKeepsSound(s, Act(s, action).0); }
    case Credit(t) => if s.topUps[t].status.Initiated? { CreditKeepsSound(s, t); }
    case Charge(factory, fee) => if s.balances[factory] >= fee { ChargeKeepsSound(s, factory, fee); }
  }

  lemma ReadKeepsSound(s: State, step: Step, now: int)
    requires Sound(s) && (step.DoRead? || step.DoReadBalance?)
    ensures Sound(Apply(s, step, now).0) && Evolves(s.topUps, Apply(s, step, now).0.topUps)
  {
    var after := Apply(s, step, now).0;
    if step.DoReadBalance? { FeeSame(s, after, step); }
    QuietKeepsSound(s, after);
  }

  lemma FeeSame(s: State, after: State, step: Step)
    requires step.DoReadBalance? && after == ReadBalance(s, step.actor, step.factory, step.required, step.fee).0
    ensures forall f: nat :: FeeTotal(after.passes, f) == FeeTotal(s.passes, f)
  {
    forall f: nat ensures FeeTotal(after.passes, f) == FeeTotal(s.passes, f) {
      FeeAdd(s.passes, Pass(step.factory, 0), f);
    }
  }

  /** Dropping a waiting request changes nothing else. */
  lemma DropKeepsSound(s: State, actor: nat)
    requires Sound(s)
    ensures Sound(Dropped(s, actor))
  {
    QuietKeepsSound(s, Dropped(s, actor));
  }

  lemma FinishKeepsSound(s: State, actor: nat)
    requires Sound(s)
    ensures Sound(Finish(s, actor).0) && Evolves(s.topUps, Finish(s, actor).0.topUps)
  {
    if actor in s.pending {
      DropKeepsSound(s, actor);
      assert ActionOk(s, s.pending[actor]);
      ActKeepsSound(Dropped(s, actor), s.pending[actor]);
    }
  }

  /** Every step of every actor keeps the wallet sound. */
  lemma ApplyKeepsSound(s: State, step: Step, now: int)
    requires Sound(s)
    ensures Sound(Apply(s, step, now).0) && Evolves(s.topUps, Apply(s, step, now).0.topUps)
  {
    match step
    case DoStart(factory, amount, gatewayOpens) =>
      if Start(s, factory, amount, gatewayOpens, now).1.Accepted? { StartKeepsSound(s, factory, amount, now); }
    case DoManual(factory, amount) => ManualKeepsSound(s, factory, amount, now);
    case DoSweep(factory) => QuietKeepsSound(s, Sweep(s, factory, now));
    case DoRead(_, _, _, _, _) => ReadKeepsSound(s, step, now);
    case DoReadBalance(_, _, _, _) => ReadKeepsSound(s, step, now);
    case DoFinish(actor) => FinishKeepsSound(s, actor);
    case DoThrow(actor, late) => if late { FinishKeepsSound(s, actor); } else { DropKeepsSound(s, actor); }
  }

  datatype Event = Event(now: int, step: Step)

  function After(factories: nat, events: seq<Event>): State {
    if events == [] then Opened(factories)
    else Apply(After(factories, events[..|events| - 1]), events[|events| - 1].step, events[|events| - 1].now).0
  }

  /** Safety under every interleaving. */
  lemma {:induction false} RunIsSound(factories: nat, events: seq<Event>)
    ensures Sound(After(factories, events))
  {
    if events != [] {
      RunIsSound(factories, events[..|events| - 1]);
      ApplyKeepsSound(After(factories, events[..|events| - 1]), events[|events| - 1].step, events[|events| - 1].now);
    }
  }

  /** Terminal statuses never change: whatever happens later, a top-up no longer initiated stays as it is. */
  lemma {:induction false} TerminalForever(factories: nat, before: seq<Event>, more: seq<Event>)
    ensures Evolves(After(factories, before).topUps, After(factories, before + more).topUps)
  {
    if more == [] {
      assert before + more == before;
    } else {
      var init, e := more[..|more| - 1], more[|more| - 1];
      assert (before + more)[..|before + more| - 1] == before + init;
      TerminalForever(factories, before, init);
      RunIsSound(factories, before + init);
      ApplyKeepsSound(After(factories, before + init), e.step, e.now);
    }
  }

  /** Whether the answer "success" is given exactly if the top-up is verified afterwards. */
  predicate TellsTruth(after: State, reply: Reply, t: nat) {
    t < |after.topUps| && (reply.Success? <==> after.topUps[t].status.Verified?)
  }

  /** The step is one in which a callback about the top-up answers: at its read, by its transaction, or by throwing. */
  predicate AnswersAbout(s: State, step: Step, t: nat) {
    match step
    case DoRead(actor, u, _, _, _) => u == t && actor !in s.pending && t < |s.topUps| && !s.topUps[t].status.Initiated?
    case DoFinish(actor) => actor in s.pending && IsAbout(s.pending[actor], t)
    case DoThrow(actor, late) => t < |s.topUps| && (actor in s.pending ==> IsAbout(s.pending[actor], t))
    case _ => false
  }

  predicate IsAbout(action: Action, t: nat) { !action.Charge? && action.t == t }

  /** The two ways to answer "failed" about a credited session: to have decided to fail one that another request
      credited meanwhile, and to throw when it is credited already, or by the callback's own transaction. */
  predicate Misreports(s: State, step: Step, t: nat)
    requires t < |s.topUps|
  {
    match step
    case DoFinish(actor) => actor in s.pending && s.pending[actor].MarkFailed? && s.topUps[t].status.Verified?
    case DoThrow(actor, late) =>
      s.topUps[t].status.Verified?
      || (late && actor in s.pending && s.pending[actor].Credit? && s.topUps[t].status.Initiated?)
    case _ => false
  }

  /** However a callback answers, the answer is true exactly if it is not one of those. */
  lemma AnswerIsTrue(s: State, step: Step, now: int, t: nat)
    requires Sound(s) && AnswersAbout(s, step, t)
    ensures t < |s.topUps|
    ensures TellsTruth(Apply(s, step, now).0, Apply(s, step, now).1, t) <==> !Misreports(s, step, t)
  {
    match step
    case DoFinish(actor) =>
      assert ActionOk(s, s.pending[actor]);
      assert TopUpOk(s, t);
    case DoThrow(actor, late) =>
      assert TopUpOk(s, t);
    case _ =>
  }

  /** A callback that answers success answers about a verified top-up. */
  lemma SuccessIsVerified(s: State, actor: nat)
    requires Sound(s) && Finish(s, actor).1.Success?
    ensures s.pending[actor].Credit? && Finish(s, actor).0.topUps[s.pending[actor].t].status.Verified?
  {
    assert actor in s.pending && ActionOk(s, s.pending[actor]);
  }

  /** So for a session that its callback decided to credit the answer is always true, and it is "success" exactly unless
      another request closed the session without a credit. */
  lemma CreditAnswers(s: State, actor: nat)
    requires Sound(s) && actor in s.pending && s.pending[actor].Credit?
    ensures s.pending[actor].t < |s.topUps|
    ensures var status := s.topUps[s.pending[actor].t].status;
      Finish(s, actor).1 == if status.Initiated? || status.Verified? then Success else Failure
  {
    assert ActionOk(s, s.pending[actor]);
    assert TopUpOk(s, s.pending[actor].t);
  }

  /** An answer given at the read is true, and there is one exactly unless the session is still initiated. */
  lemma ImmediateAnswerIsTrue(s: State, actor: nat, t: nat, ok: bool, allowed: bool, confirmed: bool, now: int)
    requires actor !in s.pending
    ensures var (after, reply) := ReadCallback(s, actor, t, ok, allowed, confirmed, now);
      && (reply.Waiting? <==> t < |s.topUps| && s.topUps[t].status.Initiated?)
      && (!reply.Waiting? ==> after == s && (TellsTruth(after, reply, t) || (reply.Failure? && t >= |s.topUps|)))
  {
  }

  function Session(status: Status, balanceAfter: Option<int>): TopUp { TopUp(0, 5_000_000, status, 0, balanceAfter) }

  /** It can be false: two callbacks read the same session, one credits it, and the other answers failure. */
  lemma FailureCanBeVerified() returns (events: seq<Event>)
    ensures After(1, events).topUps == [Session(Verified, Some(5_000_000))]
    ensures 2 in After(1, events).pending && Finish(After(1, events), 2).1.Failure?
  {
    var steps := [DoStart(0, 5_000_000, true), DoRead(1, 0, true, true, true),
      DoRead(2, 0, false, true, true), DoFinish(1)];
    events := [];
    for i := 0 to 4
      invariant i == 0 ==> After(1, events) == Opened(1)
      invariant i == 1 ==> After(1, events) == State([0], [Session(Initiated, None)], [], map[], [])
      invariant i == 2 ==> After(1, events) == State([0], [Session(Initiated, None)], [], map[1 := Credit(0)], [])
      invariant i == 3 ==>
        After(1, events) == State([0], [Session(Initiated, None)], [],
          map[1 := Credit(0), 2 := MarkFailed(0, Cancelled)], [])
      invariant i == 4 ==>
        After(1, events) == State([5_000_000], [Session(Verified, Some(5_000_000))], [],
          map[2 := MarkFailed(0, Cancelled)], [Credited(0)])
    {
      assert (events + [Event(0, steps[i])])[..|events|] == events;
      ExampleStep(After(1, events), i);
      events := events + [Event(0, steps[i])];
    }
  }

  lemma ExampleStep(s: State, i: nat)
    ensures i == 0 && s == Opened(1) ==>
      Apply(s, DoStart(0, 5_000_000, true), 0).0 == State([0], [Session(Initiated, None)], [], map[], [])
    ensures i == 1 && s == State([0], [Session(Initiated, None)], [], map[], []) ==>
      Apply(s, DoRead(1, 0, true, true, true), 0).0 == s.(pending := map[1 := Credit(0)])
    ensures i == 2 && s == State([0], [Session(Initiated, None)], [], map[1 := Credit(0)], []) ==>
      Apply(s, DoRead(2, 0, false, true, true), 0).0
        == s.(pending := map[1 := Credit(0), 2 := MarkFailed(0, Cancelled)])
    ensures i == 3 && s == State([0], [Session(Initiated, None)], [],
      map[1 := Credit(0), 2 := MarkFailed(0, Cancelled)], []) ==>
      Apply(s, DoFinish(1), 0).0
      == State([5_000_000], [Session(Verified, Some(5_000_000))], [], map[2 := MarkFailed(0, Cancelled)], [Credited(0)])
  {
    assert i == 3 ==> map[1 := Credit(0), 2 := MarkFailed(0, Cancelled)] - {1} == map[2 := MarkFailed(0, Cancelled)];
  }
}
