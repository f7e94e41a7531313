/**
 * The wallet as the service runs it: each request's read and each conditional transaction as a
 * method over the stored rows, proved to be one step of the wallet model.
 */
module WalletService {
  import opened Options
  import opened WalletModel

  class Wallet {
    var balances: seq<int>
    var topUps: seq<TopUp>
    var passes: seq<Pass>
    /** Requests between their read and their transaction. */
    var pending: map<nat, Action>
    ghost var moves: seq<Move>

    ghost function Value(): State
      reads this
    {
      State(balances, topUps, passes, pending, moves)
    }

    ghost predicate Valid()
      reads this
    {
      Sound(Value())
    }

    constructor (factories: nat)
      ensures Valid() && Value() == Opened(factories)
    {
      balances, topUps, passes, pending, moves := seq(factories, _ => 0), [], [], map[], [];
    }

    method StartTopUp(factory: nat, amount: int, gatewayOpens: bool, now: int) returns (reply: Reply)
      requires Valid()
      modifies this
      ensures Valid() && (Value(), reply) == Apply(old(Value()), DoStart(factory, amount, gatewayOpens), now)
    {
      ApplyKeepsSound(Value(), DoStart(factory, amount, gatewayOpens), now);
      if amount % 100 != 0 || amount < TOP_UP_MIN || amount > TOP_UP_MAX { return Rejected; }
      if factory >= |balances| { return Rejected; }
      if !gatewayOpens { return Rejected; }
      topUps := topUps + [TopUp(factory, amount, Initiated, now, None)];
      return Accepted;
    }

    method TopUpManually(factory: nat, amount: int, now: int) returns (reply: Reply)
      requires Valid()
      modifies this
      ensures Valid() && (Value(), reply) == Apply(old(Value()), DoManual(factory, amount), now)
    {
      ApplyKeepsSound(Value(), DoManual(factory, amount), now);
      if amount <= 0 || factory >= |balances| { return Rejected; }
      balances := balances[factory := balances[factory] + amount];
      moves := moves + [Credited(|topUps|)];
      topUps := topUps + [TopUp(factory, amount, Verified, now, Some(balances[factory]))];
      return Accepted;
    }

    /** Reading the wallet first cancels its abandoned sessions. */
    method SweepExpired(factory: nat, now: int)
      requires Valid()
      modifies this`topUps
      ensures Valid() && Value() == Apply(old(Value()), DoSweep(factory), now).0
    {
      ApplyKeepsSound(Value(), DoSweep(factory), now);
      for i := 0 to |topUps|
        invariant |topUps| == |old(topUps)|
        invariant forall k :: 0 <= k < i ==> topUps[k] == Sweep(old(Value()), factory, now).topUps[k]
        invariant forall k :: i <= k < |topUps| ==> topUps[k] == old(topUps)[k]
      {
        var row := topUps[i];
        if row.factory == factory && row.status.Initiated? && row.created < now - EXPIRY {
          topUps := topUps[i := row.(status := Cancelled)];
        }
      }
      assert topUps == Sweep(old(Value()), factory, now).topUps;
    }

    method ReadForCallback(actor: nat, t: nat, ok: bool, allowed: bool, confirmed: bool, now: int)
      returns (reply: Reply)
      requires Valid()
      modifies this
      ensures Valid() && (Value(), reply) == Apply(old(Value()), DoRead(actor, t, ok, allowed, confirmed), now)
    {
      ApplyKeepsSound(Value(), DoRead(actor, t, ok, allowed, confirmed), now);
      if actor in pending { return Rejected; }
      if t >= |topUps| { return Failure; }
      var row := topUps[t];
      if row.status.Verified? { return Success; }
      if !row.status.Initiated? { return Failure; }
      if !ok { pending := pending[actor := MarkFailed(t, Cancelled)]; return Waiting; }
      if !allowed { pending := pending[actor := MarkFailed(t, Failed)]; return Waiting; }
      if now - row.created > EXPIRY { pending := pending[actor := MarkFailed(t, Failed)]; return Waiting; }
      if !confirmed { pending := pending[actor := MarkFailed(t, Failed)]; return Waiting; }
      pending := pending[actor := Credit(t)];
      return Waiting;
    }

    method ReadForPass(actor: nat, factory: nat, required: bool, fee: int) returns (reply: Reply)
      requires Valid()
      modifies this
      ensures Valid() && (Value(), reply) == Apply(old(Value()), DoReadBalance(actor, factory, required, fee), 0)
    {
      ApplyKeepsSound(Value(), DoReadBalance(actor, factory, required, fee), 0);
      if actor in pending || factory >= |balances| { return Rejected; }
      var shouldCharge := required && fee > 0;
      if !shouldCharge {
        passes := passes + [Pass(factory, 0)];
        return Accepted;
      }
      if balances[factory] < fee { return Rejected; }
      pending := pending[actor := Charge(factory, fee)];
      return Waiting;
    }

    /** A request that throws: its caller is told of a failure, whether or not its transaction was committed before. */
    method ThrowRequest(actor: nat, late: bool) returns (reply: Reply)
      requires Valid()
      modifies this
      ensures Valid() && (Value(), reply) == Apply(old(Value()), DoThrow(actor, late), 0)
    {
      ApplyKeepsSound(Value(), DoThrow(actor, late), 0);
      reply := if actor in pending && pending[actor].Charge? then Rejected else Failure;
      if late {
        var unheard := FinishRequest(actor);
      } else {
        pending := pending - {actor};
      }
    }

    method FinishRequest(actor: nat) returns (reply: Reply)
      requires Valid()
      modifies this
      ensures Valid() && (Value(), reply) == Apply(old(Value()), DoFinish(actor), 0)
    {
      ApplyKeepsSound(Value(), DoFinish(actor), 0);
      if actor !in pending { return Rejected; }
      var action := pending[actor];
      assert ActionOk(Value(), action);
      DropKeepsSound(Value(), actor);
      pending := pending - {actor};
      match action {
        case MarkFailed(t, to) =>
          if topUps[t].status.Initiated? { topUps := topUps[t := topUps[t].(status := to)]; }
          reply := Failure;
        case Credit(t) => reply := CreditSession(t);
        case Charge(factory, fee) => reply := ChargeFactory(factory, fee);
      }
    }

    method CreditSession(t: nat) returns (reply: Reply)
      requires Valid() && t < |topUps|
      modifies this
      ensures (Value(), reply) == Act(old(Value()), Credit(t))
    {
      var row := topUps[t];
      assert TopUpOk(Value(), t);
      if !row.status.Initiated? { return if row.status.Verified? then Success else Failure; }
      balances := balances[row.factory := balances[row.factory] + row.amount];
      topUps := topUps[t := row.(status := Verified, balanceAfter := Some(balances[row.factory]))];
      moves := moves + [Credited(t)];
      return Success;
    }

    method ChargeFactory(factory: nat, fee: int) returns (reply: Reply)
      requires factory < |balances|
      modifies this
      ensures (Value(), reply) == Act(old(Value()), Charge(factory, fee))
    {
      if balances[factory] < fee { return Rejected; }
      balances := balances[factory := balances[factory] - fee];
      passes := passes + [Pass(factory, fee)];
      moves := moves + [Debited(factory, fee)];
      return Accepted;
    }
  }
}
