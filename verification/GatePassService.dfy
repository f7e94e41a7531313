/**
 * Gate-pass review as the service runs it: each request's read and the conditional claim, as methods
 * over the stored rows, proved to be one step of the review model.
 */
module GatePassService {
  import opened GatePassModel
  import opened Options

  class GatePassDesk {
    var passes: seq<Pass>
    /** Requests between their read and their claim. */
    var pending: map<nat, Claim>

    ghost function Value(): State
      reads this
    {
      State(passes, pending)
    }

    ghost predicate Valid()
      reads this
    {
      Sound(Value())
    }

    constructor ()
      ensures Valid() && Value() == EMPTY
    {
      passes, pending := [], map[];
    }

    method CreatePass(declared: Declared, notes: string)
      requires Valid()
      modifies this`passes
      ensures Valid() && Value() == Apply(old(Value()), DoCreate(declared, notes)).0
    {
      StepKeepsSound(Value(), DoCreate(declared, notes));
      passes := passes + [Pass(declared, Pending, None, None, notes, [])];
    }

    method ReadForEdit(actor: nat, id: nat, edit: Edit, suspended: bool, kindOf: (string, Option<string>) -> string)
      returns (reply: Reply)
      requires Valid()
      modifies this`pending
      ensures Valid() && (Value(), reply) == Apply(old(Value()), DoReadEdit(actor, id, edit, suspended, kindOf))
    {
      StepKeepsSound(Value(), DoReadEdit(actor, id, edit, suspended, kindOf));
      if actor in pending { return Conflict; }
      if id >= |passes| { return NotFound; }
      if suspended { return Forbidden; }
      var existing := passes[id];
      if !existing.status.Pending? && !existing.status.Rejected? { return Conflict; }
      if edit.Empty() { return BadRequest; }
      var kind: Option<string> := None;
      if edit.plate.Some? || edit.kind.Some? {
        kind := Some(kindOf(Or(edit.plate, existing.declared.plate), edit.kind));
      }
      pending := pending[actor := Claim(id, existing.status, ToEdit(edit, kind, existing.status.Rejected?))];
      return Waiting;
    }

    method ReadForReview(actor: nat, id: nat, review: Review, user: User, reason: string) returns (reply: Reply)
      requires Valid()
      modifies this`pending
      ensures Valid() && (Value(), reply) == Apply(old(Value()), DoReadReview(actor, id, review, user, reason))
    {
      StepKeepsSound(Value(), DoReadReview(actor, id, review, user, reason));
      if actor in pending { return Conflict; }
      if id >= |passes| { return NotFound; }
      var parkStage := review.Approve? || review.Reject?;
      if parkStage && !user.role.ParkManager? && !user.role.SuperAdmin? { return Forbidden; }
      if !parkStage && !user.role.Guard? && !user.role.SuperAdmin? { return Forbidden; }
      var expected := if parkStage then Pending else Approved;
      if passes[id].status != expected { return Conflict; }
      var cleanReason := Clean(reason);
      if (review.Reject? || review.Deny?) && cleanReason == "" { return BadRequest; }
      pending := pending[actor := Claim(id, expected, ToReview(review, user, cleanReason))];
      return Waiting;
    }

    method ReadForCancel(actor: nat, id: nat, user: User, reason: string) returns (reply: Reply)
      requires Valid()
      modifies this`pending
      ensures Valid() && (Value(), reply) == Apply(old(Value()), DoReadCancel(actor, id, user, reason))
    {
      StepKeepsSound(Value(), DoReadCancel(actor, id, user, reason));
      if actor in pending { return Conflict; }
      if !user.role.SuperAdmin? && !user.role.ParkManager? && !user.role.FactoryOwner? { return Forbidden; }
      if id >= |passes| { return NotFound; }
      var pass := passes[id];
      if !pass.status.Pending? && !pass.status.Approved? && !pass.status.Rejected? { return Conflict; }
      var note := if Clean(reason) != "" then WITHDRAWN + ": " + Clean(reason) else WITHDRAWN;
      var notes := if pass.notes != "" then pass.notes + "\n" + note else note;
      pending := pending[actor := Claim(id, pass.status, ToCancel(notes))];
      return Waiting;
    }

    method FinishRequest(actor: nat) returns (reply: Reply)
      requires Valid()
      modifies this
      ensures Valid() && (Value(), reply) == Apply(old(Value()), DoFinish(actor))
    {
      StepKeepsSound(Value(), DoFinish(actor));
      if actor !in pending { return NotFound; }
      var claim := pending[actor];
      pending := pending - {actor};
      assert ClaimOk(old(Value()), claim);
      var claimed := passes[claim.id].status == claim.expected;
      if !claimed { return Conflict; }
      passes := passes[claim.id := Written(passes[claim.id], claim.change)];
      return Accepted;
    }
  }
}
