/**
 * Gate-pass requests from their read to their claim: who may make them, on which passes, and exactly what they leave on
 * the pass they then find, whatever other requests do in between.
 */
module GatePassOutcomes {
  import opened GatePassModel
  import opened Options
  import PlateGrammar

  /** The pass the request is about when it is concluded, with the answer: it is written only if its status is still the
      one that was read, and no other pass changes. */
  ghost predicate Lands(found: State, id: nat, expected: Status, row: Pass, done: State, answer: Reply) {
    && |done.passes| == |found.passes| && id < |found.passes|
    && (forall i :: 0 <= i < |found.passes| && i != id ==> done.passes[i] == found.passes[i])
    && (if found.passes[id].status == expected then answer == Accepted && done.passes[id] == row
        else answer == Conflict && done.passes[id] == found.passes[id])
  }

  lemma FinishLands(found: State, actor: nat, claim: Claim)
    requires actor in found.pending && found.pending[actor] == claim && claim.id < |found.passes|
    ensures var (done, answer) := Apply(found, DoFinish(actor));
      Lands(found, claim.id, claim.expected, Written(found.passes[claim.id], claim.change), done, answer)
  {
  }

  lemma ClaimStands(steps: seq<Step>, read: Step, more: seq<Step>, actor: nat, claim: Claim)
    requires actor in Apply(After(steps), read).0.pending && Apply(After(steps), read).0.pending[actor] == claim
    requires forall k :: 0 <= k < |more| ==> more[k] != DoFinish(actor)
    requires claim.id < |After(steps).passes|
    ensures var found := After(steps + [read] + more);
      actor in found.pending && found.pending[actor] == claim && claim.id < |found.passes|
  {
    AfterOne(steps, read);
    ClaimWaits(steps + [read], more, actor);
    PassesStay(steps, [read] + more, claim.id);
    assert steps + ([read] + more) == steps + [read] + more;
  }

  lemma ClaimLands(steps: seq<Step>, read: Step, more: seq<Step>, actor: nat, claim: Claim)
    requires actor in Apply(After(steps), read).0.pending && Apply(After(steps), read).0.pending[actor] == claim
    requires forall k :: 0 <= k < |more| ==> more[k] != DoFinish(actor)
    requires claim.id < |After(steps).passes|
    ensures var found := After(steps + [read] + more);
      var (done, answer) := Apply(found, DoFinish(actor));
      && claim.id < |found.passes|
      && Lands(found, claim.id, claim.expected, Written(found.passes[claim.id], claim.change), done, answer)
  {
    ClaimStands(steps, read, more, actor, claim);
    FinishLands(After(steps + [read] + more), actor, claim);
  }

  lemma PassesStay(steps: seq<Step>, more: seq<Step>, id: nat)
    requires id < |After(steps).passes|
    ensures id < |After(steps + more).passes|
  {
    ChangedIffCommitted(steps, more, id);
  }

  function Given(entered: Option<string>, stored: string): string { if entered.Some? then entered.value else stored }

  // ---------------------------------------------------------------- reasons

  ghost predicate Blank(s: string) { forall i :: 0 <= i < |s| ==> PlateGrammar.IsSpace(s[i]) }

  /** The text without the blanks around it. */
  ghost predicate IsTrimmed(s: string, inner: string) {
    && (inner != "" ==> !PlateGrammar.IsSpace(inner[0]) && !PlateGrammar.IsSpace(inner[|inner| - 1]))
    && exists left, right :: Blank(left) && Blank(right) && s == left + inner + right
  }

  /** What is kept of a reason: at most two thousand characters of the trimmed text. */
  ghost predicate IsKept(reason: string, kept: string) {
    exists inner :: IsTrimmed(reason, inner) && kept == if |inner| > 2000 then inner[..2000] else inner
  }

  lemma {:induction false} LeftTrimmed(s: string)
    ensures var inner := PlateGrammar.TrimLeft(s);
      (inner != "" ==> !PlateGrammar.IsSpace(inner[0])) && exists left :: Blank(left) && s == left + inner
  {
    var inner := PlateGrammar.TrimLeft(s);
    if s != "" && PlateGrammar.IsSpace(s[0]) {
      LeftTrimmed(s[1..]);
      var left :| Blank(left) && s[1..] == left + inner;
      assert Blank([s[0]] + left) && s == [s[0]] + left + inner;
    } else {
      assert Blank("") && s == "" + inner;
    }
  }

  lemma {:induction false} RightTrimmed(s: string)
    ensures var inner := PlateGrammar.TrimRight(s);
      && (inner != "" ==> !PlateGrammar.IsSpace(inner[|inner| - 1]) && inner[0] == s[0])
      && exists right :: Blank(right) && s == inner + right
  {
    var inner, n := PlateGrammar.TrimRight(s), |s| - 1;
    if s != "" && PlateGrammar.IsSpace(s[n]) {
      RightTrimmed(s[..n]);
      var right :| Blank(right) && s[..n] == inner + right;
      assert Blank(right + [s[n]]) && s == inner + (right + [s[n]]);
    } else {
      assert Blank("") && s == inner + "";
    }
  }

  lemma TrimIs(s: string)
    ensures IsTrimmed(s, PlateGrammar.Trim(s))
  {
    var rest, inner := PlateGrammar.TrimLeft(s), PlateGrammar.Trim(s);
    LeftTrimmed(s);
    RightTrimmed(rest);
    var left :| Blank(left) && s == left + rest;
    var right :| Blank(right) && rest == inner + right;
    assert s == left + inner + right;
  }

  lemma CleanIsKept(reason: string)
    ensures IsKept(reason, Clean(reason))
  {
    TrimIs(reason);
  }

  lemma CleanIsBlank(reason: string)
    ensures Clean(reason) == "" <==> Blank(reason)
  {
    var inner := PlateGrammar.Trim(reason);
    assert IsTrimmed(reason, inner) by { TrimIs(reason); }
    if inner != "" {
      var left, right :| Blank(left) && Blank(right) && reason == left + inner + right;
      assert reason[|left|] == inner[0];
    }
  }

  // ---------------------------------------------------------------- edits

  /** The pass after an edit: what was entered replaces what was declared; a plate or kind entered settles the kind
      anew, from the plate entered or else the one that was read; and a pass that had been rejected starts its review
      again. */
  ghost predicate IsEdited(found: Pass, was: Pass, edit: Edit, kindOf: (string, Option<string>) -> string, row: Pass) {
    && row.declared.driver == Given(edit.driver, found.declared.driver)
    && row.declared.plate == Given(edit.plate, found.declared.plate)
    && row.declared.cargo == Given(edit.cargo, found.declared.cargo)
    && row.declared.kind == (if edit.plate.Some? || edit.kind.Some?
                             then kindOf(Given(edit.plate, was.declared.plate), edit.kind) else found.declared.kind)
    && row.trail == found.trail + [Edited]
    && (if was.status == Rejected
        then row.status == Pending && row.approver == None && row.verifier == None && row.notes == ""
        else row.status == found.status && row.approver == found.approver && row.verifier == found.verifier
             && row.notes == found.notes)
  }

  /** An edit is taken up on a pass that is pending or was rejected, of a factory that is not suspended. */
  lemma EditIsRead(s: State, actor: nat, id: nat, edit: Edit, suspended: bool,
                   kindOf: (string, Option<string>) -> string)
    ensures var (after, reply) := Apply(s, DoReadEdit(actor, id, edit, suspended, kindOf));
      && after.passes == s.passes
      && reply == (if actor in s.pending then Conflict
                   else if id >= |s.passes| then NotFound
                   else if suspended then Forbidden
                   else if s.passes[id].status != Pending && s.passes[id].status != Rejected then Conflict
                   else if edit == Edit(None, None, None, None) then BadRequest
                   else Waiting)
      && (reply != Waiting ==> after == s)
  {
  }

  lemma WritesEdit(found: Pass, was: Pass, edit: Edit, kindOf: (string, Option<string>) -> string, change: Change)
    requires change == ToEdit(edit, if edit.plate.Some? || edit.kind.Some?
      then Some(kindOf(Or(edit.plate, was.declared.plate), edit.kind)) else None, was.status.Rejected?)
    ensures IsEdited(found, was, edit, kindOf, Written(found, change))
  {
  }

  lemma EditLands(steps: seq<Step>, read: Step, more: seq<Step>)
    requires read.DoReadEdit? && Apply(After(steps), read).1 == Waiting
    requires forall k :: 0 <= k < |more| ==> more[k] != DoFinish(read.actor)
    ensures var found := After(steps + [read] + more);
      var (done, answer) := Apply(found, DoFinish(read.actor));
      && read.id < |After(steps).passes| && read.id < |found.passes|
      && exists row :: Lands(found, read.id, After(steps).passes[read.id].status, row, done, answer)
                       && IsEdited(found.passes[read.id], After(steps).passes[read.id], read.edit, read.kindOf, row)
  {
    var claim := Apply(After(steps), read).0.pending[read.actor];
    ClaimLands(steps, read, more, read.actor, claim);
    var found := After(steps + [read] + more);
    var row := Written(found.passes[read.id], claim.change);
    WritesEdit(found.passes[read.id], After(steps).passes[read.id], read.edit, read.kindOf, claim.change);
    assert IsEdited(found.passes[read.id], After(steps).passes[read.id], read.edit, read.kindOf, row);
  }

  // ---------------------------------------------------------------- reviews

  /** The park's manager approves and rejects pending passes, a guard verifies and denies approved ones, and a super
      admin does either. */
  predicate Entitled(role: Role, review: Review) {
    match review
    case Approve => role == ParkManager || role == SuperAdmin
    case Reject => role == ParkManager || role == SuperAdmin
    case Verify => role == Guard || role == SuperAdmin
    case Deny => role == Guard || role == SuperAdmin
  }

  function StageOf(review: Review): Status { if review == Approve || review == Reject then Pending else Approved }

  predicate Turns(review: Review) { review == Reject || review == Deny }

  lemma ReviewIsRead(s: State, actor: nat, id: nat, review: Review, user: User, reason: string)
    ensures var (after, reply) := Apply(s, DoReadReview(actor, id, review, user, reason));
      && after.passes == s.passes
      && reply == (if actor in s.pending then Conflict
                   else if id >= |s.passes| then NotFound
                   else if !Entitled(user.role, review) then Forbidden
                   else if s.passes[id].status != StageOf(review) then Conflict
                   else if Turns(review) && Blank(reason) then BadRequest
                   else Waiting)
      && (reply != Waiting ==> after == s)
  {
    CleanIsBlank(reason);
  }

  /** The pass after a review: the reason for turning it down, its reviewer, and the declaration it was decided on. */
  ghost predicate IsReviewed(found: Pass, review: Review, user: User, reason: string, row: Pass) {
    && row.declared == found.declared
    && (if Turns(review) then IsKept(reason, row.notes) else row.notes == found.notes)
    && match review
       case Approve =>
         row.status == Approved && row.approver == Some(user.id) && row.verifier == found.verifier
         && row.trail == found.trail + [ApprovedBy(user, found.declared)]
       case Reject =>
         row.status == Rejected && row.approver == Some(user.id) && row.verifier == found.verifier
         && row.trail == found.trail + [RejectedBy(user)]
       case Verify =>
         row.status == Completed && row.verifier == Some(user.id) && row.approver == found.approver
         && row.trail == found.trail + [VerifiedBy(user, found.declared)]
       case Deny =>
         row.status == Rejected && row.verifier == Some(user.id) && row.approver == found.approver
         && row.trail == found.trail + [DeniedBy(user)]
  }

  lemma ReviewLands(steps: seq<Step>, read: Step, more: seq<Step>)
    requires read.DoReadReview? && Apply(After(steps), read).1 == Waiting
    requires forall k :: 0 <= k < |more| ==> more[k] != DoFinish(read.actor)
    ensures var found := After(steps + [read] + more);
      var (done, answer) := Apply(found, DoFinish(read.actor));
      && read.id < |found.passes|
      && exists row :: Lands(found, read.id, StageOf(read.review), row, done, answer)
                       && IsReviewed(found.passes[read.id], read.review, read.user, read.reason, row)
  {
    var claim := Apply(After(steps), read).0.pending[read.actor];
    ClaimLands(steps, read, more, read.actor, claim);
    var found := After(steps + [read] + more);
    var row := Written(found.passes[read.id], claim.change);
    CleanIsKept(read.reason);
    assert IsReviewed(found.passes[read.id], read.review, read.user, read.reason, row);
  }

  // ---------------------------------------------------------------- withdrawals

  /** A super admin, a park's manager or a factory's owner withdraws any pass but a completed or cancelled one. */
  lemma CancelIsRead(s: State, actor: nat, id: nat, user: User, reason: string)
    ensures var (after, reply) := Apply(s, DoReadCancel(actor, id, user, reason));
      && after.passes == s.passes
      && reply == (if actor in s.pending then Conflict
                   else if user.role == Guard || user.role == OtherRole then Forbidden
                   else if id >= |s.passes| then NotFound
                   else if s.passes[id].status == Completed || s.passes[id].status == Cancelled then Conflict
                   else Waiting)
      && (reply != Waiting ==> after == s)
  {
  }

  /** A withdrawn pass is cancelled, and a note says so below those that were read. */
  ghost predicate IsWithdrawn(found: Pass, was: Pass, reason: string, row: Pass) {
    exists kept :: IsKept(reason, kept) && row == Withdrawal(found, was, kept)
  }

  function Withdrawal(found: Pass, was: Pass, kept: string): Pass {
    var note := if kept == "" then "لغو شد" else "لغو شد" + ": " + kept;
    found.(status := Cancelled, trail := found.trail + [Withdrawn],
           notes := if was.notes == "" then note else was.notes + "\n" + note)
  }

  lemma CancelLands(steps: seq<Step>, read: Step, more: seq<Step>)
    requires read.DoReadCancel? && Apply(After(steps), read).1 == Waiting
    requires forall k :: 0 <= k < |more| ==> more[k] != DoFinish(read.actor)
    ensures var found := After(steps + [read] + more);
      var (done, answer) := Apply(found, DoFinish(read.actor));
      && read.id < |After(steps).passes| && read.id < |found.passes|
      && exists row :: Lands(found, read.id, After(steps).passes[read.id].status, row, done, answer)
                       && IsWithdrawn(found.passes[read.id], After(steps).passes[read.id], read.reason, row)
  {
    var claim := Apply(After(steps), read).0.pending[read.actor];
    ClaimLands(steps, read, more, read.actor, claim);
    var found := After(steps + [read] + more);
    var row := Written(found.passes[read.id], claim.change);
    CleanIsKept(read.reason);
    assert row == Withdrawal(found.passes[read.id], After(steps).passes[read.id], Clean(read.reason));
  }

  /** A new pass is pending and unreviewed, as declared. */
  lemma CreateOutcome(s: State, declared: Declared, notes: string)
    ensures Apply(s, DoCreate(declared, notes)).0
      == s.(passes := s.passes + [Pass(declared, Pending, None, None, notes, [])])
  {
  }
}
