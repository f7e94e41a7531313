/**
 * Two-stage gate-pass review as a protocol: every request reads its pass, decides, and later claims
 * the pass on the status it expects; any number of requests interleave in any order.
 */
module GatePassModel {
  import opened Options
  import PlateGrammar

  datatype Role = SuperAdmin | ParkManager | Guard | FactoryOwner | OtherRole

  datatype User = User(id: nat, role: Role)

  datatype Status = Pending | Approved | Rejected | Completed | Cancelled

  /** What the vehicle and its load are declared to be. */
  datatype Declared = Declared(driver: string, plate: string, kind: string, cargo: string)

  /** The claims committed on a pass, in order: who, and the declaration it was committed on. */
  datatype Mark =
    | Edited
    | ApprovedBy(user: User, declared: Declared)
    | RejectedBy(user: User)
    | VerifiedBy(user: User, declared: Declared)
    | DeniedBy(user: User)
    | Withdrawn

  datatype Pass = Pass(
    declared: Declared, status: Status, approver: Option<nat>, verifier: Option<nat>, notes: string, trail: seq<Mark>)

  datatype Edit = Edit(driver: Option<string>, plate: Option<string>, kind: Option<string>, cargo: Option<string>) {
    predicate Empty() { driver.None? && plate.None? && kind.None? && cargo.None? }
  }

  datatype Review = Approve | Reject | Verify | Deny

  /** What a request will write if its claim succeeds. */
  datatype Change =
    | ToEdit(edit: Edit, kind: Option<string>, reopens: bool)
    | ToReview(review: Review, user: User, reason: string)
    | ToCancel(notes: string)

  /** A request between its read and its claim. */
  datatype Claim = Claim(id: nat, expected: Status, change: Change)

  datatype State = State(passes: seq<Pass>, pending: map<nat, Claim>)

  datatype Reply = Accepted | Waiting | NotFound | Forbidden | Conflict | BadRequest

  const REASON_LIMIT: nat := 2000

  /** A reason without the blanks around it, cut at the limit. */
  function Clean(reason: string): string {
    var trimmed := PlateGrammar.Trim(reason);
    if |trimmed| <= REASON_LIMIT then trimmed else trimmed[..REASON_LIMIT]
  }

  // ---------------------------------------------------------------- requests

  function Create(s: State, declared: Declared, notes: string): State {
    s.(passes := s.passes + [Pass(declared, Pending, None, None, notes, [])])
  }

  /** An edit reads a pending or rejected pass; a rejected one goes back to the start of the review.  The plate's kind
      is worked out from the plate as read when the edit does not bring a new one. */
  function ReadEdit(s: State, actor: nat, id: nat, edit: Edit, suspended: bool,
                    kindOf: (string, Option<string>) -> string): (State, Reply)
  {
    if actor in s.pending then (s, Conflict)
    else if id >= |s.passes| then (s, NotFound)
    else if suspended then (s, Forbidden)
    else
      var pass := s.passes[id];
      if !pass.status.Pending? && !pass.status.Rejected? then (s, Conflict)
      else if edit.Empty() then (s, BadRequest)
      else
        var kind :=
          if edit.plate.Some? || edit.kind.Some? then Some(kindOf(Or(edit.plate, pass.declared.plate), edit.kind))
          else None;
        (s.(pending := s.pending[actor := Claim(id, pass.status, ToEdit(edit, kind, pass.status.Rejected?))]), Waiting)
  }

  predicate ParkStage(review: Review) { review.Approve? || review.Reject? }

  predicate MayReview(role: Role, review: Review) {
    role.SuperAdmin? || (if ParkStage(review) then role.ParkManager? else role.Guard?)
  }

  function ReadReview(s: State, actor: nat, id: nat, review: Review, user: User, reason: string): (State, Reply) {
    if actor in s.pending then (s, Conflict)
    else if id >= |s.passes| then (s, NotFound)
    else if !MayReview(user.role, review) then (s, Forbidden)
    else
      var expected := if ParkStage(review) then Pending else Approved;
      if s.passes[id].status != expected then (s, Conflict)
      else if (review.Reject? || review.Deny?) && Clean(reason) == "" then (s, BadRequest)
      else (s.(pending := s.pending[actor := Claim(id, expected, ToReview(review, user, Clean(reason)))]), Waiting)
  }

  const WITHDRAWN := "لغو شد"

  function ReadCancel(s: State, actor: nat, id: nat, user: User, reason: string): (State, Reply) {
    if actor in s.pending then (s, Conflict)
    else if !user.role.SuperAdmin? && !user.role.ParkManager? && !user.role.FactoryOwner? then (s, Forbidden)
    else if id >= |s.passes| then (s, NotFound)
    else
      var pass := s.passes[id];
      if pass.status.Completed? || pass.status.Cancelled? then (s, Conflict)
      else
        var note := if Clean(reason) != "" then WITHDRAWN + ": " + Clean(reason) else WITHDRAWN;
        var notes := if pass.notes != "" then pass.notes + "\n" + note else note;
        (s.(pending := s.pending[actor := Claim(id, pass.status, ToCancel(notes))]), Waiting)
  }

  /** What a successful claim writes. */
  function Written(pass: Pass, change: Change): Pass {
    match change
    case ToEdit(edit, kind, reopens) =>
      var was := pass.declared;
      var declared := Declared(Or(edit.driver, was.driver), Or(edit.plate, was.plate),
        Or(kind, was.kind), Or(edit.cargo, was.cargo));
      if reopens then Pass(declared, Pending, None, None, "", pass.trail + [Edited])
      else pass.(declared := declared, trail := pass.trail + [Edited])
    case ToReview(review, user, reason) =>
      (match review
       case Approve =>
         pass.(status := Approved, approver := Some(user.id), trail := pass.trail + [ApprovedBy(user, pass.declared)])
       case Reject =>
         pass.(status := Rejected, approver := Some(user.id), notes := reason, trail := pass.trail + [RejectedBy(user)])
       case Verify =>
         pass.(status := Completed, verifier := Some(user.id), trail := pass.trail + [VerifiedBy(user, pass.declared)])
       case Deny =>
         pass.(status := Rejected, verifier := Some(user.id), notes := reason, trail := pass.trail + [DeniedBy(user)]))
    case ToCancel(notes) => pass.(status := Cancelled, notes := notes, trail := pass.trail + [Withdrawn])
  }

  /** The claim: it writes only if the pass still has the status the request read. */
  function Finish(s: State, actor: nat): (State, Reply) {
    if actor !in s.pending then (s, NotFound)
    else
      var claim, cleared := s.pending[actor], s.pending - {actor};
      if claim.id < |s.passes| && s.passes[claim.id].status == claim.expected
      then (State(s.passes[claim.id := Written(s.passes[claim.id], claim.change)], cleared), Accepted)
      else (s.(pending := cleared), Conflict)
  }

  datatype Step =
    | DoCreate(declared: Declared, notes: string)
    | DoReadEdit(actor: nat, id: nat, edit: Edit, suspended: bool, kindOf: (string, Option<string>) -> string)
    | DoReadReview(actor: nat, id: nat, review: Review, user: User, reason: string)
    | DoReadCancel(actor: nat, id: nat, user: User, reason: string)
    | DoFinish(actor: nat)

  function Apply(s: State, step: Step): (State, Reply) {
    match step
    case DoCreate(declared, notes) => (Create(s, declared, notes), Accepted)
    case DoReadEdit(actor, id, edit, suspended, kindOf) => ReadEdit(s, actor, id, edit, suspended, kindOf)
    case DoReadReview(actor, id, review, user, reason) => ReadReview(s, actor, id, review, user, reason)
    case DoReadCancel(actor, id, user, reason) => ReadCancel(s, actor, id, user, reason)
    case DoFinish(actor) => Finish(s, actor)
  }

  // ---------------------------------------------------------------- what every interleaving keeps

  /** The last claim was an approval, by someone who may approve, of exactly this declaration. */
  ghost predicate StandsApproved(trail: seq<Mark>, declared: Declared, approver: Option<nat>) {
    trail != [] &&
    var last := trail[|trail| - 1];
    last.ApprovedBy? && MayReview(last.user.role, Approve) && last.declared == declared
      && approver == Some(last.user.id)
  }

  /** The status of a pass and its reviewers are what its last claims say. */
  ghost predicate PassOk(p: Pass) {
    var n := |p.trail|;
    match p.status
    case Pending => p.approver.None? && p.verifier.None? && (n == 0 || p.trail[n - 1].Edited?)
    case Approved => StandsApproved(p.trail, p.declared, p.approver) && p.verifier.None?
    case Completed =>
      // Verified by a guard or super admin directly after the approval of the same declaration.
      n >= 2 && p.trail[n - 1].VerifiedBy? && MayReview(p.trail[n - 1].user.role, Verify)
      && p.trail[n - 1].declared == p.declared && p.verifier == Some(p.trail[n - 1].user.id)
      && StandsApproved(p.trail[..n - 1], p.declared, p.approver)
    case Rejected =>
      // A verifier exactly when the guard stage rejected it; always a reason.
      n >= 1 && p.notes != "" && p.approver.Some?
      && (p.trail[n - 1].RejectedBy? || p.trail[n - 1].DeniedBy?)
      && (p.verifier.Some? <==> p.trail[n - 1].DeniedBy?)
      && (p.trail[n - 1].RejectedBy? ==>
          MayReview(p.trail[n - 1].user.role, Reject) && p.approver == Some(p.trail[n - 1].user.id))
      && (p.trail[n - 1].DeniedBy? ==>
          MayReview(p.trail[n - 1].user.role, Deny) && p.verifier == Some(p.trail[n - 1].user.id))
    case Cancelled => n >= 1 && p.trail[n - 1].Withdrawn?
  }

  /** A waiting claim expects a status its change applies to, and its user has the right. */
  ghost predicate ClaimOk(s: State, claim: Claim) {
    claim.id < |s.passes|
    && match claim.change
       case ToEdit(_, _, reopens) => (claim.expected.Pending? && !reopens) || (claim.expected.Rejected? && reopens)
       case ToReview(review, user, reason) =>
         MayReview(user.role, review) && claim.expected == (if ParkStage(review) then Pending else Approved)
         && (review.Reject? || review.Deny? ==> reason != "")
       case ToCancel(notes) => !claim.expected.Completed? && !claim.expected.Cancelled?
  }

  ghost predicate Sound(s: State) {
    (forall i :: 0 <= i < |s.passes| ==> PassOk(s.passes[i]))
    && (forall a :: a in s.pending ==> ClaimOk(s, s.pending[a]))
  }

  /** A claim that succeeds keeps its pass consistent. */
  lemma WrittenOk(s: State, claim: Claim)
    requires Sound(s) && ClaimOk(s, claim) && s.passes[claim.id].status == claim.expected
    ensures PassOk(Written(s.passes[claim.id], claim.change))
  {
  }

  lemma StepKeepsSound(s: State, step: Step)
    requires Sound(s)
    ensures Sound(Apply(s, step).0)
  {
    if step.DoFinish? && step.actor in s.pending {
      var claim := s.pending[step.actor];
      assert ClaimOk(s, claim);
      if s.passes[claim.id].status == claim.expected { WrittenOk(s, claim); }
    }
  }

  const EMPTY := State([], map[])

  function After(steps: seq<Step>): State {
    if steps == [] then EMPTY else Apply(After(steps[..|steps| - 1]), steps[|steps| - 1]).0
  }

  /** Safety under every interleaving of any number of requests. */
  lemma {:induction false} RunIsSound(steps: seq<Step>)
    ensures Sound(After(steps))
  {
    if steps != [] {
      RunIsSound(steps[..|steps| - 1]);
      StepKeepsSound(After(steps[..|steps| - 1]), steps[|steps| - 1]);
    }
  }

  /** The last two claims on the pass approved and verified it, by people with the right, on what it declares. */
  ghost predicate WasReviewed(p: Pass) {
    exists approver: User, guard: User, before: seq<Mark> ::
      p.trail == before + [ApprovedBy(approver, p.declared), VerifiedBy(guard, p.declared)]
      && (approver.role.ParkManager? || approver.role.SuperAdmin?) && (guard.role.Guard? || guard.role.SuperAdmin?)
      && p.approver == Some(approver.id) && p.verifier == Some(guard.id)
  }

  lemma CompletedOk(p: Pass)
    requires PassOk(p) && p.status.Completed?
    ensures WasReviewed(p)
  {
    var n := |p.trail|;
    var approved, verified := p.trail[n - 2], p.trail[n - 1];
    assert p.trail[..n - 1][n - 2] == approved;
    assert p.trail == p.trail[..n - 2] + [approved, verified];
    assert approved == ApprovedBy(approved.user, p.declared) && verified == VerifiedBy(verified.user, p.declared);
  }

  /** Completed passes were approved, and then verified, as they stand. */
  lemma CompletedWasReviewed(steps: seq<Step>, id: nat)
    requires id < |After(steps).passes| && After(steps).passes[id].status.Completed?
    ensures WasReviewed(After(steps).passes[id])
  {
    RunIsSound(steps);
    CompletedOk(After(steps).passes[id]);
  }

  /** Completed and cancelled passes never change again. */
  lemma {:induction false} TerminalForever(steps: seq<Step>, more: seq<Step>, id: nat)
    requires id < |After(steps).passes|
      && (After(steps).passes[id].status.Completed? || After(steps).passes[id].status.Cancelled?)
    ensures id < |After(steps + more).passes| && After(steps + more).passes[id] == After(steps).passes[id]
  {
    if more == [] {
      assert steps + more == steps;
    } else {
      var init := more[..|more| - 1];
      assert (steps + more)[..|steps + more| - 1] == steps + init;
      TerminalForever(steps, init, id);
      assert Sound(After(steps + init)) by { RunIsSound(steps + init); }
      TerminalStep(After(steps + init), more[|more| - 1], id);
    }
  }

  lemma TerminalStep(s: State, step: Step, id: nat)
    requires Sound(s) && id < |s.passes| && (s.passes[id].status.Completed? || s.passes[id].status.Cancelled?)
    ensures id < |Apply(s, step).0.passes| && Apply(s, step).0.passes[id] == s.passes[id]
  {
    if step.DoFinish? && step.actor in s.pending { assert ClaimOk(s, s.pending[step.actor]); }
  }

  // ---------------------------------------------------------------- what a reviewer saw

  /** The step commits a claim on the pass. */
  predicate CommitsOn(s: State, step: Step, id: nat) {
    step.DoFinish? && Finish(s, step.actor).1.Accepted? && s.pending[step.actor].id == id
  }

  /** A step changes a pass exactly if it commits a claim on it, and then its trail grows by one mark. */
  lemma StepChanges(s: State, step: Step, id: nat)
    requires id < |s.passes|
    ensures id < |Apply(s, step).0.passes|
    ensures var before, after := s.passes[id], Apply(s, step).0.passes[id];
      if CommitsOn(s, step, id)
      then before.trail < after.trail && after == Written(before, s.pending[step.actor].change)
      else after == before
  {
  }

  /** Some of the further steps commits a claim on the pass. */
  ghost predicate CommittedBetween(steps: seq<Step>, more: seq<Step>, id: nat)
    decreases |more|
  {
    more != []
    && (CommittedBetween(steps, more[..|more| - 1], id)
        || CommitsOn(After(steps + more[..|more| - 1]), more[|more| - 1], id))
  }

  /** Over any further steps a pass is unchanged exactly if no claim on it was committed, which is exactly if its trail
      is the same; and trails only grow. */
  lemma {:induction false} ChangedIffCommitted(steps: seq<Step>, more: seq<Step>, id: nat)
    requires id < |After(steps).passes|
    ensures id < |After(steps + more).passes|
    ensures var before, after := After(steps).passes[id], After(steps + more).passes[id];
      && before.trail <= after.trail
      && (after == before <==> after.trail == before.trail)
      && (after == before <==> !CommittedBetween(steps, more, id))
  {
    if more == [] {
      assert steps + more == steps;
    } else {
      var init, last := more[..|more| - 1], more[|more| - 1];
      assert (steps + more)[..|steps + more| - 1] == steps + init;
      ChangedIffCommitted(steps, init, id);
      StepChanges(After(steps + init), last, id);
    }
  }

  /** A waiting claim stays as it is until its own request finishes. */
  lemma {:induction false} ClaimWaits(steps: seq<Step>, more: seq<Step>, actor: nat)
    requires actor in After(steps).pending && forall k :: 0 <= k < |more| ==> more[k] != DoFinish(actor)
    ensures actor in After(steps + more).pending && After(steps + more).pending[actor] == After(steps).pending[actor]
  {
    if more == [] {
      assert steps + more == steps;
    } else {
      var init := more[..|more| - 1];
      assert (steps + more)[..|steps + more| - 1] == steps + init;
      ClaimWaits(steps, init, actor);
      StepLeavesClaim(After(steps + init), more[|more| - 1], actor);
    }
  }

  lemma StepLeavesClaim(s: State, step: Step, actor: nat)
    requires actor in s.pending && step != DoFinish(actor)
    ensures actor in Apply(s, step).0.pending && Apply(s, step).0.pending[actor] == s.pending[actor]
  {
  }

  lemma AfterOne(steps: seq<Step>, step: Step)
    ensures After(steps + [step]) == Apply(After(steps), step).0
  {
    assert (steps + [step])[..|steps|] == steps;
  }

  /** A review that succeeds decides on the pass it finds, and that is the pass its reviewer read exactly if no claim on
      it was committed between the read and the review. */
  lemma ReviewCoversWhatWasRead(steps: seq<Step>, read: Step, more: seq<Step>)
    requires read.DoReadReview? && Apply(After(steps), read).1.Waiting?
    requires forall k :: 0 <= k < |more| ==> more[k] != DoFinish(read.actor)
    requires Finish(After(steps + [read] + more), read.actor).1.Accepted?
    ensures var before, found := After(steps), After(steps + [read] + more);
      && read.id < |before.passes| && read.id < |found.passes|
      && Finish(found, read.actor).0.passes[read.id]
         == Written(found.passes[read.id], ToReview(read.review, read.user, Clean(read.reason)))
      && (found.passes[read.id] == before.passes[read.id] <==> !CommittedBetween(steps + [read], more, read.id))
  {
    AfterOne(steps, read);
    ClaimWaits(steps + [read], more, read.actor);
    ChangedIffCommitted(steps + [read], more, read.id);
  }

  /** A new pass, its approval read by a manager, and a correction of the driver read by its owner. */
  function Fresh(first: Declared): Pass { Pass(first, Pending, None, None, "", []) }

  function Approval(manager: User): Claim { Claim(0, Pending, ToReview(Approve, manager, "")) }

  function NewDriver(driver: string): Edit { Edit(Some(driver), None, None, None) }

  function Correction(driver: string): Claim { Claim(0, Pending, ToEdit(NewDriver(driver), None, false)) }

  function Corrected(first: Declared, driver: string): Pass {
    Fresh(first).(declared := first.(driver := driver), trail := [Edited])
  }

  lemma ExampleReads(first: Declared, driver: string, manager: User, kindOf: (string, Option<string>) -> string)
    requires manager.role.ParkManager?
    ensures Apply(EMPTY, DoCreate(first, "")).0 == State([Fresh(first)], map[])
    ensures Apply(State([Fresh(first)], map[]), DoReadReview(1, 0, Approve, manager, "")).0
      == State([Fresh(first)], map[1 := Approval(manager)])
    ensures Apply(State([Fresh(first)], map[1 := Approval(manager)]),
      DoReadEdit(2, 0, NewDriver(driver), false, kindOf)).0
      == State([Fresh(first)], map[1 := Approval(manager), 2 := Correction(driver)])
  {
  }

  lemma ExampleClaims(first: Declared, driver: string, manager: User)
    requires manager.role.ParkManager?
    ensures Apply(State([Fresh(first)], map[1 := Approval(manager), 2 := Correction(driver)]), DoFinish(2)).0
      == State([Corrected(first, driver)], map[1 := Approval(manager)])
    ensures Apply(State([Corrected(first, driver)], map[1 := Approval(manager)]), DoFinish(1)).0.passes
      == [Written(Corrected(first, driver), Approval(manager).change)]
  {
    assert map[1 := Approval(manager), 2 := Correction(driver)] - {2} == map[1 := Approval(manager)];
    assert Written(Fresh(first), Correction(driver).change) == Corrected(first, driver);
  }

  /** It need not be: a park manager who read one driver can approve a pass that names another. */
  lemma ApprovalMayMissAnEdit(first: Declared, driver: string, manager: User, kindOf: (string,
          Option<string>) -> string)
    requires manager.role.ParkManager?
    ensures var read := [DoCreate(first, ""), DoReadReview(1, 0, Approve, manager, "")];
      var steps := read + [DoReadEdit(2, 0, NewDriver(driver), false, kindOf)] + [DoFinish(2)] + [DoFinish(1)];
      && After(read) == State([Fresh(first)], map[1 := Approval(manager)])
      && |After(steps).passes| == 1 && After(steps).passes[0].status.Approved?
      && After(steps).passes[0].declared == first.(driver := driver)
  {
    ExampleReads(first, driver, manager, kindOf);
    ExampleClaims(first, driver, manager);
    var read := [DoCreate(first, ""), DoReadReview(1, 0, Approve, manager, "")];
    assert read == [] + [read[0]] + [read[1]];
    AfterOne([], read[0]);
    AfterOne([] + [read[0]], read[1]);
    AfterOne(read, DoReadEdit(2, 0, NewDriver(driver), false, kindOf));
    AfterOne(read + [DoReadEdit(2, 0, NewDriver(driver), false, kindOf)], DoFinish(2));
    AfterOne(read + [DoReadEdit(2, 0, NewDriver(driver), false, kindOf)] + [DoFinish(2)], DoFinish(1));
  }
}
