/** Derivative drafts, their approvals, and the publish jobs created from them (channel_actions.py). */
module Approvals {
  import opened Prelude
  import opened Instants
  import opened Mutators
  import opened Records
  import opened Text
  import Jobs
  import PublishQueue

  datatype DraftStatus = Draft | PendingReview | Approved | Rejected | Published

  datatype Derivative = Derivative(
    id: string, sourceId: string, channelId: string, title: string, body: string,
    status: DraftStatus, createdAt: Stamp, updatedAt: Stamp)

  datatype Verdict = Granted | Refused | Revoked

  /** `createdAt` is the order of the stored text of that name. */
  datatype Approval = Approval(
    id: string, derivativeId: string, approver: string, approvedAt: Stamp, status: Verdict, revokedAt: Stamp, createdAt: int)

  /** The three files the workflow writes. */
  datatype Desk = Desk(derivatives: seq<Derivative>, approvals: seq<Approval>, jobs: seq<PublishQueue.Job>)

  /** What the guard of job creation learns from elsewhere: the channel registry, the connection list,
    * the channel's validator and the published posts. */
  datatype Surroundings = Surroundings(
    registered: bool, canPublish: bool, connected: bool, canGenerate: bool, validationErrors: nat, alreadyPublished: bool)

  datatype Op =
    | Generate(freshId: string, sourceId: string, channelId: string, title: string, body: string, now: int)
    | Edit(id: string, title: string, body: string, now: int)
    | SendForReview(id: string, now: int)
    | Approve(id: string, approver: string, freshId: string, now: int, order: int)
    | Reject(id: string, approver: string, freshId: string, now: int, order: int)
    | ReturnToDraft(id: string, now: int)
    | CreateJob(id: string, channelId: string, runMode: string, around: Surroundings, freshId: string, now: int)
    | SaveCopy(copy: Derivative)
        // other code saves a whole derivative: the publish confirmation its copy as published, the media runtime a
        // worker's copy as it was read, the planner an approved one without an approval record
    | AppendJob(job: PublishQueue.Job)     // and the planner appends jobs without a guard

  datatype Reply = Done | Created(job: PublishQueue.Job)

  function Ids(ds: seq<Derivative>): seq<string> {
    seq(|ds|, i requires 0 <= i < |ds| => ds[i].id)
  }

  function ApprovalIds(records: seq<Approval>): seq<string> {
    seq(|records|, i requires 0 <= i < |records| => records[i].id)
  }

  predicate ActiveFor(a: Approval, id: string) {
    (id == "" || a.derivativeId == id) && a.status.Granted? && a.revokedAt.Blank?
  }

  /** `get_active_approval`: the newest active one, the first stored on ties. */
  function ActiveApproval(records: seq<Approval>, id: string): (r: Option<nat>)
    ensures r.None? <==> forall i :: 0 <= i < |records| ==> !ActiveFor(records[i], id)
    ensures r.Some? ==> r.value < |records| && ActiveFor(records[r.value], id)
    ensures r.Some? ==> forall i :: 0 <= i < |records| && ActiveFor(records[i], id) ==>
      records[i].createdAt < records[r.value].createdAt
      || (records[i].createdAt == records[r.value].createdAt && r.value <= i)
  {
    if records == [] then None
    else
      var n := |records| - 1;
      var best := ActiveApproval(records[..n], id);
      if !ActiveFor(records[n], id) then best
      else if best.None? || records[n].createdAt > records[best.value].createdAt then Some(n)
      else best
  }

  /** Revoke the active approval, if there is one. */
  function RevokeActive(records: seq<Approval>, id: string, now: int): seq<Approval> {
    var at := ActiveApproval(records, id);
    if at.None? then records
    else
      var revoked := records[at.value].(revokedAt := Written(now), status := Revoked);
      Upsert(records, ApprovalIds(records), revoked.id, revoked)
  }

  function PutDerivative(desk: Desk, d: Derivative): Desk {
    desk.(derivatives := Upsert(desk.derivatives, Ids(desk.derivatives), d.id, d))
  }

  function PutApproval(desk: Desk, a: Approval): Desk {
    desk.(approvals := Upsert(desk.approvals, ApprovalIds(desk.approvals), a.id, a))
  }

  /** The conditions of `_publish_guard_errors` that hold against publishing. */
  predicate MayPublish(desk: Desk, d: Derivative, channelId: string, around: Surroundings) {
    && around.registered
    && d.channelId == channelId
    && d.status.Approved?
    && ActiveApproval(desk.approvals, d.id).Some?
    && around.canPublish
    && around.connected
    && PublishQueue.ActiveOn(desk.jobs, channelId).None?
    && (around.canGenerate ==> around.validationErrors == 0)
    && !around.alreadyPublished
  }

  function NewJob(op: Op, d: Derivative): PublishQueue.Job
    requires op.CreateJob?
  {
    var t := Written(op.now);
    PublishQueue.Job(op.freshId, d.id, op.channelId, Jobs.Queued, t, Blank, Blank, 0, 2, "queued", "", t, t,
                     op.runMode, false, "", Blank, Blank, Blank, Blank, false)
  }

  /** The derivative an operation is about. */
  function Subject(op: Op, desk: Desk): Option<Derivative> {
    var id := match op
      case Generate(freshId, _, _, _, _, _) => freshId
      case SaveCopy(copy) => copy.id
      case AppendJob(job) => job.derivativeId
      case _ => op.id;
    var at := Locate(Ids(desk.derivatives), id);
    if at.None? then None else Some(desk.derivatives[at.value])
  }

  function Decision(op: Op): Approval
    requires op.Approve? || op.Reject?
  {
    var t := Written(op.now);
    Approval(op.freshId, op.id, op.approver, t, if op.Approve? then Granted else Refused, Blank, op.order)
  }

  function Apply(op: Op, desk: Desk): Outcome<Desk, Reply> {
    if op.Generate? then
      var t := Written(op.now);
      Changed(PutDerivative(desk, Derivative(op.freshId, op.sourceId, op.channelId, op.title, Strip(op.body), Draft, t, t)), Done)
    else if op.SaveCopy? then Changed(PutDerivative(desk, op.copy), Done)
    else if op.AppendJob? then
      Changed(desk.(jobs := Upsert(desk.jobs, PublishQueue.Ids(desk.jobs), op.job.id, op.job)), Created(op.job))
    else
      var subject := Subject(op, desk);
      if subject.None? then Raised else
        var d := subject.value;
        var t := Written(op.now);
        match op
        case Edit(_, title, body, _) =>
          var title' := if Strip(title) == "" then d.title else Strip(title);
          Changed(PutDerivative(desk, d.(title := title', body := Strip(body), status := Draft, updatedAt := t)), Done)
        case SendForReview(_, _) =>
          Changed(PutDerivative(desk, d.(status := PendingReview, updatedAt := t)), Done)
        case Approve(id, _, _, now, _) =>
          var revoked := desk.(approvals := RevokeActive(desk.approvals, id, now));
          Changed(PutDerivative(PutApproval(revoked, Decision(op)), d.(status := Approved, updatedAt := t)), Done)
        case Reject(id, _, _, now, _) =>
          var revoked := desk.(approvals := RevokeActive(desk.approvals, id, now));
          Changed(PutDerivative(PutApproval(revoked, Decision(op)), d.(status := Rejected, updatedAt := t)), Done)
        case ReturnToDraft(id, now) =>
          var revoked := desk.(approvals := RevokeActive(desk.approvals, id, now));
          Changed(PutDerivative(revoked, d.(status := Draft, updatedAt := t)), Done)
        case CreateJob(_, channelId, runMode, around, freshId, _) =>
          if runMode !in {"dry_run", "live"} || !MayPublish(desk, d, channelId, around) then Raised
          else
            var job := NewJob(op, d);
            Changed(desk.(jobs := Upsert(desk.jobs, PublishQueue.Ids(desk.jobs), freshId, job)), Created(job))
  }

  function Workflow(): Store<Op, Desk, Reply> {
    Store((op, desk) => Apply(op, desk), Desk([], [], []))
  }

  // ---------------------------------------------------------------- what was approved

  datatype Wording = Wording(title: string, body: string)

  function WordingOf(d: Derivative): Wording {
    Wording(d.title, d.body)
  }

  /** The wording each derivative had at its latest approval in the run. */
  function LastApproved(ops: seq<Op>): map<string, Wording> {
    if ops == [] then map[] else
      var front := ops[..|ops| - 1];
      var before := LastApproved(front);
      var subject := Subject(Last(ops), Replay(Workflow(), Workflow().initial, front));
      if Last(ops).Approve? && subject.Some? then before[Last(ops).id := WordingOf(subject.value)] else before
  }

  /** New ids are fresh, and derivatives have ids. */
  ghost predicate Permitted(desk: Desk, op: Op) {
    && (op.Generate? ==> op.freshId != "" && op.freshId !in Ids(desk.derivatives))
    && (op.Approve? || op.Reject? ==> op.freshId !in ApprovalIds(desk.approvals))
    && (op.SaveCopy? ==> op.copy.id != "")
  }

  ghost predicate OneActive(records: seq<Approval>) {
    forall i, k :: 0 <= i < k < |records| && ActiveFor(records[i], "") && ActiveFor(records[k], "")
      ==> records[i].derivativeId != records[k].derivativeId
  }

  ghost predicate Sane(desk: Desk) {
    && Distinct(Ids(desk.derivatives)) && "" !in Ids(desk.derivatives)
    && Distinct(ApprovalIds(desk.approvals)) && OneActive(desk.approvals)
  }

  /** If the derivative is approved, it has an active approval and reads as it did when it was last
    * approved. */
  ghost predicate ReadsApproved(d: Derivative, approvals: seq<Approval>, approved: map<string, Wording>) {
    d.status.Approved? ==>
      ActiveApproval(approvals, d.id).Some? && d.id in approved && approved[d.id] == WordingOf(d)
  }

  /** A derivative has at most one active approval, and an approved one reads as approved. */
  ghost predicate Inv(desk: Desk, approved: map<string, Wording>) {
    && Sane(desk)
    && forall i :: 0 <= i < |desk.derivatives| ==> ReadsApproved(desk.derivatives[i], desk.approvals, approved)
  }

  lemma UpsertExisting(ds: seq<Derivative>, d: Derivative)
    requires Distinct(Ids(ds)) && d.id in Ids(ds)
    ensures
      var at := Locate(Ids(ds), d.id);
      var after := Upsert(ds, Ids(ds), d.id, d);
      && at.Some? && after == ds[at.value := d] && Ids(after) == Ids(ds)
      && (forall i :: 0 <= i < |ds| && ds[i].id == d.id ==> i == at.value)
  {
    var at := Locate(Ids(ds), d.id).value;
    assert Ids(ds[at := d]) == Ids(ds);
    forall i | 0 <= i < |ds| && ds[i].id == d.id
      ensures i == at
    {
      assert Ids(ds)[i] == d.id;
      LocateDistinct(Ids(ds), i);
    }
  }

  lemma UpsertNew(ds: seq<Derivative>, d: Derivative)
    requires Distinct(Ids(ds)) && d.id !in Ids(ds)
    ensures
      var after := Upsert(ds, Ids(ds), d.id, d);
      after == ds + [d] && Ids(after) == Ids(ds) + [d.id] && Distinct(Ids(after))
    ensures forall i :: 0 <= i < |ds| ==> ds[i].id != d.id
  {
    assert forall i :: 0 <= i < |ds| ==> ds[i].id == Ids(ds)[i];
    assert Ids(ds + [d]) == Ids(ds) + [d.id];
  }

  /** Revoking leaves no active approval for the derivative and touches nothing else. */
  lemma RevokeShape(records: seq<Approval>, id: string, now: int)
    requires Distinct(ApprovalIds(records)) && OneActive(records) && id != ""
    ensures
      var after := RevokeActive(records, id, now);
      && ApprovalIds(after) == ApprovalIds(records)
      && (forall i :: 0 <= i < |after| ==> !ActiveFor(after[i], id))
      && (forall i :: 0 <= i < |records| ==>
            after[i].derivativeId == records[i].derivativeId && (records[i].derivativeId != id ==> after[i] == records[i]))
      && OneActive(after)
  {
    var at := ActiveApproval(records, id);
    if at.Some? {
      var revoked := records[at.value].(revokedAt := Written(now), status := Revoked);
      assert ApprovalIds(records)[at.value] == revoked.id;
      LocateDistinct(ApprovalIds(records), at.value);
      var after := RevokeActive(records, id, now);
      assert after == records[at.value := revoked];
      assert ApprovalIds(after) == ApprovalIds(records);
      forall i | 0 <= i < |after|
        ensures !ActiveFor(after[i], id)
      {
        assert ActiveFor(records[at.value], "");
        assert ActiveFor(records[i], id) ==> ActiveFor(records[i], "");
      }
    }
  }

  lemma AppendDecision(records: seq<Approval>, a: Approval)
    requires Distinct(ApprovalIds(records)) && a.id !in ApprovalIds(records) && OneActive(records)
    requires forall i :: 0 <= i < |records| ==> !ActiveFor(records[i], a.derivativeId)
    ensures
      var after := Upsert(records, ApprovalIds(records), a.id, a);
      && after == records + [a] && Distinct(ApprovalIds(after)) && OneActive(after)
  {
    assert ApprovalIds(records + [a]) == ApprovalIds(records) + [a.id];
    forall i | 0 <= i < |records| && ActiveFor(records[i], "") && ActiveFor(a, "")
      ensures records[i].derivativeId != a.derivativeId
    {
      assert !ActiveFor(records[i], a.derivativeId);
    }
  }

  /** Changing approvals of one derivative does not take another's active approval away. */
  lemma OthersStayActive(before: seq<Approval>, after: seq<Approval>, id: string, other: string)
    requires |before| <= |after| && other != id && other != ""
    requires forall i :: 0 <= i < |before| && before[i].derivativeId != id ==> after[i] == before[i]
    requires ActiveApproval(before, other).Some?
    ensures ActiveApproval(after, other).Some?
  {
    var at := ActiveApproval(before, other).value;
    assert ActiveFor(after[at], other);
  }

  /** How an operation leaves the approvals. */
  lemma ApprovalsStep(desk: Desk, op: Op)
    requires Distinct(ApprovalIds(desk.approvals)) && OneActive(desk.approvals)
    requires "" !in Ids(desk.derivatives) && Permitted(desk, op)
    ensures
      var after := Step(Workflow(), desk, op).approvals;
      && Distinct(ApprovalIds(after)) && OneActive(after)
      && (forall other :: other != "" && ActiveApproval(desk.approvals, other).Some?
            && !((op.Approve? || op.Reject? || op.ReturnToDraft?) && op.id == other)
            ==> ActiveApproval(after, other).Some?)
      && (op.Approve? && Subject(op, desk).Some? ==> ActiveApproval(after, op.id).Some?)
  {
    if (op.Approve? || op.Reject? || op.ReturnToDraft?) && Subject(op, desk).Some? {
      assert op.id in Ids(desk.derivatives);
      var revoked := RevokeActive(desk.approvals, op.id, op.now);
      var after := Step(Workflow(), desk, op).approvals;
      RevokeShape(desk.approvals, op.id, op.now);
      if !op.ReturnToDraft? {
        AppendDecision(revoked, Decision(op));
        assert after == revoked + [Decision(op)];
        assert op.Approve? ==> ActiveFor(after[|revoked|], op.id);
      }
      assert |revoked| == |ApprovalIds(revoked)| == |desk.approvals|;
      forall other | other != "" && other != op.id && ActiveApproval(desk.approvals, other).Some?
        ensures ActiveApproval(after, other).Some?
      {
        OthersStayActive(desk.approvals, after, op.id, other);
      }
    }
  }

  /** The derivative an operation writes. */
  function Rewritten(desk: Desk, op: Op): Option<Derivative> {
    var subject := Subject(op, desk);
    var t := Written(if op.SaveCopy? || op.AppendJob? then 0 else op.now);
    if op.Generate? then
      Some(Derivative(op.freshId, op.sourceId, op.channelId, op.title, Strip(op.body), Draft, t, t))
    else if op.SaveCopy? then Some(op.copy)
    else if subject.None? || op.CreateJob? || op.AppendJob? then None
    else
      var d := subject.value.(updatedAt := t);
      Some(
        if op.Edit? then
          d.(title := if Strip(op.title) == "" then d.title else Strip(op.title), body := Strip(op.body), status := Draft)
        else if op.SendForReview? then d.(status := PendingReview)
        else if op.Approve? then d.(status := Approved)
        else if op.Reject? then d.(status := Rejected)
        else d.(status := Draft))
  }

  lemma RewritesOne(desk: Desk, op: Op)
    ensures
      var w := Rewritten(desk, op);
      var before := desk.derivatives;
      Step(Workflow(), desk, op).derivatives == if w.None? then before else Upsert(before, Ids(before), w.value.id, w.value)
  {
  }

  /** Of the workflow's own operations only an approval leaves what it writes approved, with the wording it
    * had. */
  lemma RewrittenShape(desk: Desk, op: Op)
    requires "" !in Ids(desk.derivatives) && Permitted(desk, op) && Rewritten(desk, op).Some?
    ensures
      var w := Rewritten(desk, op).value;
      && w.id != ""
      && (w.status.Approved? && !op.SaveCopy? ==>
            op.Approve? && w.id == op.id && Subject(op, desk).Some? && WordingOf(w) == WordingOf(Subject(op, desk).value))
  {
    if !op.Generate? && !op.SaveCopy? {
      var at := Locate(Ids(desk.derivatives), op.id).value;
      assert Ids(desk.derivatives)[at] == desk.derivatives[at].id;
    }
  }

  /** How an operation leaves the derivatives: at most one is written. */
  lemma DerivativesStep(desk: Desk, op: Op)
    requires Distinct(Ids(desk.derivatives)) && "" !in Ids(desk.derivatives) && Permitted(desk, op)
    ensures
      var before := desk.derivatives;
      var after := Step(Workflow(), desk, op).derivatives;
      var w := Rewritten(desk, op);
      && Distinct(Ids(after)) && "" !in Ids(after)
      && (w.None? ==> after == before)
      && (w.Some? ==> after == Upsert(before, Ids(before), w.value.id, w.value))
      && (forall i :: 0 <= i < |after| && (w.None? || after[i].id != w.value.id) ==> i < |before| && after[i] == before[i])
      && (forall i :: 0 <= i < |after| && w.Some? && after[i].id == w.value.id ==> after[i] == w.value)
      && (w.Some? && w.value.status.Approved? && !op.SaveCopy? ==>
            op.Approve? && w.value.id == op.id && Subject(op, desk).Some?
            && WordingOf(w.value) == WordingOf(Subject(op, desk).value))
  {
    var w := Rewritten(desk, op);
    RewritesOne(desk, op);
    if w.Some? {
      RewrittenShape(desk, op);
      if w.value.id in Ids(desk.derivatives) {
        UpsertExisting(desk.derivatives, w.value);
      } else {
        UpsertNew(desk.derivatives, w.value);
      }
    }
  }

  /** What an operation on a stored derivative leaves of it: the status the operation stands for, and the rest as
    * it was, but for the time and for an edit's body and title, stripped, where a blank title keeps the old one. */
  lemma DerivativeLeaves(desk: Desk, op: Op)
    requires Distinct(Ids(desk.derivatives)) && Subject(op, desk).Some?
    requires op.Edit? || op.SendForReview? || op.Approve? || op.Reject? || op.ReturnToDraft?
    ensures
      var at := Locate(Ids(desk.derivatives), op.id).value;
      var after := Step(Workflow(), desk, op).derivatives;
      at < |after| == |desk.derivatives|
      && var was, now := desk.derivatives[at], after[at];
      && now.status == (match op case Edit(_, _, _, _) => Draft case SendForReview(_, _) => PendingReview
                        case Approve(_, _, _, _, _) => DraftStatus.Approved case Reject(_, _, _, _, _) => Rejected case _ => Draft)
      && now.body == (if op.Edit? then Strip(op.body) else was.body)
      && now.title == (if op.Edit? && Strip(op.title) != "" then Strip(op.title) else was.title)
      && At(now.updatedAt, op.now)
      && now.id == was.id == op.id && now.sourceId == was.sourceId && now.channelId == was.channelId && now.createdAt == was.createdAt
      && forall k :: 0 <= k < |after| && k != at ==> after[k] == desk.derivatives[k]
  {
    var at := Locate(Ids(desk.derivatives), op.id).value;
    assert Ids(desk.derivatives)[at] == desk.derivatives[at].id;
    WrittenSecond(op.now);
  }

  /** What other code writes is stored as it is, in the place of the record of that id, or at the end. */
  lemma WritersStore(desk: Desk, op: Op)
    requires op.SaveCopy? || op.AppendJob?
    ensures
      var after := Step(Workflow(), desk, op);
      && (op.SaveCopy? ==> op.copy in after.derivatives && after == desk.(derivatives := after.derivatives))
      && (op.AppendJob? ==> op.job in after.jobs && after == desk.(jobs := after.jobs))
      && (op.SaveCopy? && op.copy.id !in Ids(desk.derivatives) ==> after.derivatives == desk.derivatives + [op.copy])
      && (op.AppendJob? && op.job.id !in PublishQueue.Ids(desk.jobs) ==> after.jobs == desk.jobs + [op.job])
      && (forall k :: 0 <= k < |desk.derivatives| && (op.SaveCopy? ==> desk.derivatives[k].id != op.copy.id) ==>
            k < |after.derivatives| && after.derivatives[k] == desk.derivatives[k])
      && (forall k :: 0 <= k < |desk.jobs| && (op.AppendJob? ==> desk.jobs[k].id != op.job.id) ==>
            k < |after.jobs| && after.jobs[k] == desk.jobs[k])
  {
    var after := Step(Workflow(), desk, op);
    if op.SaveCopy? {
      var at := Locate(Ids(desk.derivatives), op.copy.id);
      assert after.derivatives[if at.Some? then at.value else |desk.derivatives|] == op.copy;
      assert at.Some? ==> Ids(desk.derivatives)[at.value] == desk.derivatives[at.value].id;
    } else {
      var at := Locate(PublishQueue.Ids(desk.jobs), op.job.id);
      assert after.jobs[if at.Some? then at.value else |desk.jobs|] == op.job;
      assert at.Some? ==> PublishQueue.Ids(desk.jobs)[at.value] == desk.jobs[at.value].id;
    }
  }

  /** What is generated is a draft under a new id, with its body stripped. */
  lemma GeneratedIsDraft(desk: Desk, op: Op)
    requires op.Generate? && op.freshId !in Ids(desk.derivatives)
    ensures
      var before, after := desk.derivatives, Step(Workflow(), desk, op).derivatives;
      |after| == |before| + 1 && after[..|before|] == before
      && var d := after[|before|];
      && d.id == op.freshId && d.sourceId == op.sourceId && d.channelId == op.channelId && d.title == op.title
      && d.body == Strip(op.body) && d.status == Draft && At(d.createdAt, op.now) && At(d.updatedAt, op.now)
  {
    WrittenSecond(op.now);
  }

  lemma RevocationLeaves(records: seq<Approval>, id: string, now: int)
    requires Distinct(ApprovalIds(records))
    ensures
      var after := RevokeActive(records, id, now);
      var active := ActiveApproval(records, id);
      && ApprovalIds(after) == ApprovalIds(records) && |after| == |records|
      && (forall k :: 0 <= k < |records| && Some(k) != active ==> after[k] == records[k])
      && (active.Some? ==>
            after[active.value].status == Revoked && At(after[active.value].revokedAt, now)
            && after[active.value] == records[active.value].(status := Revoked, revokedAt := after[active.value].revokedAt))
  {
    var active := ActiveApproval(records, id);
    if active.Some? {
      assert ApprovalIds(records)[active.value] == records[active.value].id;
      LocateDistinct(ApprovalIds(records), active.value);
    }
    assert ApprovalIds(RevokeActive(records, id, now)) == ApprovalIds(records);
    WrittenSecond(now);
  }

  /** What a decision leaves of the approvals: the one that was active is revoked now and otherwise as it was, an
    * approval or a rejection is on record under its own id by its approver, and the rest is as it was. */
  lemma DecisionLeaves(desk: Desk, op: Op)
    requires Distinct(ApprovalIds(desk.approvals)) && Subject(op, desk).Some?
    requires op.Approve? || op.Reject? || op.ReturnToDraft?
    requires !op.ReturnToDraft? ==> op.freshId !in ApprovalIds(desk.approvals)
    ensures
      var before, after := desk.approvals, Step(Workflow(), desk, op).approvals;
      var active := ActiveApproval(before, op.id);
      && |after| == |before| + (if op.ReturnToDraft? then 0 else 1)
      && (forall k :: 0 <= k < |before| && Some(k) != active ==> after[k] == before[k])
      && (active.Some? ==>
            after[active.value].status == Revoked && At(after[active.value].revokedAt, op.now)
            && after[active.value] == before[active.value].(status := Revoked, revokedAt := after[active.value].revokedAt))
      && (!op.ReturnToDraft? ==>
            var a := after[|before|];
            && a.id == op.freshId && a.derivativeId == op.id && a.approver == op.approver && a.createdAt == op.order
            && At(a.approvedAt, op.now) && a.revokedAt == Blank && a.status == (if op.Approve? then Granted else Refused))
  {
    RevocationLeaves(desk.approvals, op.id, op.now);
    WrittenSecond(op.now);
  }

  lemma SaneStep(desk: Desk, op: Op)
    requires Sane(desk) && Permitted(desk, op)
    ensures Sane(Step(Workflow(), desk, op))
  {
    ApprovalsStep(desk, op);
    DerivativesStep(desk, op);
  }

  /** What approving adds to the approved wordings. */
  function Approving(desk: Desk, approved: map<string, Wording>, op: Op): map<string, Wording> {
    if op.Approve? && Subject(op, desk).Some? then approved[op.id := WordingOf(Subject(op, desk).value)] else approved
  }

  /** A copy that is saved as approved has an active approval and reads as it was last approved. */
  ghost predicate CopyFits(desk: Desk, approved: map<string, Wording>, op: Op) {
    op.SaveCopy? ==> ReadsApproved(op.copy, desk.approvals, approved)
  }

  lemma WrittenReads(desk: Desk, approved: map<string, Wording>, op: Op, d: Derivative)
    requires Sane(desk) && Permitted(desk, op) && Rewritten(desk, op) == Some(d)
    ensures ReadsApproved(d, Step(Workflow(), desk, op).approvals, Approving(desk, approved, op)) <==> CopyFits(desk, approved, op)
  {
    DerivativesStep(desk, op);
    ApprovalsStep(desk, op);
    if op.SaveCopy? {
      assert Step(Workflow(), desk, op).approvals == desk.approvals;
    }
  }

  lemma OthersRead(desk: Desk, approved: map<string, Wording>, op: Op, d: Derivative)
    requires Sane(desk) && Permitted(desk, op) && ReadsApproved(d, desk.approvals, approved) && d in desk.derivatives
    requires Rewritten(desk, op).Some? ==> Rewritten(desk, op).value.id != d.id
    ensures ReadsApproved(d, Step(Workflow(), desk, op).approvals, Approving(desk, approved, op))
  {
    var i :| 0 <= i < |desk.derivatives| && desk.derivatives[i] == d;
    assert Ids(desk.derivatives)[i] == d.id;
    if op.Approve? || op.Reject? || op.ReturnToDraft? {
      DecidedIsSubject(desk, op);
    }
    ApprovalsStep(desk, op);
  }

  lemma DecidedIsSubject(desk: Desk, op: Op)
    requires op.Approve? || op.Reject? || op.ReturnToDraft?
    ensures Subject(op, desk).Some? <==> op.id in Ids(desk.derivatives)
    ensures Subject(op, desk).Some? ==> Rewritten(desk, op).Some? && Rewritten(desk, op).value.id == op.id
  {
    var at := Locate(Ids(desk.derivatives), op.id);
    assert at.Some? ==> Ids(desk.derivatives)[at.value] == desk.derivatives[at.value].id;
  }

  /** What is written is on file afterwards. */
  lemma WrittenIsStored(desk: Desk, op: Op)
    requires Rewritten(desk, op).Some?
    ensures Rewritten(desk, op).value in Step(Workflow(), desk, op).derivatives
  {
    var w := Rewritten(desk, op).value;
    RewritesOne(desk, op);
    var at := Locate(Ids(desk.derivatives), w.id);
    assert Step(Workflow(), desk, op).derivatives[if at.Some? then at.value else |desk.derivatives|] == w;
  }

  lemma InvStepIff(desk: Desk, approved: map<string, Wording>, op: Op)
    requires Inv(desk, approved) && Permitted(desk, op)
    ensures Inv(Step(Workflow(), desk, op), Approving(desk, approved, op)) <==> CopyFits(desk, approved, op)
  {
    var after := Step(Workflow(), desk, op);
    SaneStep(desk, op);
    DerivativesStep(desk, op);
    if CopyFits(desk, approved, op) {
      forall i | 0 <= i < |after.derivatives|
        ensures ReadsApproved(after.derivatives[i], after.approvals, Approving(desk, approved, op))
      {
        var d := after.derivatives[i];
        if Rewritten(desk, op).Some? && Rewritten(desk, op).value.id == d.id {
          WrittenReads(desk, approved, op, d);
        } else {
          OthersRead(desk, approved, op, d);
        }
      }
    } else {
      WrittenReads(desk, approved, op, op.copy);
      WrittenIsStored(desk, op);
      var i :| 0 <= i < |after.derivatives| && after.derivatives[i] == op.copy;
    }
  }

  // ---------------------------------------------------------------- runs, with what was approved

  /** The files together with the wordings last approved. */
  datatype Tracking = Tracking(desk: Desk, approved: map<string, Wording>)

  function Tracked(): Store<Op, Tracking, Reply> {
    Store((op, t: Tracking) =>
      match Apply(op, t.desk)
      case Changed(desk, reply) => Changed(Tracking(desk, Approving(t.desk, t.approved, op)), reply)
      case Unchanged(reply) => Unchanged(reply)
      case Raised => Raised,
      Tracking(Workflow().initial, map[]))
  }

  lemma TrackedStep(t: Tracking, op: Op)
    ensures Step(Tracked(), t, op) == Tracking(Step(Workflow(), t.desk, op), Approving(t.desk, t.approved, op))
  {
    assert op.Approve? && Subject(op, t.desk).Some? ==> Apply(op, t.desk).Changed?;
  }

  /** Tracking follows the workflow and its approvals. */
  lemma {:induction false} TrackedRun(ops: seq<Op>)
    ensures Replay(Tracked(), Tracked().initial, ops) ==
            Tracking(Replay(Workflow(), Workflow().initial, ops), LastApproved(ops))
  {
    if ops != [] {
      TrackedRun(ops[..|ops| - 1]);
      TrackedStep(Replay(Tracked(), Tracked().initial, ops[..|ops| - 1]), Last(ops));
    }
  }

  ghost predicate TrackedSane(t: Tracking) { Sane(t.desk) }

  ghost predicate TrackedPermitted(t: Tracking, op: Op) { Permitted(t.desk, op) }

  ghost predicate TrackedInv(t: Tracking) { Inv(t.desk, t.approved) }

  ghost predicate TrackedFits(t: Tracking, op: Op) { CopyFits(t.desk, t.approved, op) }

  /** A legal run, whatever copies are saved in it. */
  ghost predicate LegalRun(ops: seq<Op>) {
    Legal(Tracked(), TrackedPermitted, Tracked().initial, ops)
  }

  /** A legal run in which the copies that are saved as approved read as approved. */
  ghost predicate FittingRun(ops: seq<Op>) {
    LegalRun(ops) && Legal(Tracked(), TrackedFits, Tracked().initial, ops)
  }

  /** In a run of whole operations, saves of whole copies by other code among them, every approved derivative
    * has an active approval and reads as it was last approved, throughout, exactly if each copy that is saved
    * as approved does. */
  lemma InvExactly(ops: seq<Op>)
    requires LegalRun(ops)
    ensures Throughout(Tracked(), TrackedInv, Tracked().initial, ops) <==> Legal(Tracked(), TrackedFits, Tracked().initial, ops)
    ensures Sane(Replay(Workflow(), Workflow().initial, ops))
  {
    forall t, op | TrackedSane(t) && TrackedPermitted(t, op)
      ensures TrackedSane(Step(Tracked(), t, op))
      ensures TrackedInv(t) ==> (TrackedInv(Step(Tracked(), t, op)) <==> TrackedFits(t, op))
    {
      TrackedStep(t, op);
      SaneStep(t.desk, op);
      if TrackedInv(t) {
        InvStepIff(t.desk, t.approved, op);
      }
    }
    KeptExactly(Tracked(), TrackedSane, TrackedPermitted, TrackedInv, TrackedFits, Tracked().initial, ops);
    TrackedRun(ops);
  }

  /** So it holds after every run whose approved copies all do. */
  lemma InvForever(ops: seq<Op>)
    requires FittingRun(ops)
    ensures Inv(Replay(Workflow(), Workflow().initial, ops), LastApproved(ops))
  {
    InvExactly(ops);
    assert ops[..|ops|] == ops;
    assert TrackedInv(Replay(Tracked(), Tracked().initial, ops[..|ops|]));
    TrackedRun(ops);
  }

  lemma OnlyOneActive(records: seq<Approval>, id: string, i: nat, k: nat)
    requires OneActive(records) && i < |records| && k < |records|
    requires ActiveFor(records[i], id) && ActiveFor(records[k], id) && id != ""
    ensures i == k
  {
    assert ActiveFor(records[k], "") && ActiveFor(records[i], "");
    assert k < i || k == i || i < k;
  }

  /** What a creation that goes through has found. */
  lemma CreatedFrom(desk: Desk, op: Op)
    requires op.CreateJob? && Apply(op, desk).Changed?
    ensures
      var d := Subject(op, desk);
      && d.Some? && d.value.id == op.id && d.value in desk.derivatives && d.value.status.Approved?
      && ActiveApproval(desk.approvals, op.id).Some?
      && Apply(op, desk).result == Created(NewJob(op, d.value)) && NewJob(op, d.value) in Apply(op, desk).data.jobs
      && Step(Workflow(), desk, op).derivatives == desk.derivatives && Step(Workflow(), desk, op).approvals == desk.approvals
  {
    var at := Locate(Ids(desk.derivatives), op.id).value;
    assert Ids(desk.derivatives)[at] == desk.derivatives[at].id;
    var job := NewJob(op, desk.derivatives[at]);
    var jobs := Apply(op, desk).data.jobs;
    var place := Locate(PublishQueue.Ids(desk.jobs), op.freshId);
    assert jobs[if place.Some? then place.value else |desk.jobs|] == job;
  }

  /** The guard is exact: a job is created just if the derivative exists, the mode is one of the two, the channel
    * is registered, the derivative's own, able to publish and connected, the derivative is approved with an
    * approval that is granted and not revoked, no job of the channel is queued, running or waiting for a login
    * or for verification, the text passes where the channel checks it, and nothing was published before. */
  lemma CreationGoesThroughIff(desk: Desk, op: Op)
    requires op.CreateJob? && op.id != ""
    ensures
      var d := Subject(op, desk);
      Apply(op, desk).Changed? <==>
        && d.Some? && op.runMode in {"dry_run", "live"}
        && op.around.registered && d.value.channelId == op.channelId && op.around.canPublish && op.around.connected
        && d.value.status == DraftStatus.Approved
        && (exists a :: a in desk.approvals && a.derivativeId == op.id && a.status == Granted && a.revokedAt == Blank)
        && (forall j :: j in desk.jobs && j.channelId == op.channelId ==>
              j.status !in {Jobs.Queued, Jobs.Running, Jobs.NeedsLogin, Jobs.ManualVerification})
        && (op.around.canGenerate ==> op.around.validationErrors == 0) && !op.around.alreadyPublished
  {
    var d := Subject(op, desk);
    if d.Some? {
      assert Ids(desk.derivatives)[Locate(Ids(desk.derivatives), op.id).value] == d.value.id == op.id;
      ActiveExistsIff(desk.approvals, op.id);
      ChannelFreeIff(desk.jobs, op.channelId);
    }
  }

  lemma ActiveExistsIff(records: seq<Approval>, id: string)
    requires id != ""
    ensures ActiveApproval(records, id).Some? <==>
      exists a :: a in records && a.derivativeId == id && a.status == Granted && a.revokedAt == Blank
  {
    if a :| a in records && a.derivativeId == id && a.status == Granted && a.revokedAt == Blank {
      var i :| 0 <= i < |records| && records[i] == a;
      assert ActiveFor(records[i], id);
    }
    if ActiveApproval(records, id).Some? {
      assert records[ActiveApproval(records, id).value] in records;
    }
  }

  lemma ChannelFreeIff(jobs: seq<PublishQueue.Job>, channelId: string)
    ensures PublishQueue.ActiveOn(jobs, channelId).None? <==>
      forall j :: j in jobs && j.channelId == channelId ==>
        j.status !in {Jobs.Queued, Jobs.Running, Jobs.NeedsLogin, Jobs.ManualVerification}
  {
  }

  /** What a creation puts on file: a queued job with the mode, channel, derivative and id of the request, both
    * attempts left, held by nobody, with no evidence of a submission and no error; other jobs are as before. */
  lemma CreationStores(desk: Desk, op: Op)
    requires op.CreateJob? && Apply(op, desk).Changed?
    ensures
      Apply(op, desk).result.Created?
      && var j := Apply(op, desk).result.job;
      var before, after := desk.jobs, Step(Workflow(), desk, op).jobs;
      && j in after
      && j.id == op.freshId && j.derivativeId == op.id && j.channelId == op.channelId && j.runMode == op.runMode
      && j.status == Jobs.Queued && j.attemptCount == 0 && j.maxAttempts == 2
      && j.claimedBy == "" && j.errorCode == "" && j.lastStep == "queued"
      && !j.unknownResult && !j.manualVerificationRequired
      && j.submittedAt == j.startedAt == j.finishedAt == j.claimedAt == j.leaseExpiresAt == j.heartbeatAt == Blank
      && At(j.requestedAt, op.now) && At(j.createdAt, op.now) && At(j.updatedAt, op.now)
      && |before| <= |after| <= |before| + 1
      && (forall k :: 0 <= k < |before| && before[k].id != op.freshId ==> after[k] == before[k])
      && (op.freshId !in PublishQueue.Ids(before) ==> after == before + [j])
  {
    CreatedFrom(desk, op);
    WrittenSecond(op.now);
    var at := Locate(PublishQueue.Ids(desk.jobs), op.freshId);
    assert at.Some? ==> PublishQueue.Ids(desk.jobs)[at.value] == desk.jobs[at.value].id;
  }

  /** In every run, whatever copies are saved in it, `create_publish_job_from_derivative` creates a job only
    * for a derivative that is approved by exactly one active record. */
  lemma GuardedByOneRecord(ops: seq<Op>, op: Op)
    requires LegalRun(ops)
    requires op.CreateJob? && Apply(op, Replay(Workflow(), Workflow().initial, ops)).Changed?
    ensures
      var desk := Replay(Workflow(), Workflow().initial, ops);
      var d := Subject(op, desk);
      && d.Some? && d.value.id == op.id && d.value.status.Approved?
      && (exists i :: 0 <= i < |desk.approvals| && ActiveFor(desk.approvals[i], op.id)
            && forall k :: 0 <= k < |desk.approvals| && ActiveFor(desk.approvals[k], op.id) ==> k == i)
  {
    var desk := Replay(Workflow(), Workflow().initial, ops);
    InvExactly(ops);
    CreatedFrom(desk, op);
    assert op.id in Ids(desk.derivatives);
    var i := ActiveApproval(desk.approvals, op.id).value;
    forall k | 0 <= k < |desk.approvals| && ActiveFor(desk.approvals[k], op.id)
      ensures k == i
    {
      OnlyOneActive(desk.approvals, op.id, i, k);
    }
  }

  /** And where the copies that are saved as approved read as approved, the derivative reads, word for word, as
    * it did when it was last approved. */
  lemma JobsAreForApprovedText(ops: seq<Op>, op: Op)
    requires FittingRun(ops)
    requires op.CreateJob? && Apply(op, Replay(Workflow(), Workflow().initial, ops)).Changed?
    ensures
      var desk := Replay(Workflow(), Workflow().initial, ops);
      var d := Subject(op, desk);
      && d.Some? && d.value.id == op.id && op.id in LastApproved(ops) && LastApproved(ops)[op.id] == WordingOf(d.value)
  {
    var desk := Replay(Workflow(), Workflow().initial, ops);
    InvForever(ops);
    CreatedFrom(desk, op);
    var at := Locate(Ids(desk.derivatives), op.id).value;
    assert ReadsApproved(desk.derivatives[at], desk.approvals, LastApproved(ops));
  }

  /** The derivative has an active approval and reads as it was last approved. */
  ghost predicate Backed(desk: Desk, approved: map<string, Wording>, id: string) {
    ActiveApproval(desk.approvals, id).Some? && id in approved && Reading(desk, id) == Some(approved[id])
  }

  /** The derivative of the job that an operation puts on file. */
  function Queues(desk: Desk, op: Op): Option<string> {
    if op.AppendJob? then Some(op.job.derivativeId)
    else if op.CreateJob? && Apply(op, desk).Changed? then Some(op.id)
    else None
  }

  ghost predicate QueuesBacked(t: Tracking, op: Op) {
    Queues(t.desk, op).Some? ==> Backed(t.desk, t.approved, Queues(t.desk, op).value)
  }

  ghost predicate AppendsBacked(t: Tracking, op: Op) {
    op.AppendJob? ==> Backed(t.desk, t.approved, op.job.derivativeId)
  }

  /** In such a run every job that is put on file is for text that was approved, exactly if those appended
    * without a guard are. */
  lemma BackedExactly(ops: seq<Op>)
    requires FittingRun(ops)
    ensures Legal(Tracked(), QueuesBacked, Tracked().initial, ops) <==> Legal(Tracked(), AppendsBacked, Tracked().initial, ops)
  {
    InvExactly(ops);
    forall n | 0 <= n < |ops|
      ensures
        var t := Replay(Tracked(), Tracked().initial, ops[..n]);
        QueuesBacked(t, ops[n]) <==> AppendsBacked(t, ops[n])
    {
      var t := Replay(Tracked(), Tracked().initial, ops[..n]);
      assert TrackedInv(t);
      if ops[n].CreateJob? && Apply(ops[n], t.desk).Changed? {
        CreationIsBacked(t, ops[n]);
      }
    }
  }

  lemma CreationIsBacked(t: Tracking, op: Op)
    requires TrackedInv(t) && op.CreateJob? && Apply(op, t.desk).Changed?
    ensures Backed(t.desk, t.approved, op.id)
  {
    CreatedFrom(t.desk, op);
    var at := Locate(Ids(t.desk.derivatives), op.id).value;
    assert ReadsApproved(t.desk.derivatives[at], t.desk.approvals, t.approved);
  }

  // ---------------------------------------------------------------- inputs on which it fails

  /** The planner saves a derivative as approved and appends a job for it: no approval is on record. */
  lemma PlannerNeedsNoApproval(copy: Derivative, job: PublishQueue.Job)
    requires copy.id != "" && copy.status.Approved? && job.derivativeId == copy.id
    ensures
      var ops := [SaveCopy(copy), AppendJob(job)];
      && LegalRun(ops) && !FittingRun(ops)
      && !Legal(Tracked(), QueuesBacked, Tracked().initial, ops)
      && Replay(Workflow(), Workflow().initial, ops) == Desk([copy], [], [job])
  {
    var ops := [SaveCopy(copy), AppendJob(job)];
    var start := Tracked().initial;
    assert ops[..0] == [] && ops[..1] == [] + [ops[0]] && ops == ops[..1] + [ops[1]];
    ReplayAppend(Tracked(), start, [], ops[0]);
    TrackedStep(start, ops[0]);
    assert Replay(Tracked(), start, ops[..1]) == Tracking(Desk([copy], [], []), map[]);
    assert !TrackedFits(Replay(Tracked(), start, ops[..0]), ops[0]);
    assert !QueuesBacked(Replay(Tracked(), start, ops[..1]), ops[1]);
    ReplayAppend(Workflow(), start.desk, [], ops[0]);
    ReplayAppend(Workflow(), start.desk, ops[..1], ops[1]);
  }

  lemma SingleApprove(d: Derivative, approvals: seq<Approval>, approve: Op)
    requires approve.Approve? && approve.id == d.id
    requires approve.freshId !in ApprovalIds(RevokeActive(approvals, d.id, approve.now))
    ensures
      var approved := d.(status := Approved, updatedAt := Written(approve.now));
      && Step(Workflow(), Desk([d], approvals, []), approve) ==
           Desk([approved], RevokeActive(approvals, d.id, approve.now) + [Decision(approve)], [])
      && Subject(approve, Desk([d], approvals, [])) == Some(d)
  {
    var approved := d.(status := Approved, updatedAt := Written(approve.now));
    assert Ids([d])[0] == d.id && Locate(Ids([d]), d.id) == Some(0);
    assert [d][0 := approved] == [approved];
  }

  lemma SinglePut(d: Derivative, approvals: seq<Approval>, op: Op)
    requires (op.SaveCopy? && op.copy.id == d.id) || (op.Edit? && op.id == d.id)
    ensures Rewritten(Desk([d], approvals, []), op).Some?
    ensures Step(Workflow(), Desk([d], approvals, []), op) ==
            Desk([Rewritten(Desk([d], approvals, []), op).value], approvals, [])
  {
    assert Ids([d])[0] == d.id && Locate(Ids([d]), d.id) == Some(0);
    var w := Rewritten(Desk([d], approvals, []), op).value;
    assert [d][0 := w] == [w];
  }

  lemma RevokedOne(a: Approval, now: int)
    requires ActiveFor(a, a.derivativeId)
    ensures ApprovalIds(RevokeActive([a], a.derivativeId, now)) == [a.id]
  {
    assert ApprovalIds([a])[0] == a.id;
    assert ActiveApproval([a], a.derivativeId) == Some(0);
    assert Locate(ApprovalIds([a]), a.id) == Some(0);
  }

  /** A legal run reaches this state. */
  ghost predicate Reached(ops: seq<Op>, t: Tracking) {
    LegalRun(ops) && Replay(Tracked(), Tracked().initial, ops) == t
  }

  lemma ReachStep(ops: seq<Op>, t: Tracking, op: Op)
    requires Reached(ops, t) && Permitted(t.desk, op)
    ensures Reached(ops + [op], Tracking(Step(Workflow(), t.desk, op), Approving(t.desk, t.approved, op)))
  {
    assert (ops + [op])[..|ops|] == ops;
    LegalSplit(Tracked(), TrackedPermitted, Tracked().initial, ops + [op]);
    ReplayAppend(Tracked(), Tracked().initial, ops, op);
    TrackedStep(t, op);
  }

  function DraftOf(gen: Op): Derivative
    requires gen.Generate?
  {
    Derivative(gen.freshId, gen.sourceId, gen.channelId, gen.title, Strip(gen.body), Draft, Written(gen.now), Written(gen.now))
  }

  function ApprovedBy(d: Derivative, approve: Op): Derivative
    requires approve.Approve?
  {
    d.(status := Approved, updatedAt := Written(approve.now))
  }

  lemma ReachDraft(gen: Op)
    requires gen.Generate? && gen.freshId != ""
    ensures Reached([gen], Tracking(Desk([DraftOf(gen)], [], []), map[]))
  {
    GeneratedAlone(gen);
    assert [] + [gen] == [gen];
    assert Reached([], Tracked().initial);
    ReachStep([], Tracked().initial, gen);
  }

  lemma GeneratedAlone(gen: Op)
    requires gen.Generate?
    ensures Step(Workflow(), Workflow().initial, gen) == Desk([DraftOf(gen)], [], [])
    ensures Approving(Workflow().initial, map[], gen) == map[]
  {
    assert Upsert([], Ids([]), gen.freshId, DraftOf(gen)) == [DraftOf(gen)];
  }

  lemma ReachApproved(gen: Op, first: Op)
    requires gen.Generate? && gen.freshId != "" && first.Approve? && first.id == gen.freshId
    ensures Reached([gen, first], Tracking(Desk([ApprovedBy(DraftOf(gen), first)], [Decision(first)], []),
                                           map[gen.freshId := WordingOf(DraftOf(gen))]))
  {
    var t := Tracking(Desk([DraftOf(gen)], [], []), map[]);
    assert [gen] + [first] == [gen, first] && [] + [Decision(first)] == [Decision(first)];
    assert RevokeActive([], gen.freshId, first.now) == [];
    ReachDraft(gen);
    SingleApprove(DraftOf(gen), [], first);
    ReachStep([gen], t, first);
  }

  /** The derivative as the edit of its approved form leaves it. */
  function EditedBy(gen: Op, first: Op, edit: Op): Derivative
    requires gen.Generate? && first.Approve? && edit.Edit? && edit.id == gen.freshId
  {
    ApprovedBy(DraftOf(gen), first).(
      title := if Strip(edit.title) == "" then gen.title else Strip(edit.title), body := Strip(edit.body),
      status := Draft, updatedAt := Written(edit.now))
  }

  lemma ReachEdited(gen: Op, first: Op, edit: Op)
    requires gen.Generate? && gen.freshId != "" && first.Approve? && edit.Edit? && first.id == edit.id == gen.freshId
    ensures Reached([gen, first, edit], Tracking(Desk([EditedBy(gen, first, edit)], [Decision(first)], []),
                                                 map[gen.freshId := WordingOf(DraftOf(gen))]))
  {
    var d := ApprovedBy(DraftOf(gen), first);
    var t := Tracking(Desk([d], [Decision(first)], []), map[gen.freshId := WordingOf(DraftOf(gen))]);
    assert [gen, first] + [edit] == [gen, first, edit];
    ReachApproved(gen, first);
    SinglePut(d, [Decision(first)], edit);
    assert Locate(Ids([d]), d.id) == Some(0);
    assert Rewritten(t.desk, edit) == Some(EditedBy(gen, first, edit));
    ReachStep([gen, first], t, edit);
  }

  lemma ReachAgain(gen: Op, first: Op, edit: Op, second: Op)
    requires gen.Generate? && gen.freshId != "" && first.Approve? && second.Approve? && edit.Edit?
    requires first.id == second.id == edit.id == gen.freshId && first.freshId != second.freshId
    ensures
      var e := EditedBy(gen, first, edit);
      Reached([gen, first, edit, second],
              Tracking(Desk([ApprovedBy(e, second)], RevokeActive([Decision(first)], gen.freshId, second.now) + [Decision(second)], []),
                       map[gen.freshId := WordingOf(e)]))
  {
    var e := EditedBy(gen, first, edit);
    var t := Tracking(Desk([e], [Decision(first)], []), map[gen.freshId := WordingOf(DraftOf(gen))]);
    assert [gen, first, edit] + [second] == [gen, first, edit, second];
    ReachEdited(gen, first, edit);
    RevokedOne(Decision(first), second.now);
    SingleApprove(e, [Decision(first)], second);
    assert Approving(t.desk, t.approved, second) == map[gen.freshId := WordingOf(e)];
    ReachStep([gen, first, edit], t, second);
  }

  /** An approved derivative is edited, approved again, and then saved by a worker that still holds it as it was
    * first approved. The record of the second approval lets a job through for the first text. */
  lemma OutdatedCopyPassesTheGuard(gen: Op, first: Op, edit: Op, second: Op, create: Op)
    requires gen.Generate? && gen.freshId != "" && first.Approve? && second.Approve? && edit.Edit? && create.CreateJob?
    requires first.id == second.id == edit.id == create.id == gen.freshId && first.freshId != second.freshId
    requires Strip(edit.body) != Strip(gen.body)
    requires create.channelId == gen.channelId && create.runMode == "live"
    requires create.around == Surroundings(true, true, true, false, 0, false)
    ensures
      var ops := [gen, first, edit, second, SaveCopy(ApprovedBy(DraftOf(gen), first))];
      var desk := Replay(Workflow(), Workflow().initial, ops);
      && Replay(Workflow(), Workflow().initial, [gen, first]).derivatives == [ApprovedBy(DraftOf(gen), first)]
      && LegalRun(ops) && Apply(create, desk).Changed?
      && create.id in LastApproved(ops) && Reading(desk, create.id) != Some(LastApproved(ops)[create.id])
  {
    var copy, e := ApprovedBy(DraftOf(gen), first), EditedBy(gen, first, edit);
    var both := RevokeActive([Decision(first)], gen.freshId, second.now) + [Decision(second)];
    var t := Tracking(Desk([ApprovedBy(e, second)], both, []), map[gen.freshId := WordingOf(e)]);
    var ops := [gen, first, edit, second];
    assert ops + [SaveCopy(copy)] == [gen, first, edit, second, SaveCopy(copy)];
    ReachApproved(gen, first);
    TrackedRun([gen, first]);
    ReachAgain(gen, first, edit, second);
    SinglePut(ApprovedBy(e, second), both, SaveCopy(copy));
    ReachStep(ops, t, SaveCopy(copy));
    TrackedRun(ops + [SaveCopy(copy)]);
    GuardPasses(copy, both, create);
  }

  lemma GuardPasses(d: Derivative, approvals: seq<Approval>, create: Op)
    requires create.CreateJob? && create.id == d.id && d.status.Approved? && create.channelId == d.channelId
    requires approvals != [] && ActiveFor(Last(approvals), d.id) && create.runMode == "live"
    requires create.around == Surroundings(true, true, true, false, 0, false)
    ensures Apply(create, Desk([d], approvals, [])).Changed? && Reading(Desk([d], approvals, []), d.id) == Some(WordingOf(d))
  {
    assert Ids([d])[0] == d.id && Locate(Ids([d]), d.id) == Some(0);
    assert ActiveFor(approvals[|approvals| - 1], d.id);
    assert MayPublish(Desk([d], approvals, []), d, create.channelId, create.around);
  }

  // ---------------------------------------------------------------- one save at a time

  /** The approval file with its one mutation, `save_approval`; the operations above make several saves, and
    * others can come between them. */
  function ApprovalFile(): Store<Approval, seq<Approval>, ()> {
    Store((a: Approval, records) => Changed(Upsert(records, ApprovalIds(records), a.id, a), ()), [])
  }

  /** An active record is saved only where no other is active for its derivative. */
  ghost predicate SavedAlone(records: seq<Approval>, a: Approval) {
    ActiveFor(a, "") ==>
      forall k :: 0 <= k < |records| && Some(k) != Locate(ApprovalIds(records), a.id) && ActiveFor(records[k], "")
        ==> records[k].derivativeId != a.derivativeId
  }

  lemma SaveKeepsOneActiveIff(records: seq<Approval>, a: Approval)
    requires OneActive(records)
    ensures OneActive(Step(ApprovalFile(), records, a)) <==> SavedAlone(records, a)
  {
    var after := Step(ApprovalFile(), records, a);
    var at := Locate(ApprovalIds(records), a.id);
    assert after[if at.Some? then at.value else |records|] == a;
    if OneActive(after) && ActiveFor(a, "") {
      forall k | 0 <= k < |records| && Some(k) != at && ActiveFor(records[k], "")
        ensures records[k].derivativeId != a.derivativeId
      {
        assert after[k] == records[k];
      }
    }
  }

  /** However the saves of several approvals and rejections interleave, a derivative has at most one active
    * approval throughout exactly if each active record is saved where no other is active. */
  lemma OneActiveExactly(records: seq<Approval>, saves: seq<Approval>)
    requires OneActive(records)
    ensures Throughout(ApprovalFile(), OneActive, records, saves) <==> Legal(ApprovalFile(), SavedAlone, records, saves)
  {
    forall e, a | OneActive(e)
      ensures OneActive(Step(ApprovalFile(), e, a)) <==> SavedAlone(e, a)
    {
      SaveKeepsOneActiveIff(e, a);
    }
    KeptExactly(ApprovalFile(), AnyState, AnyStep, OneActive, SavedAlone, records, saves);
  }

  // ---------------------------------------------------------------- what a queued job will publish

  /** How a derivative reads now: the publish worker looks it up when the job runs. */
  function Reading(desk: Desk, id: string): Option<Wording> {
    var at := Locate(Ids(desk.derivatives), id);
    if at.None? then None else Some(WordingOf(desk.derivatives[at.value]))
  }

  /** The operation leaves a derivative that reads `w` reading `w`: an edit that changes nothing, a save
    * of a copy that says the same, or an operation that rewrites no text of it. */
  predicate KeepsWording(op: Op, id: string, w: Wording) {
    match op
    case Edit(subject, title, body, _) =>
      subject == id ==> (Strip(title) == "" || Strip(title) == w.title) && Strip(body) == w.body
    case SaveCopy(copy) => copy.id == id ==> WordingOf(copy) == w
    case _ => true
  }

  /** The wording that a run of operations makes of `w`. */
  function Reworded(w: Wording, id: string, ops: seq<Op>): Wording {
    if ops == [] then w
    else
      var before := Reworded(w, id, ops[..|ops| - 1]);
      match Last(ops)
      case Edit(subject, title, body, _) =>
        if subject == id then Wording(if Strip(title) == "" then before.title else Strip(title), Strip(body)) else before
      case SaveCopy(copy) => if copy.id == id then WordingOf(copy) else before
      case _ => before
  }

  /** Derivatives keep their places. */
  lemma PlacesStay(desk: Desk, op: Op)
    requires Sane(desk) && Permitted(desk, op)
    ensures Ids(desk.derivatives) <= Ids(Step(Workflow(), desk, op).derivatives)
  {
    DerivativesStep(desk, op);
    var written := Rewritten(desk, op);
    if written.Some? && written.value.id in Ids(desk.derivatives) {
      UpsertExisting(desk.derivatives, written.value);
    } else if written.Some? {
      UpsertNew(desk.derivatives, written.value);
    }
  }

  /** What an operation writes to an existing derivative says. */
  lemma WrittenWording(desk: Desk, op: Op, id: string, w: Wording)
    requires Permitted(desk, op) && Reading(desk, id) == Some(w)
    ensures
      var written := Rewritten(desk, op);
      Reworded(w, id, [op]) == if written.Some? && written.value.id == id then WordingOf(written.value) else w
    ensures Reworded(w, id, [op]) == w <==> KeepsWording(op, id, w)
  {
    assert [op][..0] == [];
    var at := Locate(Ids(desk.derivatives), id).value;
    assert Ids(desk.derivatives)[at] == desk.derivatives[at].id == id;
  }

  lemma ReadingStep(desk: Desk, op: Op, id: string, w: Wording)
    requires Sane(desk) && Permitted(desk, op) && Reading(desk, id) == Some(w)
    ensures Reading(Step(Workflow(), desk, op), id) == Some(Reworded(w, id, [op]))
    ensures Reworded(w, id, [op]) == w <==> KeepsWording(op, id, w)
  {
    var after := Step(Workflow(), desk, op);
    var at := Locate(Ids(desk.derivatives), id).value;
    PlacesStay(desk, op);
    WrittenWording(desk, op, id, w);
    DerivativesStep(desk, op);
    assert Ids(desk.derivatives)[at] == Ids(after.derivatives)[at] == after.derivatives[at].id == id;
    LocateDistinct(Ids(after.derivatives), at);
  }

  lemma {:induction false} ReadsReworded(desk: Desk, ops: seq<Op>, id: string, w: Wording)
    requires Sane(desk) && Legal(Workflow(), Permitted, desk, ops) && Reading(desk, id) == Some(w)
    ensures Sane(Replay(Workflow(), desk, ops)) && Reading(Replay(Workflow(), desk, ops), id) == Some(Reworded(w, id, ops))
  {
    if ops != [] {
      var front := ops[..|ops| - 1];
      var before := Replay(Workflow(), desk, front);
      LegalPrefix(Workflow(), Permitted, desk, ops);
      ReadsReworded(desk, front, id, w);
      SaneStep(before, Last(ops));
      ReadingStep(before, Last(ops), id, Reworded(w, id, front));
      assert [Last(ops)][..0] == [];
    }
  }

  lemma ReadingExactly(desk: Desk, ops: seq<Op>, id: string, w: Wording)
    requires Sane(desk) && Legal(Workflow(), Permitted, desk, ops) && Reading(desk, id) == Some(w)
    ensures Throughout(Workflow(), s => Reading(s, id) == Some(w), desk, ops)
            <==> forall k :: 0 <= k < |ops| ==> KeepsWording(ops[k], id, w)
  {
    var good := s => Reading(s, id) == Some(w);
    var fits := (s: Desk, op) => KeepsWording(op, id, w);
    forall e, op | Sane(e) && Permitted(e, op)
      ensures Sane(Step(Workflow(), e, op))
      ensures good(e) ==> (good(Step(Workflow(), e, op)) <==> fits(e, op))
    {
      SaneStep(e, op);
      if good(e) {
        ReadingStep(e, op, id, w);
      }
    }
    KeptExactly(Workflow(), Sane, Permitted, good, fits, desk, ops);
    assert Throughout(Workflow(), good, desk, ops) <==> Throughout(Workflow(), s => Reading(s, id) == Some(w), desk, ops);
  }

  /** From the creation of a publish job on: its derivative reads as it did then (as it was approved, in a
    * fitting run) in every later state exactly if every later operation keeps that wording; and at any one
    * time, when the job runs say, it reads what the edits and the saves of other code have made of it. */
  lemma QueuedTextExactly(ops: seq<Op>, create: Op, later: seq<Op>)
    requires LegalRun(ops + [create] + later)
    requires create.CreateJob? && Apply(create, Replay(Workflow(), Workflow().initial, ops)).Changed?
    ensures
      var queued := Replay(Workflow(), Workflow().initial, ops + [create]);
      && Reading(queued, create.id).Some?
      && var w := Reading(queued, create.id).value;
      && (FittingRun(ops) ==> create.id in LastApproved(ops) && w == LastApproved(ops)[create.id])
      && (Throughout(Workflow(), s => Reading(s, create.id) == Some(w), queued, later)
          <==> forall k :: 0 <= k < |later| ==> KeepsWording(later[k], create.id, w))
      && Reading(Replay(Workflow(), queued, later), create.id) == Some(Reworded(w, create.id, later))
  {
    var start := Workflow().initial;
    LegalConcat(Tracked(), TrackedPermitted, Tracked().initial, ops + [create], later);
    LegalConcat(Tracked(), TrackedPermitted, Tracked().initial, ops, [create]);
    var desk := Replay(Workflow(), start, ops);
    var queued := Replay(Workflow(), start, ops + [create]);
    ReplayAppend(Workflow(), start, ops, create);
    InvExactly(ops + [create]);
    CreatedFrom(desk, create);
    assert Reading(desk, create.id).Some? && Reading(queued, create.id) == Reading(desk, create.id);
    var w := Reading(queued, create.id).value;
    if FittingRun(ops) {
      JobsAreForApprovedText(ops, create);
    }
    TrackedRun(ops + [create]);
    LegalUntracked(Replay(Tracked(), Tracked().initial, ops + [create]), later);
    ReadingExactly(queued, later, create.id, w);
    ReadsReworded(queued, later, create.id, w);
  }

  /** Tracking changes nothing about what is permitted. */
  lemma {:induction false} LegalUntracked(t: Tracking, ops: seq<Op>)
    requires Legal(Tracked(), TrackedPermitted, t, ops)
    ensures Legal(Workflow(), Permitted, t.desk, ops)
    ensures Replay(Tracked(), t, ops).desk == Replay(Workflow(), t.desk, ops)
  {
    if ops != [] {
      var front := ops[..|ops| - 1];
      LegalPrefix(Tracked(), TrackedPermitted, t, ops);
      LegalUntracked(t, front);
      TrackedStep(Replay(Tracked(), t, front), Last(ops));
      LegalSplit(Workflow(), Permitted, t.desk, ops);
    }
  }

  /** An input on which it fails: an edit of the body after queueing. The job stays queued for a derivative
    * that reads differently, and the approval record stays active. */
  lemma EditAfterQueueing(ops: seq<Op>, create: Op, edit: Op)
    requires LegalRun(ops + [create] + [edit])
    requires create.CreateJob? && Apply(create, Replay(Workflow(), Workflow().initial, ops)).Changed?
    requires edit.Edit? && edit.id == create.id
    ensures
      var queued := Replay(Workflow(), Workflow().initial, ops + [create]);
      var after := Step(Workflow(), queued, edit);
      && after.jobs == queued.jobs
      && (exists k :: 0 <= k < |after.jobs| && after.jobs[k].id == create.freshId && after.jobs[k].derivativeId == create.id
            && after.jobs[k].status.Queued?)
      && ActiveApproval(after.approvals, create.id).Some?
      && Reading(queued, create.id).Some? && Reading(after, create.id).Some?
      && Reading(after, create.id).value.body == Strip(edit.body)
  {
    var start := Workflow().initial;
    var queued := Replay(Workflow(), start, ops + [create]);
    QueuedTextExactly(ops, create, [edit]);
    assert [edit][..0] == [];
    ReplayAppend(Workflow(), start, ops, create);
    CreatedFrom(Replay(Workflow(), start, ops), create);
    var job := Apply(create, Replay(Workflow(), start, ops)).result.job;
    var k :| 0 <= k < |queued.jobs| && queued.jobs[k] == job;
    assert Step(Workflow(), queued, edit).approvals == queued.approvals;
    assert Step(Workflow(), queued, edit).jobs[k].id == create.freshId;
  }

  /** Such a run exists, from the empty desk: generate, approve, create the job, edit. */
  lemma EditAfterQueueingHappens(gen: Op, approve: Op, create: Op, edit: Op)
    requires gen.Generate? && gen.freshId != "" && approve.Approve? && approve.id == gen.freshId
    requires create.CreateJob? && create.id == gen.freshId && create.channelId == gen.channelId && create.runMode == "live"
    requires create.around == Surroundings(true, true, true, false, 0, false)
    requires edit.Edit? && edit.id == gen.freshId
    ensures LegalRun([gen, approve] + [create] + [edit])
    ensures Apply(create, Replay(Workflow(), Workflow().initial, [gen, approve])).Changed?
    ensures Reading(Replay(Workflow(), Workflow().initial, [gen, approve]), gen.freshId) == Some(Wording(gen.title, Strip(gen.body)))
  {
    var d := ApprovedBy(DraftOf(gen), approve);
    var t := Tracking(Desk([d], [Decision(approve)], []), map[gen.freshId := WordingOf(DraftOf(gen))]);
    ReachApproved(gen, approve);
    TrackedRun([gen, approve]);
    GuardPasses(d, [Decision(approve)], create);
    ReachStep([gen, approve], t, create);
    var next := Tracking(Step(Workflow(), t.desk, create), Approving(t.desk, t.approved, create));
    ReachStep([gen, approve] + [create], next, edit);
  }

  // ---------------------------------------------------------------- what an approval record certifies

  /** Without another approval no active record appears. */
  lemma NoNewApproval(desk: Desk, op: Op, id: string)
    requires Sane(desk) && Permitted(desk, op) && id != "" && ActiveApproval(desk.approvals, id).None?
    requires op.Approve? ==> op.id != id
    ensures ActiveApproval(Step(Workflow(), desk, op).approvals, id).None?
  {
    if (op.Approve? || op.Reject? || op.ReturnToDraft?) && Subject(op, desk).Some? {
      assert op.id in Ids(desk.derivatives);
      var revoked := RevokeActive(desk.approvals, op.id, op.now);
      RevokeShape(desk.approvals, op.id, op.now);
      assert |revoked| == |ApprovalIds(revoked)| == |desk.approvals|;
      forall i | 0 <= i < |revoked|
        ensures !ActiveFor(revoked[i], id)
      {
        assert !ActiveFor(desk.approvals[i], id);
      }
      if !op.ReturnToDraft? {
        AppendDecision(revoked, Decision(op));
      }
    }
  }

  /** If there is an active record for the derivative, it reads `w`. */
  ghost predicate Certifies(desk: Desk, id: string, w: Wording) {
    id in Ids(desk.derivatives) && (ActiveApproval(desk.approvals, id).Some? ==> Reading(desk, id) == Some(w))
  }

  ghost predicate KeepsCertified(desk: Desk, op: Op, id: string, w: Wording) {
    ActiveApproval(desk.approvals, id).Some? ==> KeepsWording(op, id, w)
  }

  ghost predicate NotApprovedAgain(desk: Desk, op: Op, id: string) {
    Permitted(desk, op) && (op.Approve? ==> op.id != id)
  }

  lemma CertifiedStep(desk: Desk, op: Op, id: string, w: Wording)
    requires Sane(desk) && NotApprovedAgain(desk, op, id) && Certifies(desk, id, w)
    ensures Certifies(Step(Workflow(), desk, op), id, w) <==> KeepsCertified(desk, op, id, w)
  {
    var after := Step(Workflow(), desk, op);
    var now := Reading(desk, id).value;
    assert Reading(desk, id) == Some(now) && id != "";
    ReadingStep(desk, op, id, now);
    assert id in Ids(after.derivatives);
    if ActiveApproval(desk.approvals, id).None? {
      NoNewApproval(desk, op, id);
    } else {
      ApprovalsStep(desk, op);
    }
  }

  /** From an approval on and until the next one, an active record certifies the approved text throughout
    * exactly if every operation that finds the record active keeps that text: an edit does not revoke it, and
    * neither does the save of a copy. */
  lemma RecordCertifiesExactly(ops: seq<Op>, approve: Op, later: seq<Op>)
    requires LegalRun(ops + [approve]) && approve.Approve?
    requires Subject(approve, Replay(Workflow(), Workflow().initial, ops)).Some?
    requires
      Legal(Workflow(), (s, op) => NotApprovedAgain(s, op, approve.id),
            Replay(Workflow(), Workflow().initial, ops + [approve]), later)
    ensures
      var w := WordingOf(Subject(approve, Replay(Workflow(), Workflow().initial, ops)).value);
      var desk := Replay(Workflow(), Workflow().initial, ops + [approve]);
      && ActiveApproval(desk.approvals, approve.id).Some? && Certifies(desk, approve.id, w)
      && (Throughout(Workflow(), s => Certifies(s, approve.id, w), desk, later)
          <==> Legal(Workflow(), (s, op) => KeepsCertified(s, op, approve.id, w), desk, later))
  {
    var start := Workflow().initial;
    var before := Replay(Workflow(), start, ops);
    var desk := Replay(Workflow(), start, ops + [approve]);
    LegalConcat(Tracked(), TrackedPermitted, Tracked().initial, ops, [approve]);
    InvExactly(ops);
    InvExactly(ops + [approve]);
    ReplayAppend(Workflow(), start, ops, approve);
    assert [approve][..0] == [] && TrackedPermitted(Replay(Tracked(), Replay(Tracked(), Tracked().initial, ops), [approve][..0]), [approve][0]);
    TrackedRun(ops);
    ApprovalsStep(before, approve);
    var w := WordingOf(Subject(approve, before).value);
    ReadingStep(before, approve, approve.id, w);
    assert [approve][..0] == [];
    CertifiedExactly(desk, later, approve.id, w);
  }

  lemma CertifiedExactly(desk: Desk, later: seq<Op>, id: string, w: Wording)
    requires Sane(desk) && Certifies(desk, id, w)
    requires Legal(Workflow(), (s, op) => NotApprovedAgain(s, op, id), desk, later)
    ensures Throughout(Workflow(), s => Certifies(s, id, w), desk, later)
            <==> Legal(Workflow(), (s, op) => KeepsCertified(s, op, id, w), desk, later)
  {
    var good := s => Certifies(s, id, w);
    var fits := (s, op) => KeepsCertified(s, op, id, w);
    var permitted := (s, op) => NotApprovedAgain(s, op, id);
    forall e, op | Sane(e) && permitted(e, op)
      ensures Sane(Step(Workflow(), e, op))
      ensures good(e) ==> (good(Step(Workflow(), e, op)) <==> fits(e, op))
    {
      SaneStep(e, op);
      if good(e) {
        CertifiedStep(e, op, id, w);
      }
    }
    assert Legal(Workflow(), permitted, desk, later);
    KeptExactly(Workflow(), Sane, permitted, good, fits, desk, later);
    assert Throughout(Workflow(), good, desk, later) <==> Throughout(Workflow(), s => Certifies(s, id, w), desk, later);
    assert Legal(Workflow(), fits, desk, later) <==> Legal(Workflow(), (s, op) => KeepsCertified(s, op, id, w), desk, later);
  }

  // ---------------------------------------------------------------- the operations, step by step

  datatype GuardError =
    WrongChannel | NotApproved | NoApproval | CannotPublish | NotConnected | ActiveJob | Invalid(count: nat) | AlreadyPublished

  /** What approving and rejecting leave in the files. */
  lemma DecidedDesk(desk: Desk, op: Op, d: Derivative)
    requires (op.Approve? || op.Reject?) && Subject(op, desk) == Some(d)
    ensures
      var records := RevokeActive(desk.approvals, op.id, op.now);
      var decided := d.(status := if op.Approve? then Approved else Rejected, updatedAt := Written(op.now));
      Apply(op, desk) ==
        Changed(Desk(Upsert(desk.derivatives, Ids(desk.derivatives), d.id, decided),
                     Upsert(records, ApprovalIds(records), op.freshId, Decision(op)), desk.jobs), Done)
  {
  }

  class WorkflowDesk {
    var derivatives: seq<Derivative>
    var approvals: seq<Approval>
    var jobs: seq<PublishQueue.Job>

    constructor (desk: Desk)
      ensures Contents() == desk
    {
      derivatives := desk.derivatives;
      approvals := desk.approvals;
      jobs := desk.jobs;
    }

    function Contents(): Desk
      reads this
    {
      Desk(derivatives, approvals, jobs)
    }

    method GetDerivative(id: string) returns (r: Option<Derivative>)
      ensures r == (var at := Locate(Ids(derivatives), id); if at.None? then None else Some(derivatives[at.value]))
    {
      for index := 0 to |derivatives|
        invariant id !in Ids(derivatives)[..index]
      {
        if derivatives[index].id == id {
          assert Ids(derivatives)[index] == id;
          return Some(derivatives[index]);
        }
      }
      assert Ids(derivatives)[..|derivatives|] == Ids(derivatives);
      return None;
    }

    method SaveDerivative(d: Derivative)
      modifies this`derivatives
      ensures derivatives == Upsert(old(derivatives), Ids(old(derivatives)), d.id, d)
    {
      derivatives := UpsertInPlace(derivatives, Ids(derivatives), d.id, d);
    }

    /** The end of `record_confirmed_publish`. */
    method MarkPublished(copy: Derivative, now: int)
      modifies this`derivatives
      ensures Contents() == Step(Workflow(), old(Contents()), SaveCopy(copy.(status := DraftStatus.Published, updatedAt := Written(now))))
    {
      var derivative := copy.(status := DraftStatus.Published);
      derivative := derivative.(updatedAt := Written(now));
      SaveDerivative(derivative);
    }

    method SaveApproval(a: Approval)
      modifies this`approvals
      ensures approvals == Upsert(old(approvals), ApprovalIds(old(approvals)), a.id, a)
    {
      approvals := UpsertInPlace(approvals, ApprovalIds(approvals), a.id, a);
    }

    method RevokeActiveApproval(id: string, now: int)
      modifies this`approvals
      ensures approvals == RevokeActive(old(approvals), id, now)
    {
      var at := ActiveApproval(approvals, id);
      if at.Some? {
        var active := approvals[at.value];
        active := active.(revokedAt := Written(now));
        active := active.(status := Revoked);
        SaveApproval(active);
      }
    }

    /** `save_derivative_edit`; false: no such derivative, nothing written. */
    method SaveEdit(id: string, title: string, body: string, now: int) returns (ok: bool)
      modifies this
      ensures Contents() == Step(Workflow(), old(Contents()), Edit(id, title, body, now))
      ensures ok == Apply(Edit(id, title, body, now), old(Contents())).Changed?
    {
      var found := GetDerivative(id);
      if found.None? {
        return false;
      }
      var d := found.value;
      if Strip(title) != "" {
        d := d.(title := Strip(title));
      }
      d := d.(body := Strip(body), status := Draft);
      d := d.(updatedAt := Written(now));
      SaveDerivative(d);
      return true;
    }

    /** `approve_derivative`. */
    method ApproveDerivative(id: string, approver: string, freshId: string, now: int, order: int) returns (ok: bool)
      modifies this
      ensures Contents() == Step(Workflow(), old(Contents()), Approve(id, approver, freshId, now, order))
      ensures ok == Apply(Approve(id, approver, freshId, now, order), old(Contents())).Changed?
    {
      var found := GetDerivative(id);
      if found.None? {
        return false;
      }
      DecidedDesk(Contents(), Approve(id, approver, freshId, now, order), found.value);
      RevokeActiveApproval(id, now);
      var approval := Approval(freshId, id, approver, Written(now), Granted, Blank, order);
      var d := found.value.(status := Approved);
      d := d.(updatedAt := Written(now));
      SaveApproval(approval);
      SaveDerivative(d);
      return true;
    }

    /** `reject_derivative`. */
    method RejectDerivative(id: string, approver: string, freshId: string, now: int, order: int) returns (ok: bool)
      modifies this
      ensures Contents() == Step(Workflow(), old(Contents()), Reject(id, approver, freshId, now, order))
      ensures ok == Apply(Reject(id, approver, freshId, now, order), old(Contents())).Changed?
    {
      var found := GetDerivative(id);
      if found.None? {
        return false;
      }
      DecidedDesk(Contents(), Reject(id, approver, freshId, now, order), found.value);
      RevokeActiveApproval(id, now);
      var rejection := Approval(freshId, id, approver, Written(now), Refused, Blank, order);
      var d := found.value.(status := Rejected);
      d := d.(updatedAt := Written(now));
      SaveApproval(rejection);
      SaveDerivative(d);
      return true;
    }

    /** `return_derivative_to_draft`. */
    method BackToDraft(id: string, now: int) returns (ok: bool)
      modifies this
      ensures Contents() == Step(Workflow(), old(Contents()), ReturnToDraft(id, now))
      ensures ok == Apply(ReturnToDraft(id, now), old(Contents())).Changed?
    {
      var found := GetDerivative(id);
      if found.None? {
        return false;
      }
      RevokeActiveApproval(id, now);
      var d := found.value.(status := Draft);
      d := d.(updatedAt := Written(now));
      SaveDerivative(d);
      return true;
    }

    /** `_publish_guard_errors`, on a registered channel: it finds something exactly when the derivative
      * may not be published. */
    method GuardErrors(d: Derivative, channelId: string, around: Surroundings) returns (errors: seq<GuardError>)
      requires around.registered
      ensures errors == [] <==> MayPublish(Contents(), d, channelId, around)
    {
      errors := [];
      if d.channelId != channelId { errors := errors + [WrongChannel]; }
      if !d.status.Approved? { errors := errors + [NotApproved]; }
      if ActiveApproval(approvals, d.id).None? { errors := errors + [NoApproval]; }
      if !around.canPublish { errors := errors + [CannotPublish]; }
      if !around.connected { errors := errors + [NotConnected]; }
      if PublishQueue.ActiveOn(jobs, channelId).Some? { errors := errors + [ActiveJob]; }
      if around.canGenerate && around.validationErrors > 0 { errors := errors + [Invalid(around.validationErrors)]; }
      if around.alreadyPublished { errors := errors + [AlreadyPublished]; }
    }

    /** `create_publish_job_from_derivative`. */
    method CreatePublishJob(
      id: string, channelId: string, runMode: string, around: Surroundings, freshId: string, now: int)
      returns (r: Option<PublishQueue.Job>)
      modifies this
      ensures
        var out := Apply(CreateJob(id, channelId, runMode, around, freshId, now), old(Contents()));
        && Contents() == Commit(old(Contents()), out)
        && (if r.Some? then out.Changed? && out.result == Created(r.value) else out.Raised?)
    {
      var found := GetDerivative(id);
      if found.None? || runMode !in {"dry_run", "live"} || !around.registered {
        return None;
      }
      var errors := GuardErrors(found.value, channelId, around);
      if errors != [] {
        return None;
      }
      var t := Written(now);
      var job := PublishQueue.Job(freshId, found.value.id, channelId, Jobs.Queued, t, Blank, Blank, 0, 2, "queued", "",
                                  t, t, runMode, false, "", Blank, Blank, Blank, Blank, false);
      jobs := UpsertInPlace(jobs, PublishQueue.Ids(jobs), freshId, job);
      return Some(job);
    }
  }
}
