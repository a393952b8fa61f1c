/** The metric job queue: `queue_metric_job` of channel_actions.py and the metric twins of
  * channel_store.py. */
module MetricQueue {
  import opened Prelude
  import opened Instants
  import opened Mutators
  import opened Records
  import opened Choice
  import opened Jobs

  datatype Job = Job(
    id: string, postId: string, channelId: string, status: Status,
    scheduledFor: Stamp, requestedAt: Stamp, startedAt: Stamp, finishedAt: Stamp,
    attemptCount: int, maxAttempts: int, errorCode: string, createdAt: Stamp, updatedAt: Stamp,
    claimedBy: string, claimedAt: Stamp, leaseExpiresAt: Stamp, heartbeatAt: Stamp)

  /** Queueing a job is a look under one lock hold and, if that found none, an append under another. */
  datatype Op =
    | Look(postId: string, schedule: Stamp)
    | Append(postId: string, channelId: string, scheduledFor: Stamp, now: int, freshId: string)
    | Claim(scope: string, worker: string, leaseSeconds: int, now: int, clocks: seq<int>)
    | Heartbeat(id: string, worker: string, leaseSeconds: int, beatAt: int, leaseAt: int)
    | Save(job: Job)   // save_metric_job: a worker writes its whole copy back

  function Ids(jobs: seq<Job>): seq<string> {
    seq(|jobs|, i requires 0 <= i < |jobs| => jobs[i].id)
  }

  // ---------------------------------------------------------------- enqueueing

  /** Statuses that stop a job from being queued again. */
  predicate Counts(s: Status) {
    Active(s) || s.Success?
  }

  predicate Occupies(j: Job, postId: string, schedule: Stamp) {
    (postId == "" || j.postId == postId) && j.scheduledFor == schedule && Counts(j.status)
  }

  /** The job that the look of `queue_metric_job` finds; an empty post id looks at all posts. (It looks at the
    * newest first; where there is at most one per slot that is the same.) */
  function Occupant(jobs: seq<Job>, postId: string, schedule: Stamp): (r: Option<Job>)
    ensures r.None? <==> forall i :: 0 <= i < |jobs| ==> !Occupies(jobs[i], postId, schedule)
    ensures r.Some? ==> r.value in jobs && Occupies(r.value, postId, schedule)
  {
    if jobs == [] then None
    else if Occupies(jobs[0], postId, schedule) then Some(jobs[0])
    else Occupant(jobs[1..], postId, schedule)
  }

  function NewJob(op: Op): Job
    requires op.Append?
  {
    var t := Written(op.now);
    Job(op.freshId, op.postId, op.channelId, Queued, if op.scheduledFor.Blank? then t else op.scheduledFor,
        t, Blank, Blank, 0, 2, "", t, t, "", Blank, Blank, Blank)
  }

  // ---------------------------------------------------------------- claiming

  predicate Stale(j: Job, scope: string, now: int) {
    (scope == "" || j.channelId == scope) && j.status.Running? && Expired(j.leaseExpiresAt, now)
  }

  /** `_recover_metric_job`. */
  function Recover(j: Job, now: int): Job {
    var t := Written(now);
    var r :=
      if j.attemptCount >= j.maxAttempts then
        j.(status := Failed, finishedAt := t, updatedAt := t, errorCode := Or(j.errorCode, "lease_expired"))
      else
        j.(status := Queued, updatedAt := t, errorCode := "stale_recovered", startedAt := Blank);
    r.(claimedBy := "", claimedAt := Blank, leaseExpiresAt := Blank, heartbeatAt := Blank)
  }

  function Recovered(jobs: seq<Job>, scope: string, now: int): seq<Job> {
    seq(|jobs|, i requires 0 <= i < |jobs| =>
      if Stale(jobs[i], scope, now) then Recover(jobs[i], now) else jobs[i])
  }

  predicate AnyStale(jobs: seq<Job>, scope: string, now: int) {
    exists i :: 0 <= i < |jobs| && Stale(jobs[i], scope, now)
  }

  /** When the job may start: the schedule, or the request time if there is none; unreadable: any time. */
  function Due(j: Job): Option<int> {
    Parse(if j.scheduledFor.Blank? then j.requestedAt else j.scheduledFor)
  }

  predicate Early(j: Job, now: int) {
    Due(j).Some? && Due(j).value > now
  }

  predicate Candidate(j: Job, scope: string) {
    j.status.Queued? && (scope == "" || j.channelId == scope)
  }

  function Keys(jobs: seq<Job>, clocks: seq<int>, now: int): seq<int> {
    seq(|jobs|, i requires 0 <= i < |jobs| =>
      var clock := if i < |clocks| then clocks[i] else now;
      if jobs[i].scheduledFor.Moment? then jobs[i].scheduledFor.at
      else OrderValue(jobs[i].requestedAt, jobs[i].createdAt, clock))
  }

  function Startable(jobs: seq<Job>, scope: string, now: int): seq<bool> {
    seq(|jobs|, i requires 0 <= i < |jobs| => Candidate(jobs[i], scope) && !Early(jobs[i], now))
  }

  function Start(j: Job, worker: string, leaseSeconds: int, now: int): Job {
    var t := Written(now);
    j.(status := Running, startedAt := t, updatedAt := t, attemptCount := j.attemptCount + 1,
       claimedBy := worker, claimedAt := t, heartbeatAt := t, leaseExpiresAt := Lease(now, leaseSeconds),
       errorCode := "")
  }

  function Started(jobs: seq<Job>, op: Op): Option<nat> {
    if op.Claim? then
      var r := Recovered(jobs, op.scope, op.now);
      Best(Keys(r, op.clocks, op.now), Startable(r, op.scope, op.now))
    else None
  }

  function Apply(op: Op, jobs: seq<Job>): Outcome<seq<Job>, Option<Job>> {
    match op
    case Look(postId, schedule) => Unchanged(Occupant(jobs, postId, schedule))
    case Append(_, _, _, _, freshId) => Changed(Upsert(jobs, Ids(jobs), freshId, NewJob(op)), Some(NewJob(op)))
    case Claim(scope, worker, leaseSeconds, now, clocks) =>
      var r := Recovered(jobs, scope, now);
      var best := Started(jobs, op);
      if best.Some? then
        var started := Start(r[best.value], worker, leaseSeconds, now);
        Changed(r[best.value := started], Some(started))
      else if AnyStale(jobs, scope, now) then Changed(r, None)
      else Unchanged(None)
    case Heartbeat(id, worker, leaseSeconds, beatAt, leaseAt) =>
      var at := Locate(Ids(jobs), id);
      if at.None? then Unchanged(None) else
        var j := jobs[at.value];
        if j.claimedBy != "" && j.claimedBy != worker then Unchanged(None)
        else if !j.status.Running? then Unchanged(Some(j))
        else
          var renewed := j.(heartbeatAt := Written(beatAt), leaseExpiresAt := Lease(leaseAt, leaseSeconds));
          Changed(jobs[at.value := renewed], Some(renewed))
    case Save(job) => Changed(Upsert(jobs, Ids(jobs), job.id, job), Some(job))
  }

  function Queue(): Store<Op, seq<Job>, Option<Job>> {
    Store((op, jobs) => Apply(op, jobs), [])
  }

  // ---------------------------------------------------------------- runs

  /** At most one active or successful job per post and scheduled time. */
  ghost predicate OnePerSlot(jobs: seq<Job>) {
    forall i, k :: 0 <= i < k < |jobs| && Counts(jobs[i].status) && Counts(jobs[k].status)
      ==> jobs[i].postId != jobs[k].postId || jobs[i].scheduledFor != jobs[k].scheduledFor
  }

  /** New ids are fresh. */
  ghost predicate Permitted(jobs: seq<Job>, op: Op) {
    op.Append? ==> op.freshId !in Ids(jobs)
  }

  ghost predicate LegalRun(jobs: seq<Job>, ops: seq<Op>) {
    Legal(Queue(), Permitted, jobs, ops)
  }

  /** What no operation but an append or a save changes about the list. */
  ghost predicate SameSlots(jobs: seq<Job>, after: seq<Job>) {
    && |after| == |jobs|
    && forall i :: 0 <= i < |jobs| ==>
         && after[i].id == jobs[i].id && after[i].postId == jobs[i].postId
         && after[i].scheduledFor == jobs[i].scheduledFor && after[i].requestedAt == jobs[i].requestedAt
  }

  lemma ClaimShape(jobs: seq<Job>, op: Op)
    requires op.Claim?
    ensures
      var after := Step(Queue(), jobs, op);
      && SameSlots(jobs, after)
      && (forall i :: 0 <= i < |jobs| && Counts(after[i].status) ==> Counts(jobs[i].status))
      && (Started(jobs, op).Some? ==>
            Started(jobs, op).value < |jobs| && !Early(jobs[Started(jobs, op).value], op.now)
            && after[Started(jobs, op).value].startedAt == Written(op.now))
      && (forall i :: 0 <= i < |jobs| && after[i].status.Running? && Started(jobs, op) != Some(i) ==>
            jobs[i].status.Running? && after[i].startedAt == jobs[i].startedAt)
  {
    var r := Recovered(jobs, op.scope, op.now);
    assert SameSlots(jobs, r);
    var best := Started(jobs, op);
    if best.Some? {
      assert Startable(r, op.scope, op.now)[best.value];
      assert Due(r[best.value]) == Due(jobs[best.value]);
    }
  }

  lemma OtherShape(jobs: seq<Job>, op: Op)
    requires op.Look? || op.Heartbeat?
    ensures
      var after := Step(Queue(), jobs, op);
      && SameSlots(jobs, after) && Started(jobs, op).None?
      && (forall i :: 0 <= i < |jobs| ==> after[i].startedAt == jobs[i].startedAt && after[i].status == jobs[i].status)
  {
  }

  /** An append and a save put one record into its place. */
  lemma PutShape(jobs: seq<Job>, op: Op)
    requires op.Append? || op.Save?
    ensures
      var job := if op.Save? then op.job else NewJob(op);
      var at := Locate(Ids(jobs), job.id);
      && Started(jobs, op).None? && (at.Some? ==> at.value < |jobs|)
      && Step(Queue(), jobs, op) == if at.Some? then jobs[at.value := job] else jobs + [job]
  {
  }

  // ---------------------------------------------------------------- one job per slot

  /** Nothing that counts, outside the place that is written, is in the job's slot. */
  ghost predicate SlotFree(jobs: seq<Job>, at: Option<nat>, job: Job) {
    Counts(job.status) ==>
      forall k :: 0 <= k < |jobs| && Some(k) != at && Counts(jobs[k].status) ==>
        jobs[k].postId != job.postId || jobs[k].scheduledFor != job.scheduledFor
  }

  lemma PutKeepsSlotsIff(jobs: seq<Job>, at: Option<nat>, job: Job, after: seq<Job>)
    requires OnePerSlot(jobs) && (at.Some? ==> at.value < |jobs|)
    requires after == if at.Some? then jobs[at.value := job] else jobs + [job]
    ensures OnePerSlot(after) <==> SlotFree(jobs, at, job)
  {
    var here := if at.Some? then at.value else |jobs|;
    assert after[here] == job;
    if OnePerSlot(after) && Counts(job.status) {
      forall k | 0 <= k < |jobs| && Some(k) != at && Counts(jobs[k].status)
        ensures jobs[k].postId != job.postId || jobs[k].scheduledFor != job.scheduledFor
      {
        assert after[k] == jobs[k];
      }
    }
  }

  /** Exactly when an operation keeps one job per slot. */
  ghost predicate KeepsSlots(jobs: seq<Job>, op: Op) {
    match op
    case Append(_, _, _, _, freshId) => SlotFree(jobs, Locate(Ids(jobs), freshId), NewJob(op))
    case Save(job) => SlotFree(jobs, Locate(Ids(jobs), job.id), job)
    case _ => true
  }

  lemma StepKeepsSlotsIff(jobs: seq<Job>, op: Op)
    requires OnePerSlot(jobs)
    ensures OnePerSlot(Step(Queue(), jobs, op)) <==> KeepsSlots(jobs, op)
  {
    if op.Append? || op.Save? {
      var job := if op.Save? then op.job else NewJob(op);
      PutShape(jobs, op);
      PutKeepsSlotsIff(jobs, Locate(Ids(jobs), job.id), job, Step(Queue(), jobs, op));
    } else if op.Claim? {
      ClaimShape(jobs, op);
    } else {
      OtherShape(jobs, op);
    }
  }

  /** In a run of looks, appends, claims, heartbeats and saves of whole copies, outdated or not, at any
    * clocks, a slot holds at most one active or successful job throughout exactly if every append and every
    * save of such a job finds the slot free. */
  lemma OnePerSlotExactly(jobs: seq<Job>, ops: seq<Op>)
    requires OnePerSlot(jobs)
    ensures Throughout(Queue(), OnePerSlot, jobs, ops) <==> Legal(Queue(), KeepsSlots, jobs, ops)
  {
    forall e, op | OnePerSlot(e)
      ensures OnePerSlot(Step(Queue(), e, op)) <==> KeepsSlots(e, op)
    {
      StepKeepsSlotsIff(e, op);
    }
    KeptExactly(Queue(), AnyState, AnyStep, OnePerSlot, KeepsSlots, jobs, ops);
  }

  /** An append keeps it exactly if the look, repeated at the append, finds nothing. */
  lemma AppendFitsIff(jobs: seq<Job>, op: Op)
    requires OnePerSlot(jobs) && op.Append? && op.freshId !in Ids(jobs) && op.postId != ""
    ensures OnePerSlot(Step(Queue(), jobs, op)) <==> Occupant(jobs, op.postId, NewJob(op).scheduledFor).None?
  {
    StepKeepsSlotsIff(jobs, op);
    var found := Occupant(jobs, op.postId, NewJob(op).scheduledFor);
    if found.Some? {
      var k :| 0 <= k < |jobs| && jobs[k] == found.value;
      assert Counts(jobs[k].status);
    } else {
      assert forall k :: 0 <= k < |jobs| ==> !Occupies(jobs[k], op.postId, NewJob(op).scheduledFor);
    }
  }

  /** Whole operations: the look still holds when the job is appended, and a worker's copy takes no slot that
    * another job has. */
  ghost predicate Whole(jobs: seq<Job>, op: Op) {
    && Permitted(jobs, op)
    && (op.Append? ==> Occupant(jobs, op.postId, NewJob(op).scheduledFor).None?)
    && (op.Save? ==> SlotFree(jobs, Locate(Ids(jobs), op.job.id), op.job))
  }

  /** In every run of whole operations there is at most one active or successful job per slot. */
  lemma {:induction false} OnePerSlotForever(jobs: seq<Job>, ops: seq<Op>)
    requires OnePerSlot(jobs) && Legal(Queue(), Whole, jobs, ops)
    ensures OnePerSlot(Replay(Queue(), jobs, ops))
  {
    if ops != [] {
      var before := Replay(Queue(), jobs, ops[..|ops| - 1]);
      LegalPrefix(Queue(), Whole, jobs, ops);
      OnePerSlotForever(jobs, ops[..|ops| - 1]);
      WholeKeepsSlots(before, Last(ops));
      StepKeepsSlotsIff(before, Last(ops));
    }
  }

  lemma WholeKeepsSlots(jobs: seq<Job>, op: Op)
    requires OnePerSlot(jobs) && Whole(jobs, op)
    ensures KeepsSlots(jobs, op)
  {
    if op.Append? {
      assert forall k :: 0 <= k < |jobs| ==> !Occupies(jobs[k], op.postId, NewJob(op).scheduledFor);
    }
  }

  /** Split, two requests can both find the slot free and both append. */
  lemma SplitEnqueueCanDouble(op: Op, otherId: string)
    requires op.Append? && op.freshId != otherId
    ensures
      var other := op.(freshId := otherId);
      var look := Look(op.postId, NewJob(op).scheduledFor);
      var ops := [look, look, op, other];
      && LegalRun([], ops)
      && Apply(ops[0], Replay(Queue(), [], ops[..0])).result.None?
      && Apply(ops[1], Replay(Queue(), [], ops[..1])).result.None?
      && !OnePerSlot(Replay(Queue(), [], ops))
  {
    var other := op.(freshId := otherId);
    var look := Look(op.postId, NewJob(op).scheduledFor);
    var ops := [look, look, op, other];
    var a, b := NewJob(op), NewJob(other);
    assert ops[..0] == [] && ops[..1] == [] + [look] && ops[..2] == ops[..1] + [look];
    assert ops[..3] == ops[..2] + [op] && ops == ops[..3] + [other];
    ReplayAppend(Queue(), [], [], look);
    ReplayAppend(Queue(), [], ops[..1], look);
    ReplayAppend(Queue(), [], ops[..2], op);
    ReplayAppend(Queue(), [], ops[..3], other);
    assert Replay(Queue(), [], ops[..3]) == [a];
    assert Ids([a]) == [a.id];
    assert Replay(Queue(), [], ops) == [a, b];
    assert [a, b][0] == a && [a, b][1] == b;
  }

  // ---------------------------------------------------------------- never early

  /** If the job runs it was started, by its stamp, no earlier than its due time cut to whole seconds. */
  ghost predicate StampFits(j: Job) {
    j.status.Running? && Due(j).Some? ==> j.startedAt.Moment? && j.startedAt.at >= Cut(Due(j).value)
  }

  ghost predicate NoneEarly(jobs: seq<Job>) {
    forall i :: 0 <= i < |jobs| ==> StampFits(jobs[i])
  }

  lemma CutMonotonic(a: int, b: int)
    requires a <= b
    ensures Cut(a) <= Cut(b) <= b
    ensures a % SECOND == 0 ==> a <= Cut(b)
  {
    assert a / SECOND <= b / SECOND;
    assert a == a / SECOND * SECOND + a % SECOND && b == b / SECOND * SECOND + b % SECOND;
  }

  ghost predicate SavesFit(jobs: seq<Job>, op: Op) {
    op.Save? ==> StampFits(op.job)
  }

  lemma StepKeepsNoneEarlyIff(jobs: seq<Job>, op: Op)
    requires NoneEarly(jobs)
    ensures NoneEarly(Step(Queue(), jobs, op)) <==> SavesFit(jobs, op)
  {
    var after := Step(Queue(), jobs, op);
    if op.Append? || op.Save? {
      var job := if op.Save? then op.job else NewJob(op);
      var at := Locate(Ids(jobs), job.id);
      PutShape(jobs, op);
      assert after[if at.Some? then at.value else |jobs|] == job;
    } else {
      if op.Claim? { ClaimShape(jobs, op); } else { OtherShape(jobs, op); }
      forall i | 0 <= i < |after|
        ensures StampFits(after[i])
      {
        assert Due(after[i]) == Due(jobs[i]) && StampFits(jobs[i]);
        if Started(jobs, op) == Some(i) && Due(after[i]).Some? {
          CutMonotonic(Due(after[i]).value, op.now);
        }
      }
    }
  }

  /** No job is on file as running with a stamp before its due second, throughout a run, exactly if no worker
    * saves one. */
  lemma NoneEarlyExactly(jobs: seq<Job>, ops: seq<Op>)
    requires NoneEarly(jobs)
    ensures Throughout(Queue(), NoneEarly, jobs, ops) <==> Legal(Queue(), SavesFit, jobs, ops)
  {
    forall e, op | NoneEarly(e)
      ensures NoneEarly(Step(Queue(), e, op)) <==> SavesFit(e, op)
    {
      StepKeepsNoneEarlyIff(e, op);
    }
    KeptExactly(Queue(), AnyState, AnyStep, NoneEarly, SavesFit, jobs, ops);
  }

  /** In every run, whatever is saved: a claim starts no job with a readable due time before its clock has
    * reached that time. */
  lemma NeverEarly(jobs: seq<Job>, ops: seq<Op>, k: nat)
    requires k < |ops|
    ensures
      var before := Replay(Queue(), jobs, ops[..k]);
      Started(before, ops[k]).Some? ==>
        Started(before, ops[k]).value < |before| && !Early(before[Started(before, ops[k]).value], ops[k].now)
  {
    if ops[k].Claim? {
      ClaimShape(Replay(Queue(), jobs, ops[..k]), ops[k]);
    }
  }

  /** A claim starts the startable job with the smallest key (earliest in the list on ties) after
    * recovery, and starts none exactly when there is none; expired running jobs in scope are recovered
    * and nothing else changes. */
  lemma ClaimMeetsSpec(jobs: seq<Job>, op: Op)
    requires op.Claim?
    ensures
      var out := Apply(op, jobs);
      var r := Recovered(jobs, op.scope, op.now);
      var after := Step(Queue(), jobs, op);
      && |after| == |jobs|
      && (out.result.None? <==> forall i :: 0 <= i < |r| ==> !(Candidate(r[i], op.scope) && !Early(r[i], op.now)))
      && (out.result.Some? ==>
            exists i :: 0 <= i < |r| && Candidate(r[i], op.scope) && !Early(r[i], op.now)
              && after[i] == out.result.value == Start(r[i], op.worker, op.leaseSeconds, op.now)
              && (forall k :: 0 <= k < |r| && k != i ==> after[k] == r[k])
              && (forall k :: 0 <= k < |r| && Candidate(r[k], op.scope) && !Early(r[k], op.now) ==>
                    Before(Keys(r, op.clocks, op.now), i, k)))
      && (out.result.None? ==> after == r)
  {
    var r := Recovered(jobs, op.scope, op.now);
    var ok := Startable(r, op.scope, op.now);
    assert forall i :: 0 <= i < |r| ==> ok[i] == (Candidate(r[i], op.scope) && !Early(r[i], op.now));
    var best := Started(jobs, op);
    if best.Some? {
      assert ok[best.value];
    } else if !AnyStale(jobs, op.scope, op.now) {
      assert r == jobs;
    }
  }

  /** A job that a claim may start at that instant, in terms of the list as it was found: queued, or expired and
    * due to be queued again, in scope, and not before its schedule, or before its request if it has none. */
  predicate Wanted(j: Job, scope: string, now: int) {
    && (scope == "" || j.channelId == scope)
    && (j.status.Queued?
        || (j.status.Running? && (!j.leaseExpiresAt.Moment? || j.leaseExpiresAt.at <= now) && j.attemptCount < j.maxAttempts))
    && (j.scheduledFor.Moment? ==> j.scheduledFor.at <= now)
    && (j.scheduledFor.Blank? && j.requestedAt.Moment? ==> j.requestedAt.at <= now)
  }

  lemma RecoveredIsWantedIff(jobs: seq<Job>, scope: string, now: int, i: nat)
    requires i < |jobs|
    ensures
      var r := Recovered(jobs, scope, now);
      (Candidate(r[i], scope) && !Early(r[i], now)) <==> Wanted(jobs[i], scope, now)
  {
  }

  /** What a claim grants: the job it hands out was wanted and is on file; it runs, is held by the worker under a
    * lease of the length that was asked for, has one attempt more than it had and no error; its stamps say
    * now, and what the claim does not concern is as it was found. There is none exactly if none was wanted. */
  lemma ClaimGrants(jobs: seq<Job>, op: Op)
    requires op.Claim?
    ensures Apply(op, jobs).result.None? <==> forall i :: 0 <= i < |jobs| ==> !Wanted(jobs[i], op.scope, op.now)
    ensures Apply(op, jobs).result.Some? ==>
      var j := Apply(op, jobs).result.value;
      var after := Step(Queue(), jobs, op);
      exists i :: 0 <= i < |jobs| && i < |after| && Wanted(jobs[i], op.scope, op.now) && after[i] == j
        && j.status.Running? && j.claimedBy == op.worker && j.errorCode == ""
        && j.attemptCount == jobs[i].attemptCount + 1
        && LeaseOf(j.leaseExpiresAt, op.now, op.leaseSeconds)
        && At(j.startedAt, op.now) && At(j.updatedAt, op.now) && At(j.claimedAt, op.now) && At(j.heartbeatAt, op.now)
        && j.id == jobs[i].id && j.postId == jobs[i].postId && j.channelId == jobs[i].channelId
        && j.scheduledFor == jobs[i].scheduledFor && j.requestedAt == jobs[i].requestedAt
        && j.createdAt == jobs[i].createdAt && j.finishedAt == jobs[i].finishedAt && j.maxAttempts == jobs[i].maxAttempts
  {
    ClaimMeetsSpec(jobs, op);
    forall i | 0 <= i < |jobs|
      ensures
        var r := Recovered(jobs, op.scope, op.now);
        (Candidate(r[i], op.scope) && !Early(r[i], op.now)) <==> Wanted(jobs[i], op.scope, op.now)
    {
      RecoveredIsWantedIff(jobs, op.scope, op.now, i);
    }
    WrittenSecond(op.now);
    LeaseIsOf(op.now, op.leaseSeconds);
  }

  /** Readable times decide in this order: schedule, request, creation. */
  predicate Timed(j: Job) {
    j.scheduledFor.Moment? || j.requestedAt.Moment? || j.createdAt.Moment?
  }

  function TimeOf(j: Job): int
    requires Timed(j)
  {
    if j.scheduledFor.Moment? then j.scheduledFor.at
    else if j.requestedAt.Moment? then j.requestedAt.at
    else j.createdAt.at
  }

  /** The job that a claim starts is the earliest wanted one, by its place in the list on ties. */
  lemma EarliestIsClaimed(jobs: seq<Job>, op: Op, k: nat)
    requires op.Claim? && k < |jobs| && Wanted(jobs[k], op.scope, op.now)
    ensures Started(jobs, op).Some? && Started(jobs, op).value < |jobs|
    ensures
      var i := Started(jobs, op).value;
      && Apply(op, jobs).result == Some(Step(Queue(), jobs, op)[i])
      && (Timed(jobs[i]) && Timed(jobs[k]) ==>
            TimeOf(jobs[i]) < TimeOf(jobs[k]) || (TimeOf(jobs[i]) == TimeOf(jobs[k]) && i <= k))
  {
    var r := Recovered(jobs, op.scope, op.now);
    RecoveredIsWantedIff(jobs, op.scope, op.now, k);
    assert Startable(r, op.scope, op.now)[k];
  }

  /** What becomes of a running job whose lease is over when a claim finds it: with no attempts left it has
    * failed, and otherwise it is in the queue again, or started by this claim. */
  lemma LostLeaseOutcome(jobs: seq<Job>, op: Op, i: nat)
    requires op.Claim? && i < |jobs| && jobs[i].status.Running? && (op.scope == "" || jobs[i].channelId == op.scope)
    requires !jobs[i].leaseExpiresAt.Moment? || jobs[i].leaseExpiresAt.at <= op.now
    ensures
      i < |Step(Queue(), jobs, op)|
      && var was, now := jobs[i], Step(Queue(), jobs, op)[i];
      && (was.attemptCount >= was.maxAttempts ==>
            now.status.Failed? && At(now.finishedAt, op.now) && now.startedAt == was.startedAt
            && now.errorCode == (if was.errorCode == "" then "lease_expired" else was.errorCode))
      && (was.attemptCount < was.maxAttempts ==>
            (now.status.Queued? && now.startedAt == Blank && now.errorCode == "stale_recovered" && now.finishedAt == was.finishedAt)
            || (now.status.Running? && Apply(op, jobs).result == Some(now)))
      && (!now.status.Running? ==>
            now.claimedBy == "" && now.claimedAt == Blank && now.leaseExpiresAt == Blank && now.heartbeatAt == Blank
            && At(now.updatedAt, op.now) && now.attemptCount == was.attemptCount)
      && now.id == was.id && now.postId == was.postId && now.channelId == was.channelId
      && now.scheduledFor == was.scheduledFor && now.requestedAt == was.requestedAt
      && now.createdAt == was.createdAt && now.maxAttempts == was.maxAttempts
  {
    var r := Recovered(jobs, op.scope, op.now);
    var best := Started(jobs, op);
    assert best.Some? ==> Startable(r, op.scope, op.now)[best.value];
    WrittenSecond(op.now);
    assert r[i] == Recover(jobs[i], op.now);
  }

  /** A heartbeat goes through exactly if its job runs and is its worker's or nobody's; otherwise it is told of the
    * job if that is no longer running, and of nothing if another worker has it. */
  lemma HeartbeatAnswers(jobs: seq<Job>, beat: Op, i: nat)
    requires beat.Heartbeat? && Locate(Ids(jobs), beat.id) == Some(i)
    ensures
      var out := Apply(beat, jobs);
      var mine := jobs[i].claimedBy == "" || jobs[i].claimedBy == beat.worker;
      && (out.Changed? <==> jobs[i].status == Running && mine)
      && (!out.Changed? ==> out == Unchanged(if mine then Some(jobs[i]) else None))
  {
  }

  /** What an accepted heartbeat renews: the lease, by the length that was asked for, and the heartbeat stamp. */
  lemma BeatRenews(jobs: seq<Job>, beat: Op)
    requires beat.Heartbeat? && Apply(beat, jobs).Changed?
    ensures
      var after := Step(Queue(), jobs, beat);
      && |after| == |jobs|
      && exists i :: 0 <= i < |jobs| && jobs[i].id == beat.id && jobs[i].status.Running?
           && (jobs[i].claimedBy == "" || jobs[i].claimedBy == beat.worker)
           && LeaseOf(after[i].leaseExpiresAt, beat.leaseAt, beat.leaseSeconds) && At(after[i].heartbeatAt, beat.beatAt)
           && after[i] == jobs[i].(leaseExpiresAt := after[i].leaseExpiresAt, heartbeatAt := after[i].heartbeatAt)
           && Apply(beat, jobs).result == Some(after[i])
           && forall k :: 0 <= k < |jobs| && k != i ==> after[k] == jobs[k]
  {
    var i := Locate(Ids(jobs), beat.id).value;
    assert Ids(jobs)[i] == beat.id;
    WrittenSecond(beat.beatAt);
    LeaseIsOf(beat.leaseAt, beat.leaseSeconds);
  }

  /** The look finds a job exactly if one of the post, or of any if none is named, has that very schedule and is active (queued, running, or
    * waiting for a login or for verification) or was successful. */
  lemma LookFindsIff(jobs: seq<Job>, postId: string, schedule: Stamp)
    ensures Apply(Look(postId, schedule), jobs).result.Some? <==>
      exists i :: 0 <= i < |jobs| && (postId == "" || jobs[i].postId == postId) && jobs[i].scheduledFor == schedule
        && jobs[i].status in {Queued, Running, NeedsLogin, ManualVerification, Success}
  {
    assert Apply(Look(postId, schedule), jobs).result == Occupant(jobs, postId, schedule);
    assert forall i :: 0 <= i < |jobs| ==>
      (Occupies(jobs[i], postId, schedule) <==>
       (postId == "" || jobs[i].postId == postId) && jobs[i].scheduledFor == schedule
       && jobs[i].status in {Queued, Running, NeedsLogin, ManualVerification, Success});
  }

  /** What an append puts on file under a new id: a queued job of that post and channel with both attempts left,
    * scheduled as asked, or for now, held by nobody. */
  lemma AppendStores(jobs: seq<Job>, op: Op)
    requires op.Append? && op.freshId !in Ids(jobs)
    ensures
      var after := Step(Queue(), jobs, op);
      |after| == |jobs| + 1 && after[..|jobs|] == jobs
      && var j := after[|jobs|];
      && Apply(op, jobs).result == Some(j)
      && j.id == op.freshId && j.postId == op.postId && j.channelId == op.channelId && j.status.Queued?
      && (if op.scheduledFor.Blank? then At(j.scheduledFor, op.now) else j.scheduledFor == op.scheduledFor)
      && At(j.requestedAt, op.now) && At(j.createdAt, op.now) && At(j.updatedAt, op.now)
      && j.attemptCount == 0 && j.maxAttempts == 2 && j.errorCode == "" && j.claimedBy == ""
      && j.startedAt == j.finishedAt == j.claimedAt == j.leaseExpiresAt == j.heartbeatAt == Blank
  {
    WrittenSecond(op.now);
  }

  // ---------------------------------------------------------------- the mutators, step by step

  class MetricJobs {
    var jobs: seq<Job>

    constructor (jobs: seq<Job>)
      ensures this.jobs == jobs
    {
      this.jobs := jobs;
    }

    /** The look of `queue_metric_job`. */
    method FindOccupant(postId: string, schedule: Stamp) returns (existing: Option<Job>)
      ensures existing == Occupant(jobs, postId, schedule)
    {
      for index := 0 to |jobs|
        invariant forall k :: 0 <= k < index ==> !Occupies(jobs[k], postId, schedule)
        invariant Occupant(jobs, postId, schedule) == Occupant(jobs[index..], postId, schedule)
      {
        var job := jobs[index];
        assert jobs[index..][0] == job && jobs[index..][1..] == jobs[index + 1..];
        if (postId == "" || job.postId == postId) && job.scheduledFor == schedule
           && (Active(job.status) || job.status.Success?) {
          return Some(job);
        }
      }
      return None;
    }

    method AppendJob(postId: string, channelId: string, scheduledFor: Stamp, now: int, freshId: string) returns (job: Job)
      modifies this
      ensures
        var out := Apply(Append(postId, channelId, scheduledFor, now, freshId), old(jobs));
        jobs == Commit(old(jobs), out) && out.result == Some(job)
    {
      var t := Written(now);
      var schedule := if scheduledFor.Blank? then t else scheduledFor;
      job := Job(freshId, postId, channelId, Queued, schedule, t, Blank, Blank, 0, 2, "", t, t, "", Blank, Blank, Blank);
      jobs := UpsertInPlace(jobs, Ids(jobs), freshId, job);
    }

    method SaveJob(job: Job)
      modifies this
      ensures jobs == Step(Queue(), old(jobs), Save(job))
    {
      jobs := UpsertInPlace(jobs, Ids(jobs), job.id, job);
    }

    /** `queue_metric_job` with nobody else at work: the two lock holds one after the other. */
    method EnqueueJob(postId: string, channelId: string, scheduledFor: Stamp, now: int, freshId: string)
      returns (job: Job)
      modifies this
      ensures
        var append := Append(postId, channelId, scheduledFor, now, freshId);
        var existing := Occupant(old(jobs), postId, NewJob(append).scheduledFor);
        if existing.Some? then job == existing.value && jobs == old(jobs)
        else job == NewJob(append) && jobs == Step(Queue(), old(jobs), append)
    {
      var existing := FindOccupant(postId, if scheduledFor.Blank? then Written(now) else scheduledFor);
      if existing.Some? {
        return existing.value;
      }
      job := AppendJob(postId, channelId, scheduledFor, now, freshId);
    }

    method RecoverExpired(scope: string, now: int) returns (changed: bool)
      modifies this
      ensures jobs == Recovered(old(jobs), scope, now)
      ensures changed == AnyStale(old(jobs), scope, now)
    {
      changed := false;
      for index := 0 to |jobs|
        invariant |jobs| == |old(jobs)|
        invariant jobs[..index] == Recovered(old(jobs), scope, now)[..index]
        invariant jobs[index..] == old(jobs)[index..]
        invariant changed <==> exists i :: 0 <= i < index && Stale(old(jobs)[i], scope, now)
      {
        var job := jobs[index];
        assert job == old(jobs)[index];
        if (scope == "" || job.channelId == scope) && job.status.Running? && Expired(job.leaseExpiresAt, now) {
          jobs := jobs[index := Recover(job, now)];
          changed := true;
        }
      }
    }

    method Candidates(scope: string) returns (r: seq<nat>)
      ensures forall i: nat :: i in r <==> i < |jobs| && Candidate(jobs[i], scope)
    {
      r := [];
      for index := 0 to |jobs|
        invariant forall i: nat :: i in r <==> i < index && Candidate(jobs[i], scope)
      {
        if jobs[index].status.Queued? && (scope == "" || jobs[index].channelId == scope) {
          r := r + [index];
        }
      }
    }

    method FirstDue(scope: string, now: int, clocks: seq<int>) returns (r: Option<nat>)
      ensures r == Best(Keys(jobs, clocks, now), Startable(jobs, scope, now))
    {
      var candidates := Candidates(scope);
      var js := jobs;
      var blocked := seq(|js|, i requires 0 <= i < |js| => Early(js[i], now));
      r := FirstAllowed(Keys(js, clocks, now), candidates, blocked);
      assert seq(|blocked|, i requires 0 <= i < |blocked| => i in candidates && !blocked[i])
          == Startable(js, scope, now);
    }

    /** The mutator of `claim_next_metric_job`. */
    method ClaimNextJob(scope: string, worker: string, leaseSeconds: int, now: int, clocks: seq<int>)
      returns (changed: bool, claimed: Option<Job>)
      modifies this
      ensures
        var out := Apply(Claim(scope, worker, leaseSeconds, now, clocks), old(jobs));
        && jobs == Commit(old(jobs), out) && changed == out.Changed? && claimed == out.result
    {
      changed := RecoverExpired(scope, now);
      var best := FirstDue(scope, now, clocks);
      if best.None? {
        assert !changed ==> jobs == old(jobs);
        return changed, None;
      }
      var candidate := jobs[best.value];
      var t := Written(now);
      candidate := candidate.(status := Running, startedAt := t, updatedAt := t);
      candidate := candidate.(attemptCount := candidate.attemptCount + 1);
      candidate := candidate.(claimedBy := worker, claimedAt := t, heartbeatAt := t);
      candidate := candidate.(leaseExpiresAt := Lease(now, leaseSeconds), errorCode := "");
      jobs := jobs[best.value := candidate];
      return true, Some(candidate);
    }

    /** The mutator of `heartbeat_metric_job`. */
    method HeartbeatJob(id: string, worker: string, leaseSeconds: int, beatAt: int, leaseAt: int)
      returns (changed: bool, job: Option<Job>)
      modifies this
      ensures
        var out := Apply(Heartbeat(id, worker, leaseSeconds, beatAt, leaseAt), old(jobs));
        && jobs == Commit(old(jobs), out) && changed == out.Changed? && job == out.result
    {
      for index := 0 to |jobs|
        invariant jobs == old(jobs)
        invariant id !in Ids(jobs)[..index]
      {
        var record := jobs[index];
        if record.id == id {
          assert Ids(jobs)[index] == id && Locate(Ids(jobs), id) == Some(index);
          if record.claimedBy != "" && record.claimedBy != worker {
            return false, None;
          }
          if !record.status.Running? {
            return false, Some(record);
          }
          record := record.(heartbeatAt := Written(beatAt));
          record := record.(leaseExpiresAt := Lease(leaseAt, leaseSeconds));
          jobs := jobs[index := record];
          return true, Some(record);
        }
      }
      assert Ids(jobs)[..|jobs|] == Ids(jobs);
      return false, None;
    }
  }
}
