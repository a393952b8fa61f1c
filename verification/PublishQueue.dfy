/** The publish job queue of channel_store.py: leases, recovery, claims and heartbeats. */
module PublishQueue {
  import opened Prelude
  import opened Instants
  import opened Mutators
  import opened Records
  import opened Choice
  import opened Jobs
  import LockedStore

  datatype Job = Job(
    id: string, derivativeId: string, channelId: string, status: Status,
    requestedAt: Stamp, startedAt: Stamp, finishedAt: Stamp,
    attemptCount: int, maxAttempts: int,
    lastStep: string, errorCode: string, createdAt: Stamp, updatedAt: Stamp,
    runMode: string, unknownResult: bool,
    claimedBy: string, claimedAt: Stamp, leaseExpiresAt: Stamp, heartbeatAt: Stamp,
    submittedAt: Stamp, manualVerificationRequired: bool)

  /** The mutations of the job list. Every clock reading is part of the operation, so all runs are
    * quantified over arbitrary clocks. */
  datatype Op =
    | Claim(scope: string, worker: string, leaseSeconds: int, now: int, clocks: seq<int>)
    | Heartbeat(id: string, worker: string, leaseSeconds: int, beatAt: int, leaseAt: int)
    | FindActive(channel: string)   // the guard of job creation: it only reads
    | Save(job: Job)                // save_publish_job: creation, and every write of a worker

  function Ids(jobs: seq<Job>): seq<string> {
    seq(|jobs|, i requires 0 <= i < |jobs| => jobs[i].id)
  }

  // ---------------------------------------------------------------- recovery

  predicate Stale(j: Job, scope: string, now: int) {
    (scope == "" || j.channelId == scope) && j.status.Running? && Expired(j.leaseExpiresAt, now)
  }

  /** A live publish that may already have been submitted. */
  predicate Evidence(j: Job) {
    j.runMode == "live" && (!j.submittedAt.Blank? || j.unknownResult || j.manualVerificationRequired)
  }

  function Unleased(j: Job): Job {
    j.(claimedBy := "", claimedAt := Blank, leaseExpiresAt := Blank, heartbeatAt := Blank)
  }

  /** `_recover_publish_job`. */
  function Recover(j: Job, now: int): Job {
    var t := Written(now);
    Unleased(
      if Evidence(j) then
        j.(status := ManualVerification, finishedAt := t, updatedAt := t,
           errorCode := Or(j.errorCode, "manual_verification_required"),
           unknownResult := true, manualVerificationRequired := true)
      else if j.attemptCount >= j.maxAttempts then
        j.(status := Failed, finishedAt := t, updatedAt := t, errorCode := Or(j.errorCode, "lease_expired"))
      else
        j.(status := Queued, updatedAt := t, lastStep := "requeued_after_stale_lease",
           errorCode := "stale_recovered", startedAt := Blank))
  }

  function Recovered(jobs: seq<Job>, scope: string, now: int): seq<Job> {
    seq(|jobs|, i requires 0 <= i < |jobs| =>
      if Stale(jobs[i], scope, now) then Recover(jobs[i], now) else jobs[i])
  }

  predicate AnyStale(jobs: seq<Job>, scope: string, now: int) {
    exists i :: 0 <= i < |jobs| && Stale(jobs[i], scope, now)
  }

  // ---------------------------------------------------------------- claiming

  predicate Live(j: Job, now: int) {
    j.status.Running? && !Expired(j.leaseExpiresAt, now)
  }

  predicate Busy(jobs: seq<Job>, channel: string, now: int) {
    exists k :: 0 <= k < |jobs| && jobs[k].channelId == channel && Live(jobs[k], now)
  }

  predicate Candidate(jobs: seq<Job>, scope: string, i: nat)
    requires i < |jobs|
  {
    jobs[i].status.Queued? && (scope == "" || jobs[i].channelId == scope)
  }

  predicate Eligible(jobs: seq<Job>, scope: string, now: int, i: nat)
    requires i < |jobs|
  {
    Candidate(jobs, scope, i) && !Busy(jobs, jobs[i].channelId, now)
  }

  /** The sort key of the candidate at position i; each key reads the clock for itself. */
  function Key(jobs: seq<Job>, clocks: seq<int>, now: int, i: nat): int
    requires i < |jobs|
  {
    OrderValue(jobs[i].requestedAt, jobs[i].createdAt, if i < |clocks| then clocks[i] else now)
  }

  function Keys(jobs: seq<Job>, clocks: seq<int>, now: int): seq<int> {
    seq(|jobs|, i requires 0 <= i < |jobs| => Key(jobs, clocks, now, i))
  }

  function Eligibles(jobs: seq<Job>, scope: string, now: int): seq<bool> {
    seq(|jobs|, i requires 0 <= i < |jobs| => Eligible(jobs, scope, now, i))
  }

  /** The eligible job with the smallest key, the first such position on ties. */
  function Choose(jobs: seq<Job>, scope: string, now: int, clocks: seq<int>): (r: Option<nat>)
    ensures r.None? <==> forall k :: 0 <= k < |jobs| ==> !Eligible(jobs, scope, now, k)
    ensures r.Some? ==> r.value < |jobs| && Eligible(jobs, scope, now, r.value)
    ensures r.Some? ==> forall k :: 0 <= k < |jobs| && Eligible(jobs, scope, now, k) ==>
      Key(jobs, clocks, now, r.value) < Key(jobs, clocks, now, k)
      || (Key(jobs, clocks, now, r.value) == Key(jobs, clocks, now, k) && r.value <= k)
  {
    var ok := Eligibles(jobs, scope, now);
    assert forall k :: 0 <= k < |jobs| ==> ok[k] == Eligible(jobs, scope, now, k);
    Best(Keys(jobs, clocks, now), ok)
  }

  function Start(j: Job, worker: string, leaseSeconds: int, now: int): Job {
    var t := Written(now);
    j.(status := Running, startedAt := t, updatedAt := t, attemptCount := j.attemptCount + 1,
       lastStep := Or(j.lastStep, "claimed"), claimedBy := worker, claimedAt := t, heartbeatAt := t,
       leaseExpiresAt := Lease(now, leaseSeconds), errorCode := "")
  }

  function ClaimNext(jobs: seq<Job>, op: Op): Outcome<seq<Job>, Option<Job>>
    requires op.Claim?
  {
    var r := Recovered(jobs, op.scope, op.now);
    var best := Choose(r, op.scope, op.now, op.clocks);
    if best.Some? then
      var started := Start(r[best.value], op.worker, op.leaseSeconds, op.now);
      Changed(r[best.value := started], Some(started))
    else if AnyStale(jobs, op.scope, op.now) then Changed(r, None)
    else Unchanged(None)
  }

  function Beat(jobs: seq<Job>, op: Op): Outcome<seq<Job>, Option<Job>>
    requires op.Heartbeat?
  {
    var at := Locate(Ids(jobs), op.id);
    if at.None? then Unchanged(None) else
      var j := jobs[at.value];
      if j.claimedBy != "" && j.claimedBy != op.worker then Unchanged(None)
      else if !j.status.Running? then Unchanged(Some(j))
      else
        var renewed := j.(heartbeatAt := Written(op.beatAt), leaseExpiresAt := Lease(op.leaseAt, op.leaseSeconds));
        Changed(jobs[at.value := renewed], Some(renewed))
  }

  /** Some active job of the channel. (`find_active_publish_job` looks at the newest first; its only
    * caller asks whether there is one.) */
  function ActiveOn(jobs: seq<Job>, channel: string): (r: Option<Job>)
    ensures r.Some? ==> r.value in jobs && r.value.channelId == channel && Active(r.value.status)
    ensures r.None? ==> forall i :: 0 <= i < |jobs| ==> !(jobs[i].channelId == channel && Active(jobs[i].status))
  {
    if jobs == [] then None
    else if jobs[0].channelId == channel && Active(jobs[0].status) then Some(jobs[0])
    else ActiveOn(jobs[1..], channel)
  }

  function Apply(op: Op, jobs: seq<Job>): Outcome<seq<Job>, Option<Job>> {
    match op
    case Claim(_, _, _, _, _) => ClaimNext(jobs, op)
    case Heartbeat(_, _, _, _, _) => Beat(jobs, op)
    case FindActive(channel) => Unchanged(ActiveOn(jobs, channel))
    case Save(job) => Changed(Upsert(jobs, Ids(jobs), job.id, job), Some(job))
  }

  function Queue(): Store<Op, seq<Job>, Option<Job>> {
    Store((op, jobs) => Apply(op, jobs), [])
  }

  // ---------------------------------------------------------------- what a claim does

  /** Whether the job at i is wanted, in terms of the list as it was found: queued, or expired and
    * due to be queued again, in scope, and no job on its channel holds a live lease. */
  ghost predicate Wanted(jobs: seq<Job>, scope: string, now: int, i: nat)
    requires i < |jobs|
  {
    && (scope == "" || jobs[i].channelId == scope)
    && (jobs[i].status.Queued?
        || (jobs[i].status.Running? && Expired(jobs[i].leaseExpiresAt, now)
            && !Evidence(jobs[i]) && jobs[i].attemptCount < jobs[i].maxAttempts))
    && forall k :: 0 <= k < |jobs| && jobs[k].channelId == jobs[i].channelId ==> !Live(jobs[k], now)
  }

  lemma RecoveredShape(jobs: seq<Job>, scope: string, now: int)
    ensures
      var r := Recovered(jobs, scope, now);
      && |r| == |jobs|
      && (forall i :: 0 <= i < |r| ==> r[i].id == jobs[i].id && r[i].channelId == jobs[i].channelId)
      && (forall i :: 0 <= i < |r| ==> Live(r[i], now) == Live(jobs[i], now))
      && (forall i :: 0 <= i < |r| ==> (Eligible(r, scope, now, i) <==> Wanted(jobs, scope, now, i)))
      && (forall i :: 0 <= i < |r| ==> Key(r, [], now, i) == Key(jobs, [], now, i))
  {
    var r := Recovered(jobs, scope, now);
    assert forall i :: 0 <= i < |r| ==> Live(r[i], now) == Live(jobs[i], now);
    forall i | 0 <= i < |r|
      ensures Eligible(r, scope, now, i) <==> Wanted(jobs, scope, now, i)
    {
      if k :| 0 <= k < |r| && r[k].channelId == r[i].channelId && Live(r[k], now) {
        assert Live(jobs[k], now);
      }
      if k :| 0 <= k < |jobs| && jobs[k].channelId == jobs[i].channelId && Live(jobs[k], now) {
        assert Live(r[k], now);
      }
    }
  }

  /** A claim against its specification: the winner is the wanted job with the smallest key, earliest
    * in the list on ties, started from the record that recovery left; there is none exactly when no job is
    * wanted; nothing changes except recovered jobs and the winner, and no job moves. */
  lemma ClaimMeetsSpec(jobs: seq<Job>, op: Op)
    requires op.Claim?
    ensures
      var out := Apply(op, jobs);
      var after := Step(Queue(), jobs, op);
      && Ids(after) == Ids(jobs)
      && !out.Raised?
      && (out.result.None? <==> forall i :: 0 <= i < |jobs| ==> !Wanted(jobs, op.scope, op.now, i))
      && (out.result.Some? ==>
            exists i :: 0 <= i < |jobs| && Winner(jobs, op, i) && after[i] == out.result.value
              && after[i] == Start(AsFound(jobs[i], op), op.worker, op.leaseSeconds, op.now))
      && (forall i :: 0 <= i < |jobs| && !Stale(jobs[i], op.scope, op.now) && !Winner(jobs, op, i)
            ==> after[i] == jobs[i])
      && (forall i :: 0 <= i < |jobs| && Stale(jobs[i], op.scope, op.now) && !Winner(jobs, op, i)
            ==> after[i] == Recover(jobs[i], op.now))
  {
    var r := Recovered(jobs, op.scope, op.now);
    RecoveredShape(jobs, op.scope, op.now);
    var best := Choose(r, op.scope, op.now, op.clocks);
    forall i | 0 <= i < |jobs|
      ensures Key(r, op.clocks, op.now, i) == Key(jobs, op.clocks, op.now, i)
    {
    }
    if best.Some? {
      assert Winner(jobs, op, best.value);
      assert Eligible(r, op.scope, op.now, best.value);
    }
  }

  /** The job as recovery leaves it. */
  function AsFound(j: Job, op: Op): Job
    requires op.Claim?
  {
    if Stale(j, op.scope, op.now) then Recover(j, op.now) else j
  }

  /** The wanted job that comes first by (key, position). */
  ghost predicate Winner(jobs: seq<Job>, op: Op, i: nat)
    requires op.Claim? && i < |jobs|
  {
    && Wanted(jobs, op.scope, op.now, i)
    && forall k :: 0 <= k < |jobs| && Wanted(jobs, op.scope, op.now, k) ==>
         Key(jobs, op.clocks, op.now, i) < Key(jobs, op.clocks, op.now, k)
         || (Key(jobs, op.clocks, op.now, i) == Key(jobs, op.clocks, op.now, k) && i <= k)
  }

  /** What a claim grants: the job it hands out is on file, runs, is held by the worker under a lease of the
    * length that was asked for, has one attempt more than it had and no error; its stamps say now, and what
    * the claim does not concern is as it was found. */
  lemma ClaimGrants(jobs: seq<Job>, op: Op)
    requires op.Claim? && Apply(op, jobs).result.Some?
    ensures
      var j := Apply(op, jobs).result.value;
      var after := Step(Queue(), jobs, op);
      exists i :: 0 <= i < |jobs| && i < |after| && Winner(jobs, op, i) && after[i] == j
        && j.status.Running? && j.claimedBy == op.worker && j.errorCode == ""
        && j.attemptCount == jobs[i].attemptCount + 1
        && LeaseOf(j.leaseExpiresAt, op.now, op.leaseSeconds)
        && At(j.startedAt, op.now) && At(j.updatedAt, op.now) && At(j.claimedAt, op.now) && At(j.heartbeatAt, op.now)
        && j.lastStep == (if jobs[i].status.Running? then "requeued_after_stale_lease"
                          else if jobs[i].lastStep == "" then "claimed" else jobs[i].lastStep)
        && j.id == jobs[i].id && j.derivativeId == jobs[i].derivativeId && j.channelId == jobs[i].channelId
        && j.requestedAt == jobs[i].requestedAt && j.createdAt == jobs[i].createdAt && j.finishedAt == jobs[i].finishedAt
        && j.maxAttempts == jobs[i].maxAttempts && j.runMode == jobs[i].runMode && j.submittedAt == jobs[i].submittedAt
        && j.unknownResult == jobs[i].unknownResult
        && j.manualVerificationRequired == jobs[i].manualVerificationRequired
  {
    ClaimMeetsSpec(jobs, op);
    WrittenSecond(op.now);
    LeaseIsOf(op.now, op.leaseSeconds);
  }

  lemma StaleBecomes(jobs: seq<Job>, op: Op, i: nat)
    requires op.Claim? && i < |jobs| && Stale(jobs[i], op.scope, op.now)
    ensures
      var after := Step(Queue(), jobs, op);
      && i < |after|
      && (|| after[i] == Recover(jobs[i], op.now)
          || (Apply(op, jobs).result == Some(after[i]) && !Evidence(jobs[i]) && jobs[i].attemptCount < jobs[i].maxAttempts
              && after[i] == Start(Recover(jobs[i], op.now), op.worker, op.leaseSeconds, op.now)))
  {
    ClaimMeetsSpec(jobs, op);
  }

  /** What becomes of a running job whose lease is over when a claim finds it: a live one that may have been
    * submitted waits for manual verification, one with no attempts left has failed, and any other is in the
    * queue again, or started by this claim. Nobody holds it but who starts it. */
  lemma LostLeaseOutcome(jobs: seq<Job>, op: Op, i: nat)
    requires op.Claim? && i < |jobs| && jobs[i].status.Running? && (op.scope == "" || jobs[i].channelId == op.scope)
    requires !jobs[i].leaseExpiresAt.Moment? || jobs[i].leaseExpiresAt.at <= op.now
    ensures
      i < |Step(Queue(), jobs, op)|
      && var was, now := jobs[i], Step(Queue(), jobs, op)[i];
      var submitted := was.runMode == "live"
        && (was.submittedAt != Blank || was.unknownResult || was.manualVerificationRequired);
      && (submitted ==>
            now.status.ManualVerification? && now.unknownResult && now.manualVerificationRequired && At(now.finishedAt, op.now)
            && now.errorCode == (if was.errorCode == "" then "manual_verification_required" else was.errorCode))
      && (!submitted && was.attemptCount >= was.maxAttempts ==>
            now.status.Failed? && At(now.finishedAt, op.now)
            && now.errorCode == (if was.errorCode == "" then "lease_expired" else was.errorCode))
      && (!submitted && was.attemptCount < was.maxAttempts ==>
            (now.status.Queued? && now.startedAt == Blank && now.errorCode == "stale_recovered"
             && now.lastStep == "requeued_after_stale_lease" && now.finishedAt == was.finishedAt)
            || (now.status.Running? && Apply(op, jobs).result == Some(now)))
      && (!now.status.Running? ==>
            now.claimedBy == "" && now.claimedAt == Blank && now.leaseExpiresAt == Blank && now.heartbeatAt == Blank
            && At(now.updatedAt, op.now) && now.attemptCount == was.attemptCount)
      && (!now.status.Running? && !submitted ==>
            now.unknownResult == was.unknownResult && now.manualVerificationRequired == was.manualVerificationRequired)
      && (!now.status.Running? && !now.status.Queued? ==> now.lastStep == was.lastStep && now.startedAt == was.startedAt)
      && now.id == was.id && now.derivativeId == was.derivativeId && now.channelId == was.channelId
      && now.requestedAt == was.requestedAt && now.createdAt == was.createdAt && now.maxAttempts == was.maxAttempts
      && now.runMode == was.runMode && now.submittedAt == was.submittedAt
  {
    StaleBecomes(jobs, op, i);
    WrittenSecond(op.now);
  }

  /** The winner is the oldest wanted job: by the time it was requested, or created if that cannot be read, and
    * by its place in the list on ties. */
  lemma OldestIsClaimed(jobs: seq<Job>, op: Op, i: nat, k: nat)
    requires op.Claim? && i < |jobs| && k < |jobs| && Winner(jobs, op, i) && Wanted(jobs, op.scope, op.now, k)
    requires jobs[i].requestedAt.Moment? || jobs[i].createdAt.Moment?
    requires jobs[k].requestedAt.Moment? || jobs[k].createdAt.Moment?
    ensures
      var mine := if jobs[i].requestedAt.Moment? then jobs[i].requestedAt.at else jobs[i].createdAt.at;
      var its := if jobs[k].requestedAt.Moment? then jobs[k].requestedAt.at else jobs[k].createdAt.at;
      mine < its || (mine == its && i <= k)
  {
  }

  // ---------------------------------------------------------------- one running job per channel

  ghost predicate Exclusive(jobs: seq<Job>) {
    forall i, k :: 0 <= i < k < |jobs| && jobs[i].status.Running? && jobs[k].status.Running?
      ==> jobs[i].channelId != jobs[k].channelId
  }

  /** Recovery sets nothing running, and leaves nothing running on an eligible job's channel. */
  lemma RecoveredIsExclusive(jobs: seq<Job>, scope: string, now: int)
    requires Exclusive(jobs)
    ensures
      var r := Recovered(jobs, scope, now);
      && Exclusive(r)
      && forall i, k :: 0 <= i < |r| && 0 <= k < |r| && Eligible(r, scope, now, i) && r[k].status.Running?
           ==> r[k].channelId != r[i].channelId
  {
    var r := Recovered(jobs, scope, now);
    assert forall k :: 0 <= k < |r| && r[k].status.Running? ==> r[k] == jobs[k];
    forall i, k | 0 <= i < |r| && 0 <= k < |r| && Eligible(r, scope, now, i) && r[k].status.Running?
      ensures r[k].channelId != r[i].channelId
    {
      assert r[k].channelId == r[i].channelId ==> Live(r[k], now);
    }
  }

  lemma OneMoreRunning(jobs: seq<Job>, at: nat, job: Job)
    requires Exclusive(jobs) && at < |jobs|
    requires forall k :: 0 <= k < |jobs| && jobs[k].status.Running? ==> jobs[k].channelId != job.channelId
    ensures Exclusive(jobs[at := job])
  {
  }

  lemma ClaimKeepsExclusion(jobs: seq<Job>, op: Op)
    requires op.Claim? && Exclusive(jobs)
    ensures Exclusive(Step(Queue(), jobs, op))
  {
    var r := Recovered(jobs, op.scope, op.now);
    var best := Choose(r, op.scope, op.now, op.clocks);
    RecoveredIsExclusive(jobs, op.scope, op.now);
    if best.Some? {
      OneMoreRunning(r, best.value, Start(r[best.value], op.worker, op.leaseSeconds, op.now));
    }
  }

  /** Exactly when writing a whole record back keeps exclusion. */
  lemma SaveKeepsExclusionIff(jobs: seq<Job>, job: Job)
    requires Exclusive(jobs)
    ensures Exclusive(Step(Queue(), jobs, Save(job))) <==>
            (job.status.Running? ==>
               forall k :: 0 <= k < |jobs| && Some(k) != Locate(Ids(jobs), job.id) && jobs[k].status.Running?
                 ==> jobs[k].channelId != job.channelId)
  {
    var after := Step(Queue(), jobs, Save(job));
    var at := Locate(Ids(jobs), job.id);
    var here := if at.Some? then at.value else |jobs|;
    assert after[here] == job;
    if Exclusive(after) && job.status.Running? {
      forall k | 0 <= k < |jobs| && Some(k) != at && jobs[k].status.Running?
        ensures jobs[k].channelId != job.channelId
      {
        assert after[k] == jobs[k];
      }
    }
  }

  /** Other code writes a job as running only over a job that is running on that channel already. */
  ghost predicate Permitted(jobs: seq<Job>, op: Op) {
    op.Save? && op.job.status.Running? ==>
      var at := Locate(Ids(jobs), op.job.id);
      at.Some? && jobs[at.value].status.Running? && jobs[at.value].channelId == op.job.channelId
  }

  lemma StepKeepsExclusion(jobs: seq<Job>, op: Op)
    requires Exclusive(jobs) && Permitted(jobs, op)
    ensures Exclusive(Step(Queue(), jobs, op))
  {
    match op
    case Claim(_, _, _, _, _) => ClaimKeepsExclusion(jobs, op);
    case Heartbeat(_, _, _, _, _) =>
    case FindActive(_) =>
    case Save(job) =>
      SaveKeepsExclusionIff(jobs, job);
      if job.status.Running? {
        var at := Locate(Ids(jobs), job.id).value;
        forall k | 0 <= k < |jobs| && k != at && jobs[k].status.Running?
          ensures jobs[k].channelId != job.channelId
        {
          assert k < at || at < k;
        }
      }
  }

  ghost predicate LegalRun(jobs: seq<Job>, ops: seq<Op>) {
    Legal(Queue(), Permitted, jobs, ops)
  }

  /** In every run of claims (filtered or not), heartbeats (on expired leases too), guards and writes,
    * at any clock readings, a channel has at most one running job. */
  lemma {:induction false} ExclusionForever(jobs: seq<Job>, ops: seq<Op>)
    requires Exclusive(jobs) && LegalRun(jobs, ops)
    ensures Exclusive(Replay(Queue(), jobs, ops))
  {
    if ops != [] {
      LegalPrefix(Queue(), Permitted, jobs, ops);
      ExclusionForever(jobs, ops[..|ops| - 1]);
      StepKeepsExclusion(Replay(Queue(), jobs, ops[..|ops| - 1]), Last(ops));
    }
  }

  /** The same for the job file itself, shared by any number of processes that interleave file
    * actions, time out, raise and die. */
  lemma ExclusiveFile(f: LockedStore.File<seq<Item<Job>>>, steps: seq<LockedStore.Action<Op>>)
    requires
      var c := Lift(Queue());
      && Exclusive(Deserialize(LockedStore.Effective(c, f)))
      && LegalRun(Deserialize(LockedStore.Effective(c, f)),
                  LockedStore.Ops(LockedStore.Run(c, LockedStore.Boot(f), steps).history))
    ensures
      var c := Lift(Queue());
      Exclusive(Deserialize(LockedStore.Effective(c, LockedStore.Run(c, LockedStore.Boot(f), steps).file)))
  {
    var c := Lift(Queue());
    var s := LockedStore.Run(c, LockedStore.Boot(f), steps);
    var base := LockedStore.Effective(c, f);
    LockedStore.Linearizable(c, f, steps);
    LiftRefines(Queue(), base, LockedStore.Ops(s.history));
    ExclusionForever(Deserialize(base), LockedStore.Ops(s.history));
  }

  /** In a whole run exclusion holds throughout exactly if every write of other code fits the list that it
    * is written to. */
  lemma ExclusionExactly(jobs: seq<Job>, ops: seq<Op>)
    requires Exclusive(jobs)
    ensures Throughout(Queue(), Exclusive, jobs, ops) <==> Legal(Queue(), RunsAlone, jobs, ops)
  {
    forall e, op | Exclusive(e)
      ensures Exclusive(Step(Queue(), e, op)) <==> RunsAlone(e, op)
    {
      if op.Save? {
        SaveKeepsExclusionIff(e, op.job);
      } else {
        StepKeepsExclusion(e, op);
      }
    }
    KeptExactly(Queue(), AnyState, AnyStep, Exclusive, RunsAlone, jobs, ops);
  }

  /** A write of a running job finds no other job of its channel running. */
  ghost predicate RunsAlone(jobs: seq<Job>, op: Op) {
    op.Save? && op.job.status.Running? ==>
      forall k :: 0 <= k < |jobs| && Some(k) != Locate(Ids(jobs), op.job.id) && jobs[k].status.Running?
        ==> jobs[k].channelId != op.job.channelId
  }

  // ---------------------------------------------------------------- one active job per channel

  /** What the guard of job creation is for. */
  ghost predicate OneActive(jobs: seq<Job>) {
    forall i, k :: 0 <= i < k < |jobs| && Active(jobs[i].status) && Active(jobs[k].status)
      ==> jobs[i].channelId != jobs[k].channelId
  }

  /** A write of an active job finds no other job of its channel active. */
  ghost predicate ActsAlone(jobs: seq<Job>, op: Op) {
    op.Save? && Active(op.job.status) ==>
      forall k :: 0 <= k < |jobs| && Some(k) != Locate(Ids(jobs), op.job.id) && Active(jobs[k].status)
        ==> jobs[k].channelId != op.job.channelId
  }

  lemma SaveKeepsOneActiveIff(jobs: seq<Job>, job: Job)
    requires OneActive(jobs)
    ensures OneActive(Step(Queue(), jobs, Save(job))) <==> ActsAlone(jobs, Save(job))
  {
    var after := Step(Queue(), jobs, Save(job));
    var at := Locate(Ids(jobs), job.id);
    var here := if at.Some? then at.value else |jobs|;
    assert after[here] == job;
    if OneActive(after) && Active(job.status) {
      forall k | 0 <= k < |jobs| && Some(k) != at && Active(jobs[k].status)
        ensures jobs[k].channelId != job.channelId
      {
        assert after[k] == jobs[k];
      }
    }
  }

  /** Claims and heartbeats make no job active. */
  lemma OthersKeepOneActive(jobs: seq<Job>, op: Op)
    requires OneActive(jobs) && !op.Save?
    ensures OneActive(Step(Queue(), jobs, op))
  {
    if op.Claim? {
      var r := Recovered(jobs, op.scope, op.now);
      assert forall i :: 0 <= i < |r| ==> r[i].channelId == jobs[i].channelId && (Active(r[i].status) ==> Active(jobs[i].status));
    }
  }

  /** A creation leaves the channel with one active job exactly if the guard's look, repeated at the append,
    * finds none: the guard reads under one lock hold and the job is appended under another. */
  lemma CreationFitsIff(jobs: seq<Job>, job: Job)
    requires OneActive(jobs) && job.id !in Ids(jobs) && Active(job.status)
    ensures OneActive(Step(Queue(), jobs, Save(job))) <==> ActiveOn(jobs, job.channelId).None?
  {
    SaveKeepsOneActiveIff(jobs, job);
    if ActiveOn(jobs, job.channelId).Some? {
      var k :| 0 <= k < |jobs| && jobs[k] == ActiveOn(jobs, job.channelId).value;
      assert Active(jobs[k].status) && jobs[k].channelId == job.channelId;
    }
  }

  /** And in a whole run, claims, recoveries and heartbeats at any clocks included: a channel has at most one
    * active job throughout exactly if every write of an active job finds its channel free. */
  lemma OneActiveExactly(jobs: seq<Job>, ops: seq<Op>)
    requires OneActive(jobs)
    ensures Throughout(Queue(), OneActive, jobs, ops) <==> Legal(Queue(), ActsAlone, jobs, ops)
  {
    forall e, op | OneActive(e)
      ensures OneActive(Step(Queue(), e, op)) <==> ActsAlone(e, op)
    {
      if op.Save? {
        SaveKeepsOneActiveIff(e, op.job);
      } else {
        OthersKeepOneActive(e, op);
      }
    }
    KeptExactly(Queue(), AnyState, AnyStep, OneActive, ActsAlone, jobs, ops);
  }

  /** So two requests can both pass the guard and both append. */
  lemma TwoRequestsPassTheGuard(a: Job, b: Job)
    requires a.id != b.id && a.channelId == b.channelId && a.status.Queued? && b.status.Queued?
    ensures
      var ops := [FindActive(a.channelId), FindActive(b.channelId), Save(a), Save(b)];
      && Apply(ops[0], Replay(Queue(), [], ops[..0])).result.None?
      && Apply(ops[1], Replay(Queue(), [], ops[..1])).result.None?
      && Replay(Queue(), [], ops) == [a, b] && !OneActive([a, b])
  {
    var ops := [FindActive(a.channelId), FindActive(b.channelId), Save(a), Save(b)];
    assert ops[..1] == [] + [ops[0]] && ops[..2] == ops[..1] + [ops[1]] && ops[..3] == ops[..2] + [ops[2]];
    ReplayAppend(Queue(), [], [], ops[0]);
    ReplayAppend(Queue(), [], ops[..1], ops[1]);
    ReplayAppend(Queue(), [], ops[..2], ops[2]);
    assert Ids([a]) == [a.id];
    assert Upsert([a], Ids([a]), b.id, b) == [a, b];
    assert [a, b][0] == a && [a, b][1] == b;
  }

  /** The first of two queued jobs starts. */
  lemma EarlierStarts(a: Job, b: Job, claim: Op)
    requires claim.Claim? && claim.scope == "" && a.status.Queued? && b.status.Queued?
    requires a.requestedAt.Moment? && b.requestedAt.Moment? && a.requestedAt.at <= b.requestedAt.at
    ensures
      var started := Start(a, claim.worker, claim.leaseSeconds, claim.now);
      Apply(claim, [a, b]) == Changed([started, b], Some(started))
  {
    var jobs := [a, b];
    assert Recovered(jobs, "", claim.now) == jobs;
    assert Eligible(jobs, "", claim.now, 0) && Eligible(jobs, "", claim.now, 1);
    assert Choose(jobs, "", claim.now, claim.clocks) == Some(0);
    assert jobs[0 := Start(a, claim.worker, claim.leaseSeconds, claim.now)] == [Start(a, claim.worker, claim.leaseSeconds, claim.now), b];
  }

  /** Its lease over, the first is recovered, and starts again if that queues it. */
  lemma EarlierRestarts(a: Job, b: Job, claim: Op)
    requires claim.Claim? && claim.scope == "" && a.status.Running? && Expired(a.leaseExpiresAt, claim.now)
    requires !Evidence(a) && a.attemptCount < a.maxAttempts && b.status.Queued?
    requires a.requestedAt.Moment? && b.requestedAt.Moment? && a.requestedAt.at <= b.requestedAt.at
    ensures
      var started := Start(Recover(a, claim.now), claim.worker, claim.leaseSeconds, claim.now);
      Apply(claim, [a, b]) == Changed([started, b], Some(started))
  {
    var r := [Recover(a, claim.now), b];
    assert Recovered([a, b], "", claim.now) == r;
    assert Eligible(r, "", claim.now, 0) && Eligible(r, "", claim.now, 1);
    assert Choose(r, "", claim.now, claim.clocks) == Some(0);
    assert r[0 := Start(r[0], claim.worker, claim.leaseSeconds, claim.now)] == [Start(r[0], claim.worker, claim.leaseSeconds, claim.now), b];
  }

  /** Its lease over and its attempts spent, the first fails and the second starts. */
  lemma LaterStarts(a: Job, b: Job, claim: Op)
    requires claim.Claim? && claim.scope == "" && a.status.Running? && Expired(a.leaseExpiresAt, claim.now)
    requires !Evidence(a) && a.attemptCount >= a.maxAttempts && b.status.Queued?
    ensures
      var started := Start(b, claim.worker, claim.leaseSeconds, claim.now);
      Apply(claim, [a, b]) == Changed([Recover(a, claim.now), started], Some(started))
  {
    var r := [Recover(a, claim.now), b];
    assert Recovered([a, b], "", claim.now) == r;
    assert Eligible(r, "", claim.now, 1) && !Eligible(r, "", claim.now, 0);
    assert Choose(r, "", claim.now, claim.clocks) == Some(1);
    assert r[1 := Start(b, claim.worker, claim.leaseSeconds, claim.now)] == [r[0], Start(b, claim.worker, claim.leaseSeconds, claim.now)];
  }

  /** Two new jobs of two attempts each under three claims: the first is started twice and loses its lease
    * twice, so it fails and the second starts. */
  lemma SecondFollows(a: Job, b: Job, first: Op, second: Op, third: Op)
    requires first == Claim("", "w1", 1, 0, []) && second == Claim("", "w2", 1, 10 * SECOND, []) && third == Claim("", "w3", 1, 20 * SECOND, [])
    requires a.status.Queued? && b.status.Queued?
    requires a.runMode == "dry_run" && a.attemptCount == 0 && a.maxAttempts == 2
    requires a.requestedAt == Moment(0, 0) && b.requestedAt == Moment(1, 0)
    ensures
      var copy := Start(Recover(Start(a, "w1", 1, 0), 10 * SECOND), "w2", 1, 10 * SECOND);
      && Apply(second, Step(Queue(), [a, b], first)).result == Some(copy)
      && Step(Queue(), Step(Queue(), Step(Queue(), [a, b], first), second), third)
         == [Recover(copy, 20 * SECOND), Start(b, "w3", 1, 20 * SECOND)]
  {
    var once := Start(a, "w1", 1, 0);
    EarlierStarts(a, b, first);
    EarlierRestarts(once, b, second);
    LaterStarts(Start(Recover(once, 10 * SECOND), "w2", 1, 10 * SECOND), b, third);
  }

  lemma SavedOverFailed(copy: Job, failed: Job, b: Job)
    requires copy.status.Running? && b.status.Running? && copy.id == failed.id && copy.channelId == b.channelId
    ensures !Exclusive(Step(Queue(), [failed, b], Save(copy)))
  {
    assert Ids([failed, b])[0] == copy.id;
    assert [failed, b][0 := copy] == [copy, b];
    assert [copy, b][0] == copy && [copy, b][1] == b;
  }

  lemma FailedIsAlone(failed: Job, b: Job)
    requires !failed.status.Running?
    ensures Exclusive([failed, b])
  {
    assert [failed, b][0] == failed;
  }

  /** Without the assumption on other writers exclusion fails: after the three claims the second worker writes
    * back its copy of the first job, which is still running there. */
  lemma StaleCopyBreaksExclusion(a: Job, b: Job)
    requires a.id != b.id && a.channelId == b.channelId && a.status.Queued? && b.status.Queued?
    requires a.runMode == "dry_run" && a.attemptCount == 0 && a.maxAttempts == 2
    requires a.requestedAt == Moment(0, 0) && b.requestedAt == Moment(1, 0)
    ensures
      var first, second, third := Claim("", "w1", 1, 0, []), Claim("", "w2", 1, 10 * SECOND, []), Claim("", "w3", 1, 20 * SECOND, []);
      var before := Replay(Queue(), [a, b], [first, second, third]);
      var copy := Apply(second, Replay(Queue(), [a, b], [first])).result;
      && LegalRun([a, b], [first, second, third]) && Exclusive(before)
      && copy.Some? && !Exclusive(Step(Queue(), before, Save(copy.value)))
  {
    var first, second, third := Claim("", "w1", 1, 0, []), Claim("", "w2", 1, 10 * SECOND, []), Claim("", "w3", 1, 20 * SECOND, []);
    var copy := Start(Recover(Start(a, "w1", 1, 0), 10 * SECOND), "w2", 1, 10 * SECOND);
    SecondFollows(a, b, first, second, third);
    ReplayThree(Queue(), [a, b], first, second, third);
    FailedIsAlone(Recover(copy, 20 * SECOND), Start(b, "w3", 1, 20 * SECOND));
    SavedOverFailed(copy, Recover(copy, 20 * SECOND), Start(b, "w3", 1, 20 * SECOND));
  }

  // ---------------------------------------------------------------- attempts

  function Weight(j: Job): int {
    2 * (j.maxAttempts - j.attemptCount) + if j.status.Running? then 1 else 0
  }

  /** 2 * (attempts left) + [running], over all jobs. */
  function Measure(jobs: seq<Job>): int {
    if jobs == [] then 0 else Measure(jobs[..|jobs| - 1]) + Weight(Last(jobs))
  }

  function StaleCount(jobs: seq<Job>, scope: string, now: int): (n: nat)
    ensures n == 0 <==> !AnyStale(jobs, scope, now)
  {
    if jobs == [] then 0
    else
      var front := jobs[..|jobs| - 1];
      assert AnyStale(front, scope, now) ==> AnyStale(jobs, scope, now) by {
        if i :| 0 <= i < |front| && Stale(front[i], scope, now) {
          assert Stale(jobs[i], scope, now);
        }
      }
      assert AnyStale(jobs, scope, now) ==> AnyStale(front, scope, now) || Stale(Last(jobs), scope, now) by {
        if i :| 0 <= i < |jobs| && Stale(jobs[i], scope, now) {
          assert i < |front| ==> Stale(front[i], scope, now);
        }
      }
      StaleCount(front, scope, now) + if Stale(Last(jobs), scope, now) then 1 else 0
  }

  lemma RecoverCostsOne(j: Job, now: int)
    requires j.status.Running?
    ensures Weight(Recover(j, now)) == Weight(j) - 1
  {
  }

  lemma {:induction false} RecoveredMeasure(jobs: seq<Job>, scope: string, now: int)
    ensures Measure(Recovered(jobs, scope, now)) == Measure(jobs) - StaleCount(jobs, scope, now)
  {
    var r := Recovered(jobs, scope, now);
    if jobs != [] {
      var front := jobs[..|jobs| - 1];
      assert r == Recovered(front, scope, now) + [Last(r)];
      assert Measure(r) == Measure(Recovered(front, scope, now)) + Weight(Last(r)) by {
        assert r[..|r| - 1] == Recovered(front, scope, now);
      }
      RecoveredMeasure(front, scope, now);
      if Stale(Last(jobs), scope, now) {
        RecoverCostsOne(Last(jobs), now);
      }
    }
  }

  lemma {:induction false} MeasureUpdate(jobs: seq<Job>, i: nat, j: Job)
    requires i < |jobs|
    ensures Measure(jobs[i := j]) == Measure(jobs) - Weight(jobs[i]) + Weight(j)
  {
    var n := |jobs| - 1;
    if i < n {
      assert jobs[i := j][..n] == jobs[..n][i := j];
      MeasureUpdate(jobs[..n], i, j);
    } else {
      assert jobs[i := j][..n] == jobs[..n];
    }
  }

  /** A claim call lowers the measure by exactly the number of leases it recovers plus one if it claims
    * a job; so every call that changes the store lowers it. */
  lemma ClaimSpendsMeasure(jobs: seq<Job>, op: Op)
    requires op.Claim?
    ensures
      var out := Apply(op, jobs);
      && Measure(Step(Queue(), jobs, op)) ==
         Measure(jobs) - StaleCount(jobs, op.scope, op.now) - (if out.result.Some? then 1 else 0)
      && (out.Changed? ==> Measure(Step(Queue(), jobs, op)) < Measure(jobs))
  {
    var r := Recovered(jobs, op.scope, op.now);
    RecoveredMeasure(jobs, op.scope, op.now);
    var best := Choose(r, op.scope, op.now, op.clocks);
    if best.Some? {
      MeasureUpdate(r, best.value, Start(r[best.value], op.worker, op.leaseSeconds, op.now));
    }
  }

  /** A queued job has attempts left and no job has used more than it has. */
  ghost predicate Budget(jobs: seq<Job>) {
    forall i :: 0 <= i < |jobs| ==> WithinBudget(jobs[i])
  }

  predicate WithinBudget(j: Job) {
    j.attemptCount <= j.maxAttempts && (j.status.Queued? ==> j.attemptCount < j.maxAttempts)
  }

  lemma StepKeepsBudget(jobs: seq<Job>, op: Op)
    requires Budget(jobs) && (op.Save? ==> WithinBudget(op.job))
    ensures Budget(Step(Queue(), jobs, op))
  {
    if op.Claim? {
      var r := Recovered(jobs, op.scope, op.now);
      assert Budget(r);
    }
  }

  /** Starting from an empty list, writes that stay within budget (a new job starts at 0 of 2) keep the
    * whole run within it. */
  lemma BudgetForever(jobs: seq<Job>, ops: seq<Op>)
    requires Budget(jobs)
    requires forall i :: 0 <= i < |ops| && ops[i].Save? ==> WithinBudget(ops[i].job)
    ensures Budget(Replay(Queue(), jobs, ops))
  {
    var good := (d: seq<Job>) => forall i :: 0 <= i < |d| ==> WithinBudget(d[i]);
    var allowed := (op: Op) => op.Save? ==> WithinBudget(op.job);
    forall op, d | allowed(op) && good(d)
      ensures good(Step(Queue(), d, op))
    {
      StepKeepsBudget(d, op);
    }
    ReplayKeeps(Queue(), good, allowed, jobs, ops);
  }

  ghost predicate WritesWithinBudget(jobs: seq<Job>, op: Op) {
    op.Save? ==> WithinBudget(op.job)
  }

  /** And only such runs: the budget holds throughout exactly if every write is within it. */
  lemma BudgetExactly(jobs: seq<Job>, ops: seq<Op>)
    requires Budget(jobs)
    ensures Throughout(Queue(), Budget, jobs, ops) <==> Legal(Queue(), WritesWithinBudget, jobs, ops)
  {
    forall e, op | Budget(e)
      ensures Budget(Step(Queue(), e, op)) <==> WritesWithinBudget(e, op)
    {
      if WritesWithinBudget(e, op) {
        StepKeepsBudget(e, op);
      } else {
        var at := Locate(Ids(e), op.job.id);
        assert Step(Queue(), e, op)[if at.Some? then at.value else |e|] == op.job;
      }
    }
    KeptExactly(Queue(), AnyState, AnyStep, Budget, WritesWithinBudget, jobs, ops);
  }

  /** How many operations of a run wrote the store. */
  function Writes(jobs: seq<Job>, ops: seq<Op>): nat {
    if ops == [] then 0 else
      var front := ops[..|ops| - 1];
      Writes(jobs, front) + if Apply(Last(ops), Replay(Queue(), jobs, front)).Changed? then 1 else 0
  }

  lemma {:induction false} MeasureNotNegative(jobs: seq<Job>)
    requires Budget(jobs)
    ensures Measure(jobs) >= 0
  {
    if jobs != [] {
      MeasureNotNegative(jobs[..|jobs| - 1]);
      assert WithinBudget(jobs[|jobs| - 1]);
    }
  }

  lemma {:induction false} ClaimWritesSpend(jobs: seq<Job>, ops: seq<Op>)
    requires forall i :: 0 <= i < |ops| ==> ops[i].Claim?
    ensures Writes(jobs, ops) <= Measure(jobs) - Measure(Replay(Queue(), jobs, ops))
  {
    if ops != [] {
      var front := ops[..|ops| - 1];
      ClaimWritesSpend(jobs, front);
      ClaimSpendsMeasure(Replay(Queue(), jobs, front), Last(ops));
    }
  }

  /** A fleet whose workers always die right after claiming stops writing: however many claim calls it
    * makes, at any clock readings, at most Measure(jobs) of them change the store. */
  lemma CrashingFleetSettles(jobs: seq<Job>, ops: seq<Op>)
    requires Budget(jobs)
    requires forall i :: 0 <= i < |ops| ==> ops[i].Claim?
    ensures Writes(jobs, ops) <= Measure(jobs)
  {
    ClaimWritesSpend(jobs, ops);
    BudgetForever(jobs, ops);
    MeasureNotNegative(Replay(Queue(), jobs, ops));
  }

  /** The position a claim starts, if any. */
  function Started(jobs: seq<Job>, op: Op): Option<nat> {
    if op.Claim? then
      var r := Recovered(jobs, op.scope, op.now);
      Choose(r, op.scope, op.now, op.clocks)
    else None
  }

  function TimesStarted(jobs: seq<Job>, ops: seq<Op>, i: nat): nat {
    if ops == [] then 0 else
      var front := ops[..|ops| - 1];
      TimesStarted(jobs, front, i) + if Started(Replay(Queue(), jobs, front), Last(ops)) == Some(i) then 1 else 0
  }

  function AttemptsLeft(j: Job): int {
    j.maxAttempts - j.attemptCount
  }

  /** The operation writes the record at i. */
  predicate Rewrites(jobs: seq<Job>, op: Op, i: nat) {
    op.Save? && Locate(Ids(jobs), op.job.id) == Some(i)
  }

  /** A claim takes one attempt from the job it starts; recovery and heartbeats take none. */
  lemma StartCounts(jobs: seq<Job>, op: Op, i: nat)
    requires i < |jobs| && !op.Save?
    ensures
      var after := Step(Queue(), jobs, op);
      && i < |after| && AttemptsLeft(after[i]) == AttemptsLeft(jobs[i]) - if Started(jobs, op) == Some(i) then 1 else 0
  {
    if op.Claim? {
      var r := Recovered(jobs, op.scope, op.now);
      assert r[i].maxAttempts == jobs[i].maxAttempts && r[i].attemptCount == jobs[i].attemptCount;
    }
  }

  lemma SaveCounts(jobs: seq<Job>, op: Op, i: nat)
    requires i < |jobs| && op.Save?
    ensures
      var after := Step(Queue(), jobs, op);
      i < |after| && after[i] == (if Rewrites(jobs, op, i) then op.job else jobs[i])
  {
  }

  /** A write to the job at i leaves it as many attempts as it has. */
  ghost predicate KeepsAttempts(jobs: seq<Job>, op: Op, i: nat) {
    i < |jobs| && Rewrites(jobs, op, i) ==> AttemptsLeft(op.job) == AttemptsLeft(jobs[i])
  }

  /** Over a run in which nobody's write gives or takes attempts, the job loses exactly one for each time
    * that it is started. */
  lemma {:induction false} RunCountsAttempts(jobs: seq<Job>, ops: seq<Op>, i: nat)
    requires i < |jobs| && Legal(Queue(), (s, op) => KeepsAttempts(s, op, i), jobs, ops)
    ensures
      var after := Replay(Queue(), jobs, ops);
      i < |after| && AttemptsLeft(after[i]) == AttemptsLeft(jobs[i]) - TimesStarted(jobs, ops, i)
  {
    if ops != [] {
      var front := ops[..|ops| - 1];
      var before := Replay(Queue(), jobs, front);
      var keeps := (s, op) => KeepsAttempts(s, op, i);
      assert Legal(Queue(), keeps, jobs, ops);
      LegalPrefix(Queue(), keeps, jobs, ops);
      assert Legal(Queue(), (s, op) => KeepsAttempts(s, op, i), jobs, front);
      RunCountsAttempts(jobs, front, i);
      if Last(ops).Save? { SaveCounts(before, Last(ops), i); } else { StartCounts(before, Last(ops), i); }
    }
  }

  /** A write to the job at i gives it no attempt back, and is within budget. */
  ghost predicate Spends(jobs: seq<Job>, op: Op, i: nat) {
    i < |jobs| && Rewrites(jobs, op, i) ==> AttemptsLeft(op.job) <= AttemptsLeft(jobs[i]) && WithinBudget(op.job)
  }

  lemma SpendingStep(jobs: seq<Job>, op: Op, i: nat)
    requires i < |jobs| && WithinBudget(jobs[i]) && Spends(jobs, op, i)
    ensures
      var after := Step(Queue(), jobs, op);
      && i < |after| && WithinBudget(after[i])
      && AttemptsLeft(after[i]) <= AttemptsLeft(jobs[i]) - if Started(jobs, op) == Some(i) then 1 else 0
  {
    if op.Save? {
      SaveCounts(jobs, op, i);
    } else {
      StartCounts(jobs, op, i);
      if op.Claim? {
        var r := Recovered(jobs, op.scope, op.now);
        assert WithinBudget(r[i]);
      }
    }
  }

  /** No job is started more often than it has attempts left, whatever claims, recoveries and heartbeats
    * there are and however often workers write the job, as long as no write gives it an attempt back. */
  lemma {:induction false} AttemptsAreBounded(jobs: seq<Job>, ops: seq<Op>, i: nat)
    requires i < |jobs| && WithinBudget(jobs[i]) && Legal(Queue(), (s, op) => Spends(s, op, i), jobs, ops)
    ensures
      var after := Replay(Queue(), jobs, ops);
      i < |after| && WithinBudget(after[i]) && TimesStarted(jobs, ops, i) <= AttemptsLeft(jobs[i]) - AttemptsLeft(after[i])
    ensures TimesStarted(jobs, ops, i) <= AttemptsLeft(jobs[i])
  {
    if ops != [] {
      var front := ops[..|ops| - 1];
      var spends := (s, op) => Spends(s, op, i);
      assert Legal(Queue(), spends, jobs, ops);
      LegalPrefix(Queue(), spends, jobs, ops);
      assert Legal(Queue(), (s, op) => Spends(s, op, i), jobs, front);
      AttemptsAreBounded(jobs, front, i);
      SpendingStep(Replay(Queue(), jobs, front), Last(ops), i);
    }
  }

  /** A write to the job at i gives it no attempt more than it has on file. */
  ghost predicate RefundsNothing(jobs: seq<Job>, op: Op, i: nat) {
    i < |jobs| && Rewrites(jobs, op, i) ==> AttemptsLeft(op.job) <= AttemptsLeft(jobs[i])
  }

  /** The step takes an attempt for a start and gives none. */
  ghost predicate StepSpends(jobs: seq<Job>, op: Op, i: nat) {
    var after := Step(Queue(), jobs, op);
    i < |jobs| && i < |after|
    && AttemptsLeft(after[i]) + (if Started(jobs, op) == Some(i) then 1 else 0) <= AttemptsLeft(jobs[i])
  }

  lemma StepSpendsIff(jobs: seq<Job>, op: Op, i: nat)
    requires i < |jobs|
    ensures StepSpends(jobs, op, i) <==> RefundsNothing(jobs, op, i)
    ensures i < |Step(Queue(), jobs, op)|
  {
    if op.Save? { SaveCounts(jobs, op, i); } else { StartCounts(jobs, op, i); }
  }

  lemma {:induction false} PlaceStays(jobs: seq<Job>, ops: seq<Op>, i: nat)
    requires i < |jobs|
    ensures i < |Replay(Queue(), jobs, ops)|
  {
    if ops != [] {
      PlaceStays(jobs, ops[..|ops| - 1], i);
      StepSpendsIff(Replay(Queue(), jobs, ops[..|ops| - 1]), Last(ops), i);
    }
  }

  /** In a run every step takes an attempt for a start of the job and gives none exactly if no write to the
    * job gives it more attempts than it has on file at that time. */
  lemma AttemptsExactly(jobs: seq<Job>, ops: seq<Op>, i: nat)
    requires i < |jobs|
    ensures Legal(Queue(), (s, op) => StepSpends(s, op, i), jobs, ops)
            <==> Legal(Queue(), (s, op) => RefundsNothing(s, op, i), jobs, ops)
  {
    forall n | 0 <= n < |ops|
      ensures StepSpends(Replay(Queue(), jobs, ops[..n]), ops[n], i) <==> RefundsNothing(Replay(Queue(), jobs, ops[..n]), ops[n], i)
    {
      PlaceStays(jobs, ops[..n], i);
      StepSpendsIff(Replay(Queue(), jobs, ops[..n]), ops[n], i);
    }
  }

  lemma TimesStartedAppend(jobs: seq<Job>, ops: seq<Op>, op: Op, i: nat)
    ensures TimesStarted(jobs, ops + [op], i) ==
            TimesStarted(jobs, ops, i) + if Started(Replay(Queue(), jobs, ops), op) == Some(i) then 1 else 0
  {
    assert (ops + [op])[..|ops|] == ops;
  }

  /** `_set_profile_busy` of the publish worker: its job back in the queue, attempt spent. */
  function ProfileBusy(j: Job, now: int): Job {
    Unleased(j.(status := Queued, updatedAt := Written(now), lastStep := "profile_busy", errorCode := "profile_busy"))
  }

  /** That write is within budget exactly when the job has an attempt left. On its last attempt it is not,
    * and the next claim starts the job once more than its limit. */
  lemma BusyProfileOverspends(j: Job, now: int, claim: Op)
    requires WithinBudget(j) && j.status.Running?
    requires claim.Claim? && claim.scope == ""
    ensures WithinBudget(ProfileBusy(j, now)) <==> j.attemptCount < j.maxAttempts
    ensures
      var after := Step(Queue(), [ProfileBusy(j, now)], claim);
      && after[0].status.Running? && after[0].attemptCount == j.attemptCount + 1
      && (after[0].attemptCount > j.maxAttempts <==> j.attemptCount == j.maxAttempts)
  {
    OnlyJobStarts(ProfileBusy(j, now), claim);
  }

  /** A claim on a list of one queued job starts it. */
  lemma OnlyJobStarts(j: Job, claim: Op)
    requires j.status.Queued? && claim.Claim? && claim.scope == ""
    ensures
      var started := Start(j, claim.worker, claim.leaseSeconds, claim.now);
      && Started([j], claim) == Some(0) && Apply(claim, [j]) == Changed([started], Some(started))
  {
    var jobs := [j];
    assert Recovered(jobs, "", claim.now) == jobs;
    assert Eligible(jobs, "", claim.now, 0);
    assert jobs[0 := Start(j, claim.worker, claim.leaseSeconds, claim.now)] == [Start(j, claim.worker, claim.leaseSeconds, claim.now)];
  }

  /** And on a list of one whose lease is over: it is recovered, and started again if that queues it. */
  lemma OnlyJobRestarts(j: Job, claim: Op)
    requires claim.Claim? && claim.scope == "" && j.status.Running? && Expired(j.leaseExpiresAt, claim.now)
    requires !Evidence(j) && j.attemptCount < j.maxAttempts
    ensures
      var started := Start(Recover(j, claim.now), claim.worker, claim.leaseSeconds, claim.now);
      && Started([j], claim) == Some(0) && Apply(claim, [j]) == Changed([started], Some(started))
  {
    var r := [Recover(j, claim.now)];
    assert Recovered([j], "", claim.now) == r;
    assert Eligible(r, "", claim.now, 0);
    assert r[0 := Start(r[0], claim.worker, claim.leaseSeconds, claim.now)] == [Start(r[0], claim.worker, claim.leaseSeconds, claim.now)];
  }

  /** A worker whose lease ran out puts its old copy back in the queue, within budget but with the later
    * start undone: a job with two attempts is started three times. */
  lemma StaleCopyRefundsAnAttempt(a: Job, now: int)
    requires a.status.Queued? && a.attemptCount == 0 && a.maxAttempts == 2 && a.runMode == "dry_run"
    ensures
      var first, second, third := Claim("", "w1", 1, 0, []), Claim("", "w2", 1, 10 * SECOND, []), Claim("", "w1", 1, 20 * SECOND, []);
      var back := Save(ProfileBusy(Apply(first, [a]).result.value, now));
      && WithinBudget(a) && WithinBudget(back.job)
      && TimesStarted([a], [first, second, back, third], 0) == 3
      && !Spends(Replay(Queue(), [a], [first, second]), back, 0)
  {
    var first, second, third := Claim("", "w1", 1, 0, []), Claim("", "w2", 1, 10 * SECOND, []), Claim("", "w1", 1, 20 * SECOND, []);
    OnlyJobStarts(a, first);
    var copy := Start(a, "w1", 1, 0);
    OnlyJobRestarts(copy, second);
    var again := Start(Recover(copy, 10 * SECOND), "w2", 1, 10 * SECOND);
    var back := Save(ProfileBusy(copy, now));
    SingleSave(again, back.job);
    OnlyJobStarts(back.job, third);
    TimesStartedAppend([a], [], first, 0);
    ReplayAppend(Queue(), [a], [], first);
    assert [] + [first] == [first] && [first] + [second] == [first, second];
    TimesStartedAppend([a], [first], second, 0);
    ReplayAppend(Queue(), [a], [first], second);
    assert [first, second] + [back] == [first, second, back] && [first, second, back] + [third] == [first, second, back, third];
    TimesStartedAppend([a], [first, second], back, 0);
    ReplayAppend(Queue(), [a], [first, second], back);
    TimesStartedAppend([a], [first, second, back], third, 0);
  }

  lemma SingleSave(j: Job, job: Job)
    requires j.id == job.id
    ensures Apply(Save(job), [j]) == Changed([job], Some(job)) && Locate(Ids([j]), job.id) == Some(0)
  {
    assert Ids([j])[0] == job.id;
    assert [j][0 := job] == [job];
  }

  // ---------------------------------------------------------------- submitted jobs

  /** Not queued, and if running then live with submission evidence. */
  predicate Committed(j: Job) {
    !j.status.Queued? && (j.status.Running? ==> Evidence(j))
  }

  /** Losing the lease can only move such a job to manual verification, with both flags set. */
  lemma CommittedStep(jobs: seq<Job>, op: Op, i: nat)
    requires i < |jobs| && Committed(jobs[i])
    requires op.Save? && op.job.id == jobs[i].id ==> Committed(op.job)
    ensures
      var after := Step(Queue(), jobs, op);
      && i < |after| && Committed(after[i])
      && Started(jobs, op) != Some(i)
      && (op.Claim? ==>
            (after[i] == jobs[i]
             || (after[i].status.ManualVerification? && after[i].unknownResult && after[i].manualVerificationRequired)))
      && (op.Heartbeat? || op.FindActive? ==> after[i].status == jobs[i].status)
  {
    if op.Save? {
      LocateUpTo(jobs, op.job.id);
    }
  }

  lemma LocateUpTo(jobs: seq<Job>, id: string)
    ensures forall k :: 0 <= k < |jobs| && Locate(Ids(jobs), id) == Some(k) ==> jobs[k].id == id
  {
  }

  /** Once a running live job carries submission evidence, no run of claims, recoveries, heartbeats,
    * creations and writes that do not themselves requeue it ever queues it or starts it again. */
  lemma {:induction false} NeverRepublished(jobs: seq<Job>, ops: seq<Op>, i: nat)
    requires i < |jobs| && jobs[i].status.Running? && Evidence(jobs[i])
    requires forall k :: 0 <= k < |ops| && ops[k].Save? && ops[k].job.id == jobs[i].id ==> Committed(ops[k].job)
    ensures
      var after := Replay(Queue(), jobs, ops);
      i < |after| && Committed(after[i]) && after[i].id == jobs[i].id
    ensures TimesStarted(jobs, ops, i) == 0
  {
    if ops != [] {
      var front := ops[..|ops| - 1];
      NeverRepublished(jobs, front, i);
      var before := Replay(Queue(), jobs, front);
      CommittedStep(before, Last(ops), i);
      KeepsId(before, Last(ops), i);
    }
  }

  ghost predicate CommittedAt(jobs: seq<Job>, i: nat) {
    i < |jobs| && Committed(jobs[i])
  }

  ghost predicate WritesCommitted(jobs: seq<Job>, op: Op, i: nat) {
    Rewrites(jobs, op, i) ==> Committed(op.job)
  }

  /** A submitted job stays out of the queue throughout a run exactly if no write puts it back or takes the
    * evidence away while it runs. */
  lemma CommittedExactly(jobs: seq<Job>, ops: seq<Op>, i: nat)
    requires CommittedAt(jobs, i)
    ensures Throughout(Queue(), s => CommittedAt(s, i), jobs, ops)
            <==> Legal(Queue(), (s, op) => WritesCommitted(s, op, i), jobs, ops)
  {
    var good := s => CommittedAt(s, i);
    var fits := (s, op) => WritesCommitted(s, op, i);
    forall e, op | good(e)
      ensures good(Step(Queue(), e, op)) <==> fits(e, op)
    {
      if op.Save? { SaveCounts(e, op, i); } else { CommittedStep(e, op, i); }
    }
    KeptExactly(Queue(), AnyState, AnyStep, good, fits, jobs, ops);
    assert Throughout(Queue(), good, jobs, ops) <==> Throughout(Queue(), s => CommittedAt(s, i), jobs, ops);
    assert Legal(Queue(), fits, jobs, ops) <==> Legal(Queue(), (s, op) => WritesCommitted(s, op, i), jobs, ops);
  }

  lemma KeepsId(jobs: seq<Job>, op: Op, i: nat)
    requires i < |jobs|
    ensures i < |Step(Queue(), jobs, op)| && Step(Queue(), jobs, op)[i].id == jobs[i].id
  {
    if op.Save? {
      LocateUpTo(jobs, op.job.id);
    }
  }

  // ---------------------------------------------------------------- fencing

  /** A heartbeat changes nothing but the two lease fields of one running job that its worker holds (or
    * that names no holder). */
  lemma HeartbeatFrame(jobs: seq<Job>, op: Op, i: nat)
    requires op.Heartbeat? && i < |jobs|
    ensures
      var after := Step(Queue(), jobs, op);
      && |after| == |jobs|
      && (after[i] != jobs[i] ==>
            && Locate(Ids(jobs), op.id) == Some(i)
            && jobs[i].status.Running? && (jobs[i].claimedBy == "" || jobs[i].claimedBy == op.worker)
            && after[i] == jobs[i].(heartbeatAt := Written(op.beatAt),
                                    leaseExpiresAt := Lease(op.leaseAt, op.leaseSeconds)))
  {
  }

  /** If job i runs, somebody other than `worker` holds it. */
  predicate Fenced(j: Job, worker: string) {
    j.status.Running? ==> j.claimedBy != "" && j.claimedBy != worker
  }

  ghost predicate FencedAt(jobs: seq<Job>, i: nat, worker: string) {
    i < |jobs| && Fenced(jobs[i], worker)
  }

  /** The operation does not put the job at i into the worker's hands, or into nobody's: no claim starts it
    * for the worker, and no write of other code makes it out to be the worker's. */
  ghost predicate KeepsFence(jobs: seq<Job>, op: Op, i: nat, worker: string) {
    && (Started(jobs, op) == Some(i) ==> op.worker != "" && op.worker != worker)
    && (Rewrites(jobs, op, i) ==> Fenced(op.job, worker))
  }

  lemma FencedClaim(jobs: seq<Job>, op: Op, i: nat, worker: string)
    requires FencedAt(jobs, i, worker) && op.Claim?
    ensures FencedAt(Step(Queue(), jobs, op), i, worker) <==> KeepsFence(jobs, op, i, worker)
  {
    var r := Recovered(jobs, op.scope, op.now);
    assert r[i].status.Running? ==> r[i] == jobs[i];
  }

  lemma FencedStep(jobs: seq<Job>, op: Op, i: nat, worker: string)
    requires FencedAt(jobs, i, worker)
    ensures FencedAt(Step(Queue(), jobs, op), i, worker) <==> KeepsFence(jobs, op, i, worker)
  {
    match op
    case Claim(_, _, _, _, _) => FencedClaim(jobs, op, i, worker);
    case Heartbeat(_, _, _, _, _) =>
    case FindActive(_) =>
    case Save(_) => SaveCounts(jobs, op, i);
  }

  /** What an accepted heartbeat renews: the lease, by the length that was asked for, and the heartbeat stamp. */
  lemma BeatRenews(jobs: seq<Job>, beat: Op)
    requires beat.Heartbeat? && Apply(beat, jobs).Changed?
    ensures
      var after := Step(Queue(), jobs, beat);
      && |after| == |jobs|
      && exists i :: 0 <= i < |jobs| && jobs[i].id == beat.id && jobs[i].status.Running?
           && (jobs[i].claimedBy == "" || jobs[i].claimedBy == beat.worker)
           && LeaseOf(after[i].leaseExpiresAt, beat.leaseAt, beat.leaseSeconds) && At(after[i].heartbeatAt, beat.beatAt)
           && after[i] == jobs[i].(leaseExpiresAt := after[i].leaseExpiresAt, heartbeatAt := after[i].heartbeatAt)
           && Apply(beat, jobs).result == Some(after[i])
           && forall k :: 0 <= k < |jobs| && k != i ==> after[k] == jobs[k]
  {
    var i := Locate(Ids(jobs), beat.id).value;
    assert Ids(jobs)[i] == beat.id;
    WrittenSecond(beat.beatAt);
    LeaseIsOf(beat.leaseAt, beat.leaseSeconds);
  }

  /** A heartbeat of the worker goes through exactly if the job is not fenced against it. */
  lemma HeartbeatAcceptedIff(jobs: seq<Job>, beat: Op, i: nat)
    requires beat.Heartbeat? && Locate(Ids(jobs), beat.id) == Some(i)
    ensures
      var out := Apply(beat, jobs);
      && (out.Changed? <==> !Fenced(jobs[i], beat.worker))
      && (out.Changed? <==> jobs[i].status == Running && (jobs[i].claimedBy == "" || jobs[i].claimedBy == beat.worker))
      && (!out.Changed? ==>
            out == Unchanged(if jobs[i].claimedBy == "" || jobs[i].claimedBy == beat.worker then Some(jobs[i]) else None))
  {
  }

  /** A job in another worker's hands stays out of this worker's throughout a run exactly if no claim in it
    * starts the job for this worker (or for a nameless one) and no write hands it over. This worker may
    * claim other jobs, the lease may expire and be reclaimed, and the holder may write the job. */
  lemma FencedExactly(jobs: seq<Job>, ops: seq<Op>, i: nat, worker: string)
    requires FencedAt(jobs, i, worker)
    ensures Throughout(Queue(), s => FencedAt(s, i, worker), jobs, ops)
            <==> Legal(Queue(), (s, op) => KeepsFence(s, op, i, worker), jobs, ops)
  {
    var good := s => FencedAt(s, i, worker);
    var fits := (s, op) => KeepsFence(s, op, i, worker);
    forall e, op | good(e)
      ensures good(Step(Queue(), e, op)) <==> fits(e, op)
    {
      FencedStep(e, op, i, worker);
    }
    KeptExactly(Queue(), AnyState, AnyStep, good, fits, jobs, ops);
    assert Throughout(Queue(), good, jobs, ops) <==> Throughout(Queue(), s => FencedAt(s, i, worker), jobs, ops);
    assert Legal(Queue(), fits, jobs, ops) <==> Legal(Queue(), (s, op) => KeepsFence(s, op, i, worker), jobs, ops);
  }

  /** So a worker whose job was recovered and reclaimed by another can never renew it: in such a run none of
    * its heartbeats is accepted. */
  lemma LostLeaseStaysLost(jobs: seq<Job>, ops: seq<Op>, i: nat, worker: string, beat: Op)
    requires FencedAt(jobs, i, worker)
    requires Legal(Queue(), (s, op) => KeepsFence(s, op, i, worker), jobs, ops)
    requires beat.Heartbeat? && beat.worker == worker
    requires Locate(Ids(Replay(Queue(), jobs, ops)), beat.id) == Some(i)
    ensures
      var after := Replay(Queue(), jobs, ops);
      && FencedAt(after, i, worker) && !Apply(beat, after).Changed? && Step(Queue(), after, beat) == after
  {
    FencedExactly(jobs, ops, i, worker);
    var good := s => FencedAt(s, i, worker);
    assert Throughout(Queue(), good, jobs, ops);
    assert ops[..|ops|] == ops && good(Replay(Queue(), jobs, ops[..|ops|]));
    HeartbeatAcceptedIff(Replay(Queue(), jobs, ops), beat, i);
  }

  lemma SavedOverReclaimed(again: Job, copy: Job, beat: Op)
    requires again.id == copy.id && again.channelId == copy.channelId && again.status.Running? && copy.status.Running?
    requires beat.Heartbeat? && beat.id == copy.id && copy.claimedBy == beat.worker
    requires again.claimedBy != "" && again.claimedBy != beat.worker
    ensures
      var back := Save(copy);
      && FencedAt([again], 0, beat.worker) && Permitted([again], back) && !KeepsFence([again], back, 0, beat.worker)
      && !Apply(beat, [again]).Changed? && Apply(beat, Step(Queue(), [again], back)).Changed?
  {
    SingleSave(again, copy);
    SingleSave(copy, again);
    HeartbeatAcceptedIff([again], beat, 0);
    HeartbeatAcceptedIff([copy], beat, 0);
  }

  /** A write that hands it over: the first worker's old copy, still running in its own name, over the job
    * that the second has reclaimed. Exclusion is not touched, and the first worker's heartbeats, refused
    * before, are accepted again. */
  lemma StaleCopyRevivesTheLease(a: Job, t: int)
    requires a.status.Queued? && a.attemptCount < a.maxAttempts - 1 && a.runMode == "dry_run"
    ensures
      var first, second := Claim("", "w1", 1, 0, []), Claim("", "w2", 1, 10 * SECOND, []);
      var reclaimed := Replay(Queue(), [a], [first, second]);
      var back := Save(Apply(first, [a]).result.value);
      var beat := Heartbeat(a.id, "w1", 1, t, t);
      && FencedAt(reclaimed, 0, "w1") && Permitted(reclaimed, back) && !KeepsFence(reclaimed, back, 0, "w1")
      && !Apply(beat, reclaimed).Changed? && Apply(beat, Step(Queue(), reclaimed, back)).Changed?
  {
    var first, second := Claim("", "w1", 1, 0, []), Claim("", "w2", 1, 10 * SECOND, []);
    OnlyJobStarts(a, first);
    var copy := Start(a, "w1", 1, 0);
    OnlyJobRestarts(copy, second);
    var again := Start(Recover(copy, 10 * SECOND), "w2", 1, 10 * SECOND);
    ReplayThree(Queue(), [a], first, second, Save(copy));
    SavedOverReclaimed(again, copy, Heartbeat(a.id, "w1", 1, t, t));
  }

  // ---------------------------------------------------------------- the clock in the sort key

  /** With readable time stamps the order, and so the claim, does not depend on when each sort key
    * happened to look at the clock. */
  lemma ClaimIgnoresKeyClocks(jobs: seq<Job>, op: Op, others: seq<int>)
    requires op.Claim?
    requires forall i :: 0 <= i < |jobs| ==> jobs[i].requestedAt.Moment? || jobs[i].createdAt.Moment?
    ensures Apply(op, jobs) == Apply(op.(clocks := others), jobs)
  {
    var r := Recovered(jobs, op.scope, op.now);
    assert Keys(r, op.clocks, op.now) == Keys(r, others, op.now);
  }

  // ---------------------------------------------------------------- the mutators, step by step

  /** The records of publish_jobs.json while one `_mutate_records` call holds the lock. */
  class PublishJobs {
    var jobs: seq<Job>

    constructor (jobs: seq<Job>)
      ensures this.jobs == jobs
    {
      this.jobs := jobs;
    }

    method RecoverExpired(scope: string, now: int) returns (changed: bool)
      modifies this
      ensures jobs == Recovered(old(jobs), scope, now)
      ensures changed == AnyStale(old(jobs), scope, now)
    {
      changed := false;
      for index := 0 to |jobs|
        invariant |jobs| == |old(jobs)|
        invariant jobs[..index] == Recovered(old(jobs), scope, now)[..index]
        invariant jobs[index..] == old(jobs)[index..]
        invariant changed <==> exists i :: 0 <= i < index && Stale(old(jobs)[i], scope, now)
      {
        var job := jobs[index];
        assert job == old(jobs)[index];
        if (scope == "" || job.channelId == scope) && job.status.Running? && Expired(job.leaseExpiresAt, now) {
          jobs := jobs[index := Recover(job, now)];
          changed := true;
        }
      }
    }

    method BusyChannels(now: int) returns (busy: set<string>)
      ensures forall c :: c in busy <==> Busy(jobs, c, now)
    {
      busy := {};
      for index := 0 to |jobs|
        invariant forall c :: c in busy <==> exists k :: 0 <= k < index && jobs[k].channelId == c && Live(jobs[k], now)
      {
        if jobs[index].status.Running? && !Expired(jobs[index].leaseExpiresAt, now) {
          busy := busy + {jobs[index].channelId};
        }
      }
    }

    method Candidates(scope: string) returns (r: seq<nat>)
      ensures forall i: nat :: i in r <==> i < |jobs| && Candidate(jobs, scope, i)
    {
      r := [];
      for index := 0 to |jobs|
        invariant forall i: nat :: i in r <==> i < index && Candidate(jobs, scope, i)
      {
        if jobs[index].status.Queued? && (scope == "" || jobs[index].channelId == scope) {
          r := r + [index];
        }
      }
    }

    /** The first job in sort order whose channel is free. */
    method FirstFree(scope: string, now: int, clocks: seq<int>) returns (r: Option<nat>)
      ensures r == Choose(jobs, scope, now, clocks)
    {
      var busy := BusyChannels(now);
      var candidates := Candidates(scope);
      var js := jobs;
      var blocked := seq(|js|, i requires 0 <= i < |js| => js[i].channelId in busy);
      r := FirstAllowed(Keys(js, clocks, now), candidates, blocked);
      assert seq(|blocked|, i requires 0 <= i < |blocked| => i in candidates && !blocked[i])
          == Eligibles(js, scope, now);
    }

    /** The mutator of `claim_next_publish_job`. */
    method ClaimNextJob(scope: string, worker: string, leaseSeconds: int, now: int, clocks: seq<int>)
      returns (changed: bool, claimed: Option<Job>)
      modifies this
      ensures
        var out := Apply(Claim(scope, worker, leaseSeconds, now, clocks), old(jobs));
        && jobs == Commit(old(jobs), out) && changed == out.Changed? && claimed == out.result
    {
      changed := RecoverExpired(scope, now);
      var best := FirstFree(scope, now, clocks);
      if best.None? {
        assert !changed ==> jobs == old(jobs);
        return changed, None;
      }
      var candidate := jobs[best.value];
      var t := Written(now);
      candidate := candidate.(status := Running, startedAt := t, updatedAt := t);
      candidate := candidate.(attemptCount := candidate.attemptCount + 1, lastStep := Or(candidate.lastStep, "claimed"));
      candidate := candidate.(claimedBy := worker, claimedAt := t, heartbeatAt := t);
      candidate := candidate.(leaseExpiresAt := Lease(now, leaseSeconds), errorCode := "");
      jobs := jobs[best.value := candidate];
      return true, Some(candidate);
    }

    /** The mutator of `heartbeat_publish_job`. */
    method HeartbeatJob(id: string, worker: string, leaseSeconds: int, beatAt: int, leaseAt: int)
      returns (changed: bool, job: Option<Job>)
      modifies this
      ensures
        var out := Apply(Heartbeat(id, worker, leaseSeconds, beatAt, leaseAt), old(jobs));
        && jobs == Commit(old(jobs), out) && changed == out.Changed? && job == out.result
    {
      for index := 0 to |jobs|
        invariant jobs == old(jobs)
        invariant id !in Ids(jobs)[..index]
      {
        var record := jobs[index];
        if record.id == id {
          assert Ids(jobs)[index] == id && Locate(Ids(jobs), id) == Some(index);
          if record.claimedBy != "" && record.claimedBy != worker {
            return false, None;
          }
          if !record.status.Running? {
            return false, Some(record);
          }
          record := record.(heartbeatAt := Written(beatAt));
          record := record.(leaseExpiresAt := Lease(leaseAt, leaseSeconds));
          jobs := jobs[index := record];
          return true, Some(record);
        }
      }
      assert Ids(jobs)[..|jobs|] == Ids(jobs);
      return false, None;
    }

    /** The mutator of `save_publish_job`. */
    method SaveJob(job: Job)
      modifies this
      ensures jobs == Step(Queue(), old(jobs), Save(job))
    {
      jobs := UpsertInPlace(jobs, Ids(jobs), job.id, job);
    }
  }
}
