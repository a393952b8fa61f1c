/** The connect handshake of channel_store.py: a dashboard begins a connect action, one worker claims
  * it, and the worker's last write clears it. */
module ConnectHandshake {
  import opened Prelude
  import opened Instants
  import opened Mutators
  import opened Records

  datatype Connection = Connection(
    id: string, channelId: string, mode: string, status: string,
    lastCheckedAt: Stamp, lastError: string, profilePath: string, createdAt: Stamp, updatedAt: Stamp,
    activeJobId: string, activeJobType: string, activeWorkerId: string, activeClaimedAt: Stamp)

  datatype Op =
    | Begin(channel: string, mode: string, profilePath: string, now: int, actionId: string)
    | Claim(channel: string, actionId: string, worker: string, now: int)
    | Report(channel: string, mode: string, profilePath: string, status: string, error: string, now: int)
        // what publish, metrics and session workers write: a status, the action left as it is
    | Finish(channel: string, mode: string, profilePath: string, status: string, error: string, now: int)
        // the connect worker's last write

  datatype Reply = Begun(connection: Connection, isNew: bool) | Claimed(connection: Connection) | Refused | Reported

  function Channels(conns: seq<Connection>): seq<string> {
    seq(|conns|, i requires 0 <= i < |conns| => conns[i].channelId)
  }

  function Ids(conns: seq<Connection>): seq<string> {
    seq(|conns|, i requires 0 <= i < |conns| => conns[i].id)
  }

  function IdOf(channel: string): string {
    "connection_" + channel
  }

  function Fresh(channel: string, mode: string, path: string, now: int): Connection {
    var t := Written(now);
    Connection(IdOf(channel), channel, mode, "not_configured", Blank, "", path, t, t, "", "", "", Blank)
  }

  predicate Pending(c: Connection) {
    c.status == "connecting" && c.activeJobType == "connect" && c.activeJobId != ""
  }

  /** The record the operation works on: the channel's own, or a new one. */
  function Current(op: Op, conns: seq<Connection>): Connection {
    var at := Locate(Channels(conns), op.channel);
    if at.Some? then conns[at.value]
    else if op.Claim? then Fresh(op.channel, "", "", op.now)
    else Fresh(op.channel, op.mode, op.profilePath, op.now)
  }

  function BeginOn(c: Connection, op: Op): Connection
    requires op.Begin?
  {
    var t := Written(op.now);
    if Pending(c) then c.(updatedAt := t)
    else
      c.(mode := op.mode, status := "connecting", lastCheckedAt := t, updatedAt := t, lastError := "",
         profilePath := if op.profilePath != "" then op.profilePath else c.profilePath,
         activeJobId := op.actionId, activeJobType := "connect", activeWorkerId := "", activeClaimedAt := Blank)
  }

  predicate MayClaim(c: Connection, op: Op)
    requires op.Claim?
  {
    && c.status == "connecting"
    && c.activeJobType == "connect" && c.activeJobId == op.actionId
    && (c.activeWorkerId == "" || c.activeWorkerId == op.worker)
  }

  /** The record the operation writes, if it writes one. */
  function Revised(op: Op, conns: seq<Connection>): Option<Connection> {
    var c := Current(op, conns);
    var t := Written(op.now);
    match op
    case Begin(_, _, _, _, _) => Some(BeginOn(c, op))
    case Claim(channel, _, worker, _) =>
      if channel in Channels(conns) && MayClaim(c, op) then
        Some(c.(activeWorkerId := worker, activeClaimedAt := t, updatedAt := t))
      else None
    case Report(_, mode, _, status, error, _) =>
      Some(c.(mode := mode, status := status, lastError := error, lastCheckedAt := t, updatedAt := t))
    case Finish(_, mode, profilePath, status, error, _) =>
      Some(c.(mode := mode, profilePath := profilePath, status := status, lastError := error,
              lastCheckedAt := t, updatedAt := t,
              activeJobId := "", activeJobType := "", activeWorkerId := "", activeClaimedAt := Blank))
  }

  function Apply(op: Op, conns: seq<Connection>): Outcome<seq<Connection>, Reply> {
    var c := Revised(op, conns);
    if c.None? then Unchanged(Refused)
    else
      Changed(
        Upsert(conns, Ids(conns), c.value.id, c.value),
        if op.Begin? then Begun(c.value, !Pending(Current(op, conns)))
        else if op.Claim? then Claimed(c.value)
        else Reported)
  }

  function Connections(): Store<Op, seq<Connection>, Reply> {
    Store((op, conns) => Apply(op, conns), [])
  }

  // ---------------------------------------------------------------- well-formed lists

  /** One record per channel, named after it. */
  ghost predicate WellFormed(conns: seq<Connection>) {
    && Distinct(Channels(conns))
    && forall i :: 0 <= i < |conns| ==> conns[i].id == IdOf(conns[i].channelId)
  }

  lemma SameIdSameChannel(a: string, b: string)
    requires IdOf(a) == IdOf(b)
    ensures a == b
  {
    var p := "connection_";
    assert a == (p + a)[|p|..] && b == (p + b)[|p|..];
  }

  /** On a well-formed list a connection is stored at its channel's place, or appended. */
  lemma UpsertShape(conns: seq<Connection>, c: Connection)
    requires WellFormed(conns) && c.id == IdOf(c.channelId)
    ensures
      var at := Locate(Channels(conns), c.channelId);
      var after := Upsert(conns, Ids(conns), c.id, c);
      && after == (if at.Some? then conns[at.value := c] else conns + [c])
      && WellFormed(after)
  {
    var at := Locate(Channels(conns), c.channelId);
    var byId := Locate(Ids(conns), c.id);
    assert at.Some? ==> Ids(conns)[at.value] == c.id;
    if byId.Some? {
      SameIdSameChannel(conns[byId.value].channelId, c.channelId);
      assert Channels(conns)[byId.value] == c.channelId;
      LocateDistinct(Channels(conns), byId.value);
      assert Channels(conns[at.value := c]) == Channels(conns);
    } else {
      assert Channels(conns + [c]) == Channels(conns) + [c.channelId];
    }
  }

  /** An operation touches the record of its own channel only. */
  lemma StepShape(conns: seq<Connection>, op: Op)
    requires WellFormed(conns)
    ensures
      var at := Locate(Channels(conns), op.channel);
      var c := Revised(op, conns);
      var after := Step(Connections(), conns, op);
      && WellFormed(after)
      && after == (if c.None? then conns else if at.Some? then conns[at.value := c.value] else conns + [c.value])
      && (forall i :: 0 <= i < |conns| && conns[i].channelId == op.channel ==> at == Some(i))
  {
    var at := Locate(Channels(conns), op.channel);
    forall i | 0 <= i < |conns| && conns[i].channelId == op.channel
      ensures at == Some(i)
    {
      assert Channels(conns)[i] == op.channel;
      LocateDistinct(Channels(conns), i);
    }
    assert Current(op, conns).id == IdOf(op.channel) && Current(op, conns).channelId == op.channel;
    var c := Revised(op, conns);
    if c.Some? {
      UpsertShape(conns, c.value);
    }
  }

  // ---------------------------------------------------------------- what each operation leaves

  /** The record of the channel, if there is one. */
  function Of(conns: seq<Connection>, channel: string): Option<Connection> {
    var at := Locate(Channels(conns), channel);
    if at.Some? then Some(conns[at.value]) else None
  }

  lemma WrittenIsStored(conns: seq<Connection>, op: Op)
    requires WellFormed(conns) && Revised(op, conns).Some?
    ensures Of(Step(Connections(), conns, op), op.channel) == Revised(op, conns)
  {
    StepShape(conns, op);
    var c := Revised(op, conns).value;
    var at := Locate(Channels(conns), op.channel);
    var after := Step(Connections(), conns, op);
    var i := if at.Some? then at.value else |conns|;
    assert Channels(after)[i] == op.channel;
    LocateDistinct(Channels(after), i);
  }

  /** A begin answers that its action is new exactly if no connect is pending, and then puts it on file, open
    * and with no worker; a pending one it leaves as it is but for the time. The mode is the begin's in a new
    * action, the profile path too if it names one. */
  lemma BeginLeaves(conns: seq<Connection>, op: Op)
    requires WellFormed(conns) && op.Begin?
    ensures
      var was := Of(conns, op.channel);
      var now := Of(Step(Connections(), conns, op), op.channel);
      var pending := was.Some? && was.value.status == "connecting" && was.value.activeJobType == "connect"
        && was.value.activeJobId != "";
      now.Some? && Apply(op, conns).result == Begun(now.value, !pending)
      && var c := now.value;
      && At(c.updatedAt, op.now) && c.channelId == op.channel
      && (pending ==> c == was.value.(updatedAt := c.updatedAt))
      && (!pending ==>
            c.status == "connecting" && c.activeJobType == "connect" && c.activeJobId == op.actionId
            && c.activeWorkerId == "" && c.activeClaimedAt == Blank
            && c.mode == op.mode && c.lastError == "" && At(c.lastCheckedAt, op.now)
            && c.profilePath == (if op.profilePath == "" && was.Some? then was.value.profilePath else op.profilePath)
            && c.id == (if was.Some? then was.value.id else "connection_" + op.channel)
            && (if was.Some? then c.createdAt == was.value.createdAt else At(c.createdAt, op.now)))
  {
    WrittenIsStored(conns, op);
    WrittenSecond(op.now);
  }

  /** A claim goes through exactly if the channel's pending connect is that action and nobody else's, and then
    * changes who holds it and two times. */
  lemma ClaimLeaves(conns: seq<Connection>, op: Op)
    requires WellFormed(conns) && op.Claim?
    ensures
      var was := Of(conns, op.channel);
      var now := Of(Step(Connections(), conns, op), op.channel);
      var granted := was.Some? && was.value.status == "connecting" && was.value.activeJobType == "connect"
        && was.value.activeJobId == op.actionId && (was.value.activeWorkerId == "" || was.value.activeWorkerId == op.worker);
      && (Apply(op, conns).Changed? <==> granted)
      && (granted ==>
            now.Some? && Apply(op, conns).result == Claimed(now.value)
            && now.value.activeWorkerId == op.worker && At(now.value.activeClaimedAt, op.now) && At(now.value.updatedAt, op.now)
            && now.value == was.value.(activeWorkerId := now.value.activeWorkerId, activeClaimedAt := now.value.activeClaimedAt,
                                       updatedAt := now.value.updatedAt))
  {
    if Revised(op, conns).Some? {
      WrittenIsStored(conns, op);
    }
    WrittenSecond(op.now);
  }

  /** A report leaves the action and its worker as they are, the connect worker's last write clears them; both
    * store the status, the error and the mode they bring, in a new record if the channel has none. */
  lemma StatusLeaves(conns: seq<Connection>, op: Op)
    requires WellFormed(conns) && (op.Report? || op.Finish?)
    ensures
      var was := Of(conns, op.channel);
      var now := Of(Step(Connections(), conns, op), op.channel);
      now.Some?
      && var c := now.value;
      && c.status == op.status && c.lastError == op.error && c.mode == op.mode && c.channelId == op.channel
      && At(c.lastCheckedAt, op.now) && At(c.updatedAt, op.now)
      && c.id == (if was.Some? then was.value.id else "connection_" + op.channel)
      && (if was.Some? then c.createdAt == was.value.createdAt else At(c.createdAt, op.now))
      && c.profilePath == (if op.Report? && was.Some? then was.value.profilePath else op.profilePath)
      && (op.Report? && was.Some? ==>
            c.activeJobId == was.value.activeJobId && c.activeJobType == was.value.activeJobType
            && c.activeWorkerId == was.value.activeWorkerId && c.activeClaimedAt == was.value.activeClaimedAt)
      && (op.Finish? || was.None? ==>
            c.activeJobId == c.activeJobType == c.activeWorkerId == "" && c.activeClaimedAt == Blank)
  {
    WrittenIsStored(conns, op);
    WrittenSecond(op.now);
  }

  // ---------------------------------------------------------------- one worker per action

  /** Begin operations of a run use action ids that are new and not empty, and workers have names. */
  ghost predicate FreshRun(ops: seq<Op>) {
    && (forall k :: 0 <= k < |ops| && ops[k].Begin? ==> ops[k].actionId != "")
    && (forall j, k :: 0 <= j < k < |ops| && ops[j].Begin? && ops[k].Begin? ==> ops[j].actionId != ops[k].actionId)
    && (forall k :: 0 <= k < |ops| && ops[k].Claim? ==> ops[k].worker != "")
  }

  predicate Begins(ops: seq<Op>, action: string) {
    exists k :: 0 <= k < |ops| && ops[k].Begin? && ops[k].actionId == action
  }

  /** Every open action was begun, no two channels share one, and connect actions have ids. */
  ghost predicate Traced(conns: seq<Connection>, ops: seq<Op>) {
    && WellFormed(conns)
    && (forall i :: 0 <= i < |conns| && conns[i].activeJobId != "" ==> Begins(ops, conns[i].activeJobId))
    && (forall i, j :: 0 <= i < j < |conns| && conns[i].activeJobId != "" ==> conns[i].activeJobId != conns[j].activeJobId)
    && (forall i :: 0 <= i < |conns| && conns[i].activeJobType == "connect" ==> conns[i].activeJobId != "")
  }

  lemma BegunStays(ops: seq<Op>, op: Op)
    requires FreshRun(ops + [op])
    ensures forall a :: Begins(ops, a) ==> Begins(ops + [op], a) && (op.Begin? ==> a != op.actionId)
    ensures op.Begin? ==> Begins(ops + [op], op.actionId)
  {
    var ops' := ops + [op];
    assert ops'[|ops|] == op;
    forall a | Begins(ops, a)
      ensures Begins(ops', a) && (op.Begin? ==> a != op.actionId)
    {
      var k :| 0 <= k < |ops| && ops[k].Begin? && ops[k].actionId == a;
      assert ops'[k] == ops[k];
    }
  }

  lemma TracedPut(conns: seq<Connection>, ops: seq<Op>, at: Option<nat>, c: Connection, after: seq<Connection>)
    requires Traced(conns, ops) && WellFormed(after) && (at.Some? ==> at.value < |conns|)
    requires after == if at.Some? then conns[at.value := c] else conns + [c]
    requires || c.activeJobId == ""
             || (at.Some? && c.activeJobId == conns[at.value].activeJobId)
             || (Begins(ops, c.activeJobId) && forall i :: 0 <= i < |conns| ==> conns[i].activeJobId != c.activeJobId)
    requires c.activeJobType == "connect" ==> c.activeJobId != ""
    ensures Traced(after, ops)
  {
  }

  lemma TracedStep(conns: seq<Connection>, ops: seq<Op>, op: Op)
    requires Traced(conns, ops) && FreshRun(ops + [op])
    ensures Traced(Step(Connections(), conns, op), ops + [op])
  {
    StepShape(conns, op);
    BegunStays(ops, op);
    assert Traced(conns, ops + [op]);
    assert (ops + [op])[|ops|] == op;
    var c := Revised(op, conns);
    if c.Some? {
      TracedPut(conns, ops + [op], Locate(Channels(conns), op.channel), c.value, Step(Connections(), conns, op));
    }
  }

  lemma {:induction false} TracedRun(ops: seq<Op>)
    requires FreshRun(ops)
    ensures Traced(Replay(Connections(), [], ops), ops)
  {
    if ops != [] {
      var front := ops[..|ops| - 1];
      assert ops == front + [Last(ops)];
      TracedRun(front);
      TracedStep(Replay(Connections(), [], front), front, Last(ops));
    }
  }

  /** Wherever this action is still open, it is in this worker's hands. */
  ghost predicate HeldBy(conns: seq<Connection>, action: string, worker: string) {
    forall i :: 0 <= i < |conns| && conns[i].activeJobId == action ==> conns[i].activeWorkerId == worker
  }

  lemma HeldStep(conns: seq<Connection>, op: Op, action: string, worker: string)
    requires WellFormed(conns) && HeldBy(conns, action, worker) && action != "" && worker != ""
    requires op.Begin? ==> op.actionId != action
    ensures HeldBy(Step(Connections(), conns, op), action, worker)
    ensures Apply(op, conns).result.Claimed? && op.actionId == action ==> op.worker == worker
  {
    StepShape(conns, op);
  }

  ghost predicate Wins(ops: seq<Op>, k: nat) {
    k < |ops| && ops[k].Claim? && Apply(ops[k], Replay(Connections(), [], ops[..k])).result.Claimed?
  }

  lemma WinHolds(conns: seq<Connection>, ops: seq<Op>, op: Op)
    requires Traced(conns, ops) && op.Claim? && Apply(op, conns).result.Claimed?
    ensures WellFormed(Step(Connections(), conns, op))
    ensures HeldBy(Step(Connections(), conns, op), op.actionId, op.worker)
    ensures op.actionId != "" && Begins(ops, op.actionId)
  {
    StepShape(conns, op);
  }

  /** From a successful claim on, the action stays in the winner's hands. */
  lemma {:induction false} HeldRun(conns: seq<Connection>, ops: seq<Op>, action: string, worker: string)
    requires WellFormed(conns) && HeldBy(conns, action, worker) && action != "" && worker != ""
    requires forall k :: 0 <= k < |ops| && ops[k].Begin? ==> ops[k].actionId != action
    ensures WellFormed(Replay(Connections(), conns, ops)) && HeldBy(Replay(Connections(), conns, ops), action, worker)
  {
    if ops != [] {
      var front := ops[..|ops| - 1];
      HeldRun(conns, front, action, worker);
      StepShape(Replay(Connections(), conns, front), Last(ops));
      HeldStep(Replay(Connections(), conns, front), Last(ops), action, worker);
    }
  }

  /** Right after a successful claim. */
  lemma WinStart(ops: seq<Op>, j: nat)
    requires FreshRun(ops) && Wins(ops, j)
    ensures
      var won := Replay(Connections(), [], ops[..j + 1]);
      && WellFormed(won) && HeldBy(won, ops[j].actionId, ops[j].worker) && ops[j].actionId != ""
    ensures Begins(ops[..j], ops[j].actionId)
  {
    var before := Replay(Connections(), [], ops[..j]);
    TracedRun(ops[..j]);
    WinHolds(before, ops[..j], ops[j]);
    assert ops[..j + 1] == ops[..j] + [ops[j]];
    ReplayAppend(Connections(), [], ops[..j], ops[j]);
  }

  lemma NotBegunAgain(ops: seq<Op>, j: nat, k: nat, mid: seq<Op>, action: string)
    requires FreshRun(ops) && j < k <= |ops| && Begins(ops[..j], action) && mid == ops[j + 1..k]
    ensures forall m :: 0 <= m < |mid| && mid[m].Begin? ==> mid[m].actionId != action
  {
    var b :| 0 <= b < j && ops[..j][b].Begin? && ops[..j][b].actionId == action;
    assert ops[b] == ops[..j][b];
    forall m | 0 <= m < |mid|
      ensures mid[m].Begin? ==> mid[m].actionId != action
    {
      assert mid[m] == ops[j + 1 + m];
    }
  }

  lemma WinLasts(ops: seq<Op>, j: nat, k: nat)
    requires FreshRun(ops) && Wins(ops, j) && j < k < |ops|
    ensures
      var later := Replay(Connections(), [], ops[..k]);
      && WellFormed(later) && HeldBy(later, ops[j].actionId, ops[j].worker) && ops[j].actionId != ""
  {
    WinStart(ops, j);
    NotBegunAgain(ops, j, k, ops[j + 1..k], ops[j].actionId);
    HeldRun(Replay(Connections(), [], ops[..j + 1]), ops[j + 1..k], ops[j].actionId, ops[j].worker);
    assert ops[..k] == ops[..j + 1] + ops[j + 1..k];
    ReplayConcat(Connections(), [], ops[..j + 1], ops[j + 1..k]);
  }

  /** In every run of begins, claims and finishes all successful claims of one action are by the same
    * worker. */
  lemma OneWinner(ops: seq<Op>, j: nat, k: nat)
    requires FreshRun(ops) && Wins(ops, j) && Wins(ops, k) && ops[j].actionId == ops[k].actionId
    ensures ops[j].worker == ops[k].worker
  {
    if j < k {
      WinLasts(ops, j, k);
      HeldStep(Replay(Connections(), [], ops[..k]), ops[k], ops[j].actionId, ops[j].worker);
    } else if k < j {
      OneWinner(ops, k, j);
    }
  }

  // ---------------------------------------------------------------- superseding

  /** The channel's record is at i and its connect action is pending. */
  ghost predicate PendingAt(conns: seq<Connection>, i: nat, channel: string, action: string) {
    i < |conns| && conns[i].channelId == channel && conns[i].activeJobId == action && Pending(conns[i])
  }

  /** The operation is not the last write of the channel's connect worker, nor the report of another status
    * for the channel. */
  ghost predicate KeepsPending(conns: seq<Connection>, op: Op, channel: string) {
    op.channel == channel ==> !op.Finish? && (op.Report? ==> op.status == "connecting")
  }

  lemma PendingStep(conns: seq<Connection>, op: Op, i: nat, channel: string, action: string)
    requires WellFormed(conns) && PendingAt(conns, i, channel, action)
    ensures
      var after := Step(Connections(), conns, op);
      && WellFormed(after) && (PendingAt(after, i, channel, action) <==> KeepsPending(conns, op, channel))
      && (KeepsPending(conns, op, channel) && conns[i].activeWorkerId != "" ==>
            after[i].activeWorkerId == conns[i].activeWorkerId)
  {
    StepShape(conns, op);
  }

  lemma StaysWellFormed(conns: seq<Connection>, op: Op)
    requires WellFormed(conns)
    ensures WellFormed(Step(Connections(), conns, op))
  {
    StepShape(conns, op);
  }

  /** A pending action stays the pending one throughout a run exactly if its channel is neither finished nor
    * reported in another status: begins and claims, however many, do not end it. */
  lemma PendingExactly(conns: seq<Connection>, ops: seq<Op>, i: nat, channel: string, action: string)
    requires WellFormed(conns) && PendingAt(conns, i, channel, action)
    ensures Throughout(Connections(), s => PendingAt(s, i, channel, action), conns, ops)
            <==> Legal(Connections(), (s, op) => KeepsPending(s, op, channel), conns, ops)
  {
    var good := s => PendingAt(s, i, channel, action);
    var fits := (s, op) => KeepsPending(s, op, channel);
    forall e, op | WellFormed(e)
      ensures WellFormed(Step(Connections(), e, op))
      ensures good(e) ==> (good(Step(Connections(), e, op)) <==> fits(e, op))
    {
      StaysWellFormed(e, op);
      if good(e) {
        PendingStep(e, op, i, channel, action);
      }
    }
    KeptExactly(Connections(), WellFormed, AnyStep, good, fits, conns, ops);
    assert Throughout(Connections(), good, conns, ops)
      <==> Throughout(Connections(), s => PendingAt(s, i, channel, action), conns, ops);
    assert Legal(Connections(), fits, conns, ops)
      <==> Legal(Connections(), (s, op) => KeepsPending(s, op, channel), conns, ops);
  }

  /** And all that time it keeps the worker that has claimed it. */
  lemma {:induction false} PendingStays(conns: seq<Connection>, ops: seq<Op>, i: nat)
    requires WellFormed(conns) && i < |conns| && Pending(conns[i])
    requires forall k :: 0 <= k < |ops| ==> KeepsPending(conns, ops[k], conns[i].channelId)
    ensures
      var after := Replay(Connections(), conns, ops);
      && WellFormed(after) && PendingAt(after, i, conns[i].channelId, conns[i].activeJobId)
      && (conns[i].activeWorkerId != "" ==> after[i].activeWorkerId == conns[i].activeWorkerId)
  {
    if ops != [] {
      var front := ops[..|ops| - 1];
      PendingStays(conns, front, i);
      PendingStep(Replay(Connections(), conns, front), Last(ops), i, conns[i].channelId, conns[i].activeJobId);
    }
  }

  ghost predicate Open(conns: seq<Connection>, action: string) {
    exists i :: 0 <= i < |conns| && conns[i].activeJobId == action
  }

  /** An action that is no longer open (superseded by a later begin, or finished) is never open again,
    * and no claim of it succeeds, as long as new actions get other ids. */
  lemma {:induction false} SupersededForGood(conns: seq<Connection>, ops: seq<Op>, action: string, claim: Op)
    requires WellFormed(conns) && action != "" && !Open(conns, action)
    requires forall k :: 0 <= k < |ops| && ops[k].Begin? ==> ops[k].actionId != action
    requires claim.Claim? && claim.actionId == action
    ensures WellFormed(Replay(Connections(), conns, ops)) && !Open(Replay(Connections(), conns, ops), action)
    ensures Apply(claim, Replay(Connections(), conns, ops)) == Unchanged(Refused)
  {
    if ops != [] {
      var front := ops[..|ops| - 1];
      SupersededForGood(conns, front, action, claim);
      StaysClosed(Replay(Connections(), conns, front), Last(ops), action);
    }
    ClosedIsRefused(Replay(Connections(), conns, ops), claim);
  }

  lemma StaysClosed(conns: seq<Connection>, op: Op, action: string)
    requires WellFormed(conns) && action != "" && !Open(conns, action) && (op.Begin? ==> op.actionId != action)
    ensures WellFormed(Step(Connections(), conns, op)) && !Open(Step(Connections(), conns, op), action)
  {
    StepShape(conns, op);
  }

  lemma ClosedIsRefused(conns: seq<Connection>, claim: Op)
    requires claim.Claim? && !Open(conns, claim.actionId)
    ensures Apply(claim, conns) == Unchanged(Refused)
  {
    var at := Locate(Channels(conns), claim.channel);
    assert at.Some? ==> conns[at.value].activeJobId != claim.actionId;
  }

  /** A begin that opens a new action on a channel closes the one that was there. */
  lemma BeginSupersedes(conns: seq<Connection>, ops: seq<Op>, op: Op, i: nat)
    requires Traced(conns, ops) && FreshRun(ops + [op]) && op.Begin?
    requires i < |conns| && conns[i].channelId == op.channel && conns[i].activeJobId != ""
    ensures Open(Step(Connections(), conns, op), conns[i].activeJobId) <==> Pending(conns[i])
  {
    StepShape(conns, op);
    var after := Step(Connections(), conns, op);
    var k :| 0 <= k < |ops| && ops[k].Begin? && ops[k].actionId == conns[i].activeJobId;
    assert (ops + [op])[k] == ops[k] && (ops + [op])[|ops|] == op;
    assert op.actionId != conns[i].activeJobId;
    if Pending(conns[i]) {
      assert after[i].activeJobId == conns[i].activeJobId;
    }
  }

  // ---------------------------------------------------------------- the mutators, step by step

  class ConnectionList {
    var conns: seq<Connection>

    constructor (conns: seq<Connection>)
      ensures this.conns == conns
    {
      this.conns := conns;
    }

    /** `next((record for record in records if record.channel_id == channel_id), None)`. */
    method FindChannel(channel: string) returns (r: Option<nat>)
      ensures r == Locate(Channels(conns), channel)
    {
      for index := 0 to |conns|
        invariant channel !in Channels(conns)[..index]
      {
        if conns[index].channelId == channel {
          assert Channels(conns)[index] == channel;
          return Some(index);
        }
      }
      assert Channels(conns)[..|conns|] == Channels(conns);
      return None;
    }

    /** The mutator of `begin_channel_connect`. */
    method BeginConnect(channel: string, mode: string, profilePath: string, now: int, actionId: string)
      returns (c: Connection, isNew: bool)
      modifies this
      ensures
        var out := Apply(Begin(channel, mode, profilePath, now, actionId), old(conns));
        out.Changed? && conns == out.data && out.result == Begun(c, isNew)
    {
      var t := Written(now);
      var at := FindChannel(channel);
      c := if at.Some? then conns[at.value] else Fresh(channel, mode, profilePath, now);
      if c.status == "connecting" && c.activeJobType == "connect" && c.activeJobId != "" {
        c := c.(updatedAt := t);
        conns := UpsertInPlace(conns, Ids(conns), c.id, c);
        return c, false;
      }
      c := c.(mode := mode, status := "connecting", lastCheckedAt := t, updatedAt := t, lastError := "");
      if profilePath != "" {
        c := c.(profilePath := profilePath);
      }
      c := c.(activeJobId := actionId, activeJobType := "connect", activeWorkerId := "", activeClaimedAt := Blank);
      conns := UpsertInPlace(conns, Ids(conns), c.id, c);
      return c, true;
    }

    /** The mutator of `claim_channel_connect`. */
    method ClaimConnect(channel: string, actionId: string, worker: string, now: int) returns (r: Option<Connection>)
      modifies this
      ensures
        var out := Apply(Claim(channel, actionId, worker, now), old(conns));
        && conns == Commit(old(conns), out)
        && out.result == (if r.Some? then Claimed(r.value) else Refused)
    {
      var at := FindChannel(channel);
      if at.None? {
        return None;
      }
      var c := conns[at.value];
      if c.status != "connecting" {
        return None;
      }
      if c.activeJobType != "connect" || c.activeJobId != actionId {
        return None;
      }
      if c.activeWorkerId != "" && c.activeWorkerId != worker {
        return None;
      }
      var t := Written(now);
      c := c.(activeWorkerId := worker);
      c := c.(activeClaimedAt := t, updatedAt := t);
      conns := UpsertInPlace(conns, Ids(conns), c.id, c);
      return Some(c);
    }
  }
}
