/** The lock-protected JSON file of channel_storage.py and the read-mutate-write section that
  * every repository builds on it (`_mutate_records`).
  *
  * Processes are interleaved one file-system action at a time, and any of them may time out,
  * raise or die at any point. The result is that the file behaves as if the mutators ran one
  * after another, in the order in which the lock was granted.
  */
module LockedStore {
  import opened Prelude
  import opened Mutators

  /** The store's file. `Garbled` is text that is not JSON, `WrongType` is JSON of another type. */
  datatype File<+D> = Missing | Blank | Whole(data: D) | Garbled | WrongType

  /** A temporary file: half written, or flushed to disk in full. */
  datatype Temp<+D> = Partial | Full(data: D)

  /** Where one process is inside `with locked_json_store(...)`. */
  datatype Proc<+Op, +D, +R> =
    | Idle
    | Waiting(op: Op)                          // polling flock
    | Locked(op: Op)                           // lock held, file not read yet
    | Resetting(op: Op)                        // a corrupt file was read
    | BackedUp(op: Op)                         // its text has been copied aside
    | ResetReady(op: Op)                       // the default payload is flushed to the temp file
    | Loaded(op: Op, data: D)                  // payload in memory
    | Writing(op: Op, data: D, result: R)      // mutator ran and changed the payload
    | Ready(op: Op, data: D, result: R)        // new payload flushed to the temp file
    | Done(op: Op, outcome: Outcome<D, R>)     // decided, lock still held

  /** One finished critical section: the lock grant it ran under, what it ran, what came out. */
  datatype Section<+Op, +D, +R> = Section(grant: nat, pid: nat, op: Op, outcome: Outcome<D, R>)

  datatype State<+Op, +D, +R> = State(
    file: File<D>,
    lock: Option<nat>,
    procs: map<nat, Proc<Op, D, R>>,
    temps: map<nat, Temp<D>>,
    grants: nat,
    resets: nat,
    history: seq<Section<Op, D, R>>)

  datatype Action<+Op> =
    | Begin(pid: nat, op: Op)
    | Acquire(pid: nat)
    | Timeout(pid: nat)
    | Read(pid: nat)
    | Backup(pid: nat)
    | OpenTemp(pid: nat)
    | FlushTemp(pid: nat)
    | Replace(pid: nat)
    | Evaluate(pid: nat)
    | Release(pid: nat)
    | Abort(pid: nat)   // an exception: the `with` block releases the lock
    | Crash(pid: nat)   // the process dies: the system releases the lock

  predicate Corrupt<D>(f: File<D>) {
    f.Garbled? || f.WrongType?
  }

  /** The payload a reader of this file ends up with. */
  function Effective<Op, D, R>(c: Store<Op, D, R>, f: File<D>): D {
    if f.Whole? then f.data else c.initial
  }

  /** The operations of a history, in order. */
  function Ops<Op, D, R>(h: seq<Section<Op, D, R>>): seq<Op> {
    seq(|h|, i requires 0 <= i < |h| => h[i].op)
  }

  function At<Op, D, R>(s: State<Op, D, R>, pid: nat): Proc<Op, D, R> {
    if pid in s.procs then s.procs[pid] else Idle
  }

  function Goto<Op, D, R>(s: State<Op, D, R>, pid: nat, p: Proc<Op, D, R>): State<Op, D, R> {
    s.(procs := s.procs[pid := p])
  }

  /** Leave the section: back to idle, and give the lock up if this process holds it. */
  function Leave<Op, D, R>(s: State<Op, D, R>, pid: nat): State<Op, D, R> {
    Goto(s, pid, Idle).(lock := if s.lock == Some(pid) then None else s.lock)
  }

  function Decide<Op, D, R>(s: State<Op, D, R>, pid: nat, op: Op, o: Outcome<D, R>): State<Op, D, R> {
    Goto(s, pid, Done(op, o)).(history := s.history + [Section(s.grants, pid, op, o)])
  }

  /** What os.replace leaves at the store's path: exactly what the temp file held. */
  function Installed<D>(temps: map<nat, Temp<D>>, pid: nat): File<D> {
    if pid in temps && temps[pid].Full? then Whole(temps[pid].data) else Garbled
  }

  /** One action of one process; an action whose process is not at that point does nothing. */
  function Next<Op, D, R>(c: Store<Op, D, R>, s: State<Op, D, R>, step: Action<Op>): State<Op, D, R> {
    var pid := step.pid;
    var p := At(s, pid);
    match step
    case Begin(_, op) => if p.Idle? then Goto(s, pid, Waiting(op)) else s
    case Acquire(_) =>
      if p.Waiting? && s.lock.None? then
        Goto(s, pid, Locked(p.op)).(lock := Some(pid), grants := s.grants + 1)
      else s
    case Timeout(_) => if p.Waiting? && s.lock.Some? then Goto(s, pid, Idle) else s
    case Read(_) =>
      if !p.Locked? then s
      else if Corrupt(s.file) then Goto(s, pid, Resetting(p.op)).(resets := s.resets + 1)
      else Goto(s, pid, Loaded(p.op, Effective(c, s.file)))
    case Backup(_) => if p.Resetting? then Goto(s, pid, BackedUp(p.op)) else s
    case OpenTemp(_) =>
      if p.BackedUp? || p.Writing? then s.(temps := s.temps[pid := Partial]) else s
    case FlushTemp(_) =>
      if p.BackedUp? then Goto(s, pid, ResetReady(p.op)).(temps := s.temps[pid := Full(c.initial)])
      else if p.Writing? then
        Goto(s, pid, Ready(p.op, p.data, p.result)).(temps := s.temps[pid := Full(p.data)])
      else s
    case Replace(_) =>
      if p.ResetReady? then Goto(s, pid, Loaded(p.op, c.initial)).(file := Installed(s.temps, pid))
      else if p.Ready? then
        Decide(s, pid, p.op, Changed(p.data, p.result)).(file := Installed(s.temps, pid))
      else s
    case Evaluate(_) =>
      if !p.Loaded? then s else
        var o := c.apply(p.op, p.data);
        if o.Changed? then Goto(s, pid, Writing(p.op, o.data, o.result)) else Decide(s, pid, p.op, o)
    case Release(_) => if p.Done? then Leave(s, pid) else s
    case Abort(_) => Leave(s, pid)
    case Crash(_) => Leave(s, pid)
  }

  function Run<Op, D, R>(c: Store<Op, D, R>, s: State<Op, D, R>, steps: seq<Action<Op>>): State<Op, D, R> {
    if steps == [] then s else Next(c, Run(c, s, steps[..|steps| - 1]), Last(steps))
  }

  function Boot<Op, D, R>(f: File<D>): State<Op, D, R> {
    State(f, None, map[], map[], 0, 0, [])
  }

  // ---------------------------------------------------------------- invariant

  predicate Holding<Op, D, R>(p: Proc<Op, D, R>) {
    !p.Idle? && !p.Waiting?
  }

  /** Every section found exactly what the earlier sections left, and reported what its mutator
    * says about that; grants only go up. */
  ghost predicate Sequential<Op, D, R>(c: Store<Op, D, R>, d: D, h: seq<Section<Op, D, R>>) {
    && (forall i :: 0 <= i < |h| ==> h[i].outcome == c.apply(h[i].op, Replay(c, d, Ops(h)[..i])))
    && (forall i, j :: 0 <= i < j < |h| ==> h[i].grant < h[j].grant)
  }

  /** What the lock holder knows. */
  ghost predicate Knows<Op, D, R>(c: Store<Op, D, R>, s: State<Op, D, R>, pid: nat) {
    var p := At(s, pid);
    && (Holding(p) ==> s.lock == Some(pid))
    && (Holding(p) && !p.Done? ==> forall k :: 0 <= k < |s.history| ==> s.history[k].grant < s.grants)
    && (p.Resetting? || p.BackedUp? || p.ResetReady? ==> Corrupt(s.file))
    && (p.ResetReady? ==> pid in s.temps && s.temps[pid] == Full(c.initial))
    && (p.Loaded? ==> !Corrupt(s.file) && p.data == Effective(c, s.file))
    && (p.Writing? || p.Ready? ==>
          !Corrupt(s.file) && c.apply(p.op, Effective(c, s.file)) == Changed(p.data, p.result))
    && (p.Ready? ==> pid in s.temps && s.temps[pid] == Full(p.data))
    && (p.Done? ==> s.history != [] && Last(s.history) == Section(s.grants, pid, p.op, p.outcome))
  }

  /** The part of the invariant that is not about one process. */
  ghost predicate Shared<Op, D, R>(c: Store<Op, D, R>, f: File<D>, s: State<Op, D, R>) {
    && (forall k :: 0 <= k < |s.history| ==> s.history[k].grant <= s.grants)
    && Sequential(c, Effective(c, f), s.history)
    && Effective(c, s.file) == Replay(c, Effective(c, f), Ops(s.history))
    && (s.file.Whole? || s.file == f)
    && (s.resets > 0 ==> Corrupt(f))
    && (Corrupt(s.file) ==> s.history == [])
  }

  ghost predicate Inv<Op(!new), D(!new), R(!new)>(c: Store<Op, D, R>, f: File<D>, s: State<Op, D, R>) {
    Shared(c, f, s) && forall pid: nat :: Knows(c, s, pid)
  }

  lemma DecideKeeps<Op(!new), D(!new), R(!new)>(
    c: Store<Op, D, R>, d: D, h: seq<Section<Op, D, R>>, x: Section<Op, D, R>)
    requires Sequential(c, d, h)
    requires forall k :: 0 <= k < |h| ==> h[k].grant < x.grant
    requires x.outcome == c.apply(x.op, Replay(c, d, Ops(h)))
    ensures Sequential(c, d, h + [x])
    ensures Replay(c, d, Ops(h + [x])) == Commit(Replay(c, d, Ops(h)), x.outcome)
  {
    var h' := h + [x];
    assert Ops(h') == Ops(h) + [x.op];
    ReplayAppend(c, d, Ops(h), x.op);
    forall i | 0 <= i < |h'|
      ensures h'[i].outcome == c.apply(h'[i].op, Replay(c, d, Ops(h')[..i]))
    {
      assert Ops(h')[..i] == Ops(h)[..i];
      assert i == |h| ==> Ops(h)[..i] == Ops(h);
    }
  }

  /** A step of `pid` leaves what every other process knows intact: it touches the file, the history
    * and the grant counter only under the lock, and the lock only if it is free or its own. */
  lemma OthersKeep<Op(!new), D(!new), R(!new)>(
    c: Store<Op, D, R>, s: State<Op, D, R>, step: Action<Op>, q: nat)
    requires q != step.pid && Knows(c, s, q) && Knows(c, s, step.pid)
    ensures Knows(c, Next(c, s, step), q)
  {
    var s' := Next(c, s, step);
    assert At(s', q) == At(s, q);
    assert q in s.temps ==> q in s'.temps && s'.temps[q] == s.temps[q];
    if Holding(At(s, q)) {
      assert !Holding(At(s, step.pid));
      assert s'.lock == s.lock && s'.file == s.file && s'.history == s.history && s'.grants == s.grants;
    }
  }

  lemma OwnerKeeps<Op(!new), D(!new), R(!new)>(
    c: Store<Op, D, R>, f: File<D>, s: State<Op, D, R>, step: Action<Op>)
    requires Shared(c, f, s) && Knows(c, s, step.pid)
    ensures Knows(c, Next(c, s, step), step.pid)
  {
  }

  /** A step that decides no section at most puts a fresh default over a corrupt file. */
  lemma UndecidedKeeps<Op(!new), D(!new), R(!new)>(
    c: Store<Op, D, R>, f: File<D>, s: State<Op, D, R>, s': State<Op, D, R>)
    requires Shared(c, f, s)
    requires s'.history == s.history && s'.grants >= s.grants
    requires s'.file == s.file || (Corrupt(s.file) && s'.file == Whole(c.initial))
    requires s'.resets == s.resets || Corrupt(s.file)
    ensures Shared(c, f, s')
  {
  }

  lemma DecidedKeeps<Op(!new), D(!new), R(!new)>(
    c: Store<Op, D, R>, f: File<D>, s: State<Op, D, R>, s': State<Op, D, R>, pid: nat, op: Op)
    requires Shared(c, f, s) && !Corrupt(s.file)
    requires forall k :: 0 <= k < |s.history| ==> s.history[k].grant < s.grants
    requires var o := c.apply(op, Effective(c, s.file));
      && s'.history == s.history + [Section(s.grants, pid, op, o)]
      && s'.file == (if o.Changed? then Whole(o.data) else s.file)
    requires s'.grants == s.grants && s'.resets == s.resets
    ensures Shared(c, f, s')
  {
    DecideKeeps(c, Effective(c, f), s.history, Last(s'.history));
  }

  lemma SharedKeeps<Op(!new), D(!new), R(!new)>(
    c: Store<Op, D, R>, f: File<D>, s: State<Op, D, R>, step: Action<Op>)
    requires Shared(c, f, s) && Knows(c, s, step.pid)
    ensures Shared(c, f, Next(c, s, step))
  {
    var p := At(s, step.pid);
    if (p.Ready? && step.Replace?) || (p.Loaded? && step.Evaluate? && !c.apply(p.op, p.data).Changed?) {
      DecidedKeeps(c, f, s, Next(c, s, step), step.pid, p.op);
    } else {
      UndecidedKeeps(c, f, s, Next(c, s, step));
    }
  }

  lemma NextKeeps<Op(!new), D(!new), R(!new)>(
    c: Store<Op, D, R>, f: File<D>, s: State<Op, D, R>, step: Action<Op>)
    requires Inv(c, f, s)
    ensures Inv(c, f, Next(c, s, step))
  {
    SharedKeeps(c, f, s, step);
    OwnerKeeps(c, f, s, step);
    forall q: nat | q != step.pid
      ensures Knows(c, Next(c, s, step), q)
    {
      assert Knows(c, s, step.pid);
      OthersKeep(c, s, step, q);
    }
  }

  lemma {:induction false} RunKeeps<Op(!new), D(!new), R(!new)>(c: Store<Op, D, R>, f: File<D>, steps: seq<Action<Op>>)
    ensures Inv(c, f, Run(c, Boot(f), steps))
  {
    if steps != [] {
      RunKeeps(c, f, steps[..|steps| - 1]);
      NextKeeps(c, f, Run(c, Boot(f), steps[..|steps| - 1]), Last(steps));
    }
  }

  // ---------------------------------------------------------------- results

  /** Any interleaving, with timeouts, exceptions and deaths at any point: the file is never a torn
    * payload, and what it holds is the finished sections' mutators applied one by one in the order
    * of their lock grants, each of which saw exactly what its predecessors left. */
  lemma Linearizable<Op(!new), D(!new), R(!new)>(c: Store<Op, D, R>, f: File<D>, steps: seq<Action<Op>>)
    ensures
      var s := Run(c, Boot(f), steps);
      && Effective(c, s.file) == Replay(c, Effective(c, f), Ops(s.history))
      && Sequential(c, Effective(c, f), s.history)
      && (s.file.Whole? || s.file == f)
  {
    RunKeeps(c, f, steps);
  }

  lemma {:induction false} RunAppend<Op, D, R>(
    c: Store<Op, D, R>, s: State<Op, D, R>, a: seq<Action<Op>>, b: seq<Action<Op>>)
    ensures Run(c, s, a + b) == Run(c, Run(c, s, a), b)
  {
    if b == [] {
      assert a + b == a;
    } else {
      assert (a + b)[..|a + b| - 1] == a + b[..|b| - 1];
      RunAppend(c, s, a, b[..|b| - 1]);
    }
  }

  lemma {:induction false} HistoryGrows<Op, D, R>(c: Store<Op, D, R>, s: State<Op, D, R>, steps: seq<Action<Op>>)
    ensures s.history <= Run(c, s, steps).history
  {
    if steps != [] {
      HistoryGrows(c, s, steps[..|steps| - 1]);
    }
  }

  /** A caller whose section was decided finds it in the history for good, with the outcome it was
    * given: whatever happens later is applied on top of it. */
  lemma NoUpdateLost<Op(!new), D(!new), R(!new)>(
    c: Store<Op, D, R>, f: File<D>, steps: seq<Action<Op>>, later: seq<Action<Op>>, pid: nat)
    requires At(Run(c, Boot(f), steps), pid).Done?
    ensures
      var p := At(Run(c, Boot(f), steps), pid);
      var n := |Run(c, Boot(f), steps).history|;
      var s := Run(c, Boot(f), steps + later);
      && 0 < n <= |s.history|
      && s.history[n - 1].pid == pid && s.history[n - 1].op == p.op
      && p.outcome == c.apply(p.op, Replay(c, Effective(c, f), Ops(s.history)[..n - 1]))
      && Effective(c, s.file) == Replay(c, Effective(c, f), Ops(s.history))
  {
    var s0 := Run(c, Boot(f), steps);
    RunKeeps(c, f, steps);
    RunKeeps(c, f, steps + later);
    RunAppend(c, Boot(f), steps, later);
    HistoryGrows(c, s0, later);
    assert Knows(c, s0, pid);
    var n := |s0.history|;
    assert s0.history[n - 1] == Run(c, Boot(f), steps + later).history[n - 1];
  }

  /** The corrupt-file reset is reached only from a file that was corrupt to begin with, and never
    * once a section has finished. */
  lemma ResetOnlyFromCorrupt<Op(!new), D(!new), R(!new)>(
    c: Store<Op, D, R>, f: File<D>, steps: seq<Action<Op>>, pid: nat)
    ensures
      var s := Run(c, Boot(f), steps);
      var p := At(s, pid);
      && (s.resets > 0 || Corrupt(s.file) ==> Corrupt(f))
      && (p.Resetting? || p.BackedUp? || p.ResetReady? ==> Corrupt(f) && s.history == [])
  {
    RunKeeps(c, f, steps);
    assert Knows(c, Run(c, Boot(f), steps), pid);
  }

  /** Once any section has finished the file is no garbage and of the right type, whatever it was before and whoever
    * died meanwhile. */
  lemma NoGarbageAfterASection<Op(!new), D(!new), R(!new)>(c: Store<Op, D, R>, f: File<D>, steps: seq<Action<Op>>)
    requires Run(c, Boot(f), steps).history != []
    ensures
      var file := Run(c, Boot(f), steps).file;
      !file.Garbled? && !file.WrongType?
  {
    RunKeeps(c, f, steps);
  }

  /** A wait times out only while somebody holds the lock, and then changes nothing but where its process is. */
  lemma TimeoutsAreIdle<Op, D, R>(c: Store<Op, D, R>, s: State<Op, D, R>, pid: nat)
    ensures
      var next := Next(c, s, Timeout(pid));
      && next == s.(procs := next.procs)
      && (s.lock == None || !At(s, pid).Waiting? ==> next == s)
      && (s.lock.Some? && At(s, pid).Waiting? ==> At(next, pid).Idle?)
      && forall q: nat :: q != pid ==> At(next, q) == At(s, q)
  {
  }

  /** Two processes are never inside the section together. */
  lemma MutualExclusion<Op(!new), D(!new), R(!new)>(
    c: Store<Op, D, R>, f: File<D>, steps: seq<Action<Op>>, p: nat, q: nat)
    requires Holding(At(Run(c, Boot(f), steps), p)) && Holding(At(Run(c, Boot(f), steps), q))
    ensures p == q
  {
    RunKeeps(c, f, steps);
    assert Knows(c, Run(c, Boot(f), steps), p) && Knows(c, Run(c, Boot(f), steps), q);
  }

  ghost predicate Begins<Op>(allowed: Op -> bool, steps: seq<Action<Op>>) {
    forall i :: 0 <= i < |steps| && steps[i].Begin? ==> allowed(steps[i].op)
  }

  ghost predicate AllAllowed<Op, D, R>(allowed: Op -> bool, s: State<Op, D, R>) {
    && (forall pid :: pid in s.procs && !s.procs[pid].Idle? ==> allowed(s.procs[pid].op))
    && (forall i :: 0 <= i < |s.history| ==> allowed(s.history[i].op))
  }

  lemma NextAllowed<Op, D, R>(
    c: Store<Op, D, R>, allowed: Op -> bool, s: State<Op, D, R>, step: Action<Op>)
    requires AllAllowed(allowed, s)
    requires step.Begin? ==> allowed(step.op)
    ensures AllAllowed(allowed, Next(c, s, step))
  {
  }

  /** Whatever runs was begun. */
  lemma {:induction false} OnlyBegun<Op, D, R>(
    c: Store<Op, D, R>, f: File<D>, allowed: Op -> bool, steps: seq<Action<Op>>)
    requires Begins(allowed, steps)
    ensures AllAllowed(allowed, Run(c, Boot(f), steps))
  {
    if steps != [] {
      var n := |steps| - 1;
      forall i | 0 <= i < n && steps[..n][i].Begin?
        ensures allowed(steps[..n][i].op)
      {
        assert steps[i].Begin?;
      }
      OnlyBegun(c, f, allowed, steps[..n]);
      NextAllowed(c, allowed, Run(c, Boot(f), steps[..n]), steps[n]);
    }
  }

  /** What every mutator keeps, the file keeps, under any interleaving and any failures. */
  lemma FileKeeps<Op(!new), D(!new), R(!new)>(
    c: Store<Op, D, R>, good: D -> bool, allowed: Op -> bool, f: File<D>, steps: seq<Action<Op>>)
    requires good(Effective(c, f))
    requires forall op, d :: allowed(op) && good(d) ==> good(Step(c, d, op))
    requires Begins(allowed, steps)
    ensures good(Effective(c, Run(c, Boot(f), steps).file))
  {
    var s := Run(c, Boot(f), steps);
    Linearizable(c, f, steps);
    OnlyBegun(c, f, allowed, steps);
    ReplayKeeps(c, good, allowed, Effective(c, f), Ops(s.history));
  }

  // ---------------------------------------------------------------- one process on its own

  /** The file after one undisturbed `_mutate_records`: rewritten if the mutator reports a change,
    * reset to the default if it was corrupt and did not change, otherwise not touched. */
  function FileAfter<Op, D, R>(c: Store<Op, D, R>, f: File<D>, op: Op): File<D> {
    var o := c.apply(op, Effective(c, f));
    if o.Changed? then Whole(o.data) else if Corrupt(f) then Whole(c.initial) else f
  }

  /** The file actions of one section, corrupt file or not: those that do not apply do nothing. */
  function SoloActions<Op>(pid: nat, op: Op): seq<Action<Op>> {
    [Begin(pid, op), Acquire(pid), Read(pid), Backup(pid), OpenTemp(pid), FlushTemp(pid), Replace(pid),
     Evaluate(pid), OpenTemp(pid), FlushTemp(pid), Replace(pid), Release(pid)]
  }

  lemma RunOne<Op, D, R>(c: Store<Op, D, R>, s: State<Op, D, R>, a: Action<Op>, rest: seq<Action<Op>>)
    ensures Run(c, s, [a] + rest) == Run(c, Next(c, s, a), rest)
  {
    RunAppend(c, s, [a], rest);
    assert [a][..0] == [];
    assert Run(c, s, [a]) == Next(c, s, a);
  }

  lemma RunThree<Op, D, R>(
    c: Store<Op, D, R>, s: State<Op, D, R>, x: Action<Op>, y: Action<Op>, z: Action<Op>, rest: seq<Action<Op>>)
    ensures Run(c, s, [x, y, z] + rest) == Run(c, Next(c, Next(c, Next(c, s, x), y), z), rest)
  {
    assert [x, y, z] + rest == [x] + ([y] + ([z] + rest));
    RunOne(c, s, x, [y] + ([z] + rest));
    RunOne(c, Next(c, s, x), y, [z] + rest);
    RunOne(c, Next(c, Next(c, s, x), y), z, rest);
  }

  lemma SoloRead<Op, D, R>(c: Store<Op, D, R>, f: File<D>, pid: nat, op: Op)
    ensures
      var s := Run(c, Boot(f), SoloActions(pid, op)[..6]);
      && (if Corrupt(f) then At(s, pid) == ResetReady(op) && Installed(s.temps, pid) == Whole(c.initial)
          else At(s, pid) == Loaded(op, Effective(c, f)))
      && s.file == f && s.lock == Some(pid) && s.grants == 1 && s.history == []
  {
    var a := SoloActions(pid, op);
    assert a[..6] == [a[0], a[1], a[2]] + ([a[3], a[4], a[5]] + []);
    var s0: State<Op, D, R> := Boot(f);
    RunThree(c, s0, a[0], a[1], a[2], [a[3], a[4], a[5]] + []);
    var s1 := Next(c, Next(c, Next(c, s0, a[0]), a[1]), a[2]);
    assert s1.file == f && s1.lock == Some(pid) && s1.grants == 1 && s1.history == [];
    assert At(s1, pid) == if Corrupt(f) then Resetting(op) else Loaded(op, Effective(c, f));
    RunThree(c, s1, a[3], a[4], a[5], []);
  }

  lemma SoloMutate<Op, D, R>(c: Store<Op, D, R>, f: File<D>, s: State<Op, D, R>, pid: nat, op: Op)
    requires if Corrupt(f) then At(s, pid) == ResetReady(op) && Installed(s.temps, pid) == Whole(c.initial)
             else At(s, pid) == Loaded(op, Effective(c, f))
    requires s.file == f && s.lock == Some(pid) && s.grants == 1 && s.history == []
    ensures
      var o := c.apply(op, Effective(c, f));
      var s' := Run(c, s, [Replace(pid), Evaluate(pid), OpenTemp(pid)]);
      && At(s', pid) == (if o.Changed? then Writing(op, o.data, o.result) else Done(op, o))
      && s'.lock == Some(pid) && s'.grants == 1 && s'.history == (if o.Changed? then [] else [Section(1, pid, op, o)])
      && s'.file == if Corrupt(f) then Whole(c.initial) else f
  {
    var steps: seq<Action<Op>> := [Replace(pid), Evaluate(pid), OpenTemp(pid)];
    assert steps + [] == steps;
    RunThree(c, s, Replace(pid), Evaluate(pid), OpenTemp(pid), []);
    var s1 := Next(c, s, Replace(pid));
    assert At(s1, pid) == Loaded(op, Effective(c, f)) && s1.history == [];
    assert s1.lock == Some(pid) && s1.grants == 1;
    assert s1.file == if Corrupt(f) then Whole(c.initial) else f;
  }

  lemma SoloFinish<Op, D, R>(c: Store<Op, D, R>, s: State<Op, D, R>, pid: nat, op: Op, o: Outcome<D, R>)
    requires At(s, pid) == if o.Changed? then Writing(op, o.data, o.result) else Done(op, o)
    requires s.lock == Some(pid) && s.grants == 1
    requires s.history == if o.Changed? then [] else [Section(1, pid, op, o)]
    ensures
      var s' := Run(c, s, [FlushTemp(pid), Replace(pid), Release(pid)]);
      && s'.file == (if o.Changed? then Whole(o.data) else s.file)
      && s'.lock.None? && At(s', pid).Idle? && s'.history == [Section(1, pid, op, o)]
  {
    var steps: seq<Action<Op>> := [FlushTemp(pid), Replace(pid), Release(pid)];
    assert steps + [] == steps;
    RunThree(c, s, FlushTemp(pid), Replace(pid), Release(pid), []);
  }

  lemma SoloWrite<Op, D, R>(c: Store<Op, D, R>, f: File<D>, s: State<Op, D, R>, pid: nat, op: Op)
    requires if Corrupt(f) then At(s, pid) == ResetReady(op) && Installed(s.temps, pid) == Whole(c.initial)
             else At(s, pid) == Loaded(op, Effective(c, f))
    requires s.file == f && s.lock == Some(pid) && s.grants == 1 && s.history == []
    ensures
      var s' := Run(c, s, SoloActions(pid, op)[6..]);
      && s'.file == FileAfter(c, f, op) && s'.lock.None? && At(s', pid).Idle?
      && s'.history == [Section(1, pid, op, c.apply(op, Effective(c, f)))]
  {
    var first, second := [Replace(pid), Evaluate(pid), OpenTemp(pid)], [FlushTemp(pid), Replace(pid), Release(pid)];
    assert SoloActions(pid, op)[6..] == first + second;
    RunAppend(c, s, first, second);
    SoloMutate(c, f, s, pid, op);
    SoloFinish(c, Run(c, s, first), pid, op, c.apply(op, Effective(c, f)));
  }

  /** The protocol with one process in it does what `FileAfter` says. */
  lemma Solo<Op, D, R>(c: Store<Op, D, R>, f: File<D>, pid: nat, op: Op)
    ensures
      var s := Run(c, Boot(f), SoloActions(pid, op));
      && s.file == FileAfter(c, f, op) && s.lock.None? && At(s, pid).Idle?
      && s.history == [Section(1, pid, op, c.apply(op, Effective(c, f)))]
  {
    var a := SoloActions(pid, op);
    assert a == a[..6] + a[6..];
    RunAppend(c, Boot(f), a[..6], a[6..]);
    SoloRead(c, f, pid, op);
    SoloWrite(c, f, Run(c, Boot(f), a[..6]), pid, op);
  }

  /** One flock attempt: whether the lock was free, and the monotonic clock just after. */
  datatype Poll = Poll(free: bool, clock: int)

  predicate Settles(p: Poll, deadline: int) {
    p.free || p.clock >= deadline
  }

  /** The retry loop of FileLock.acquire. The lock is granted at the first attempt that finds it
    * free, unless an earlier attempt found it taken at or after the deadline; the first attempt is
    * made however short the timeout is. */
  method AcquireLoop(start: int, timeout: int, polls: seq<Poll>) returns (granted: bool, tries: nat)
    requires exists i :: 0 <= i < |polls| && Settles(polls[i], start + if timeout > 0 then timeout else 0)
    ensures
      var deadline := start + if timeout > 0 then timeout else 0;
      && 0 < tries <= |polls|
      && granted == polls[tries - 1].free
      && Settles(polls[tries - 1], deadline)
      && forall i :: 0 <= i < tries - 1 ==> !polls[i].free && polls[i].clock < deadline
  {
    var deadline := start + if timeout > 0 then timeout else 0;
    tries := 0;
    while true
      invariant tries < |polls|
      invariant forall i :: 0 <= i < tries ==> !Settles(polls[i], deadline)
      decreases |polls| - tries
    {
      ghost var first :| 0 <= first < |polls| && Settles(polls[first], deadline);
      var poll := polls[tries];
      tries := tries + 1;
      if poll.free {
        return true, tries;
      }
      if poll.clock >= deadline {
        return false, tries;
      }
    }
  }

  /** The directory of one store, with nobody else working in it. */
  class Disk<D> {
    var file: File<D>
    var temp: Temp<D>
    var backups: nat

    constructor (f: File<D>)
      ensures file == f && backups == 0
    {
      file := f;
      temp := Partial;
      backups := 0;
    }
  }

  /** LockedJsonStore with its FileLock, and `_mutate_records` on top. */
  class JsonStore<Op, D, R> {
    const kind: Store<Op, D, R>
    const disk: Disk<D>
    var held: bool
    var data: Option<D>

    constructor (kind: Store<Op, D, R>, disk: Disk<D>)
      ensures this.kind == kind && this.disk == disk && !held && data.None?
    {
      this.kind := kind;
      this.disk := disk;
      held := false;
      data := None;
    }

    method Write(d: D)
      modifies this`data, disk`file, disk`temp
      ensures disk.file == Whole(d) && data == Some(d)
    {
      disk.temp := Partial;
      disk.temp := Full(d);
      disk.file := if disk.temp.Full? then Whole(disk.temp.data) else Garbled;
      data := Some(d);
    }

    method BackupCorruptFile()
      modifies this`data, disk
      ensures disk.file == Whole(kind.initial) && disk.backups == old(disk.backups) + 1
    {
      disk.backups := disk.backups + 1;
      Write(kind.initial);
    }

    method ReadUnlocked() returns (d: D)
      modifies this`data, disk
      ensures d == Effective(kind, old(disk.file))
      ensures disk.file == if Corrupt(old(disk.file)) then Whole(kind.initial) else old(disk.file)
      ensures disk.backups == old(disk.backups) + if Corrupt(old(disk.file)) then 1 else 0
    {
      match disk.file {
        case Missing => d := kind.initial;
        case Blank => d := kind.initial;
        case Whole(loaded) => d := loaded;
        case _ =>
          BackupCorruptFile();
          d := kind.initial;
      }
    }

    /** `__enter__`: nothing is read unless the lock is granted. */
    method Enter(start: int, timeout: int, polls: seq<Poll>) returns (granted: bool)
      requires !held
      requires exists i :: 0 <= i < |polls| && Settles(polls[i], start + if timeout > 0 then timeout else 0)
      modifies this, disk
      ensures held == granted
      ensures granted ==> data == Some(Effective(kind, old(disk.file)))
      ensures granted ==> disk.file == if Corrupt(old(disk.file)) then Whole(kind.initial) else old(disk.file)
      ensures !granted ==> disk.file == old(disk.file) && data == old(data)
    {
      var tries;
      granted, tries := AcquireLoop(start, timeout, polls);
      if granted {
        held := true;
        var d := ReadUnlocked();
        data := Some(d);
      }
    }

    method Exit()
      modifies this
      ensures !held && data.None?
    {
      data := None;
      held := false;
    }

    /** `_mutate_records`; no outcome means that the lock timed out. */
    method Mutate(op: Op, start: int, timeout: int, polls: seq<Poll>) returns (out: Option<Outcome<D, R>>)
      requires !held
      requires exists i :: 0 <= i < |polls| && Settles(polls[i], start + if timeout > 0 then timeout else 0)
      modifies this, disk
      ensures !held
      ensures out.None? ==> disk.file == old(disk.file)
      ensures out.Some? ==> out.value == kind.apply(op, Effective(kind, old(disk.file)))
      ensures out.Some? ==> disk.file == FileAfter(kind, old(disk.file), op)
    {
      var granted := Enter(start, timeout, polls);
      if !granted {
        return None;
      }
      var outcome := kind.apply(op, data.value);
      if outcome.Changed? {
        Write(outcome.data);
      }
      Exit();
      return Some(outcome);
    }
  }
}
