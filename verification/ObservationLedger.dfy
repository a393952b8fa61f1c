/** Metric observations and their corrections (analytics_services.py): ingestion, correction and the
  * integrity scan over them. */
module ObservationLedger {
  import opened Prelude
  import opened Mutators
  import opened Records
  import opened Text
  import Attributions

  datatype Metric = Impressions | Views | Reactions | Comments | Reposts | Shares | Clicks | Other(name: string)

  /** `METRIC_FIELDS`: the metrics of a snapshot, in the order in which it is read. */
  const METRIC_FIELDS: seq<Metric> := [Impressions, Views, Reactions, Comments, Reposts, Shares, Clicks]

  /** A metric value; `true`, `1` and `1.0` are different values to the key. */
  datatype Value = Whole(n: int) | Decimal(x: real) | Flag(b: bool) | Missing

  datatype ValueType = IntegerType | DecimalType | BooleanType | OtherType

  datatype Aggregation = Latest | OtherAggregation(name: string)

  datatype Definition = Definition(
    id: string, plugin: string, metric: Metric, version: string, valueType: ValueType, nullable: bool,
    aggregation: Aggregation, cumulative: bool, deprecated: bool)

  datatype Post = Post(id: string, externalId: string, channelId: string, publishedAt: string)

  /** What ingestion looks up and never changes. */
  datatype World = World(definitions: seq<Definition>, posts: seq<Post>)

  datatype Input = Input(
    remoteId: string, publicationId: string, metric: Metric, value: Value,
    observedAt: string, windowStart: string, windowEnd: string)

  /** What `observation_key` hashes; hashing is taken to be injective. */
  datatype Key = Key(
    workspaceId: string, plugin: string, account: string, remoteId: string, definitionId: string,
    definitionVersion: string, observedAt: string, windowStart: string, windowEnd: string, runId: string, value: Value)

  datatype Status = Valid | Provisional | Corrected | Superseded | Invalid | Incomplete | Duplicate

  datatype Observation = Observation(
    id: string, workspaceId: string, plugin: string, account: string, publicationId: string, remoteId: string,
    definitionId: string, metric: Metric, definitionVersion: string, value: Value, observedAt: string,
    windowStart: string, windowEnd: string, capturedAt: string, runId: string, status: Status, correctionOf: string,
    key: Key)

  datatype Correction = Correction(observationId: string, correctedId: string, actor: string, reason: string)

  datatype Ledger = Ledger(observations: seq<Observation>, corrections: seq<Correction>)

  function Ids(obs: seq<Observation>): seq<string> {
    seq(|obs|, i requires 0 <= i < |obs| => obs[i].id)
  }

  function Keys(obs: seq<Observation>): seq<Key> {
    seq(|obs|, i requires 0 <= i < |obs| => obs[i].key)
  }

  function PostIds(posts: seq<Post>): seq<string> {
    seq(|posts|, i requires 0 <= i < |posts| => posts[i].id)
  }

  // ---------------------------------------------------------------- the registry

  /** `MetricDefinitionRegistry.latest`: the greatest version that is not deprecated. */
  function LatestDefinition(defs: seq<Definition>, plugin: string, metric: Metric): (r: Option<Definition>)
    ensures r.None? <==> forall i :: 0 <= i < |defs| ==>
      !(defs[i].plugin == plugin && defs[i].metric == metric && !defs[i].deprecated)
    ensures r.Some? ==>
      r.value in defs && r.value.plugin == plugin && r.value.metric == metric && !r.value.deprecated
  {
    if defs == [] then None
    else
      var best := LatestDefinition(defs[..|defs| - 1], plugin, metric);
      var d := Last(defs);
      if d.plugin == plugin && d.metric == metric && !d.deprecated && (best.None? || !Less(d.version, best.value.version))
      then Some(d) else best
  }

  lemma {:induction false} LatestIsGreatest(defs: seq<Definition>, plugin: string, metric: Metric, i: nat)
    requires i < |defs| && defs[i].plugin == plugin && defs[i].metric == metric && !defs[i].deprecated
    ensures
      var r := LatestDefinition(defs, plugin, metric);
      r.Some? && !Less(r.value.version, defs[i].version)
  {
    var front := defs[..|defs| - 1];
    var last := Last(defs);
    var r := LatestDefinition(defs, plugin, metric).value;
    LessTrichotomy(last.version, r.version);
    if i < |front| {
      LatestIsGreatest(front, plugin, metric, i);
      var best := LatestDefinition(front, plugin, metric).value;
      if r != best && Less(last.version, defs[i].version) {
        LessTrichotomy(best.version, last.version);
        LessTrichotomy(best.version, defs[i].version);
        if best.version != last.version {
          LessTransitive(best.version, last.version, defs[i].version);
        }
      }
    }
  }

  predicate Defined(defs: seq<Definition>, o: Observation) {
    exists i :: 0 <= i < |defs| &&
      defs[i].plugin == o.plugin && defs[i].metric == o.metric && defs[i].version == o.definitionVersion
  }

  /** A deprecated definition defines what it defined. */
  lemma DefinedIff(defs: seq<Definition>, o: Observation)
    ensures Defined(defs, o) <==>
      exists d :: d in defs && d.plugin == o.plugin && d.metric == o.metric && d.version == o.definitionVersion
  {
    if d :| d in defs && d.plugin == o.plugin && d.metric == o.metric && d.version == o.definitionVersion {
      var i :| 0 <= i < |defs| && defs[i] == d;
    }
  }

  // ---------------------------------------------------------------- ingestion

  datatype Failure = DefinitionMissing | ValueRequired | ValueInvalid | PublicationMissing | AccountMismatch

  /** `_validate_value`; a flag passes for a whole number, as it does in the source. */
  function Validate(d: Definition, v: Value): Option<Failure> {
    if v.Missing? then (if d.nullable then None else Some(ValueRequired))
    else if d.valueType.IntegerType? && v.Decimal? then Some(ValueInvalid)
    else if d.valueType.BooleanType? && !v.Flag? then Some(ValueInvalid)
    else None
  }

  /** The arguments shared by a batch. */
  datatype Batch = Batch(workspaceId: string, plugin: string, account: string, runId: string)

  /** An input with the id and the time that recording it would use. */
  datatype Arrival = Arrival(input: Input, freshId: string, now: string)

  function KeyFor(b: Batch, d: Definition, i: Input): Key {
    Key(b.workspaceId, b.plugin, b.account, i.remoteId, d.id, d.version, i.observedAt, i.windowStart, i.windowEnd,
        b.runId, i.value)
  }

  /** The checks of `_ingest_one`, in order; on success, the definition and the post. */
  function Check(w: World, b: Batch, i: Input): Result<(Definition, Post), Failure> {
    var d := LatestDefinition(w.definitions, b.plugin, i.metric);
    if d.None? then Err(DefinitionMissing)
    else
      var bad := Validate(d.value, i.value);
      if bad.Some? then Err(bad.value)
      else
        var at := Locate(PostIds(w.posts), i.publicationId);
        if at.None? then Err(PublicationMissing)
        else if w.posts[at.value].channelId != b.account then Err(AccountMismatch)
        else Ok((d.value, w.posts[at.value]))
  }

  function NewObservation(b: Batch, d: Definition, p: Post, a: Arrival): Observation {
    var i := a.input;
    Observation(a.freshId, b.workspaceId, b.plugin, b.account, p.id, i.remoteId, d.id, d.metric, d.version, i.value,
                i.observedAt, i.windowStart, i.windowEnd, a.now, b.runId, Valid, "", KeyFor(b, d, i))
  }

  datatype Verdict = Created(observation: Observation) | Known(id: string) | Failed(metric: Metric, why: Failure)

  /** `_ingest_one`: a failure, the id already stored under the key, or a new observation. */
  function Judge(w: World, b: Batch, obs: seq<Observation>, a: Arrival): Verdict {
    match Check(w, b, a.input)
    case Err(why) => Failed(a.input.metric, why)
    case Ok(found) =>
      var o := NewObservation(b, found.0, found.1, a);
      var at := Locate(Keys(obs), o.key);
      if at.Some? then Known(obs[at.value].id) else Created(o)
  }

  function Absorb(obs: seq<Observation>, v: Verdict): seq<Observation> {
    if v.Created? then obs + [v.observation] else obs
  }

  datatype Report = Report(created: seq<Observation>, duplicates: seq<string>, failures: seq<(Metric, Failure)>)

  function Note(r: Report, v: Verdict): Report {
    match v
    case Created(o) => r.(created := r.created + [o])
    case Known(id) => r.(duplicates := r.duplicates + [id])
    case Failed(metric, why) => r.(failures := r.failures + [(metric, why)])
  }

  function IngestAll(w: World, b: Batch, obs: seq<Observation>, arrivals: seq<Arrival>): (seq<Observation>, Report) {
    if arrivals == [] then (obs, Report([], [], []))
    else
      var (sofar, report) := IngestAll(w, b, obs, arrivals[..|arrivals| - 1]);
      var v := Judge(w, b, sofar, Last(arrivals));
      (Absorb(sofar, v), Note(report, v))
  }

  const BATCH_LIMIT: nat := 100

  function Admitted(arrivals: seq<Arrival>): seq<Arrival> {
    if |arrivals| > BATCH_LIMIT then arrivals[..BATCH_LIMIT] else arrivals
  }

  /** `ingest_observations`. */
  function Ingest(w: World, b: Batch, obs: seq<Observation>, arrivals: seq<Arrival>): (seq<Observation>, Report) {
    IngestAll(w, b, obs, Admitted(arrivals))
  }

  lemma {:induction false} AllAccountedFor(w: World, b: Batch, obs: seq<Observation>, arrivals: seq<Arrival>)
    ensures
      var (after, r) := IngestAll(w, b, obs, arrivals);
      after == obs + r.created && |r.created| + |r.duplicates| + |r.failures| == |arrivals|
  {
    if arrivals != [] {
      AllAccountedFor(w, b, obs, arrivals[..|arrivals| - 1]);
    }
  }

  /** Every admitted input is created, a duplicate or a failure, and the stored list grows by exactly the
    * created ones. */
  lemma EveryInputCounted(w: World, b: Batch, obs: seq<Observation>, arrivals: seq<Arrival>)
    ensures
      var (after, r) := Ingest(w, b, obs, arrivals);
      && |r.created| + |r.duplicates| + |r.failures| == (if |arrivals| < 100 then |arrivals| else 100)
      && after == obs + r.created
  {
    AllAccountedFor(w, b, obs, Admitted(arrivals));
  }

  /** When an input is taken: exactly if its metric has a current definition of the plugin, it has a value where one
    * is needed, of the right type (a flag passes for a whole number), and its publication is a post of the
    * account; and what each refusal is for. */
  lemma AcceptedIff(w: World, b: Batch, i: Input)
    ensures
      var d := LatestDefinition(w.definitions, b.plugin, i.metric);
      var at := Locate(PostIds(w.posts), i.publicationId);
      Check(w, b, i).Ok? <==>
        && d.Some? && (i.value == Missing ==> d.value.nullable)
        && (d.value.valueType == IntegerType ==> !i.value.Decimal?)
        && (d.value.valueType == BooleanType ==> i.value.Flag? || i.value == Missing)
        && at.Some? && w.posts[at.value].channelId == b.account
    ensures Check(w, b, i) == Err(DefinitionMissing) <==>
      forall d :: d in w.definitions && d.plugin == b.plugin && d.metric == i.metric ==> d.deprecated
    ensures Check(w, b, i) == Err(ValueRequired) ==> i.value == Missing
    ensures Check(w, b, i) == Err(ValueInvalid) ==> i.value.Decimal? || i.value.Whole?
    ensures Check(w, b, i) == Err(PublicationMissing) ==> forall p :: p in w.posts ==> p.id != i.publicationId
    ensures Check(w, b, i) == Err(AccountMismatch) ==>
      exists p :: p in w.posts && p.id == i.publicationId && p.channelId != b.account
  {
    var at := Locate(PostIds(w.posts), i.publicationId);
    if at.Some? {
      assert PostIds(w.posts)[at.value] == w.posts[at.value].id && w.posts[at.value] in w.posts;
    }
    if p :| p in w.posts && p.id == i.publicationId {
      var k :| 0 <= k < |w.posts| && w.posts[k] == p;
      assert PostIds(w.posts)[k] == i.publicationId;
    }
  }

  /** What the observation of an input says: its metric, value, publication and times, under the current
    * definition, for the batch's workspace, plugin, account and run; recorded as valid, as nobody's correction. */
  ghost predicate Says(w: World, b: Batch, o: Observation, a: Arrival) {
    && o.metric == a.input.metric && o.value == a.input.value
    && o.publicationId == a.input.publicationId && o.remoteId == a.input.remoteId
    && o.observedAt == a.input.observedAt && o.windowStart == a.input.windowStart && o.windowEnd == a.input.windowEnd
    && o.workspaceId == b.workspaceId && o.plugin == b.plugin && o.account == b.account && o.runId == b.runId
    && o.id == a.freshId && o.capturedAt == a.now && o.status == Valid && o.correctionOf == ""
    && var d := LatestDefinition(w.definitions, b.plugin, a.input.metric);
       d.Some? && o.definitionId == d.value.id && o.definitionVersion == d.value.version
  }

  lemma JudgedSays(w: World, b: Batch, obs: seq<Observation>, a: Arrival)
    requires Judge(w, b, obs, a).Created?
    ensures Says(w, b, Judge(w, b, obs, a).observation, a)
  {
    var at := Locate(PostIds(w.posts), a.input.publicationId).value;
    assert PostIds(w.posts)[at] == w.posts[at].id;
  }

  lemma {:induction false} AllSay(w: World, b: Batch, obs: seq<Observation>, arrivals: seq<Arrival>, o: Observation)
    requires o in IngestAll(w, b, obs, arrivals).0
    ensures o in obs || exists k :: 0 <= k < |arrivals| && Says(w, b, o, arrivals[k])
  {
    if arrivals != [] {
      var front := arrivals[..|arrivals| - 1];
      var sofar := IngestAll(w, b, obs, front).0;
      if o in sofar {
        AllSay(w, b, obs, front, o);
        if k :| 0 <= k < |front| && Says(w, b, o, front[k]) {
          assert arrivals[k] == front[k];
        }
      } else {
        JudgedSays(w, b, sofar, Last(arrivals));
        assert Says(w, b, o, arrivals[|front|]);
      }
    }
  }

  /** Every observation that is stored after a batch was stored before, or says what one of its first hundred
    * inputs says. */
  lemma IngestedSayTheirInputs(w: World, b: Batch, obs: seq<Observation>, arrivals: seq<Arrival>, o: Observation)
    requires o in Ingest(w, b, obs, arrivals).0
    ensures o in obs || exists k :: 0 <= k < |arrivals| && k < 100 && Says(w, b, o, arrivals[k])
  {
    AllSay(w, b, obs, Admitted(arrivals), o);
    if k :| 0 <= k < |Admitted(arrivals)| && Says(w, b, o, Admitted(arrivals)[k]) {
      assert Admitted(arrivals)[k] == arrivals[k];
    }
  }

  /** When an input is a duplicate: exactly if an observation is stored whose key has the same workspace, plugin,
    * account, remote id, definition, version, times, run and value. The metric and the publication do not count. */
  lemma DuplicateIff(w: World, b: Batch, obs: seq<Observation>, a: Arrival)
    requires Check(w, b, a.input).Ok?
    ensures
      var d := Check(w, b, a.input).value.0;
      Judge(w, b, obs, a).Known? <==> exists o :: o in obs && SameMeasurement(b, d, a.input, o.key)
  {
    var key := KeyFor(b, Check(w, b, a.input).value.0, a.input);
    if o :| o in obs && SameMeasurement(b, Check(w, b, a.input).value.0, a.input, o.key) {
      var i :| 0 <= i < |obs| && obs[i] == o;
      assert Keys(obs)[i] == key;
    }
    var at := Locate(Keys(obs), key);
    if at.Some? {
      assert obs[at.value] in obs && obs[at.value].key == key;
    }
  }

  predicate SameMeasurement(b: Batch, d: Definition, i: Input, key: Key) {
    && key.workspaceId == b.workspaceId && key.plugin == b.plugin && key.account == b.account && key.runId == b.runId
    && key.definitionId == d.id && key.definitionVersion == d.version
    && key.remoteId == i.remoteId && key.value == i.value
    && key.observedAt == i.observedAt && key.windowStart == i.windowStart && key.windowEnd == i.windowEnd
  }

  /** What a report says: a failure names the metric of an input that was refused, and why; a duplicate names an
    * observation that is stored under the key of an input. */
  lemma {:induction false} ReportSays(w: World, b: Batch, obs: seq<Observation>, arrivals: seq<Arrival>)
    ensures
      var (after, r) := IngestAll(w, b, obs, arrivals);
      && (forall f :: f in r.failures ==>
            exists k :: 0 <= k < |arrivals| && arrivals[k].input.metric == f.0 && Check(w, b, arrivals[k].input) == Err(f.1))
      && (forall id :: id in r.duplicates ==>
            exists o, k :: o in after && 0 <= k < |arrivals| && o.id == id && Repeats(w, b, arrivals[k].input, o.key))
  {
    if arrivals != [] {
      var front := arrivals[..|arrivals| - 1];
      var a := Last(arrivals);
      ReportSays(w, b, obs, front);
      var (sofar, report) := IngestAll(w, b, obs, front);
      var v := Judge(w, b, sofar, a);
      var (after, r) := IngestAll(w, b, obs, arrivals);
      forall f | f in r.failures
        ensures exists k :: 0 <= k < |arrivals| && arrivals[k].input.metric == f.0 && Check(w, b, arrivals[k].input) == Err(f.1)
      {
        if f in report.failures {
          var k :| 0 <= k < |front| && front[k].input.metric == f.0 && Check(w, b, front[k].input) == Err(f.1);
          assert arrivals[k] == front[k];
        } else {
          assert arrivals[|front|] == a;
        }
      }
      forall id | id in r.duplicates
        ensures exists o, k :: o in after && 0 <= k < |arrivals| && o.id == id && Repeats(w, b, arrivals[k].input, o.key)
      {
        if id in report.duplicates {
          var o, k :| o in sofar && 0 <= k < |front| && o.id == id && Repeats(w, b, front[k].input, o.key);
          assert o in after && arrivals[k] == front[k];
        } else {
          KnownRepeats(w, b, sofar, a);
          var o :| o in sofar && o.id == id && Repeats(w, b, a.input, o.key);
          assert o in after && arrivals[|front|] == a;
        }
      }
    }
  }

  predicate Repeats(w: World, b: Batch, i: Input, key: Key) {
    Check(w, b, i).Ok? && SameMeasurement(b, Check(w, b, i).value.0, i, key)
  }

  lemma KnownRepeats(w: World, b: Batch, obs: seq<Observation>, a: Arrival)
    requires Judge(w, b, obs, a).Known?
    ensures exists o :: o in obs && o.id == Judge(w, b, obs, a).id && Repeats(w, b, a.input, o.key)
  {
    var at := Locate(Keys(obs), KeyFor(b, Check(w, b, a.input).value.0, a.input)).value;
    assert obs[at] in obs && Keys(obs)[at] == obs[at].key;
  }

  /** `resolve_publication`: the attribution of the post is created unless there is one. */
  function ResolveOne(list: seq<Attributions.Attribution>, draft: Attributions.Attribution): seq<Attributions.Attribution> {
    if draft.publicationId in Attributions.PublicationIds(list) then list else list + [draft]
  }

  /** The attribution of an input's post is resolved if the input passes the checks. */
  function ResolvedFor(
    w: World, b: Batch, drafts: string -> Attributions.Attribution, list: seq<Attributions.Attribution>, a: Arrival)
    : seq<Attributions.Attribution>
  {
    match Check(w, b, a.input)
    case Ok(found) => ResolveOne(list, drafts(found.1.id))
    case Err(_) => list
  }

  /** What ingestion does to the attributions: those of the posts of inputs that pass the checks. `drafts` is
    * what would be attributed to a post. */
  function ResolveAll(
    w: World, b: Batch, drafts: string -> Attributions.Attribution, list: seq<Attributions.Attribution>, arrivals: seq<Arrival>)
    : seq<Attributions.Attribution>
  {
    if arrivals == [] then list
    else
      ResolvedFor(w, b, drafts, ResolveAll(w, b, drafts, list, arrivals[..|arrivals| - 1]), Last(arrivals))
  }

  ghost predicate Attributed(list: seq<Attributions.Attribution>, obs: seq<Observation>) {
    forall o :: o in obs ==> o.publicationId in Attributions.PublicationIds(list)
  }

  lemma ResolvedStays(list: seq<Attributions.Attribution>, draft: Attributions.Attribution)
    ensures Attributions.PublicationIds(list) <= Attributions.PublicationIds(ResolveOne(list, draft))
    ensures draft.publicationId in Attributions.PublicationIds(ResolveOne(list, draft))
  {
    if draft.publicationId !in Attributions.PublicationIds(list) {
      assert Attributions.PublicationIds(list + [draft])[|list|] == draft.publicationId;
    }
  }

  /** Two files, one property: an observation is created only where its publication has an attribution, so
    * the totals over attributions miss none. */
  lemma {:induction false} IngestedAreAttributed(
    w: World, b: Batch, drafts: string -> Attributions.Attribution, obs: seq<Observation>,
    list: seq<Attributions.Attribution>, arrivals: seq<Arrival>)
    requires forall p :: drafts(p).publicationId == p
    requires Attributed(list, obs)
    ensures Attributed(ResolveAll(w, b, drafts, list, arrivals), IngestAll(w, b, obs, arrivals).0)
  {
    if arrivals != [] {
      var front := arrivals[..|arrivals| - 1];
      IngestedAreAttributed(w, b, drafts, obs, list, front);
      var found := Check(w, b, Last(arrivals).input);
      if found.Ok? {
        ResolvedStays(ResolveAll(w, b, drafts, list, front), drafts(found.value.1.id));
      }
    }
  }

  /** The collection run's record when it is saved. */
  datatype RunRecord = RunRecord(
    id: string, partial: bool, publicationCount: nat, observationCount: nat, duplicateCount: nat, failureCount: nat)

  /** The publications of all inputs, those beyond the limit included. */
  function Publications(arrivals: seq<Arrival>): set<string> {
    set a | a in arrivals :: if a.input.publicationId != "" then a.input.publicationId else a.input.remoteId
  }

  // ---------------------------------------------------------------- snapshots

  datatype Snapshot = Snapshot(id: string, capturedAt: string, values: map<Metric, int>)

  function SnapshotInput(s: Snapshot, p: Post, metric: Metric): Input
    requires metric in s.values
  {
    Input(p.externalId, p.id, metric, Whole(s.values[metric]), s.capturedAt, p.publishedAt, s.capturedAt)
  }

  /** The inputs that `ingest_metric_snapshot` makes of the metrics a snapshot has. */
  function SnapshotInputs(s: Snapshot, p: Post, metrics: seq<Metric>): seq<Input> {
    if metrics == [] then []
    else
      var front := SnapshotInputs(s, p, metrics[..|metrics| - 1]);
      if Last(metrics) in s.values then front + [SnapshotInput(s, p, Last(metrics))] else front
  }

  /** Every part of the batch comes from the snapshot and the post, unless a run id is given. */
  function SnapshotBatch(s: Snapshot, p: Post, runId: string): Batch {
    Batch(p.channelId, "channel." + p.channelId, p.channelId, if runId != "" then runId else "analytics_run_" + s.id)
  }

  ghost predicate ArrivalsOf(arrivals: seq<Arrival>, inputs: seq<Input>) {
    |arrivals| == |inputs| && forall i :: 0 <= i < |arrivals| ==> arrivals[i].input == inputs[i]
  }

  // ---------------------------------------------------------------- corrections

  datatype CorrectionError = ActorOrReasonMissing | ObservationMissing | CorrectionCycle

  datatype Op =
    | IngestOp(world: World, batch: Batch, arrivals: seq<Arrival>)
    | CorrectOp(id: string, value: Value, actor: string, reason: string, freshId: string)

  /** The key of an observation under another value. */
  function KeyWith(o: Observation, value: Value): Key {
    Key(o.workspaceId, o.plugin, o.account, o.remoteId, o.definitionId, o.definitionVersion, o.observedAt,
        o.windowStart, o.windowEnd, o.runId, value)
  }

  function CorrectedCopy(o: Observation, value: Value, freshId: string): Observation {
    o.(id := freshId, value := value, status := Valid, correctionOf := o.id, key := KeyWith(o, value))
  }

  /** `ObservationRepository.create`: nothing is stored under a key that is taken. */
  function Admit(obs: seq<Observation>, o: Observation): seq<Observation> {
    if o.key in Keys(obs) then obs else obs + [o]
  }

  /** `correct_observation`. */
  function Correct(ledger: Ledger, op: Op): Result<Ledger, CorrectionError>
    requires op.CorrectOp?
  {
    if op.actor == "" || op.reason == "" then Err(ActorOrReasonMissing)
    else
      var at := Locate(Ids(ledger.observations), op.id);
      if at.None? then Err(ObservationMissing)
      else
        var original := ledger.observations[at.value];
        if original.correctionOf != "" then Err(CorrectionCycle)
        else
          var marked := ledger.observations[at.value := original.(status := Corrected)];
          Ok(Ledger(Admit(marked, CorrectedCopy(original, op.value, op.freshId)),
                    ledger.corrections + [Correction(original.id, op.freshId, op.actor, op.reason)]))
  }

  function Apply(op: Op, ledger: Ledger): Outcome<Ledger, ()> {
    match op
    case IngestOp(w, b, arrivals) => Changed(ledger.(observations := Ingest(w, b, ledger.observations, arrivals).0), ())
    case CorrectOp(_, _, _, _, _) =>
      match Correct(ledger, op)
      case Ok(after) => Changed(after, ())
      case Err(_) => Raised
  }

  function Service(): Store<Op, Ledger, ()> {
    Store((op, ledger) => Apply(op, ledger), Ledger([], []))
  }

  // ---------------------------------------------------------------- what every run keeps

  /** An id that no observation and no correction mentions. */
  predicate Fresh(ledger: Ledger, id: string) {
    && id != "" && id !in Ids(ledger.observations)
    && forall i :: 0 <= i < |ledger.corrections| ==> ledger.corrections[i].correctedId != id
  }

  ghost predicate Permitted(ledger: Ledger, op: Op) {
    match op
    case IngestOp(_, _, arrivals) =>
      && (forall i :: 0 <= i < |arrivals| ==> Fresh(ledger, arrivals[i].freshId))
      && (forall i, j :: 0 <= i < j < |arrivals| ==> arrivals[i].freshId != arrivals[j].freshId)
    case CorrectOp(_, _, _, _, freshId) => Fresh(ledger, freshId)
  }

  /** A stored observation carries its own key; a correction copies its original, which is on record as
    * corrected and is not itself a correction. */
  ghost predicate Sound(obs: seq<Observation>, o: Observation) {
    && o.id != "" && o.key == KeyWith(o, o.value)
    && (o.correctionOf != "" ==>
          exists i :: 0 <= i < |obs| && obs[i].id == o.correctionOf && obs[i].correctionOf == "" && obs[i].status.Corrected?
            && o == CorrectedCopy(obs[i], o.value, o.id))
  }

  ghost predicate Documented(obs: seq<Observation>, c: Correction) {
    && (exists i :: 0 <= i < |obs| && obs[i].id == c.observationId && obs[i].correctionOf == "")
    && (forall i :: 0 <= i < |obs| && obs[i].id == c.correctedId ==> obs[i].correctionOf == c.observationId)
  }

  ghost predicate Inv(ledger: Ledger) {
    var obs := ledger.observations;
    && Distinct(Ids(obs)) && Distinct(Keys(obs))
    && (forall i :: 0 <= i < |obs| ==> Sound(obs, obs[i]))
    && (forall c :: 0 <= c < |ledger.corrections| ==> Documented(obs, ledger.corrections[c]))
  }

  lemma StillSound(obs: seq<Observation>, o: Observation, more: seq<Observation>)
    requires Sound(obs, o) && obs <= more
    ensures Sound(more, o)
  {
    if o.correctionOf != "" {
      var i :| 0 <= i < |obs| && obs[i].id == o.correctionOf && obs[i].correctionOf == "" && obs[i].status.Corrected?
            && o == CorrectedCopy(obs[i], o.value, o.id);
      assert more[i] == obs[i];
    }
  }

  lemma StillDocumented(obs: seq<Observation>, c: Correction, o: Observation)
    requires Documented(obs, c) && o.id != c.correctedId
    ensures Documented(obs + [o], c)
  {
    var i :| 0 <= i < |obs| && obs[i].id == c.observationId && obs[i].correctionOf == "";
    assert (obs + [o])[i] == obs[i];
  }

  lemma AppendKeeps(ledger: Ledger, o: Observation)
    requires Inv(ledger) && Fresh(ledger, o.id) && o.key !in Keys(ledger.observations)
    requires Sound(ledger.observations + [o], o)
    ensures Inv(ledger.(observations := ledger.observations + [o]))
  {
    var obs := ledger.observations;
    assert Ids(obs + [o]) == Ids(obs) + [o.id] && Keys(obs + [o]) == Keys(obs) + [o.key];
    forall i | 0 <= i < |obs|
      ensures Sound(obs + [o], obs[i])
    {
      StillSound(obs, obs[i], obs + [o]);
    }
    forall c | 0 <= c < |ledger.corrections|
      ensures Documented(obs + [o], ledger.corrections[c])
    {
      StillDocumented(obs, ledger.corrections[c], o);
    }
  }

  lemma {:induction false} IngestKeeps(w: World, b: Batch, ledger: Ledger, arrivals: seq<Arrival>)
    requires Inv(ledger) && Permitted(ledger, IngestOp(w, b, arrivals))
    ensures
      var after := ledger.(observations := IngestAll(w, b, ledger.observations, arrivals).0);
      && Inv(after)
      && (forall id :: Fresh(ledger, id) && (forall i :: 0 <= i < |arrivals| ==> arrivals[i].freshId != id) ==> Fresh(after, id))
  {
    if arrivals != [] {
      var front := arrivals[..|arrivals| - 1];
      var a := Last(arrivals);
      assert Permitted(ledger, IngestOp(w, b, front));
      IngestKeeps(w, b, ledger, front);
      var sofar := ledger.(observations := IngestAll(w, b, ledger.observations, front).0);
      var v := Judge(w, b, sofar.observations, a);
      assert Fresh(sofar, a.freshId);
      JudgeKeeps(w, b, sofar, a);
    }
  }

  lemma JudgeKeeps(w: World, b: Batch, ledger: Ledger, a: Arrival)
    requires Inv(ledger) && Fresh(ledger, a.freshId)
    ensures
      var after := ledger.(observations := Absorb(ledger.observations, Judge(w, b, ledger.observations, a)));
      && Inv(after)
      && (forall id :: Fresh(ledger, id) && id != a.freshId ==> Fresh(after, id))
  {
    var v := Judge(w, b, ledger.observations, a);
    if v.Created? {
      var obs := ledger.observations;
      AppendKeeps(ledger, v.observation);
      assert Ids(obs + [v.observation]) == Ids(obs) + [a.freshId];
    }
  }

  lemma MarkKeeps(ledger: Ledger, at: nat)
    requires Inv(ledger) && at < |ledger.observations| && ledger.observations[at].correctionOf == ""
    ensures
      var marked := ledger.observations[at := ledger.observations[at].(status := Corrected)];
      Inv(ledger.(observations := marked)) && Ids(marked) == Ids(ledger.observations) && Keys(marked) == Keys(ledger.observations)
  {
    var obs := ledger.observations;
    var marked := obs[at := obs[at].(status := Corrected)];
    assert Ids(marked) == Ids(obs) && Keys(marked) == Keys(obs);
    forall i | 0 <= i < |obs|
      ensures Sound(marked, marked[i])
    {
      assert Sound(obs, obs[i]);
      if obs[i].correctionOf != "" {
        var k :| 0 <= k < |obs| && obs[k].id == obs[i].correctionOf && obs[k].correctionOf == "" && obs[k].status.Corrected?
              && obs[i] == CorrectedCopy(obs[k], obs[i].value, obs[i].id);
        assert marked[k] == obs[k] || k == at;
        assert marked[k].status.Corrected? && marked[k].correctionOf == "" && marked[k].id == obs[k].id;
        assert CorrectedCopy(marked[k], obs[i].value, obs[i].id) == obs[i];
      }
    }
    forall c | 0 <= c < |ledger.corrections|
      ensures Documented(marked, ledger.corrections[c])
    {
      assert Documented(obs, ledger.corrections[c]);
      var k :| 0 <= k < |obs| && obs[k].id == ledger.corrections[c].observationId && obs[k].correctionOf == "";
      assert marked[k].id == obs[k].id && marked[k].correctionOf == "";
    }
  }

  /** What a correction that goes through finds and leaves. */
  lemma CorrectShape(ledger: Ledger, op: Op) returns (at: nat)
    requires Inv(ledger) && op.CorrectOp? && Permitted(ledger, op) && Correct(ledger, op).Ok?
    ensures at < |ledger.observations| && ledger.observations[at].id == op.id && ledger.observations[at].correctionOf == ""
    ensures
      var obs := ledger.observations;
      var after := Correct(ledger, op).value;
      var marked := obs[at := obs[at].(status := Corrected)];
      var copy := CorrectedCopy(obs[at], op.value, op.freshId);
      && after.observations == (if copy.key in Keys(obs) then marked else marked + [copy])
      && after.corrections == ledger.corrections + [Correction(op.id, op.freshId, op.actor, op.reason)]
      && Inv(after)
  {
    var obs := ledger.observations;
    at := Locate(Ids(obs), op.id).value;
    var marked := ledger.(observations := obs[at := obs[at].(status := Corrected)]);
    var copy := CorrectedCopy(obs[at], op.value, op.freshId);
    MarkKeeps(ledger, at);
    assert forall i :: 0 <= i < |obs| ==> marked.observations[i].id == Ids(obs)[i];
    var grown := marked;
    if copy.key !in Keys(obs) {
      var more := marked.observations + [copy];
      assert more[at] == marked.observations[at];
      assert CorrectedCopy(more[at], copy.value, copy.id) == copy;
      AppendKeeps(marked, copy);
      grown := marked.(observations := more);
      assert Ids(more) == Ids(marked.observations) + [op.freshId];
    }
    RecordKeeps(grown, at, Correction(op.id, op.freshId, op.actor, op.reason));
  }

  lemma RecordKeeps(ledger: Ledger, at: nat, c: Correction)
    requires Inv(ledger) && at < |ledger.observations|
    requires ledger.observations[at].id == c.observationId && ledger.observations[at].correctionOf == ""
    requires forall i :: 0 <= i < |ledger.observations| && ledger.observations[i].id == c.correctedId ==>
      ledger.observations[i].correctionOf == c.observationId
    ensures Inv(ledger.(corrections := ledger.corrections + [c]))
  {
    assert Documented(ledger.observations, c);
  }

  lemma StepKeeps(ledger: Ledger, op: Op)
    requires Inv(ledger) && Permitted(ledger, op)
    ensures Inv(Step(Service(), ledger, op))
  {
    if op.IngestOp? {
      var admitted := Admitted(op.arrivals);
      assert Permitted(ledger, op.(arrivals := admitted));
      IngestKeeps(op.world, op.batch, ledger, admitted);
    } else if Correct(ledger, op).Ok? {
      var at := CorrectShape(ledger, op);
    }
  }

  ghost predicate LegalRun(ops: seq<Op>) {
    Legal(Service(), Permitted, Service().initial, ops)
  }

  /** Over every run of ingests and corrections, keys and ids are unique, every correction copies an
    * original that is on record as corrected, and every correction record names an original. */
  lemma {:induction false} LedgerForever(ops: seq<Op>)
    requires LegalRun(ops)
    ensures Inv(Replay(Service(), Service().initial, ops))
  {
    if ops != [] {
      LegalPrefix(Service(), Permitted, Service().initial, ops);
      LedgerForever(ops[..|ops| - 1]);
      StepKeeps(Replay(Service(), Service().initial, ops[..|ops| - 1]), Last(ops));
    }
  }

  // ---------------------------------------------------------------- one store mutation at a time

  /** What ingests and corrections do to the two files, lock hold by lock hold: create an observation, save a
    * marked copy of one, append a correction record. */
  datatype Write = Add(observation: Observation) | Put(copy: Observation) | File(correction: Correction)

  function Written(x: Write, ledger: Ledger): Outcome<Ledger, ()> {
    match x
    case Add(o) =>
      if o.key in Keys(ledger.observations) then Unchanged(())
      else Changed(ledger.(observations := ledger.observations + [o]), ())
    case Put(copy) =>
      Changed(ledger.(observations := Upsert(ledger.observations, Ids(ledger.observations), copy.id, copy)), ())
    case File(c) => Changed(ledger.(corrections := ledger.corrections + [c]), ())
  }

  function Files(): Store<Write, Ledger, ()> {
    Store((x, ledger) => Written(x, ledger), Ledger([], []))
  }

  ghost predicate UniqueKeys(ledger: Ledger) {
    Distinct(Keys(ledger.observations))
  }

  /** A copy is saved under a key that no other observation has. */
  ghost predicate PutsOwnKey(ledger: Ledger, x: Write) {
    x.Put? ==>
      forall k :: 0 <= k < |ledger.observations| && Some(k) != Locate(Ids(ledger.observations), x.copy.id)
        ==> ledger.observations[k].key != x.copy.key
  }

  lemma WriteKeepsKeysIff(ledger: Ledger, x: Write)
    requires UniqueKeys(ledger)
    ensures UniqueKeys(Step(Files(), ledger, x)) <==> PutsOwnKey(ledger, x)
  {
    var obs := ledger.observations;
    match x
    case Add(o) => assert Keys(obs + [o]) == Keys(obs) + [o.key];
    case File(c) =>
    case Put(copy) =>
      var at := Locate(Ids(obs), copy.id);
      var after := Upsert(obs, Ids(obs), copy.id, copy);
      assert Keys(after) == if at.Some? then Keys(obs)[at.value := copy.key] else Keys(obs) + [copy.key];
      forall k | 0 <= k < |obs| && Some(k) != at && Distinct(Keys(after))
        ensures obs[k].key != copy.key
      {
        var here := if at.Some? then at.value else |obs|;
        assert Keys(after)[k] == obs[k].key && Keys(after)[here] == copy.key;
      }
  }

  /** However ingests and corrections interleave, and wherever they die: keys are unique throughout exactly if
    * every copy is saved under its own key; creating never doubles one. */
  lemma KeysExactly(ledger: Ledger, writes: seq<Write>)
    requires UniqueKeys(ledger)
    ensures Throughout(Files(), UniqueKeys, ledger, writes) <==> Legal(Files(), PutsOwnKey, ledger, writes)
  {
    forall e, x | UniqueKeys(e)
      ensures UniqueKeys(Step(Files(), e, x)) <==> PutsOwnKey(e, x)
    {
      WriteKeepsKeysIff(e, x);
    }
    KeptExactly(Files(), AnyState, AnyStep, UniqueKeys, PutsOwnKey, ledger, writes);
  }

  /** What a correction knows at each of its writes. It saves the copy that it read, marked; a stored
    * observation never changes otherwise, so that copy is the stored one, marked. It creates the corrected
    * copy of an original that it has marked, and records what it has done. New ids are new. */
  ghost predicate InOrder(ledger: Ledger, x: Write) {
    var obs := ledger.observations;
    match x
    case Add(o) => Fresh(ledger, o.id) && Sound(obs + [o], o)
    case Put(copy) =>
      exists i :: 0 <= i < |obs| && obs[i].id == copy.id && obs[i].correctionOf == "" && copy == obs[i].(status := Corrected)
    case File(c) => Documented(obs, c)
  }

  lemma WriteKeeps(ledger: Ledger, x: Write)
    requires Inv(ledger) && InOrder(ledger, x)
    ensures Inv(Step(Files(), ledger, x))
  {
    var obs := ledger.observations;
    match x
    case Add(o) =>
      if o.key !in Keys(obs) {
        AppendKeeps(ledger, o);
      }
    case Put(copy) =>
      var i :| 0 <= i < |obs| && obs[i].id == copy.id && obs[i].correctionOf == "" && copy == obs[i].(status := Corrected);
      assert Ids(obs)[i] == copy.id;
      LocateDistinct(Ids(obs), i);
      MarkKeeps(ledger, i);
    case File(c) =>
  }

  /** In every interleaving of the writes of ingests and corrections, any of them cut short by a death, all
    * that a run of whole operations keeps is kept. */
  lemma {:induction false} WritesForever(writes: seq<Write>)
    requires Legal(Files(), InOrder, Files().initial, writes)
    ensures Inv(Replay(Files(), Files().initial, writes))
  {
    if writes != [] {
      LegalPrefix(Files(), InOrder, Files().initial, writes);
      WritesForever(writes[..|writes| - 1]);
      WriteKeeps(Replay(Files(), Files().initial, writes[..|writes| - 1]), Last(writes));
    }
  }

  // ---------------------------------------------------------------- the integrity scan

  /** What the scan reports as a correction cycle. */
  predicate Cyclic(corrections: seq<Correction>, c: nat)
    requires c < |corrections|
  {
    exists d :: 0 <= d < |corrections| && corrections[d].correctedId == corrections[c].observationId
  }

  datatype Issue =
    | MissingDefinition(id: string)
    | MissingPublication(id: string)
    | DuplicateKey(key: Key, count: nat)
    | CycleAt(index: nat)

  /** What is there to report about the observations in scope and the corrections. */
  ghost predicate Reportable(w: World, records: seq<Observation>, corrections: seq<Correction>, x: Issue) {
    match x
    case MissingDefinition(id) => exists o :: o in records && o.id == id && !Defined(w.definitions, o)
    case MissingPublication(id) => exists o :: o in records && o.id == id && o.publicationId !in PostIds(w.posts)
    case DuplicateKey(key, count) => count == multiset(Keys(records))[key] && count > 1
    case CycleAt(c) => c < |corrections| && Cyclic(corrections, c)
  }

  /** A correction is reported as a cycle exactly if it corrects what a correction made. */
  lemma CyclicIff(corrections: seq<Correction>, c: nat)
    requires c < |corrections|
    ensures Cyclic(corrections, c) <==> exists d :: d in corrections && d.correctedId == corrections[c].observationId
  {
    if d :| d in corrections && d.correctedId == corrections[c].observationId {
      var i :| 0 <= i < |corrections| && corrections[i] == d;
    }
  }

  /** In every state that ingests and corrections reach no correction targets a corrected observation. */
  lemma NoCycles(ops: seq<Op>, c: nat)
    requires LegalRun(ops) && c < |Replay(Service(), Service().initial, ops).corrections|
    ensures !Cyclic(Replay(Service(), Service().initial, ops).corrections, c)
  {
    var ledger := Replay(Service(), Service().initial, ops);
    LedgerForever(ops);
    assert Documented(ledger.observations, ledger.corrections[c]);
    var i :| 0 <= i < |ledger.observations| && ledger.observations[i].id == ledger.corrections[c].observationId
             && ledger.observations[i].correctionOf == "";
    forall d | 0 <= d < |ledger.corrections|
      ensures ledger.corrections[d].correctedId != ledger.corrections[c].observationId
    {
      assert Documented(ledger.observations, ledger.corrections[d]);
      var k :| 0 <= k < |ledger.observations| && ledger.observations[k].id == ledger.corrections[d].observationId;
      assert Sound(ledger.observations, ledger.observations[k]);
    }
  }

  /** The observations a scan looks at; an empty workspace id means all. */
  function Scope(obs: seq<Observation>, workspaceId: string): seq<Observation> {
    if obs == [] then []
    else
      var front := Scope(obs[..|obs| - 1], workspaceId);
      if workspaceId == "" || Last(obs).workspaceId == workspaceId then front + [Last(obs)] else front
  }

  /** A scan looks at exactly the workspace's observations, or at all if none is named. */
  lemma {:induction false} ScopeIs(obs: seq<Observation>, workspaceId: string, o: Observation)
    ensures o in Scope(obs, workspaceId) <==> o in obs && (workspaceId == "" || o.workspaceId == workspaceId)
  {
    if obs != [] {
      ScopeIs(obs[..|obs| - 1], workspaceId, o);
      assert obs == obs[..|obs| - 1] + [Last(obs)];
    }
  }

  lemma {:induction false} ScopeCounts(obs: seq<Observation>, workspaceId: string, key: Key)
    ensures multiset(Keys(Scope(obs, workspaceId)))[key] <= multiset(Keys(obs))[key]
  {
    if obs != [] {
      var front := obs[..|obs| - 1];
      ScopeCounts(front, workspaceId, key);
      assert Keys(obs) == Keys(front) + [Last(obs).key];
      assert Keys(Scope(front, workspaceId) + [Last(obs)]) == Keys(Scope(front, workspaceId)) + [Last(obs).key];
    }
  }

  lemma {:induction false} DistinctCounts<T>(s: seq<T>, x: T)
    requires Distinct(s)
    ensures multiset(s)[x] <= 1
  {
    if s != [] {
      var front := s[..|s| - 1];
      assert s == front + [Last(s)];
      DistinctCounts(front, x);
    }
  }

  /** No scan of a state that ingests and corrections reach counts a key twice. */
  lemma NoDuplicateKeys(ops: seq<Op>, workspaceId: string, key: Key)
    requires LegalRun(ops)
    ensures multiset(Keys(Scope(Replay(Service(), Service().initial, ops).observations, workspaceId)))[key] <= 1
  {
    var obs := Replay(Service(), Service().initial, ops).observations;
    LedgerForever(ops);
    DistinctCounts(Keys(obs), key);
    ScopeCounts(obs, workspaceId, key);
  }

  /** In every state that ingests and corrections reach, a scan of any workspace reports neither a duplicate
    * key nor a correction cycle. */
  lemma ScansAreClean(ops: seq<Op>, w: World, workspaceId: string, x: Issue)
    requires LegalRun(ops)
    requires
      var ledger := Replay(Service(), Service().initial, ops);
      Reportable(w, Scope(ledger.observations, workspaceId), ledger.corrections, x)
    ensures !x.DuplicateKey? && !x.CycleAt?
  {
    match x
    case DuplicateKey(key, count) => NoDuplicateKeys(ops, workspaceId, key);
    case CycleAt(c) => NoCycles(ops, c);
    case _ =>
  }

  // ---------------------------------------------------------------- re-ingesting

  lemma IngestGrows(w: World, b: Batch, obs: seq<Observation>, arrivals: seq<Arrival>)
    ensures obs <= IngestAll(w, b, obs, arrivals).0
  {
    AllAccountedFor(w, b, obs, arrivals);
  }

  /** The input is stored already, or fails its checks. */
  ghost predicate Settled(w: World, b: Batch, obs: seq<Observation>, i: Input) {
    Check(w, b, i).Ok? ==> KeyFor(b, Check(w, b, i).value.0, i) in Keys(obs)
  }

  lemma {:induction false} IngestSettles(w: World, b: Batch, obs: seq<Observation>, arrivals: seq<Arrival>, k: nat)
    requires k < |arrivals|
    ensures Settled(w, b, IngestAll(w, b, obs, arrivals).0, arrivals[k].input)
  {
    var front := arrivals[..|arrivals| - 1];
    var sofar := IngestAll(w, b, obs, front).0;
    var v := Judge(w, b, sofar, Last(arrivals));
    assert Keys(sofar) <= Keys(Absorb(sofar, v));
    if k < |front| {
      IngestSettles(w, b, obs, front, k);
    } else if v.Created? {
      assert Keys(Absorb(sofar, v))[|sofar|] == v.observation.key;
    }
  }

  lemma {:induction false} SettledCreatesNothing(w: World, b: Batch, obs: seq<Observation>, arrivals: seq<Arrival>)
    requires forall k :: 0 <= k < |arrivals| ==> Settled(w, b, obs, arrivals[k].input)
    ensures IngestAll(w, b, obs, arrivals).0 == obs && IngestAll(w, b, obs, arrivals).1.created == []
  {
    if arrivals != [] {
      SettledCreatesNothing(w, b, obs, arrivals[..|arrivals| - 1]);
    }
  }

  lemma StepKeepsKeys(ledger: Ledger, op: Op)
    ensures Keys(ledger.observations) <= Keys(Step(Service(), ledger, op).observations)
  {
    var obs := ledger.observations;
    if op.IngestOp? {
      IngestGrows(op.world, op.batch, obs, Admitted(op.arrivals));
    } else if Correct(ledger, op).Ok? {
      var at := Locate(Ids(obs), op.id).value;
      assert Keys(obs[at := obs[at].(status := Corrected)]) == Keys(obs);
    }
  }

  lemma {:induction false} KeysStay(ledger: Ledger, ops: seq<Op>)
    ensures Keys(ledger.observations) <= Keys(Replay(Service(), ledger, ops).observations)
  {
    if ops != [] {
      KeysStay(ledger, ops[..|ops| - 1]);
      StepKeepsKeys(Replay(Service(), ledger, ops[..|ops| - 1]), Last(ops));
    }
  }

  /** Ingesting the same inputs again under the same run id stores nothing, whatever ingests and
    * corrections came in between: the corrected values stay as they are. */
  lemma ReingestCreatesNothing(
    ledger: Ledger, w: World, b: Batch, first: seq<Arrival>, between: seq<Op>, again: seq<Arrival>)
    requires |first| == |again| && forall k :: 0 <= k < |first| ==> first[k].input == again[k].input
    ensures
      var later := Replay(Service(), Step(Service(), ledger, IngestOp(w, b, first)), between);
      && Ingest(w, b, later.observations, again).1.created == []
      && Step(Service(), later, IngestOp(w, b, again)) == later
  {
    var once := Step(Service(), ledger, IngestOp(w, b, first));
    var later := Replay(Service(), once, between);
    KeysStay(once, between);
    var admitted := Admitted(again);
    forall k | 0 <= k < |admitted|
      ensures Settled(w, b, later.observations, admitted[k].input)
    {
      IngestSettles(w, b, ledger.observations, Admitted(first), k);
    }
    SettledCreatesNothing(w, b, later.observations, admitted);
  }

  lemma {:induction false} InputsFrom(s: Snapshot, p: Post, metrics: seq<Metric>, i: Input)
    ensures i in SnapshotInputs(s, p, metrics) <==>
      && i.metric in metrics && i.metric in s.values && i.value == Whole(s.values[i.metric])
      && i.publicationId == p.id && i.remoteId == p.externalId
      && i.observedAt == s.capturedAt && i.windowStart == p.publishedAt && i.windowEnd == s.capturedAt
  {
    if metrics != [] {
      InputsFrom(s, p, metrics[..|metrics| - 1], i);
      assert metrics == metrics[..|metrics| - 1] + [Last(metrics)];
    }
  }

  /** What a snapshot is read as: one input for each of the seven metrics that it has, with its number, observed when
    * the snapshot was taken, over the time since the post was published. */
  lemma SnapshotSays(s: Snapshot, p: Post, i: Input)
    ensures i in SnapshotInputs(s, p, METRIC_FIELDS) <==>
      && i.metric in {Impressions, Views, Reactions, Comments, Reposts, Shares, Clicks}
      && i.metric in s.values && i.value == Whole(s.values[i.metric])
      && i.publicationId == p.id && i.remoteId == p.externalId
      && i.observedAt == s.capturedAt && i.windowStart == p.publishedAt && i.windowEnd == s.capturedAt
  {
    InputsFrom(s, p, METRIC_FIELDS, i);
  }

  lemma ArrivalFrom(s: Snapshot, p: Post, metrics: seq<Metric>, arrivals: seq<Arrival>, k: nat)
    requires ArrivalsOf(arrivals, SnapshotInputs(s, p, metrics)) && k < |arrivals|
    ensures
      var i := arrivals[k].input;
      && i.metric in s.values && i.value == Whole(s.values[i.metric])
      && i.publicationId == p.id && i.remoteId == p.externalId && i.observedAt == s.capturedAt
  {
    var inputs := SnapshotInputs(s, p, metrics);
    assert inputs[k] in inputs && arrivals[k].input == inputs[k];
    InputsFrom(s, p, metrics, inputs[k]);
  }

  lemma StoredFrom(
    w: World, b: Batch, s: Snapshot, p: Post, metrics: seq<Metric>, obs: seq<Observation>, arrivals: seq<Arrival>, o: Observation)
    requires ArrivalsOf(arrivals, SnapshotInputs(s, p, metrics))
    requires o in Ingest(w, b, obs, arrivals).0 && o !in obs
    ensures o.metric in s.values && o.value == Whole(s.values[o.metric])
    ensures o.publicationId == p.id && o.remoteId == p.externalId && o.observedAt == s.capturedAt
    ensures o.workspaceId == b.workspaceId && o.account == b.account && o.plugin == b.plugin && o.runId == b.runId
  {
    IngestedSayTheirInputs(w, b, obs, arrivals, o);
    var k :| 0 <= k < |arrivals| && k < 100 && Says(w, b, o, arrivals[k]);
    ArrivalFrom(s, p, metrics, arrivals, k);
  }

  /** What ingesting a snapshot stores: observations of its numbers for that post, under the post's account and its
    * channel's plugin, in the run that is named or else in the snapshot's own. */
  lemma SnapshotStores(
    w: World, s: Snapshot, p: Post, runId: string, obs: seq<Observation>, arrivals: seq<Arrival>, o: Observation)
    requires ArrivalsOf(arrivals, SnapshotInputs(s, p, METRIC_FIELDS))
    requires o in Ingest(w, SnapshotBatch(s, p, runId), obs, arrivals).0 && o !in obs
    ensures o.metric in s.values && o.value == Whole(s.values[o.metric])
    ensures o.publicationId == p.id && o.remoteId == p.externalId && o.observedAt == s.capturedAt
    ensures o.workspaceId == o.account == p.channelId && o.plugin == "channel." + p.channelId
    ensures o.runId == if runId == "" then "analytics_run_" + s.id else runId
  {
    StoredFrom(w, SnapshotBatch(s, p, runId), s, p, METRIC_FIELDS, obs, arrivals, o);
  }

  /** A snapshot names its own run, so ingesting it twice is ingesting the same batch twice. */
  lemma SnapshotsAreIdempotent(
    ledger: Ledger, w: World, s: Snapshot, p: Post, first: seq<Arrival>, between: seq<Op>, again: seq<Arrival>)
    requires ArrivalsOf(first, SnapshotInputs(s, p, METRIC_FIELDS)) && ArrivalsOf(again, SnapshotInputs(s, p, METRIC_FIELDS))
    ensures
      var b := SnapshotBatch(s, p, "");
      var later := Replay(Service(), Step(Service(), ledger, IngestOp(w, b, first)), between);
      Step(Service(), later, IngestOp(w, b, again)) == later
  {
    ReingestCreatesNothing(ledger, w, SnapshotBatch(s, p, ""), first, between, again);
  }

  // ---------------------------------------------------------------- what a correction does to the active ones

  /** The statuses that the read model counts. */
  predicate Active(o: Observation) {
    o.status.Valid? || o.status.Provisional?
  }

  function ActiveCount(obs: seq<Observation>): nat {
    if obs == [] then 0 else ActiveCount(obs[..|obs| - 1]) + (if Active(Last(obs)) then 1 else 0)
  }

  lemma {:induction false} ActiveCountUpdate(obs: seq<Observation>, at: nat, o: Observation)
    requires at < |obs|
    ensures
      ActiveCount(obs[at := o]) + (if Active(obs[at]) then 1 else 0) == ActiveCount(obs) + (if Active(o) then 1 else 0)
  {
    var front := obs[..|obs| - 1];
    if at < |front| {
      ActiveCountUpdate(front, at, o);
      assert obs[at := o][..|obs| - 1] == front[at := o];
    } else {
      assert obs[at := o][..|obs| - 1] == front;
    }
  }

  /** A correction keeps its original on record, marked corrected and otherwise as it was, and touches no
    * other observation. The active ones change by what is added, one if the new key is unused, less what is
    * taken away, one if the original was active. */
  lemma CorrectionBalance(ledger: Ledger, op: Op)
    requires Inv(ledger) && op.CorrectOp? && Permitted(ledger, op) && Correct(ledger, op).Ok?
    ensures
      var obs := ledger.observations;
      var after := Correct(ledger, op).value.observations;
      var at := Locate(Ids(obs), op.id).value;
      var unused := KeyWith(obs[at], op.value) !in Keys(obs);
      && |after| == |obs| + (if unused then 1 else 0)
      && after[at] == obs[at].(status := Corrected)
      && (forall i :: 0 <= i < |obs| && i != at ==> after[i] == obs[i])
      && (unused ==> after[|obs|] == obs[at].(id := op.freshId, value := op.value, status := Valid,
                                             correctionOf := op.id, key := KeyWith(obs[at], op.value)))
      && ActiveCount(after) == ActiveCount(obs) + (if unused then 1 else 0) - (if Active(obs[at]) then 1 else 0)
      && (ActiveCount(after) == ActiveCount(obs) <==> (unused <==> Active(obs[at])))
  {
    var obs := ledger.observations;
    var at := CorrectShape(ledger, op);
    assert Ids(obs)[at] == op.id;
    LocateDistinct(Ids(obs), at);
    var marked := obs[at := obs[at].(status := Corrected)];
    ActiveCountUpdate(obs, at, marked[at]);
    assert (marked + [CorrectedCopy(obs[at], op.value, op.freshId)])[..|obs|] == marked;
  }

  /** When a correction is refused: without actor or reason, of nothing that is stored, and of a correction. */
  lemma CorrectionRefusedIff(ledger: Ledger, op: Op)
    requires op.CorrectOp?
    ensures
      var at := Locate(Ids(ledger.observations), op.id);
      && (Correct(ledger, op) == Err(ActorOrReasonMissing) <==> op.actor == "" || op.reason == "")
      && (Correct(ledger, op) == Err(ObservationMissing) <==> op.actor != "" && op.reason != "" && at == None)
      && (Correct(ledger, op) == Err(CorrectionCycle) <==>
            op.actor != "" && op.reason != "" && at.Some? && ledger.observations[at.value].correctionOf != "")
      && (Correct(ledger, op).Ok? ==>
            Correct(ledger, op).value.corrections == ledger.corrections + [Correction(op.id, op.freshId, op.actor, op.reason)])
  {
    var at := Locate(Ids(ledger.observations), op.id);
    assert at.Some? ==> Ids(ledger.observations)[at.value] == ledger.observations[at.value].id;
  }

  /** Correcting an active observation to the value it has takes it out of the active ones and puts nothing
    * in its place, though a correction is recorded. */
  lemma SameValueIsLost(ledger: Ledger, op: Op, at: nat)
    requires Inv(ledger) && op.CorrectOp? && Permitted(ledger, op) && Correct(ledger, op).Ok?
    requires at < |ledger.observations| && ledger.observations[at].id == op.id
    requires Active(ledger.observations[at]) && ledger.observations[at].value == op.value
    ensures ActiveCount(Correct(ledger, op).value.observations) == ActiveCount(ledger.observations) - 1
    ensures |Correct(ledger, op).value.corrections| == |ledger.corrections| + 1
  {
    var obs := ledger.observations;
    CorrectionBalance(ledger, op);
    assert Ids(obs)[at] == op.id;
    LocateDistinct(Ids(obs), at);
    assert Sound(obs, obs[at]);
    assert Keys(obs)[at] == KeyWith(obs[at], op.value);
  }

  lemma CorrectGoesThrough(ledger: Ledger, op: Op, at: nat)
    requires Inv(ledger) && op.CorrectOp? && op.actor != "" && op.reason != ""
    requires at < |ledger.observations| && ledger.observations[at].id == op.id && ledger.observations[at].correctionOf == ""
    ensures Locate(Ids(ledger.observations), op.id) == Some(at)
    ensures Correct(ledger, op).Ok? && Step(Service(), ledger, op) == Correct(ledger, op).value
  {
    assert Ids(ledger.observations)[at] == op.id;
    LocateDistinct(Ids(ledger.observations), at);
  }

  /** After a correction with an unused key that key is taken, the original can be corrected again, and the
    * active ones are as many as before if the original was one of them. */
  lemma AfterCorrection(ledger: Ledger, op: Op, at: nat)
    requires Inv(ledger) && op.CorrectOp? && op.actor != "" && op.reason != "" && Permitted(ledger, op)
    requires at < |ledger.observations| && ledger.observations[at].id == op.id && ledger.observations[at].correctionOf == ""
    requires KeyWith(ledger.observations[at], op.value) !in Keys(ledger.observations)
    ensures
      var obs := ledger.observations;
      var after := Step(Service(), ledger, op);
      && Inv(after) && at < |after.observations| && after.observations[at] == obs[at].(status := Corrected)
      && Keys(after.observations) == Keys(obs) + [KeyWith(obs[at], op.value)]
      && ActiveCount(after.observations) == ActiveCount(obs) + (if Active(obs[at]) then 0 else 1)
  {
    CorrectGoesThrough(ledger, op, at);
    CorrectionBalance(ledger, op);
    StepKeeps(ledger, op);
  }

  /** An original can be corrected again: with two unused values both corrections are active at once. */
  lemma CorrectedTwiceCountsTwice(ledger: Ledger, first: Op, second: Op, at: nat)
    requires Inv(ledger) && first.CorrectOp? && second.CorrectOp? && first.id == second.id && first.value != second.value
    requires at < |ledger.observations| && ledger.observations[at].id == first.id
    requires Active(ledger.observations[at]) && ledger.observations[at].correctionOf == ""
    requires first.actor != "" && first.reason != "" && second.actor != "" && second.reason != ""
    requires Permitted(ledger, first) && Permitted(Step(Service(), ledger, first), second)
    requires KeyWith(ledger.observations[at], first.value) !in Keys(ledger.observations)
    requires KeyWith(ledger.observations[at], second.value) !in Keys(ledger.observations)
    ensures
      var after := Step(Service(), Step(Service(), ledger, first), second);
      ActiveCount(after.observations) == ActiveCount(ledger.observations) + 1
  {
    AfterCorrection(ledger, first, at);
    AfterCorrection(Step(Service(), ledger, first), second, at);
  }

  /** A correction that dies between its first two writes leaves its original marked and puts nothing in its
    * place: one active observation fewer, no correction on record, every key still taken. */
  lemma CorrectionCutShort(ledger: Ledger, at: nat)
    requires Inv(ledger) && at < |ledger.observations|
    requires Active(ledger.observations[at]) && ledger.observations[at].correctionOf == ""
    ensures
      var mark := Put(ledger.observations[at].(status := Corrected));
      var after := Step(Files(), ledger, mark);
      && InOrder(ledger, mark) && Inv(after)
      && ActiveCount(after.observations) == ActiveCount(ledger.observations) - 1
      && Keys(after.observations) == Keys(ledger.observations) && after.corrections == ledger.corrections
  {
    var obs := ledger.observations;
    var mark := Put(obs[at].(status := Corrected));
    assert Ids(obs)[at] == mark.copy.id;
    LocateDistinct(Ids(obs), at);
    WriteKeeps(ledger, mark);
    MarkKeeps(ledger, at);
    ActiveCountUpdate(obs, at, mark.copy);
  }

  /** And as its key is taken, ingesting the same inputs again does not bring the value back. */
  lemma CutShortIsNotReingested(ledger: Ledger, at: nat, w: World, b: Batch, first: seq<Arrival>, again: seq<Arrival>)
    requires Inv(ledger) && at < |ledger.observations| && ledger.observations[at].correctionOf == "" && Active(ledger.observations[at])
    requires exists before :: ledger.observations == Ingest(w, b, before, first).0
    requires |first| == |again| && forall k :: 0 <= k < |first| ==> first[k].input == again[k].input
    ensures
      var after := Step(Files(), ledger, Put(ledger.observations[at].(status := Corrected)));
      Ingest(w, b, after.observations, again).0 == after.observations
  {
    var before :| ledger.observations == Ingest(w, b, before, first).0;
    CorrectionCutShort(ledger, at);
    var after := Step(Files(), ledger, Put(ledger.observations[at].(status := Corrected)));
    var admitted := Admitted(again);
    forall k | 0 <= k < |admitted|
      ensures Settled(w, b, after.observations, admitted[k].input)
    {
      IngestSettles(w, b, before, Admitted(first), k);
    }
    SettledCreatesNothing(w, b, after.observations, admitted);
  }

  // ---------------------------------------------------------------- the services, step by step

  lemma CountOneMore(records: seq<Observation>, index: nat)
    requires index < |records|
    ensures Keys(records[..index + 1]) == Keys(records[..index]) + [records[index].key]
    ensures multiset(Keys(records[..index + 1])) == multiset(Keys(records[..index])) + multiset{records[index].key}
  {
    assert Keys(records[..index + 1]) == Keys(records[..index]) + [records[index].key];
  }

  class AnalyticsStore {
    var observations: seq<Observation>
    var corrections: seq<Correction>

    constructor ()
      ensures Stored() == Service().initial
    {
      observations, corrections := [], [];
    }

    ghost function Stored(): Ledger
      reads this
    {
      Ledger(observations, corrections)
    }

    /** `ObservationRepository.create`. */
    method CreateObservation(observation: Observation) returns (stored: Observation, duplicate: bool)
      modifies this`observations
      ensures duplicate == (observation.key in Keys(old(observations)))
      ensures observations == Admit(old(observations), observation)
      ensures stored == if duplicate then old(observations)[Locate(Keys(old(observations)), observation.key).value] else observation
    {
      ghost var keys := Keys(observations);
      for index := 0 to |observations|
        invariant observation.key !in keys[..index]
      {
        if observations[index].key == observation.key {
          assert keys[index] == observation.key;
          return observations[index], true;
        }
        assert keys[..index + 1] == keys[..index] + [observations[index].key];
      }
      assert keys[..|observations|] == keys;
      observations := observations + [observation];
      return observation, false;
    }

    /** The inputs of `ingest_metric_snapshot`: one for each metric that the snapshot has. */
    static method CollectInputs(s: Snapshot, p: Post) returns (inputs: seq<Input>)
      ensures inputs == SnapshotInputs(s, p, METRIC_FIELDS)
    {
      inputs := [];
      for index := 0 to |METRIC_FIELDS|
        invariant inputs == SnapshotInputs(s, p, METRIC_FIELDS[..index])
      {
        assert METRIC_FIELDS[..index + 1][..index] == METRIC_FIELDS[..index];
        if METRIC_FIELDS[index] in s.values {
          inputs := inputs + [SnapshotInput(s, p, METRIC_FIELDS[index])];
        }
      }
      assert METRIC_FIELDS[..|METRIC_FIELDS|] == METRIC_FIELDS;
    }

    /** `_ingest_one`. */
    method IngestOne(
      w: World, b: Batch, drafts: string -> Attributions.Attribution, attributions: Attributions.AttributionList, item: Arrival)
      returns (verdict: Verdict)
      modifies this`observations, attributions
      ensures verdict == Judge(w, b, old(observations), item) && observations == Absorb(old(observations), verdict)
      ensures attributions.attributions == ResolvedFor(w, b, drafts, old(attributions.attributions), item)
    {
      match Check(w, b, item.input)
      case Err(why) =>
        return Failed(item.input.metric, why);
      case Ok(found) =>
        ResolvePublication(attributions, drafts(found.1.id));
        var stored, duplicate := CreateObservation(NewObservation(b, found.0, found.1, item));
        return if duplicate then Known(stored.id) else Created(stored);
    }

    method IngestObservations(
      w: World, b: Batch, drafts: string -> Attributions.Attribution, attributions: Attributions.AttributionList,
      arrivals: seq<Arrival>)
      returns (report: Report, run: RunRecord)
      modifies this`observations, attributions
      ensures (observations, report) == Ingest(w, b, old(observations), arrivals)
      ensures attributions.attributions == ResolveAll(w, b, drafts, old(attributions.attributions), Admitted(arrivals))
      ensures run.id == b.runId && (run.partial <==> report.failures != [])
      ensures run.publicationCount == |Publications(arrivals)| && run.observationCount == |report.created|
      ensures run.duplicateCount == |report.duplicates| && run.failureCount == |report.failures|
    {
      report := Report([], [], []);
      var admitted := if |arrivals| > BATCH_LIMIT then arrivals[..BATCH_LIMIT] else arrivals;
      for index := 0 to |admitted|
        invariant (observations, report) == IngestAll(w, b, old(observations), admitted[..index])
        invariant attributions.attributions == ResolveAll(w, b, drafts, old(attributions.attributions), admitted[..index])
      {
        assert admitted[..index + 1][..index] == admitted[..index];
        var verdict := IngestOne(w, b, drafts, attributions, admitted[index]);
        match verdict
        case Created(o) =>
          report := report.(created := report.created + [o]);
        case Known(id) =>
          report := report.(duplicates := report.duplicates + [id]);
        case Failed(metric, why) =>
          report := report.(failures := report.failures + [(metric, why)]);
      }
      assert admitted[..|admitted|] == admitted;
      run := RunRecord(b.runId, report.failures != [], |Publications(arrivals)|,
                       |report.created|, |report.duplicates|, |report.failures|);
    }

    static method ResolvePublication(attributions: Attributions.AttributionList, draft: Attributions.Attribution)
      modifies attributions
      ensures attributions.attributions == ResolveOne(old(attributions.attributions), draft)
    {
      var current := Attributions.Current(attributions.attributions, draft.publicationId);
      if current.None? {
        var stored := attributions.CreateAttribution(draft);
      } else {
        var k :| 0 <= k < |attributions.attributions| && attributions.attributions[k] == current.value;
        assert Attributions.PublicationIds(attributions.attributions)[k] == draft.publicationId;
      }
    }

    method CorrectObservation(op: Op) returns (error: Option<CorrectionError>)
      requires op.CorrectOp?
      modifies this
      ensures
        match Correct(old(Stored()), op)
        case Ok(after) => error.None? && Stored() == after
        case Err(e) => error == Some(e) && Stored() == old(Stored())
    {
      if op.actor == "" || op.reason == "" {
        return Some(ActorOrReasonMissing);
      }
      var at := Locate(Ids(observations), op.id);
      if at.None? {
        return Some(ObservationMissing);
      }
      var original := observations[at.value];
      if original.correctionOf != "" {
        return Some(CorrectionCycle);
      }
      original := original.(status := Corrected);
      observations := UpsertInPlace(observations, Ids(observations), original.id, original);
      var corrected := CorrectedCopy(original, op.value, op.freshId);
      var stored, duplicate := CreateObservation(corrected);
      corrections := corrections + [Correction(original.id, corrected.id, op.actor, op.reason)];
      return None;
    }

    /** `list_all`, in stored order. */
    method ListAll(workspaceId: string) returns (records: seq<Observation>)
      ensures records == Scope(observations, workspaceId)
    {
      records := [];
      for index := 0 to |observations|
        invariant records == Scope(observations[..index], workspaceId)
      {
        assert observations[..index + 1][..index] == observations[..index];
        if workspaceId == "" || observations[index].workspaceId == workspaceId {
          records := records + [observations[index]];
        }
      }
      assert observations[..|observations|] == observations;
    }

    method CountKeys(records: seq<Observation>) returns (counts: map<Key, nat>)
      ensures forall key :: key in counts <==> key in Keys(records)
      ensures forall key :: key in counts ==> counts[key] == multiset(Keys(records))[key]
    {
      counts := map[];
      for index := 0 to |records|
        invariant forall key :: key in counts <==> key in Keys(records[..index])
        invariant forall key :: key in counts ==> counts[key] == multiset(Keys(records[..index]))[key]
      {
        var key := records[index].key;
        CountOneMore(records, index);
        counts := counts[key := (if key in counts then counts[key] else 0) + 1];
      }
      assert records[..|records|] == records;
    }

    method MissingIssues(w: World, records: seq<Observation>) returns (issues: seq<Issue>)
      ensures forall x :: x in issues <==>
        (x.MissingDefinition? || x.MissingPublication?) && Reportable(w, records, corrections, x)
    {
      issues := [];
      for index := 0 to |records|
        invariant forall x :: x in issues <==>
          (x.MissingDefinition? || x.MissingPublication?) && Reportable(w, records[..index], corrections, x)
      {
        var o := records[index];
        assert records[..index + 1] == records[..index] + [o];
        if !Defined(w.definitions, o) {
          issues := issues + [MissingDefinition(o.id)];
        }
        if o.publicationId !in PostIds(w.posts) {
          issues := issues + [MissingPublication(o.id)];
        }
      }
      assert records[..|records|] == records;
    }

    method DuplicateIssues(w: World, records: seq<Observation>) returns (issues: seq<Issue>)
      ensures forall x :: x in issues <==> x.DuplicateKey? && Reportable(w, records, corrections, x)
    {
      var counts := CountKeys(records);
      issues := [];
      var left := counts.Keys;
      while left != {}
        invariant left <= counts.Keys
        invariant forall x :: x in issues <==>
          x.DuplicateKey? && x.key in counts && x.key !in left && counts[x.key] == x.count && x.count > 1
      {
        var key :| key in left;
        if counts[key] > 1 {
          issues := issues + [DuplicateKey(key, counts[key])];
        }
        left := left - {key};
      }
      assert forall key :: key in multiset(Keys(records)) <==> key in Keys(records);
    }

    method CycleIssues(w: World, records: seq<Observation>) returns (issues: seq<Issue>)
      ensures forall x :: x in issues <==> x.CycleAt? && Reportable(w, records, corrections, x)
    {
      var correctedIds := set c | c in corrections :: c.correctedId;
      issues := [];
      for index := 0 to |corrections|
        invariant forall x :: x in issues <==> x.CycleAt? && x.index < index && Cyclic(corrections, x.index)
      {
        if corrections[index].observationId in correctedIds {
          var c :| c in corrections && c.correctedId == corrections[index].observationId;
          var d: nat :| d < |corrections| && corrections[d] == c;
          issues := issues + [CycleAt(index)];
        } else {
          assert forall d :: 0 <= d < |corrections| ==> corrections[d].correctedId in correctedIds;
        }
      }
    }

    /** The scan reports exactly what is there to report. */
    method Scan(w: World, workspaceId: string) returns (issues: seq<Issue>)
      ensures forall x :: x in issues <==> Reportable(w, Scope(observations, workspaceId), corrections, x)
    {
      var records := ListAll(workspaceId);
      var missing := MissingIssues(w, records);
      var duplicates := DuplicateIssues(w, records);
      var cycles := CycleIssues(w, records);
      issues := missing + duplicates + cycles;
    }
  }
}
