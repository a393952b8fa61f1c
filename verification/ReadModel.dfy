/** The analytics read model (analytics_services.py): latest metrics and totals over publications. */
module ReadModel {
  import opened Prelude
  import opened Mutators
  import opened Attributions
  import opened ObservationLedger
  import opened Records
  import opened Sorting
  import opened Text

  // ---------------------------------------------------------------- the latest observation of a metric

  /** At most as recent: by (observed_at, captured_at, id). */
  predicate AtMost(a: Observation, b: Observation) {
    if a.observedAt != b.observedAt then Less(a.observedAt, b.observedAt)
    else if a.capturedAt != b.capturedAt then Less(a.capturedAt, b.capturedAt)
    else !Less(b.id, a.id)
  }

  lemma AtMostTotal(a: Observation, b: Observation)
    ensures AtMost(a, b) || AtMost(b, a)
    ensures AtMost(a, b) && AtMost(b, a) ==> a.id == b.id
  {
    LessTrichotomy(a.observedAt, b.observedAt);
    LessTrichotomy(a.capturedAt, b.capturedAt);
    LessTrichotomy(a.id, b.id);
  }

  lemma AtMostTransitive(a: Observation, b: Observation, c: Observation)
    requires AtMost(a, b) && AtMost(b, c)
    ensures AtMost(a, c)
  {
    LessTrichotomy(a.observedAt, b.observedAt);
    LessTrichotomy(a.capturedAt, b.capturedAt);
    LessTrichotomy(a.id, b.id);
    LessTrichotomy(b.id, c.id);
    if a.observedAt != b.observedAt && b.observedAt != c.observedAt {
      LessTransitive(a.observedAt, b.observedAt, c.observedAt);
      LessTrichotomy(a.observedAt, c.observedAt);
    } else if a.observedAt == b.observedAt == c.observedAt {
      if a.capturedAt != b.capturedAt && b.capturedAt != c.capturedAt {
        LessTransitive(a.capturedAt, b.capturedAt, c.capturedAt);
        LessTrichotomy(a.capturedAt, c.capturedAt);
      } else if a.capturedAt == b.capturedAt == c.capturedAt && Less(c.id, a.id) {
        if b.id == a.id || b.id == c.id {
        } else {
          LessTransitive(a.id, b.id, c.id);
          LessTrichotomy(a.id, c.id);
        }
      }
    }
  }

  lemma AtMostOrders()
    ensures TotalOrder(AtMost)
  {
    forall a, b
      ensures AtMost(a, b) || AtMost(b, a)
    {
      AtMostTotal(a, b);
    }
    forall a, b, c | AtMost(a, b) && AtMost(b, c)
      ensures AtMost(a, c)
    {
      AtMostTransitive(a, b, c);
    }
  }

  /** The maximum of a metric's observations, if there are any. */
  ghost predicate IsLatest(obs: seq<Observation>, metric: Metric, r: Option<Observation>) {
    match r
    case None => forall o :: o in obs ==> o.metric != metric
    case Some(best) => best in obs && best.metric == metric && forall o :: o in obs && o.metric == metric ==> AtMost(o, best)
  }

  function LatestOf(obs: seq<Observation>, metric: Metric): Option<Observation> {
    if obs == [] then None
    else
      var best := LatestOf(obs[..|obs| - 1], metric);
      if Last(obs).metric == metric && (best.None? || AtMost(best.value, Last(obs))) then Some(Last(obs)) else best
  }

  lemma {:induction false} LatestIsMaximum(obs: seq<Observation>, metric: Metric)
    ensures IsLatest(obs, metric, LatestOf(obs, metric))
  {
    if obs != [] {
      var front := obs[..|obs| - 1];
      LatestIsMaximum(front, metric);
      assert obs == front + [Last(obs)];
      var best := LatestOf(front, metric);
      AtMostTotal(Last(obs), Last(obs));
      if best.Some? && Last(obs).metric == metric {
        AtMostTotal(best.value, Last(obs));
        forall o | o in front && o.metric == metric && AtMost(best.value, Last(obs))
          ensures AtMost(o, Last(obs))
        {
          AtMostTransitive(o, best.value, Last(obs));
        }
      }
    }
  }

  ghost predicate UniqueIds(obs: seq<Observation>) {
    forall a, b :: a in obs && b in obs && a.id == b.id ==> a == b
  }

  /** With unique ids there is one maximum, so the order in which observations are listed does not
    * matter. */
  lemma OrderDoesNotMatter(obs: seq<Observation>, others: seq<Observation>, metric: Metric)
    requires UniqueIds(obs) && forall o :: o in obs <==> o in others
    ensures LatestOf(obs, metric) == LatestOf(others, metric)
  {
    LatestIsMaximum(obs, metric);
    LatestIsMaximum(others, metric);
    var a, b := LatestOf(obs, metric), LatestOf(others, metric);
    if a.Some? && b.Some? {
      AtMostTotal(a.value, b.value);
    }
  }

  /** What latest means: observed last, among equal times captured last, and then with the greatest id. */
  lemma LastObservedWins(obs: seq<Observation>, metric: Metric, o: Observation)
    requires o in obs && o.metric == metric
    requires forall p :: p in obs && p.metric == metric && p != o ==>
      || Less(p.observedAt, o.observedAt)
      || (p.observedAt == o.observedAt && Less(p.capturedAt, o.capturedAt))
      || (p.observedAt == o.observedAt && p.capturedAt == o.capturedAt && Less(p.id, o.id))
    ensures LatestOf(obs, metric) == Some(o)
  {
    LatestIsMaximum(obs, metric);
    var r := LatestOf(obs, metric).value;
    LessTrichotomy(r.observedAt, o.observedAt);
    LessTrichotomy(r.capturedAt, o.capturedAt);
    LessTrichotomy(r.id, o.id);
  }

  // ------------------------------------------ sorting first and overwriting finds the same observation

  function Later(a: Option<Observation>, b: Option<Observation>): Option<Observation> {
    if b.None? then a else if a.None? || AtMost(a.value, b.value) then b else a
  }

  lemma LaterAssociates(a: Option<Observation>, b: Option<Observation>, c: Option<Observation>)
    ensures Later(Later(a, b), c) == Later(a, Later(b, c))
  {
    if a.Some? && b.Some? && c.Some? {
      AtMostTotal(a.value, b.value);
      AtMostTotal(b.value, c.value);
      AtMostTotal(a.value, c.value);
      if AtMost(a.value, b.value) && AtMost(b.value, c.value) {
        AtMostTransitive(a.value, b.value, c.value);
      }
      if AtMost(a.value, c.value) && AtMost(c.value, b.value) {
        AtMostTransitive(a.value, c.value, b.value);
      }
    }
  }

  lemma {:induction false} LatestOfConcat(a: seq<Observation>, b: seq<Observation>, metric: Metric)
    ensures LatestOf(a + b, metric) == Later(LatestOf(a, metric), LatestOf(b, metric))
  {
    if b == [] {
      assert a + b == a;
    } else {
      var front := b[..|b| - 1];
      var last := if Last(b).metric == metric then Some(Last(b)) else None;
      LatestOfConcat(a, front, metric);
      assert (a + b)[..|a + b| - 1] == a + front;
      LaterAssociates(LatestOf(a, metric), LatestOf(front, metric), last);
    }
  }

  /** Observations out of order can change places. */
  lemma LatestOfSwap(x: Observation, y: Observation, rest: seq<Observation>, metric: Metric)
    requires !AtMost(x, y)
    ensures LatestOf([x] + ([y] + rest), metric) == LatestOf([y] + ([x] + rest), metric)
  {
    assert [x] + ([y] + rest) == [x, y] + rest && [y] + ([x] + rest) == [y, x] + rest;
    LatestOfConcat([x, y], rest, metric);
    LatestOfConcat([y, x], rest, metric);
    LatestOfConcat([x], [y], metric);
    LatestOfConcat([y], [x], metric);
    assert [x] + [y] == [x, y] && [y] + [x] == [y, x];
    AtMostTotal(x, y);
  }

  lemma {:induction false} LatestOfInsert(x: Observation, s: seq<Observation>, metric: Metric)
    ensures LatestOf(Insert(x, s, AtMost), metric) == LatestOf([x] + s, metric)
  {
    if s == [] {
      assert [x] + s == [x];
    } else if !AtMost(x, s[0]) {
      var inserted := Insert(x, s[1..], AtMost);
      LatestOfInsert(x, s[1..], metric);
      LatestOfConcat([s[0]], inserted, metric);
      LatestOfConcat([s[0]], [x] + s[1..], metric);
      LatestOfSwap(x, s[0], s[1..], metric);
      assert s == [s[0]] + s[1..];
    }
  }

  /** One step of the sort. */
  lemma LatestOfSortStep(x: Observation, rest: seq<Observation>, sorted: seq<Observation>, metric: Metric)
    requires LatestOf(sorted, metric) == LatestOf(rest, metric)
    ensures LatestOf(Insert(x, sorted, AtMost), metric) == LatestOf([x] + rest, metric)
  {
    LatestOfInsert(x, sorted, metric);
    LatestOfConcat([x], sorted, metric);
    LatestOfConcat([x], rest, metric);
  }

  lemma {:induction false} LatestOfSort(s: seq<Observation>, metric: Metric)
    requires TotalOrder(AtMost)
    ensures LatestOf(Sort(s, AtMost), metric) == LatestOf(s, metric)
  {
    if s != [] {
      var rest := s[1..];
      LatestOfSort(rest, metric);
      SortUnfolds(s, AtMost);
      var sorted := Sort(rest, AtMost);
      LatestOfSortStep(s[0], rest, sorted, metric);
      assert s == [s[0]] + rest;
      calc {
        LatestOf(Sort(s, AtMost), metric);
        LatestOf(Insert(s[0], sorted, AtMost), metric);
        LatestOf([s[0]] + rest, metric);
        LatestOf(s, metric);
      }
    }
  }

  method SortObservations(observations: seq<Observation>) returns (sorted: seq<Observation>)
    ensures forall i, k :: 0 <= i < k < |sorted| ==> AtMost(sorted[i], sorted[k])
    ensures forall metric :: LatestOf(sorted, metric) == LatestOf(observations, metric)
  {
    AtMostOrders();
    sorted := Sort(observations, AtMost);
    forall metric
      ensures LatestOf(sorted, metric) == LatestOf(observations, metric)
    {
      LatestOfSort(observations, metric);
    }
  }

  function Entry<V>(entries: map<Metric, V>, metric: Metric): Option<V> {
    if metric in entries then Some(entries[metric]) else None
  }

  /** `latest_metrics`: sort, then let later entries overwrite earlier ones. */
  method LatestMetrics(observations: seq<Observation>) returns (latest: map<Metric, Observation>)
    ensures forall metric :: Entry(latest, metric) == LatestOf(observations, metric)
  {
    var sorted := SortObservations(observations);
    latest := map[];
    for index := 0 to |sorted|
      invariant forall metric :: Entry(latest, metric) == LatestOf(sorted[..index], metric)
    {
      var o := sorted[index];
      assert sorted[..index + 1][..index] == sorted[..index];
      var next := latest[o.metric := o];
      forall metric
        ensures Entry(next, metric) == LatestOf(sorted[..index + 1], metric)
      {
        LatestIsMaximum(sorted[..index], metric);
      }
      latest := next;
    }
    assert sorted[..|sorted|] == sorted;
  }

  // ---------------------------------------------------------------- totals over publications

  /** `_active_observations` of one publication. */
  function ActiveOf(obs: seq<Observation>, publicationId: string): (r: seq<Observation>)
    ensures forall o :: o in r <==> o in obs && o.publicationId == publicationId && Active(o)
  {
    if obs == [] then []
    else
      var front := ActiveOf(obs[..|obs| - 1], publicationId);
      assert obs == obs[..|obs| - 1] + [Last(obs)];
      if Last(obs).publicationId == publicationId && Active(Last(obs)) then front + [Last(obs)] else front
  }

  /** What the reader counts of a publication: valid and provisional observations, and no others. */
  lemma CountedIff(obs: seq<Observation>, publicationId: string, o: Observation)
    ensures o in ActiveOf(obs, publicationId) <==>
      o in obs && o.publicationId == publicationId && o.status in {Valid, Provisional}
  {
  }

  function Number(v: Value): real
    requires !v.Missing?
  {
    match v
    case Whole(n) => n as real
    case Decimal(x) => x
    case Flag(b) => if b then 1.0 else 0.0
  }

  /** The value a publication reports for a metric: its latest active one, if that has a value. */
  function ValueOf(obs: seq<Observation>, publicationId: string, metric: Metric): Option<real> {
    var o := LatestOf(ActiveOf(obs, publicationId), metric);
    if o.None? || o.value.value.Missing? then None else Some(Number(o.value.value))
  }

  function Share(obs: seq<Observation>, publicationId: string, metric: Metric): real {
    var v := ValueOf(obs, publicationId, metric);
    if v.Some? then v.value else 0.0
  }

  function SumOf(obs: seq<Observation>, publications: seq<string>, metric: Metric): real {
    if publications == [] then 0.0
    else SumOf(obs, publications[..|publications| - 1], metric) + Share(obs, Last(publications), metric)
  }

  predicate Reported(obs: seq<Observation>, publications: seq<string>, metric: Metric) {
    exists i :: 0 <= i < |publications| && ValueOf(obs, publications[i], metric).Some?
  }

  /** The distinct members of a list, in order of first occurrence. */
  function Unique(s: seq<string>): (r: seq<string>)
    ensures Distinct(r)
    ensures forall x :: x in r <==> x in s
  {
    if s == [] then []
    else
      var front := Unique(s[..|s| - 1]);
      assert s == s[..|s| - 1] + [Last(s)];
      if Last(s) in front then front else front + [Last(s)]
  }

  lemma {:induction false} UniqueOfDistinct(s: seq<string>)
    requires Distinct(s)
    ensures Unique(s) == s
  {
    if s != [] {
      UniqueOfDistinct(s[..|s| - 1]);
    }
  }

  /** A metric is summed when its current definition says latest and cumulative. */
  predicate Summable(defs: seq<Definition>, plugin: string, metric: Metric) {
    var d := LatestDefinition(defs, plugin, metric);
    d.Some? && d.value.aggregation.Latest? && d.value.cumulative
  }

  /** The comparable value of a metric in `_aggregate_subject`; the definition is that of the first
    * attribution's channel. */
  function Total(defs: seq<Definition>, obs: seq<Observation>, attributions: seq<Attribution>, metric: Metric): Option<real> {
    var publications := Unique(PublicationIds(attributions));
    if attributions != [] && Summable(defs, attributions[0].plugin, metric) && Reported(obs, publications, metric)
    then Some(SumOf(obs, publications, metric)) else None
  }

  function TotalOrZero(defs: seq<Definition>, obs: seq<Observation>, attributions: seq<Attribution>, metric: Metric): real {
    var t := Total(defs, obs, attributions, metric);
    if t.Some? then t.value else 0.0
  }

  // ---------------------------------------------------------------- what a total says

  lemma TotalOfOne(defs: seq<Definition>, obs: seq<Observation>, a: Attribution, metric: Metric)
    ensures Total(defs, obs, [a], metric) ==
      if Summable(defs, a.plugin, metric) then ValueOf(obs, a.publicationId, metric) else None
  {
    assert PublicationIds([a]) == [a.publicationId];
    UniqueOfDistinct([a.publicationId]);
    SumOfOne(obs, a.publicationId, metric);
  }

  /** The total over one publication is what its latest active observation of the metric says: a number as it is,
    * a flag as one or zero, and none if that has no value. The channel's current definition must be a
    * cumulative one that asks for the latest. */
  lemma TotalSaysTheLatest(defs: seq<Definition>, obs: seq<Observation>, a: Attribution, metric: Metric, d: Definition, o: Observation)
    requires LatestDefinition(defs, a.plugin, metric) == Some(d) && d.aggregation == Latest && d.cumulative
    requires LatestOf(ActiveOf(obs, a.publicationId), metric) == Some(o)
    ensures
      var total := Total(defs, obs, [a], metric);
      match o.value
      case Whole(n) => total == Some(n as real)
      case Decimal(x) => total == Some(x)
      case Flag(b) => total == Some(if b then 1.0 else 0.0)
      case Missing => total == None
  {
    TotalOfOne(defs, obs, a, metric);
  }

  /** Without such a definition there is no total. */
  lemma OnlyCumulativeLatestIsSummed(defs: seq<Definition>, obs: seq<Observation>, a: Attribution, more: seq<Attribution>, metric: Metric)
    requires
      var d := LatestDefinition(defs, a.plugin, metric);
      d.Some? ==> d.value.aggregation != Latest || !d.value.cumulative
    ensures Total(defs, obs, [a] + more, metric) == None
  {
  }

  /** The observation with that id, with another value. */
  function Revalued(o: Observation, id: string, value: Value): Observation {
    if o.id == id then o.(value := value) else o
  }

  /** The list with another value in one place. */
  function WithValue(obs: seq<Observation>, at: nat, value: Value): seq<Observation>
    requires at < |obs|
  {
    obs[at := obs[at].(value := value)]
  }

  function AllRevalued(obs: seq<Observation>, id: string, value: Value): seq<Observation> {
    seq(|obs|, i requires 0 <= i < |obs| => Revalued(obs[i], id, value))
  }

  lemma RevaluedAppend(front: seq<Observation>, o: Observation, id: string, value: Value)
    ensures AllRevalued(front + [o], id, value) == AllRevalued(front, id, value) + [Revalued(o, id, value)]
  {
  }

  lemma ActiveAppend(front: seq<Observation>, o: Observation, publicationId: string)
    ensures ActiveOf(front + [o], publicationId) ==
      ActiveOf(front, publicationId) + if o.publicationId == publicationId && Active(o) then [o] else []
  {
    assert (front + [o])[..|front|] == front;
  }

  lemma LatestAppend(front: seq<Observation>, o: Observation, metric: Metric)
    ensures
      var best := LatestOf(front, metric);
      LatestOf(front + [o], metric) == if o.metric == metric && (best == None || AtMost(best.value, o)) then Some(o) else best
  {
    assert (front + [o])[..|front|] == front;
  }

  lemma {:induction false} RevaluedActive(obs: seq<Observation>, id: string, value: Value, publicationId: string)
    ensures ActiveOf(AllRevalued(obs, id, value), publicationId) == AllRevalued(ActiveOf(obs, publicationId), id, value)
  {
    if obs != [] {
      var front, o := obs[..|obs| - 1], Last(obs);
      assert obs == front + [o];
      RevaluedActive(front, id, value, publicationId);
      RevaluedAppend(front, o, id, value);
      ActiveAppend(front, o, publicationId);
      ActiveAppend(AllRevalued(front, id, value), Revalued(o, id, value), publicationId);
      RevaluedAppend(ActiveOf(front, publicationId), o, id, value);
    }
  }

  lemma RevaluedOrder(a: Observation, b: Observation, id: string, value: Value)
    ensures AtMost(Revalued(a, id, value), Revalued(b, id, value)) == AtMost(a, b)
  {
  }

  lemma {:induction false} RevaluedLatest(obs: seq<Observation>, id: string, value: Value, metric: Metric)
    ensures
      var before := LatestOf(obs, metric);
      LatestOf(AllRevalued(obs, id, value), metric) == if before == None then None else Some(Revalued(before.value, id, value))
  {
    if obs != [] {
      var front, o := obs[..|obs| - 1], Last(obs);
      assert obs == front + [o];
      RevaluedLatest(front, id, value, metric);
      RevaluedAppend(front, o, id, value);
      LatestAppend(front, o, metric);
      LatestAppend(AllRevalued(front, id, value), Revalued(o, id, value), metric);
      var best := LatestOf(front, metric);
      if best.Some? {
        RevaluedOrder(best.value, o, id, value);
      }
    }
  }

  lemma RevaluedIsUpdate(obs: seq<Observation>, at: nat, value: Value)
    requires Distinct(Ids(obs)) && at < |obs|
    ensures WithValue(obs, at, value) == AllRevalued(obs, obs[at].id, value)
    ensures forall o :: o in obs && o != obs[at] ==> o.id != obs[at].id
  {
    forall i | 0 <= i < |obs| && i != at
      ensures obs[i].id != obs[at].id
    {
      assert Ids(obs)[i] != Ids(obs)[at];
    }
  }

  lemma LatestRevalued(obs: seq<Observation>, at: nat, value: Value, q: string, metric: Metric)
    requires Distinct(Ids(obs)) && at < |obs|
    ensures
      var before := LatestOf(ActiveOf(obs, q), metric);
      var now := LatestOf(ActiveOf(WithValue(obs, at, value), q), metric);
      && now == (if before == None then None else Some(Revalued(before.value, obs[at].id, value)))
      && (before.Some? ==> before.value in obs && before.value.publicationId == q)
      && (q != obs[at].publicationId ==> now == before)
  {
    RevaluedIsUpdate(obs, at, value);
    RevaluedActive(obs, obs[at].id, value, q);
    RevaluedLatest(ActiveOf(obs, q), obs[at].id, value, metric);
    LatestIsMaximum(ActiveOf(obs, q), metric);
  }

  /** `more` counts for `rise` more than `less`. */
  predicate Gap(less: Value, more: Value, rise: real) {
    !less.Missing? && !more.Missing? && Number(more) == Number(less) + rise
  }

  lemma WholesGap(n: int, k: int)
    ensures Gap(Whole(n), Whole(n + k), k as real)
  {
  }

  /** `after` reports what `obs` does, but `rise` more for publication p. */
  ghost predicate Raises(obs: seq<Observation>, after: seq<Observation>, p: string, metric: Metric, rise: real) {
    && ValueOf(obs, p, metric).Some? && ValueOf(after, p, metric) == Some(ValueOf(obs, p, metric).value + rise)
    && forall q :: q != p ==> ValueOf(after, q, metric) == ValueOf(obs, q, metric)
  }

  lemma ValueIs(obs: seq<Observation>, p: string, metric: Metric, o: Observation)
    requires LatestOf(ActiveOf(obs, p), metric) == Some(o) && !o.value.Missing?
    ensures ValueOf(obs, p, metric) == Some(Number(o.value))
  {
  }

  lemma NewValue(obs: seq<Observation>, at: nat, value: Value, metric: Metric)
    requires Distinct(Ids(obs)) && at < |obs| && !value.Missing?
    requires LatestOf(ActiveOf(obs, obs[at].publicationId), metric) == Some(obs[at])
    ensures ValueOf(WithValue(obs, at, value), obs[at].publicationId, metric) == Some(Number(value))
    ensures forall q :: q != obs[at].publicationId ==> ValueOf(WithValue(obs, at, value), q, metric) == ValueOf(obs, q, metric)
  {
    LatestRevalued(obs, at, value, obs[at].publicationId, metric);
    forall q | q != obs[at].publicationId
      ensures ValueOf(WithValue(obs, at, value), q, metric) == ValueOf(obs, q, metric)
    {
      LatestRevalued(obs, at, value, q, metric);
    }
  }

  lemma NewValueRaises(obs: seq<Observation>, at: nat, value: Value, metric: Metric, rise: real)
    requires Distinct(Ids(obs)) && at < |obs| && Gap(obs[at].value, value, rise)
    requires LatestOf(ActiveOf(obs, obs[at].publicationId), metric) == Some(obs[at])
    ensures Raises(obs, WithValue(obs, at, value), obs[at].publicationId, metric, rise)
  {
    ValueIs(obs, obs[at].publicationId, metric, obs[at]);
    NewValue(obs, at, value, metric);
  }

  lemma {:induction false} RaisedSum(
    obs: seq<Observation>, after: seq<Observation>, p: string, metric: Metric, rise: real, publications: seq<string>)
    requires Distinct(publications) && Raises(obs, after, p, metric, rise)
    ensures SumOf(after, publications, metric) == SumOf(obs, publications, metric) + if p in publications then rise else 0.0
  {
    if publications != [] {
      var front, q := publications[..|publications| - 1], Last(publications);
      assert publications == front + [q];
      RaisedSum(obs, after, p, metric, rise, front);
      assert Share(after, q, metric) == Share(obs, q, metric) + if q == p then rise else 0.0;
    }
  }

  lemma TotalIs(defs: seq<Definition>, obs: seq<Observation>, attributions: seq<Attribution>, metric: Metric, p: string, sum: real)
    requires p in PublicationIds(attributions) && ValueOf(obs, p, metric).Some?
    requires SumOf(obs, Unique(PublicationIds(attributions)), metric) == sum
    ensures Total(defs, obs, attributions, metric) == if Summable(defs, attributions[0].plugin, metric) then Some(sum) else None
  {
    var publications := Unique(PublicationIds(attributions));
    var i :| 0 <= i < |publications| && publications[i] == p;
  }

  lemma RaisedTotal(
    defs: seq<Definition>, obs: seq<Observation>, after: seq<Observation>, attributions: seq<Attribution>, p: string,
    metric: Metric, rise: real)
    returns (sum: real)
    requires Raises(obs, after, p, metric, rise) && p in PublicationIds(attributions)
    ensures Total(defs, obs, attributions, metric) == if Summable(defs, attributions[0].plugin, metric) then Some(sum) else None
    ensures Total(defs, after, attributions, metric) ==
      if Summable(defs, attributions[0].plugin, metric) then Some(sum + rise) else None
  {
    var publications := Unique(PublicationIds(attributions));
    sum := SumOf(obs, publications, metric);
    RaisedSum(obs, after, p, metric, rise, publications);
    TotalIs(defs, obs, attributions, metric, p, sum);
    TotalIs(defs, after, attributions, metric, p, sum + rise);
  }

  lemma NewValueRaisesTheTotal(
    defs: seq<Definition>, obs: seq<Observation>, attributions: seq<Attribution>, metric: Metric, at: nat, value: Value, rise: real)
    returns (sum: real)
    requires Distinct(Ids(obs)) && at < |obs| && Gap(obs[at].value, value, rise)
    requires LatestOf(ActiveOf(obs, obs[at].publicationId), metric) == Some(obs[at])
    requires obs[at].publicationId in PublicationIds(attributions)
    ensures
      var before := Total(defs, obs, attributions, metric);
      var now := Total(defs, WithValue(obs, at, value), attributions, metric);
      if Summable(defs, attributions[0].plugin, metric) then before == Some(sum) && now == Some(sum + rise)
      else before == now == None
  {
    NewValueRaises(obs, at, value, metric, rise);
    sum := RaisedTotal(defs, obs, WithValue(obs, at, value), attributions, obs[at].publicationId, metric, rise);
  }

  /** Raising the number that a summed publication reports by k raises the total by exactly k, whatever the other
    * publications report; where the metric is not summed there is no total before or after. */
  lemma RaisingOneRaisesTheTotal(
    defs: seq<Definition>, obs: seq<Observation>, attributions: seq<Attribution>, metric: Metric, at: nat, n: int, k: int)
    returns (sum: real)
    requires Distinct(Ids(obs)) && at < |obs| && obs[at].value == Whole(n)
    requires LatestOf(ActiveOf(obs, obs[at].publicationId), metric) == Some(obs[at])
    requires obs[at].publicationId in PublicationIds(attributions)
    ensures
      var before := Total(defs, obs, attributions, metric);
      var now := Total(defs, WithValue(obs, at, Whole(n + k)), attributions, metric);
      if Summable(defs, attributions[0].plugin, metric) then before == Some(sum) && now == Some(sum + k as real)
      else before == now == None
  {
    WholesGap(n, k);
    sum := NewValueRaisesTheTotal(defs, obs, attributions, metric, at, Whole(n + k), k as real);
  }

  // ---------------------------------------------------------------- corrections as the reader sees them

  lemma LatestFromMembers(obs: seq<Observation>, metric: Metric, r: Option<Observation>)
    requires UniqueIds(obs) && IsLatest(obs, metric, r)
    ensures LatestOf(obs, metric) == r
  {
    LatestIsMaximum(obs, metric);
    var a := LatestOf(obs, metric);
    if a.Some? && r.Some? {
      AtMostTotal(a.value, r.value);
    }
  }

  lemma LedgerIdsAreUnique(obs: seq<Observation>, publicationId: string)
    requires Distinct(Ids(obs))
    ensures UniqueIds(obs) && UniqueIds(ActiveOf(obs, publicationId))
  {
    forall a, b | a in obs && b in obs && a.id == b.id
      ensures a == b
    {
      var i :| 0 <= i < |obs| && obs[i] == a;
      var k :| 0 <= k < |obs| && obs[k] == b;
      assert Ids(obs)[i] == Ids(obs)[k];
    }
  }

  /** The active observations after a correction with an unused key: the same, with the copy in place of the
    * original. */
  lemma ActiveAfterCorrection(
    obs: seq<Observation>, after: seq<Observation>, at: nat, marked: Observation, copy: Observation, o: Observation)
    requires Distinct(Ids(obs)) && at < |obs| && !Active(marked) && Active(copy)
    requires after == obs[at := marked] + [copy]
    ensures o in after && Active(o) <==> o == copy || (o in obs && o != obs[at] && Active(o))
  {
    if o in obs && o != obs[at] {
      var i :| 0 <= i < |obs| && obs[i] == o;
      assert after[i] == o;
    }
    if o in after && Active(o) {
      var i :| 0 <= i < |after| && after[i] == o;
      assert i < |obs| && i != at ==> obs[i] == o && Ids(obs)[i] != Ids(obs)[at];
    }
    assert after[|obs|] == copy;
  }

  /** The same two times, so that ids decide. */
  predicate Tied(a: Observation, b: Observation) {
    a.observedAt == b.observedAt && a.capturedAt == b.capturedAt
  }

  /** Ids do not come between a correction and what it should do: where its original was the latest, nothing
    * tied with it has a greater id than the copy, and where it was not, the latest is not tied with it and
    * of a smaller id than the copy. */
  ghost predicate IdsAgree(was: seq<Observation>, original: Observation, latest: Observation, copyId: string) {
    if latest == original then
      forall o :: o in was && o.metric == original.metric && o != original && Tied(o, original) ==> !Less(copyId, o.id)
    else !(Tied(latest, original) && Less(latest.id, copyId))
  }

  lemma LatestAfterCorrection(
    obs: seq<Observation>, after: seq<Observation>, at: nat, marked: Observation, copy: Observation)
    requires Distinct(Ids(obs)) && Distinct(Ids(after)) && at < |obs| && Active(obs[at]) && !Active(marked) && Active(copy)
    requires after == obs[at := marked] + [copy]
    requires copy.publicationId == obs[at].publicationId && copy.metric == obs[at].metric && Tied(copy, obs[at])
    ensures
      var was := ActiveOf(obs, copy.publicationId);
      var before := LatestOf(was, copy.metric);
      var now := LatestOf(ActiveOf(after, copy.publicationId), copy.metric);
      && before.Some?
      && (now == (if before == Some(obs[at]) then Some(copy) else before) <==> IdsAgree(was, obs[at], before.value, copy.id))
  {
    var was, now := ActiveOf(obs, copy.publicationId), ActiveOf(after, copy.publicationId);
    LatestIsMaximum(was, copy.metric);
    LatestIsMaximum(now, copy.metric);
    assert obs[at] in was;
    var best := LatestOf(was, copy.metric).value;
    var r := if best == obs[at] then copy else best;
    forall o
      ensures o in now <==> o == copy || (o in was && o != obs[at])
    {
      ActiveAfterCorrection(obs, after, at, marked, copy, o);
    }
    LedgerIdsAreUnique(after, copy.publicationId);
    AtMostTotal(copy, copy);
    if IdsAgree(was, obs[at], best, copy.id) {
      forall o | o in now && o.metric == copy.metric
        ensures AtMost(o, r)
      {
        AtMostTotal(o, best);
      }
      LatestFromMembers(now, copy.metric, Some(r));
    } else if best == obs[at] {
      var o :| o in was && o.metric == copy.metric && o != obs[at] && Tied(o, obs[at]) && Less(copy.id, o.id);
      assert o in now && !AtMost(o, copy);
    } else {
      assert copy in now && !AtMost(copy, best);
    }
  }

  /** What the reader sees of a correction: where the original was the latest its correction now is, and
    * where it was not nothing changes. That is so exactly if ids agree, which decide among observations with
    * the same two times; new ids are random. */
  lemma CorrectionTakesEffectIff(ledger: Ledger, op: Op, at: nat)
    requires Inv(ledger) && op.CorrectOp? && Permitted(ledger, op) && Correct(ledger, op).Ok?
    requires at < |ledger.observations| && ledger.observations[at].id == op.id && Active(ledger.observations[at])
    requires KeyWith(ledger.observations[at], op.value) !in Keys(ledger.observations)
    ensures
      var original := ledger.observations[at];
      var was := ActiveOf(ledger.observations, original.publicationId);
      var before := LatestOf(was, original.metric);
      var now := LatestOf(ActiveOf(Correct(ledger, op).value.observations, original.publicationId), original.metric);
      && before.Some?
      && (now == (if before == Some(original) then Some(CorrectedCopy(original, op.value, op.freshId)) else before)
          <==> IdsAgree(was, original, before.value, op.freshId))
  {
    var original := ledger.observations[at];
    var at' := CorrectShape(ledger, op);
    assert Ids(ledger.observations)[at] == op.id == Ids(ledger.observations)[at'];
    LatestAfterCorrection(ledger.observations, Correct(ledger, op).value.observations, at,
                          original.(status := Corrected), CorrectedCopy(original, op.value, op.freshId));
  }

  // ---------------------------------------------------------------- revisions add up to the content

  function ForRevision(attributions: seq<Attribution>, revisionId: string): seq<Attribution> {
    if attributions == [] then []
    else
      var front := ForRevision(attributions[..|attributions| - 1], revisionId);
      if Last(attributions).revisionId == revisionId then front + [Last(attributions)] else front
  }

  /** The totals of the given revisions, added up. */
  function RevisionTotals(
    defs: seq<Definition>, obs: seq<Observation>, attributions: seq<Attribution>, metric: Metric, revisions: seq<string>): real
  {
    if revisions == [] then 0.0
    else
      RevisionTotals(defs, obs, attributions, metric, revisions[..|revisions| - 1])
      + TotalOrZero(defs, obs, ForRevision(attributions, Last(revisions)), metric)
  }

  /** Shares added up attribution by attribution, those of one revision only if `revisions` lists it. */
  function ShareSum(obs: seq<Observation>, attributions: seq<Attribution>, metric: Metric, revisions: seq<string>): real {
    if attributions == [] then 0.0
    else
      var a := Last(attributions);
      ShareSum(obs, attributions[..|attributions| - 1], metric, revisions)
      + (if a.revisionId in revisions then Share(obs, a.publicationId, metric) else 0.0)
  }

  lemma {:induction false} SumOfNothing(obs: seq<Observation>, publications: seq<string>, metric: Metric)
    requires !Reported(obs, publications, metric)
    ensures SumOf(obs, publications, metric) == 0.0
  {
    if publications != [] {
      var front := publications[..|publications| - 1];
      assert forall i :: 0 <= i < |front| ==> front[i] == publications[i];
      SumOfNothing(obs, front, metric);
    }
  }

  lemma {:induction false} SumIsShares(obs: seq<Observation>, attributions: seq<Attribution>, metric: Metric, revisions: seq<string>)
    requires forall i :: 0 <= i < |attributions| ==> attributions[i].revisionId in revisions
    ensures SumOf(obs, PublicationIds(attributions), metric) == ShareSum(obs, attributions, metric, revisions)
  {
    if attributions != [] {
      var front := attributions[..|attributions| - 1];
      SumIsShares(obs, front, metric, revisions);
      assert PublicationIds(attributions)[..|front|] == PublicationIds(front);
    }
  }

  /** The channel that decides for a revision, its first attribution's, has the same view on whether the
    * metric is summed as the channel that decides for the content. */
  ghost predicate HeadsAgree(defs: seq<Definition>, attributions: seq<Attribution>, metric: Metric) {
    forall i :: 0 <= i < |attributions| ==>
      var own := ForRevision(attributions, attributions[i].revisionId);
      own != [] ==> Summable(defs, own[0].plugin, metric) == Summable(defs, attributions[0].plugin, metric)
  }

  lemma TotalIsShares(
    defs: seq<Definition>, obs: seq<Observation>, attributions: seq<Attribution>, metric: Metric, revisions: seq<string>)
    requires Distinct(PublicationIds(attributions))
    requires forall i :: 0 <= i < |attributions| ==> attributions[i].revisionId in revisions
    requires attributions != [] ==> Summable(defs, attributions[0].plugin, metric)
    ensures TotalOrZero(defs, obs, attributions, metric) == ShareSum(obs, attributions, metric, revisions)
  {
    var publications := PublicationIds(attributions);
    UniqueOfDistinct(publications);
    SumIsShares(obs, attributions, metric, revisions);
    if !Reported(obs, publications, metric) {
      SumOfNothing(obs, publications, metric);
    }
  }

  /** One revision's attributions are some of all of them. */
  lemma {:induction false} RevisionShape(attributions: seq<Attribution>, revisionId: string)
    requires Distinct(PublicationIds(attributions))
    ensures Distinct(PublicationIds(ForRevision(attributions, revisionId)))
    ensures forall a :: a in ForRevision(attributions, revisionId) <==> a in attributions && a.revisionId == revisionId
  {
    if attributions != [] {
      var front := attributions[..|attributions| - 1];
      var a := Last(attributions);
      assert PublicationIds(front) == PublicationIds(attributions)[..|front|];
      assert attributions == front + [a];
      RevisionShape(front, revisionId);
      var r := ForRevision(front, revisionId);
      forall i | 0 <= i < |r|
        ensures r[i].publicationId != a.publicationId
      {
        assert r[i] in front;
        var k :| 0 <= k < |front| && front[k] == r[i];
        assert PublicationIds(attributions)[k] == r[i].publicationId;
        assert PublicationIds(attributions)[|front|] == a.publicationId;
      }
      assert PublicationIds(r + [a]) == PublicationIds(r) + [a.publicationId];
    }
  }

  lemma {:induction false} SharesOfRevision(
    obs: seq<Observation>, attributions: seq<Attribution>, metric: Metric, revisions: seq<string>, revisionId: string)
    requires revisionId !in revisions
    ensures ShareSum(obs, attributions, metric, revisions + [revisionId]) ==
            ShareSum(obs, attributions, metric, revisions)
            + ShareSum(obs, ForRevision(attributions, revisionId), metric, [revisionId])
  {
    if attributions != [] {
      var front := attributions[..|attributions| - 1];
      SharesOfRevision(obs, front, metric, revisions, revisionId);
      assert (ForRevision(front, revisionId) + [Last(attributions)])[..|ForRevision(front, revisionId)|] == ForRevision(front, revisionId);
    }
  }

  lemma {:induction false} NoShares(obs: seq<Observation>, attributions: seq<Attribution>, metric: Metric)
    ensures ShareSum(obs, attributions, metric, []) == 0.0
  {
    if attributions != [] {
      NoShares(obs, attributions[..|attributions| - 1], metric);
    }
  }

  /** The revisions' heads say `summed`. */
  ghost predicate HeadsSay(defs: seq<Definition>, attributions: seq<Attribution>, metric: Metric, summed: bool) {
    forall r :: ForRevision(attributions, r) != [] ==> Summable(defs, ForRevision(attributions, r)[0].plugin, metric) == summed
  }

  lemma {:induction false} RevisionTotalsAreShares(
    defs: seq<Definition>, obs: seq<Observation>, attributions: seq<Attribution>, metric: Metric, revisions: seq<string>)
    requires Distinct(PublicationIds(attributions)) && Distinct(revisions)
    requires HeadsSay(defs, attributions, metric, true)
    ensures RevisionTotals(defs, obs, attributions, metric, revisions) == ShareSum(obs, attributions, metric, revisions)
  {
    if revisions == [] {
      NoShares(obs, attributions, metric);
    } else {
      var front := revisions[..|revisions| - 1];
      var last := Last(revisions);
      RevisionTotalsAreShares(defs, obs, attributions, metric, front);
      assert front + [last] == revisions;
      SharesOfRevision(obs, attributions, metric, front, last);
      RevisionShape(attributions, last);
      TotalIsShares(defs, obs, ForRevision(attributions, last), metric, [last]);
    }
  }

  lemma {:induction false} UnsummedRevisionTotals(
    defs: seq<Definition>, obs: seq<Observation>, attributions: seq<Attribution>, metric: Metric, revisions: seq<string>)
    requires HeadsSay(defs, attributions, metric, false)
    ensures RevisionTotals(defs, obs, attributions, metric, revisions) == 0.0
  {
    if revisions != [] {
      UnsummedRevisionTotals(defs, obs, attributions, metric, revisions[..|revisions| - 1]);
    }
  }

  lemma AgreeingHeadsSay(defs: seq<Definition>, attributions: seq<Attribution>, metric: Metric)
    requires Distinct(PublicationIds(attributions)) && HeadsAgree(defs, attributions, metric) && attributions != []
    ensures HeadsSay(defs, attributions, metric, Summable(defs, attributions[0].plugin, metric))
  {
    forall r | ForRevision(attributions, r) != []
      ensures Summable(defs, ForRevision(attributions, r)[0].plugin, metric) == Summable(defs, attributions[0].plugin, metric)
    {
      RevisionShape(attributions, r);
      var head := ForRevision(attributions, r)[0];
      assert head in ForRevision(attributions, r);
      var i :| 0 <= i < |attributions| && attributions[i] == head;
    }
  }

  /** Revisions listed once each, all of those attributed. */
  ghost predicate Lists(revisions: seq<string>, attributions: seq<Attribution>) {
    && Distinct(revisions) && "" !in revisions
    && forall a :: a in attributions && a.revisionId != "" ==> a.revisionId in revisions
  }

  /** The content total is the sum of its revisions' totals and of that of the publications without one,
    * absent counting as zero. */
  ghost predicate AddsUp(
    defs: seq<Definition>, obs: seq<Observation>, attributions: seq<Attribution>, metric: Metric, revisions: seq<string>)
  {
    TotalOrZero(defs, obs, attributions, metric) ==
      RevisionTotals(defs, obs, attributions, metric, revisions)
      + TotalOrZero(defs, obs, ForRevision(attributions, ""), metric)
  }

  lemma RevisionsAddUp(
    defs: seq<Definition>, obs: seq<Observation>, attributions: seq<Attribution>, metric: Metric, revisions: seq<string>)
    requires Distinct(PublicationIds(attributions)) && Lists(revisions, attributions)
    requires HeadsAgree(defs, attributions, metric)
    ensures AddsUp(defs, obs, attributions, metric, revisions)
  {
    var all := revisions + [""];
    assert all[..|revisions|] == revisions;
    assert forall a :: a in attributions ==> a.revisionId in all;
    if attributions == [] {
      RevisionTotalsAreShares(defs, obs, attributions, metric, all);
    } else {
      AgreeingHeadsSay(defs, attributions, metric);
      if Summable(defs, attributions[0].plugin, metric) {
        RevisionTotalsAreShares(defs, obs, attributions, metric, all);
        TotalIsShares(defs, obs, attributions, metric, all);
      } else {
        UnsummedRevisionTotals(defs, obs, attributions, metric, all);
      }
    }
  }

  /** One active observation: the value 1 for one publication and metric. */
  function Lone(publicationId: string, metric: Metric): Observation {
    Observation("o", "", "", "", publicationId, "", "", metric, "", Whole(1), "", "", "", "", "", Valid, "",
                Key("", "", "", "", "", "", "", "", "", "", Whole(1)))
  }

  lemma LoneShare(p: string, metric: Metric, q: string)
    ensures ValueOf([Lone(p, metric)], q, metric) == if q == p then Some(1.0) else None
  {
    var obs := [Lone(p, metric)];
    assert obs[..0] == [];
    assert ActiveOf(obs, q) == if q == p then obs else [];
    assert LatestOf(obs, metric) == Some(obs[0]);
  }

  lemma {:induction false} LoneSum(p: string, metric: Metric, publications: seq<string>)
    requires Distinct(publications)
    ensures SumOf([Lone(p, metric)], publications, metric) == if p in publications then 1.0 else 0.0
    ensures Reported([Lone(p, metric)], publications, metric) <==> p in publications
  {
    forall q
      ensures ValueOf([Lone(p, metric)], q, metric) == if q == p then Some(1.0) else None
    {
      LoneShare(p, metric, q);
    }
    if publications != [] {
      var front := publications[..|publications| - 1];
      assert publications == front + [Last(publications)];
      LoneSum(p, metric, front);
    }
  }

  lemma LoneTotal(defs: seq<Definition>, p: string, metric: Metric, attributions: seq<Attribution>)
    requires Distinct(PublicationIds(attributions))
    ensures TotalOrZero(defs, [Lone(p, metric)], attributions, metric) ==
      if p in PublicationIds(attributions) && Summable(defs, attributions[0].plugin, metric) then 1.0 else 0.0
  {
    UniqueOfDistinct(PublicationIds(attributions));
    LoneSum(p, metric, PublicationIds(attributions));
  }

  /** Only the revision that the publication carries sees its value. */
  lemma LoneRevision(defs: seq<Definition>, a: Attribution, metric: Metric, attributions: seq<Attribution>, r: string)
    requires Distinct(PublicationIds(attributions)) && a in attributions
    requires ForRevision(attributions, a.revisionId) != []
    ensures TotalOrZero(defs, [Lone(a.publicationId, metric)], ForRevision(attributions, r), metric) ==
      if r == a.revisionId && Summable(defs, ForRevision(attributions, r)[0].plugin, metric) then 1.0 else 0.0
  {
    var own := ForRevision(attributions, r);
    RevisionShape(attributions, r);
    LoneTotal(defs, a.publicationId, metric, own);
    if r == a.revisionId {
      assert a in own;
      var k :| 0 <= k < |own| && own[k] == a;
      assert PublicationIds(own)[k] == a.publicationId;
    } else if a.publicationId in PublicationIds(own) {
      var k :| 0 <= k < |own| && PublicationIds(own)[k] == a.publicationId;
      assert own[k] in own;
      SamePublication(attributions, a, own[k]);
      assert false;
    }
  }

  lemma SamePublication(attributions: seq<Attribution>, a: Attribution, b: Attribution)
    requires Distinct(PublicationIds(attributions)) && a in attributions && b in attributions
    requires a.publicationId == b.publicationId
    ensures a == b
  {
    var i :| 0 <= i < |attributions| && attributions[i] == a;
    var k :| 0 <= k < |attributions| && attributions[k] == b;
    assert PublicationIds(attributions)[i] == PublicationIds(attributions)[k];
  }

  lemma {:induction false} LoneRevisionTotals(
    defs: seq<Definition>, a: Attribution, metric: Metric, attributions: seq<Attribution>, revisions: seq<string>)
    requires Distinct(PublicationIds(attributions)) && a in attributions && Distinct(revisions)
    requires ForRevision(attributions, a.revisionId) != []
    ensures RevisionTotals(defs, [Lone(a.publicationId, metric)], attributions, metric, revisions) ==
      if a.revisionId in revisions && Summable(defs, ForRevision(attributions, a.revisionId)[0].plugin, metric) then 1.0 else 0.0
  {
    if revisions != [] {
      var front := revisions[..|revisions| - 1];
      assert revisions == front + [Last(revisions)];
      LoneRevisionTotals(defs, a, metric, attributions, front);
      LoneRevision(defs, a, metric, attributions, Last(revisions));
    }
  }

  /** With one attribution per publication, totals add up whatever was observed exactly when the deciding
    * channels agree. */
  lemma RevisionsAddUpIff(defs: seq<Definition>, attributions: seq<Attribution>, metric: Metric, revisions: seq<string>)
    requires Distinct(PublicationIds(attributions)) && Lists(revisions, attributions)
    ensures (forall obs :: AddsUp(defs, obs, attributions, metric, revisions)) <==> HeadsAgree(defs, attributions, metric)
  {
    if HeadsAgree(defs, attributions, metric) {
      forall obs
        ensures AddsUp(defs, obs, attributions, metric, revisions)
      {
        RevisionsAddUp(defs, obs, attributions, metric, revisions);
      }
    } else {
      var i :| 0 <= i < |attributions|
        && var own := ForRevision(attributions, attributions[i].revisionId);
           own != [] && Summable(defs, own[0].plugin, metric) != Summable(defs, attributions[0].plugin, metric);
      DisagreementShows(defs, attributions[i], metric, attributions, revisions);
    }
  }

  lemma DisagreementShows(
    defs: seq<Definition>, a: Attribution, metric: Metric, attributions: seq<Attribution>, revisions: seq<string>)
    requires Distinct(PublicationIds(attributions)) && Lists(revisions, attributions) && a in attributions
    requires ForRevision(attributions, a.revisionId) != []
    requires Summable(defs, ForRevision(attributions, a.revisionId)[0].plugin, metric)
             != Summable(defs, attributions[0].plugin, metric)
    ensures !AddsUp(defs, [Lone(a.publicationId, metric)], attributions, metric, revisions)
  {
    var k :| 0 <= k < |attributions| && attributions[k] == a;
    assert PublicationIds(attributions)[k] == a.publicationId;
    LoneTotal(defs, a.publicationId, metric, attributions);
    LoneRevisionTotals(defs, a, metric, attributions, revisions);
    LoneRevision(defs, a, metric, attributions, "");
  }

  /** The definition comes from the first attribution's channel: if that channel does not sum the metric, the
    * content has no total however much its other revisions report. */
  lemma FirstChannelDecides(defs: seq<Definition>, obs: seq<Observation>, a: Attribution, b: Attribution, metric: Metric)
    requires a.publicationId != b.publicationId && a.revisionId != b.revisionId
    requires !Summable(defs, a.plugin, metric) && Summable(defs, b.plugin, metric)
    requires ValueOf(obs, b.publicationId, metric).Some?
    ensures Total(defs, obs, [a, b], metric) == None
    ensures Total(defs, obs, ForRevision([a, b], b.revisionId), metric) == ValueOf(obs, b.publicationId, metric)
  {
    ForPair(a, b);
    OnlyOne(defs, obs, b, metric);
  }

  lemma ForPair(a: Attribution, b: Attribution)
    requires a.revisionId != b.revisionId
    ensures ForRevision([a, b], a.revisionId) == [a] && ForRevision([a, b], b.revisionId) == [b]
  {
    assert [a, b][..1] == [a] && [a][..0] == [];
    assert ForRevision([a], a.revisionId) == [a] && ForRevision([a], b.revisionId) == [];
  }

  lemma SumOfOne(obs: seq<Observation>, publication: string, metric: Metric)
    ensures SumOf(obs, [publication], metric) == Share(obs, publication, metric)
    ensures Reported(obs, [publication], metric) == ValueOf(obs, publication, metric).Some?
  {
    var one := [publication];
    assert one[..0] == [] && one[..1] == one;
    SumStep(obs, one, 0, metric);
  }

  lemma OnlyOne(defs: seq<Definition>, obs: seq<Observation>, b: Attribution, metric: Metric)
    requires Summable(defs, b.plugin, metric)
    ensures Total(defs, obs, [b], metric) == ValueOf(obs, b.publicationId, metric)
  {
    assert PublicationIds([b]) == [b.publicationId];
    UniqueOfDistinct([b.publicationId]);
    SumOfOne(obs, b.publicationId, metric);
  }

  /** What the read model draws from the attribution file, filtered by workspace and content item and sorted,
    * has one attribution per publication if the file has. */
  lemma DrawnOnce(list: seq<Attribution>, drawn: seq<Attribution>)
    requires OnePer(list) && multiset(drawn) <= multiset(list)
    ensures Distinct(PublicationIds(drawn))
  {
    forall i, k | 0 <= i < k < |drawn| && drawn[i].publicationId == drawn[k].publicationId
      ensures false
    {
      assert drawn[i] in multiset(drawn) && drawn[k] in multiset(drawn);
      assert drawn[i] in multiset(list) && drawn[k] in multiset(list);
      SamePublication(list, drawn[i], drawn[k]);
      TwiceCounts(drawn, i, k);
      OnceCounts(list, drawn[i]);
    }
  }

  lemma TwiceCounts<T>(s: seq<T>, i: nat, k: nat)
    requires i < k < |s| && s[i] == s[k]
    ensures multiset(s)[s[i]] >= 2
  {
    assert s == s[..i] + [s[i]] + s[i + 1..k] + [s[k]] + s[k + 1..];
  }

  lemma OnceCounts(list: seq<Attribution>, a: Attribution)
    requires OnePer(list)
    ensures multiset(list)[a] <= 1
  {
    forall i, k | 0 <= i < k < |list|
      ensures list[i] != list[k]
    {
      assert PublicationIds(list)[i] != PublicationIds(list)[k];
    }
    DistinctCounts(list, a);
  }

  /** In every run that resolves, backfills and reconciles attributions, what the read model draws from the
    * file adds up, whatever was observed, exactly when the deciding channels agree. */
  lemma ContentAddsUpIff(
    ops: seq<AttributionOp>, defs: seq<Definition>, drawn: seq<Attribution>, metric: Metric, revisions: seq<string>)
    requires Drafts(ops) && multiset(drawn) <= multiset(Replay(Repository(), [], ops)) && Lists(revisions, drawn)
    ensures (forall obs :: AddsUp(defs, obs, drawn, metric, revisions)) <==> HeadsAgree(defs, drawn, metric)
  {
    OnePerForever([], ops);
    DrawnOnce(Replay(Repository(), [], ops), drawn);
    RevisionsAddUpIff(defs, drawn, metric, revisions);
  }

  // ---------------------------------------------------------------- the services, step by step

  method CollectLatest(obs: seq<Observation>, publications: seq<string>) returns (latest: seq<map<Metric, Observation>>, keys: set<Metric>)
    ensures |latest| == |publications|
    ensures forall i, metric :: 0 <= i < |latest| ==>
      Entry(latest[i], metric) == LatestOf(ActiveOf(obs, publications[i]), metric)
    ensures forall i :: 0 <= i < |latest| ==> latest[i].Keys <= keys
  {
    latest, keys := [], {};
    for index := 0 to |publications|
      invariant |latest| == index
      invariant forall i, metric :: 0 <= i < index ==>
        Entry(latest[i], metric) == LatestOf(ActiveOf(obs, publications[i]), metric)
      invariant forall i :: 0 <= i < index ==> latest[i].Keys <= keys
    {
      var metrics := LatestMetrics(ActiveOf(obs, publications[index]));
      latest, keys := latest + [metrics], keys + metrics.Keys;
    }
  }

  lemma SumStep(obs: seq<Observation>, publications: seq<string>, index: nat, metric: Metric)
    requires index < |publications|
    ensures
      var v := ValueOf(obs, publications[index], metric);
      && SumOf(obs, publications[..index + 1], metric) ==
           SumOf(obs, publications[..index], metric) + (if v.Some? then v.value else 0.0)
      && Reported(obs, publications[..index + 1], metric) == (Reported(obs, publications[..index], metric) || v.Some?)
  {
    var front := publications[..index];
    assert publications[..index + 1] == front + [publications[index]];
    assert (front + [publications[index]])[..index] == front;
    ReportedAppend(obs, front, publications[index], metric);
  }

  lemma ReportedAppend(obs: seq<Observation>, front: seq<string>, p: string, metric: Metric)
    ensures Reported(obs, front + [p], metric) == (Reported(obs, front, metric) || ValueOf(obs, p, metric).Some?)
  {
    var next := front + [p];
    assert next[|front|] == p;
    if Reported(obs, front, metric) {
      var i :| 0 <= i < |front| && ValueOf(obs, front[i], metric).Some?;
      assert next[i] == front[i];
    }
  }

  /** The values of one metric, if any, added up. */
  method AddUp(ghost obs: seq<Observation>, ghost publications: seq<string>, latest: seq<map<Metric, Observation>>, metric: Metric)
    returns (any: bool, sum: real)
    requires |latest| == |publications|
    requires forall i :: 0 <= i < |latest| ==> Entry(latest[i], metric) == LatestOf(ActiveOf(obs, publications[i]), metric)
    ensures any == Reported(obs, publications, metric)
    ensures sum == SumOf(obs, publications, metric)
  {
    any, sum := false, 0.0;
    for index := 0 to |latest|
      invariant any == Reported(obs, publications[..index], metric)
      invariant sum == SumOf(obs, publications[..index], metric)
    {
      SumStep(obs, publications, index, metric);
      assert Entry(latest[index], metric) == LatestOf(ActiveOf(obs, publications[index]), metric);
      if metric in latest[index] && !latest[index][metric].value.Missing? {
        any, sum := true, sum + Number(latest[index][metric].value);
      }
    }
    assert publications[..|publications|] == publications;
  }

  /** `_aggregate_subject`: the comparable metrics of a content item or of one of its revisions. */
  method AggregateSubject(defs: seq<Definition>, obs: seq<Observation>, attributions: seq<Attribution>)
    returns (comparable: map<Metric, real>)
    ensures forall metric :: Entry(comparable, metric) == Total(defs, obs, attributions, metric)
  {
    var publications := Unique(PublicationIds(attributions));
    var latest, keys := CollectLatest(obs, publications);
    comparable := map[];
    var left := keys;
    while left != {}
      invariant left <= keys
      invariant forall metric :: metric in comparable ==> metric in keys - left
      invariant forall metric :: metric in keys - left ==>
        Entry(comparable, metric) == Total(defs, obs, attributions, metric)
    {
      var metric :| metric in left;
      left := left - {metric};
      var any, sum := AddUp(obs, publications, latest, metric);
      if any && attributions != [] && Summable(defs, attributions[0].plugin, metric) {
        comparable := comparable[metric := sum];
      }
    }
    forall metric | metric !in keys
      ensures Total(defs, obs, attributions, metric) == None
    {
      forall i | 0 <= i < |publications|
        ensures ValueOf(obs, publications[i], metric).None?
      {
        assert Entry(latest[i], metric) == LatestOf(ActiveOf(obs, publications[i]), metric);
      }
    }
  }
}
