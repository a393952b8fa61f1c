/** Stored record lists and the mutators that `_mutate_records` runs on them. */
module Mutators {
  import opened Prelude

  /** What a mutator does with the records it is given; `Raised` is an exception out of it. */
  datatype Outcome<+D, +R> = Unchanged(result: R) | Changed(data: D, result: R) | Raised

  /** A kind of store: what each operation's mutator does, and the payload of an absent file. */
  datatype Store<!Op, !D, +R> = Store(apply: (Op, D) -> Outcome<D, R>, initial: D)

  /** The records left by a mutator that found `d`: written back only when it reports a change. */
  function Commit<D, R>(d: D, o: Outcome<D, R>): D {
    if o.Changed? then o.data else d
  }

  function Step<Op, D, R>(c: Store<Op, D, R>, d: D, op: Op): D {
    Commit(d, c.apply(op, d))
  }

  /** The operations applied one after another. */
  function Replay<Op, D, R>(c: Store<Op, D, R>, d: D, ops: seq<Op>): D {
    if ops == [] then d else Step(c, Replay(c, d, ops[..|ops| - 1]), Last(ops))
  }

  lemma ReplayAppend<Op, D, R>(c: Store<Op, D, R>, d: D, ops: seq<Op>, op: Op)
    ensures Replay(c, d, ops + [op]) == Step(c, Replay(c, d, ops), op)
  {
    assert (ops + [op])[..|ops|] == ops;
  }

  lemma ReplayThree<Op, D, R>(s: Store<Op, D, R>, d: D, a: Op, b: Op, c: Op)
    ensures Replay(s, d, [a]) == Step(s, d, a)
    ensures Replay(s, d, [a, b]) == Step(s, Step(s, d, a), b)
    ensures Replay(s, d, [a, b, c]) == Step(s, Step(s, Step(s, d, a), b), c)
  {
    assert [] + [a] == [a] && [a] + [b] == [a, b] && [a, b] + [c] == [a, b, c];
    ReplayAppend(s, d, [], a);
    ReplayAppend(s, d, [a], b);
    ReplayAppend(s, d, [a, b], c);
  }

  lemma {:induction false} ReplayConcat<Op, D, R>(c: Store<Op, D, R>, d: D, a: seq<Op>, b: seq<Op>)
    ensures Replay(c, d, a + b) == Replay(c, Replay(c, d, a), b)
  {
    if b == [] {
      assert a + b == a;
    } else {
      assert (a + b)[..|a + b| - 1] == a + b[..|b| - 1];
      ReplayConcat(c, d, a, b[..|b| - 1]);
    }
  }

  /** What every operation keeps holds after any run of them. */
  lemma {:induction false} ReplayKeeps<Op(!new), D(!new), R>(
    c: Store<Op, D, R>, good: D -> bool, allowed: Op -> bool, d: D, ops: seq<Op>)
    requires good(d)
    requires forall op, e :: allowed(op) && good(e) ==> good(Step(c, e, op))
    requires forall i :: 0 <= i < |ops| ==> allowed(ops[i])
    ensures good(Replay(c, d, ops))
  {
    if ops != [] {
      ReplayKeeps(c, good, allowed, d, ops[..|ops| - 1]);
      assert allowed(Last(ops));
    }
  }

  // ------------------------------------------------------ runs

  /** Each operation of the run is permitted in the state it is applied to. */
  ghost predicate Legal<Op, D, R>(c: Store<Op, D, R>, permitted: (D, Op) -> bool, d: D, ops: seq<Op>) {
    forall i :: 0 <= i < |ops| ==> permitted(Replay(c, d, ops[..i]), ops[i])
  }

  /** The property holds in every state of the run, the first and the last included. */
  ghost predicate Throughout<Op, D, R>(c: Store<Op, D, R>, good: D -> bool, d: D, ops: seq<Op>) {
    forall n :: 0 <= n <= |ops| ==> good(Replay(c, d, ops[..n]))
  }

  lemma LegalSplit<Op, D, R>(c: Store<Op, D, R>, permitted: (D, Op) -> bool, d: D, ops: seq<Op>)
    requires ops != []
    ensures
      var front := ops[..|ops| - 1];
      Legal(c, permitted, d, ops) <==> Legal(c, permitted, d, front) && permitted(Replay(c, d, front), Last(ops))
  {
    var front := ops[..|ops| - 1];
    assert forall i :: 0 <= i < |front| ==> front[..i] == ops[..i] && front[i] == ops[i];
    assert Legal(c, permitted, d, ops) ==> permitted(Replay(c, d, ops[..|front|]), ops[|front|]);
  }

  lemma ThroughoutSplit<Op, D, R>(c: Store<Op, D, R>, good: D -> bool, d: D, ops: seq<Op>)
    requires ops != []
    ensures
      var front := ops[..|ops| - 1];
      Throughout(c, good, d, ops) <==> Throughout(c, good, d, front) && good(Replay(c, d, ops))
  {
    var front := ops[..|ops| - 1];
    assert forall n :: 0 <= n <= |front| ==> front[..n] == ops[..n];
    assert ops[..|ops|] == ops;
  }

  lemma LegalPrefix<Op, D, R>(c: Store<Op, D, R>, permitted: (D, Op) -> bool, d: D, ops: seq<Op>)
    requires Legal(c, permitted, d, ops) && ops != []
    ensures Legal(c, permitted, d, ops[..|ops| - 1])
    ensures permitted(Replay(c, d, ops[..|ops| - 1]), Last(ops))
  {
    LegalSplit(c, permitted, d, ops);
  }

  lemma LegalConcat<Op, D, R>(c: Store<Op, D, R>, permitted: (D, Op) -> bool, d: D, a: seq<Op>, b: seq<Op>)
    requires Legal(c, permitted, d, a + b)
    ensures Legal(c, permitted, d, a) && Legal(c, permitted, Replay(c, d, a), b)
  {
    assert forall i :: 0 <= i < |a| ==> (a + b)[..i] == a[..i] && (a + b)[i] == a[i];
    forall i | 0 <= i < |b|
      ensures permitted(Replay(c, Replay(c, d, a), b[..i]), b[i])
    {
      assert (a + b)[..|a| + i] == a + b[..i] && (a + b)[|a| + i] == b[i];
      ReplayConcat(c, d, a, b[..i]);
    }
  }

  lemma LegalThree<Op, D, R>(s: Store<Op, D, R>, permitted: (D, Op) -> bool, d: D, a: Op, b: Op, c: Op)
    requires permitted(d, a) && permitted(Step(s, d, a), b) && permitted(Step(s, Step(s, d, a), b), c)
    ensures Legal(s, permitted, d, [a, b, c])
  {
    var ops := [a, b, c];
    ReplayThree(s, d, a, b, c);
    assert ops[..1] == [a] && ops[..2] == [a, b];
    forall i | 0 <= i < |ops|
      ensures permitted(Replay(s, d, ops[..i]), ops[i])
    {
      assert i == 0 || i == 1 || i == 2;
    }
  }

  ghost predicate AnyState<D>(d: D) { true }

  ghost predicate AnyStep<D, Op>(d: D, op: Op) { true }

  /** Where each step keeps a property exactly if the operation fits the state, a run keeps it throughout
    * exactly if every operation fits the state it is applied to. */
  lemma {:induction false} KeptExactly<Op(!new), D(!new), R>(
    c: Store<Op, D, R>, sane: D -> bool, permitted: (D, Op) -> bool, good: D -> bool, fits: (D, Op) -> bool,
    d: D, ops: seq<Op>)
    requires sane(d) && good(d) && Legal(c, permitted, d, ops)
    requires forall e, op :: sane(e) && permitted(e, op) ==> sane(Step(c, e, op))
    requires forall e, op :: sane(e) && permitted(e, op) && good(e) ==> (good(Step(c, e, op)) <==> fits(e, op))
    ensures Throughout(c, good, d, ops) <==> Legal(c, fits, d, ops)
    ensures sane(Replay(c, d, ops))
  {
    if ops == [] {
      assert ops[..0] == [];
    } else {
      var front := ops[..|ops| - 1];
      LegalSplit(c, permitted, d, ops);
      LegalSplit(c, fits, d, ops);
      ThroughoutSplit(c, good, d, ops);
      KeptExactly(c, sane, permitted, good, fits, d, front);
      if Throughout(c, good, d, front) {
        assert front[..|front|] == front;
        assert good(Replay(c, d, front));
      }
    }
  }

  // ------------------------------------------------------ records and raw payloads

  /** One element of a stored list: a record of the expected class, or something else. */
  datatype Item<+T> = Record(record: T) | Junk(raw: string)

  /** `_deserialize_records`: elements that do not build a record are skipped. */
  function Deserialize<T>(payload: seq<Item<T>>): (r: seq<T>)
    ensures |r| <= |payload|
  {
    if payload == [] then []
    else if payload[0].Record? then [payload[0].record] + Deserialize(payload[1..])
    else Deserialize(payload[1..])
  }

  /** `_serialize_records`. */
  function Serialize<T>(records: seq<T>): seq<Item<T>> {
    seq(|records|, i requires 0 <= i < |records| => Record(records[i]))
  }

  lemma {:induction false} DeserializeSerialize<T>(records: seq<T>)
    ensures Deserialize(Serialize(records)) == records
  {
    if records != [] {
      assert Serialize(records)[1..] == Serialize(records[1..]);
      DeserializeSerialize(records[1..]);
    }
  }

  /** The store on raw payloads that a store on records stands for. */
  function Lift<Op, T, R>(c: Store<Op, seq<T>, R>): Store<Op, seq<Item<T>>, R> {
    Store((op, p) =>
      match c.apply(op, Deserialize(p))
      case Unchanged(r) => Unchanged(r)
      case Changed(d, r) => Changed(Serialize(d), r)
      case Raised => Raised,
      Serialize(c.initial))
  }

  /** Skipped elements change nothing for the records: raw and typed runs agree, whatever else the
    * file held; but the first change drops every skipped element, since it writes records only. */
  lemma {:induction false} LiftRefines<Op, T, R>(c: Store<Op, seq<T>, R>, p: seq<Item<T>>, ops: seq<Op>)
    ensures Deserialize(Replay(Lift(c), p, ops)) == Replay(c, Deserialize(p), ops)
    ensures Replay(Lift(c), p, ops) == p || Replay(Lift(c), p, ops) == Serialize(Replay(c, Deserialize(p), ops))
  {
    if ops != [] {
      var before := Replay(c, Deserialize(p), ops[..|ops| - 1]);
      LiftRefines(c, p, ops[..|ops| - 1]);
      DeserializeSerialize(Step(c, before, Last(ops)));
    }
  }
}
