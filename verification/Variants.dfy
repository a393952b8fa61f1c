/** The channel variant list of content_services.py (`ChannelVariantRepository`), one store mutation at
  * a time. */
module Variants {
  import opened Prelude
  import opened Mutators
  import opened Records
  import opened Text
  import LockedStore

  datatype Status = Draft | Ready | Stale | Invalid | Archived

  datatype Variant = Variant(
    id: string, workspaceId: string, itemId: string, sourceRevisionId: string,
    channel: string, capability: string, title: string, body: string, language: string, hashtags: seq<string>,
    status: Status, updatedAt: int)

  /** The repository's three mutations. `Save` writes whatever copy the caller holds. */
  datatype Op =
    | Create(variant: Variant)
    | Save(variant: Variant)
    | MarkStale(itemId: string, currentRevisionId: string, now: int)

  function Ids(vs: seq<Variant>): seq<string> {
    seq(|vs|, i requires 0 <= i < |vs| => vs[i].id)
  }

  predicate SameSlot(a: Variant, b: Variant) {
    a.workspaceId == b.workspaceId && a.itemId == b.itemId && a.channel == b.channel && a.capability == b.capability
  }

  /** What `_ensure_no_duplicate_ready` looks for. */
  predicate Duplicates(vs: seq<Variant>, v: Variant) {
    exists i :: 0 <= i < |vs| && vs[i].id != v.id && SameSlot(vs[i], v) && vs[i].status.Ready?
  }

  predicate Outdated(v: Variant, itemId: string, currentRevisionId: string) {
    v.itemId == itemId && v.sourceRevisionId != currentRevisionId && v.status.Ready?
  }

  function Aged(vs: seq<Variant>, itemId: string, currentRevisionId: string, now: int): seq<Variant> {
    seq(|vs|, i requires 0 <= i < |vs| =>
      if Outdated(vs[i], itemId, currentRevisionId) then vs[i].(status := Stale, updatedAt := now) else vs[i])
  }

  function Apply(op: Op, vs: seq<Variant>): Outcome<seq<Variant>, ()> {
    match op
    case Create(v) =>
      if v.id in Ids(vs) || (v.status.Ready? && Duplicates(vs, v)) then Raised else Changed(vs + [v], ())
    case Save(v) =>
      if v.status.Ready? && Duplicates(vs, v) then Raised else Changed(Upsert(vs, Ids(vs), v.id, v), ())
    case MarkStale(itemId, currentRevisionId, now) =>
      if exists i :: 0 <= i < |vs| && Outdated(vs[i], itemId, currentRevisionId)
      then Changed(Aged(vs, itemId, currentRevisionId, now), ()) else Unchanged(())
  }

  function Repository(): Store<Op, seq<Variant>, ()> {
    Store((op, vs) => Apply(op, vs), [])
  }

  lemma MarkingAges(vs: seq<Variant>, itemId: string, currentRevisionId: string, now: int)
    ensures Step(Repository(), vs, MarkStale(itemId, currentRevisionId, now)) == Aged(vs, itemId, currentRevisionId, now)
  {
  }

  // ---------------------------------------------------------------- one ready variant per slot

  ghost predicate OneReady(vs: seq<Variant>) {
    && Distinct(Ids(vs))
    && forall i, k :: 0 <= i < k < |vs| && vs[i].status.Ready? && vs[k].status.Ready? ==> !SameSlot(vs[i], vs[k])
  }

  lemma SaveShape(vs: seq<Variant>, v: Variant)
    requires Distinct(Ids(vs))
    ensures
      var at := Locate(Ids(vs), v.id);
      var after := Upsert(vs, Ids(vs), v.id, v);
      && Distinct(Ids(after))
      && after == (if at.Some? then vs[at.value := v] else vs + [v])
      && (forall i :: 0 <= i < |vs| && Some(i) != at ==> vs[i].id != v.id)
  {
    var at := Locate(Ids(vs), v.id);
    forall i | 0 <= i < |vs| && vs[i].id == v.id
      ensures at == Some(i)
    {
      assert Ids(vs)[i] == v.id;
      LocateDistinct(Ids(vs), i);
    }
    if at.Some? {
      assert Ids(vs[at.value := v]) == Ids(vs);
    } else {
      assert Ids(vs + [v]) == Ids(vs) + [v.id];
    }
  }

  lemma StepKeepsOneReady(vs: seq<Variant>, op: Op)
    requires OneReady(vs)
    ensures OneReady(Step(Repository(), vs, op))
  {
    match op
    case Create(v) =>
      assert Ids(vs + [v]) == Ids(vs) + [v.id];
      if v.id !in Ids(vs) {
        forall i | 0 <= i < |vs|
          ensures vs[i].id != v.id
        {
          assert Ids(vs)[i] == vs[i].id;
        }
      }
    case Save(v) => SaveShape(vs, v);
    case MarkStale(itemId, revision, now) =>
      assert Ids(Aged(vs, itemId, revision, now)) == Ids(vs);
  }

  /** Any interleaving of variant mutations, saves of outdated copies included, keeps at most one ready
    * variant per workspace, item, channel and capability. */
  lemma {:induction false} OneReadyForever(vs: seq<Variant>, ops: seq<Op>)
    requires OneReady(vs)
    ensures OneReady(Replay(Repository(), vs, ops))
  {
    if ops != [] {
      OneReadyForever(vs, ops[..|ops| - 1]);
      StepKeepsOneReady(Replay(Repository(), vs, ops[..|ops| - 1]), Last(ops));
    }
  }

  /** The same for the variant file, shared by processes that interleave file steps, time out and die. */
  lemma OneReadyFile(f: LockedStore.File<seq<Mutators.Item<Variant>>>, steps: seq<LockedStore.Action<Op>>)
    requires OneReady(Deserialize(LockedStore.Effective(Lift(Repository()), f)))
    ensures
      var c := Lift(Repository());
      OneReady(Deserialize(LockedStore.Effective(c, LockedStore.Run(c, LockedStore.Boot(f), steps).file)))
  {
    var c := Lift(Repository());
    var ops := LockedStore.Ops(LockedStore.Run(c, LockedStore.Boot(f), steps).history);
    LockedStore.Linearizable(c, f, steps);
    LiftRefines(Repository(), LockedStore.Effective(c, f), ops);
    OneReadyForever(Deserialize(LockedStore.Effective(c, f)), ops);
  }

  /** A variant is refused, on creation and on saving, exactly if it is ready while another of its workspace, item,
    * channel and capability is; and on creation if its id is taken. */
  lemma RefusedIff(vs: seq<Variant>, v: Variant)
    ensures
      var rival := exists u ::
        && u in vs && u.id != v.id && u.status == Ready
        && u.workspaceId == v.workspaceId && u.itemId == v.itemId && u.channel == v.channel && u.capability == v.capability;
      && (Apply(Save(v), vs).Raised? <==> v.status == Ready && rival)
      && (Apply(Create(v), vs).Raised? <==> (v.status == Ready && rival) || exists u :: u in vs && u.id == v.id)
  {
    if i :| 0 <= i < |vs| && vs[i].id != v.id && SameSlot(vs[i], v) && vs[i].status.Ready? {
      assert vs[i] in vs;
    }
    assert Duplicates(vs, v) <==> exists u :: u in vs && u.id != v.id && SameSlot(u, v) && u.status == Ready;
    assert v.id in Ids(vs) <==> exists u :: u in vs && u.id == v.id by {
      if i :| 0 <= i < |vs| && Ids(vs)[i] == v.id {
        assert vs[i] in vs;
      }
      if u :| u in vs && u.id == v.id {
        var k :| 0 <= k < |vs| && vs[k] == u;
        assert Ids(vs)[k] == v.id;
      }
    }
  }

  /** What is not refused is stored: in the place of the variant of that id, or at the end. */
  lemma StoredInPlace(vs: seq<Variant>, v: Variant)
    requires Distinct(Ids(vs)) && !Apply(Save(v), vs).Raised?
    ensures
      var after := Step(Repository(), vs, Save(v));
      && v in after && |vs| <= |after| <= |vs| + 1
      && (forall k :: 0 <= k < |vs| ==> after[k] == if vs[k].id == v.id then v else vs[k])
      && (v.id !in Ids(vs) ==> after == vs + [v] == Step(Repository(), vs, Create(v)))
  {
    SaveShape(vs, v);
    var at := Locate(Ids(vs), v.id);
    var after := Step(Repository(), vs, Save(v));
    assert after[if at.Some? then at.value else |vs|] == v;
    assert at.Some? ==> Ids(vs)[at.value] == vs[at.value].id;
  }

  /** Marking makes exactly the item's ready variants of other revisions stale, at the given time, and changes
    * nothing else. */
  lemma MarkingIsExact(vs: seq<Variant>, itemId: string, currentRevisionId: string, now: int, i: nat)
    requires i < |vs|
    ensures
      var after := Step(Repository(), vs, MarkStale(itemId, currentRevisionId, now));
      |after| == |vs|
      && if vs[i].itemId == itemId && vs[i].status == Ready && vs[i].sourceRevisionId != currentRevisionId
         then after[i].status == Stale && after[i].updatedAt == now
              && after[i] == vs[i].(status := after[i].status, updatedAt := after[i].updatedAt)
         else after[i] == vs[i]
  {
    MarkingAges(vs, itemId, currentRevisionId, now);
  }

  // ---------------------------------------------------------------- selecting

  /** A candidate of `select_active`; an empty revision id means any revision. */
  predicate Selectable(v: Variant, itemId: string, channel: string, capability: string, revisionId: string) {
    && v.itemId == itemId && v.channel == channel && v.capability == capability && v.status.Ready?
    && (revisionId == "" || v.sourceRevisionId == revisionId)
  }

  predicate Newer(a: Variant, b: Variant) {
    a.updatedAt > b.updatedAt || (a.updatedAt == b.updatedAt && Less(b.id, a.id))
  }

  /** `select_active`: the candidate with the greatest (updated_at, id). */
  function SelectActive(
    vs: seq<Variant>, itemId: string, channel: string, capability: string, revisionId: string): (r: Option<Variant>)
    ensures r.None? <==> forall i :: 0 <= i < |vs| ==> !Selectable(vs[i], itemId, channel, capability, revisionId)
    ensures r.Some? ==> r.value in vs && Selectable(r.value, itemId, channel, capability, revisionId)
  {
    if vs == [] then None
    else
      var n := |vs| - 1;
      var best := SelectActive(vs[..n], itemId, channel, capability, revisionId);
      if Selectable(vs[n], itemId, channel, capability, revisionId) && (best.None? || Newer(vs[n], best.value))
      then Some(vs[n]) else best
  }

  /** If an item's variants carry one workspace id, there is never a choice to make: the only candidate is
    * the answer, and the tie-break does not matter. */
  lemma SelectionIsForced(
    vs: seq<Variant>, itemId: string, channel: string, capability: string, revisionId: string, workspaceId: string, i: nat)
    requires OneReady(vs)
    requires forall k :: 0 <= k < |vs| && vs[k].itemId == itemId ==> vs[k].workspaceId == workspaceId
    requires i < |vs| && Selectable(vs[i], itemId, channel, capability, revisionId)
    ensures forall k :: 0 <= k < |vs| && Selectable(vs[k], itemId, channel, capability, revisionId) ==> k == i
    ensures SelectActive(vs, itemId, channel, capability, revisionId) == Some(vs[i])
  {
    forall k | 0 <= k < |vs| && Selectable(vs[k], itemId, channel, capability, revisionId)
      ensures k == i
    {
      assert SameSlot(vs[k], vs[i]) && SameSlot(vs[i], vs[k]);
      assert k < i || k == i || i < k;
    }
  }

  /** Two candidates are the same variant exactly if they carry the same workspace id: the slot includes the
    * workspace, the selection does not. */
  lemma CandidatesCoincideIff(
    vs: seq<Variant>, itemId: string, channel: string, capability: string, revisionId: string, i: nat, k: nat)
    requires OneReady(vs)
    requires i < |vs| && Selectable(vs[i], itemId, channel, capability, revisionId)
    requires k < |vs| && Selectable(vs[k], itemId, channel, capability, revisionId)
    ensures i == k <==> vs[i].workspaceId == vs[k].workspaceId
  {
  }

  /** An answer is a ready variant of the item for the channel and the capability, of that revision, or of any if none
    * is named; and where there is such a variant there is an answer. */
  lemma SelectsReady(
    vs: seq<Variant>, itemId: string, channel: string, capability: string, revisionId: string, v: Variant)
    ensures
      var r := SelectActive(vs, itemId, channel, capability, revisionId);
      var fits := v in vs && v.itemId == itemId && v.channel == channel && v.capability == capability && v.status == Ready
        && (revisionId == "" || v.sourceRevisionId == revisionId);
      (fits ==> r.Some?) && (r == Some(v) ==> fits)
  {
    if v in vs && Selectable(v, itemId, channel, capability, revisionId) {
      var i :| 0 <= i < |vs| && vs[i] == v;
      assert Selectable(vs[i], itemId, channel, capability, revisionId);
    }
  }

  /** No candidate is newer than the answer: by the time of its update, and by its id among equal times. */
  lemma {:induction false} SelectedIsNewest(
    vs: seq<Variant>, itemId: string, channel: string, capability: string, revisionId: string, i: nat)
    requires i < |vs| && Selectable(vs[i], itemId, channel, capability, revisionId)
    ensures
      var r := SelectActive(vs, itemId, channel, capability, revisionId);
      r.Some? && !Newer(vs[i], r.value)
      && (vs[i].updatedAt < r.value.updatedAt || (vs[i].updatedAt == r.value.updatedAt && !Less(r.value.id, vs[i].id)))
  {
    var n := |vs| - 1;
    var r := SelectActive(vs, itemId, channel, capability, revisionId).value;
    LessTrichotomy(vs[n].id, r.id);
    if i < n {
      SelectedIsNewest(vs[..n], itemId, channel, capability, revisionId, i);
      var best := SelectActive(vs[..n], itemId, channel, capability, revisionId).value;
      NewerTransitive(vs[i], vs[n], best);
    }
  }

  lemma NewerTransitive(a: Variant, b: Variant, c: Variant)
    ensures Newer(b, c) && Newer(a, b) ==> Newer(a, c)
  {
    if Less(b.id, a.id) && Less(c.id, b.id) {
      LessTransitive(c.id, b.id, a.id);
    }
  }

  // ---------------------------------------------------------------- the mutators, step by step

  class VariantList {
    var variants: seq<Variant>

    constructor (variants: seq<Variant>)
      ensures this.variants == variants
    {
      this.variants := variants;
    }

    method HasDuplicateReady(v: Variant) returns (found: bool)
      ensures found == Duplicates(variants, v)
    {
      for index := 0 to |variants|
        invariant forall k :: 0 <= k < index ==>
          !(variants[k].id != v.id && SameSlot(variants[k], v) && variants[k].status.Ready?)
      {
        var record := variants[index];
        if record.id != v.id {
          if SameSlot(record, v) && record.status.Ready? {
            return true;
          }
        }
      }
      return false;
    }

    method CreateVariant(v: Variant) returns (ok: bool)
      modifies this
      ensures ok == !Apply(Create(v), old(variants)).Raised?
      ensures variants == Step(Repository(), old(variants), Create(v))
    {
      if v.id in Ids(variants) {
        return false;
      }
      if v.status.Ready? {
        var duplicate := HasDuplicateReady(v);
        if duplicate {
          return false;
        }
      }
      variants := variants + [v];
      return true;
    }

    method SaveVariant(v: Variant) returns (ok: bool)
      modifies this
      ensures ok == !Apply(Save(v), old(variants)).Raised?
      ensures variants == Step(Repository(), old(variants), Save(v))
    {
      if v.status.Ready? {
        var duplicate := HasDuplicateReady(v);
        if duplicate {
          return false;
        }
      }
      variants := UpsertInPlace(variants, Ids(variants), v.id, v);
      return true;
    }

    /** `mark_stale_for_revision_change`: the variants it changed, in list order. */
    method MarkStaleFor(itemId: string, currentRevisionId: string, now: int) returns (stale: seq<Variant>)
      modifies this
      ensures variants == Step(Repository(), old(variants), MarkStale(itemId, currentRevisionId, now))
      ensures stale == [] <==> variants == old(variants)
      ensures forall v :: v in stale ==> v.status.Stale? && v.itemId == itemId && v in variants
    {
      stale := [];
      for index := 0 to |variants|
        invariant |variants| == |old(variants)|
        invariant variants[..index] == Aged(old(variants), itemId, currentRevisionId, now)[..index]
        invariant variants[index..] == old(variants)[index..]
        invariant stale == [] <==> forall k :: 0 <= k < index ==> !Outdated(old(variants)[k], itemId, currentRevisionId)
        invariant forall v :: v in stale ==> v.status.Stale? && v.itemId == itemId && v in variants[..index]
      {
        var record := variants[index];
        assert record == old(variants)[index];
        if record.itemId == itemId && record.sourceRevisionId != currentRevisionId && record.status.Ready? {
          record := record.(status := Stale, updatedAt := now);
          variants := variants[index := record];
          stale := stale + [record];
        }
        assert variants[..index + 1] == variants[..index] + [record];
      }
    }
  }
}
