/** Publication attributions (analytics_services.py): which content revision a published post carries. */
module Attributions {
  import opened Prelude
  import opened Mutators
  import opened Records
  import opened Text

  datatype AttributionStatus = Complete | Partial | Unresolved | Conflicting | Historical

  /** What `attribution_checksum` hashes; hashing is taken to be injective. `evidence` stands for the
    * variant, snapshot, media, schedule, campaign and requirement fields. The content item, the channel and
    * the account are not part of it. */
  datatype Digest = Digest(publicationId: string, remoteId: string, revisionId: string, evidence: string)

  datatype Attribution = Attribution(
    id: string, workspaceId: string, publicationId: string, remoteId: string, plugin: string, account: string, contentItemId: string,
    revisionId: string, evidence: string, createdAt: string, checksum: Digest, status: AttributionStatus)

  function Checksum(a: Attribution): Digest {
    Digest(a.publicationId, a.remoteId, a.revisionId, a.evidence)
  }

  /** `Create` is what resolving, creating and backfilling an attribution store; the draft is what the post,
    * its job and its derivative say at that time. */
  datatype AttributionOp = Create(draft: Attribution) | Reconcile(draft: Attribution)

  function PublicationIds(list: seq<Attribution>): seq<string> {
    seq(|list|, i requires 0 <= i < |list| => list[i].publicationId)
  }

  function AttributionIds(list: seq<Attribution>): seq<string> {
    seq(|list|, i requires 0 <= i < |list| => list[i].id)
  }

  /** `AttributionRepository.create`: the stored record and the list it is in. */
  function CreateIn(list: seq<Attribution>, draft: Attribution): (seq<Attribution>, Attribution) {
    var at := Locate(PublicationIds(list), draft.publicationId);
    if at.None? then (list + [draft], draft)
    else
      var existing := list[at.value];
      if existing.checksum != draft.checksum then
        var marked := existing.(status := Conflicting);
        (list[at.value := marked], marked)
      else (list, existing)
  }

  /** `get_by_publication`: the first by (created_at, id). */
  function Current(list: seq<Attribution>, publicationId: string): (r: Option<Attribution>)
    ensures r.Some? ==> r.value in list && r.value.publicationId == publicationId
    ensures r.None? ==> publicationId !in PublicationIds(list)
  {
    if list == [] then None
    else
      assert PublicationIds(list) == PublicationIds(list[..|list| - 1]) + [Last(list).publicationId];
      var best := Current(list[..|list| - 1], publicationId);
      var a := Last(list);
      if a.publicationId != publicationId then best
      else if best.None? || Less(a.createdAt, best.value.createdAt)
              || (a.createdAt == best.value.createdAt && Less(a.id, best.value.id))
      then Some(a) else best
  }

  /** `reconcile_attribution`. */
  function ReconcileIn(list: seq<Attribution>, draft: Attribution): seq<Attribution> {
    var current := Current(list, draft.publicationId);
    var (after, remade) := CreateIn(list, draft);
    if current.Some? && current.value.checksum != remade.checksum
    then Upsert(after, AttributionIds(after), remade.id, remade.(status := Conflicting))
    else after
  }

  function ApplyAttribution(op: AttributionOp, list: seq<Attribution>): Outcome<seq<Attribution>, ()> {
    match op
    case Create(draft) => Changed(CreateIn(list, draft).0, ())
    case Reconcile(draft) => Changed(ReconcileIn(list, draft), ())
  }

  function Repository(): Store<AttributionOp, seq<Attribution>, ()> {
    Store((op, list) => ApplyAttribution(op, list), [])
  }

  /** One attribution per publication, each with its own checksum. */
  ghost predicate OnePer(list: seq<Attribution>) {
    && Distinct(PublicationIds(list))
    && forall i :: 0 <= i < |list| ==> list[i].checksum == Checksum(list[i])
  }

  lemma CreateShape(list: seq<Attribution>, draft: Attribution)
    requires OnePer(list) && draft.checksum == Checksum(draft)
    ensures
      var (after, stored) := CreateIn(list, draft);
      && OnePer(after) && stored in after && |list| <= |after|
      && (forall i :: 0 <= i < |list| ==> after[i] == list[i].(status := after[i].status))
      && (forall i :: 0 <= i < |list| && after[i] != list[i] ==>
            after[i].status.Conflicting? && list[i].publicationId == draft.publicationId && list[i].checksum != draft.checksum)
  {
    var (after, stored) := CreateIn(list, draft);
    var at := Locate(PublicationIds(list), draft.publicationId);
    if at.None? {
      assert PublicationIds(after) == PublicationIds(list) + [draft.publicationId];
      assert after[|list|] == draft;
    } else {
      assert PublicationIds(list)[at.value] == draft.publicationId;
      assert PublicationIds(after) == PublicationIds(list);
      assert after[at.value] == stored;
    }
  }

  /** Reconciling never reaches its save: what creating hands back is the current attribution itself. */
  lemma ReconcilingIsCreating(list: seq<Attribution>, draft: Attribution)
    requires OnePer(list)
    ensures ReconcileIn(list, draft) == CreateIn(list, draft).0
  {
    var current := Current(list, draft.publicationId);
    if current.Some? {
      var k :| 0 <= k < |list| && list[k] == current.value;
      assert PublicationIds(list)[k] == draft.publicationId;
      LocateDistinct(PublicationIds(list), k);
    }
  }

  lemma AttributionStepKeeps(list: seq<Attribution>, op: AttributionOp)
    requires OnePer(list) && op.draft.checksum == Checksum(op.draft)
    ensures Step(Repository(), list, op) == CreateIn(list, op.draft).0
    ensures OnePer(Step(Repository(), list, op))
  {
    ReconcilingIsCreating(list, op.draft);
    CreateShape(list, op.draft);
  }

  ghost predicate Drafts(ops: seq<AttributionOp>) {
    forall i :: 0 <= i < |ops| ==> ops[i].draft.checksum == Checksum(ops[i].draft)
  }

  /** Every run keeps one attribution per publication, and no scan finds a checksum that does not match. */
  lemma {:induction false} OnePerForever(list: seq<Attribution>, ops: seq<AttributionOp>)
    requires OnePer(list) && Drafts(ops)
    ensures OnePer(Replay(Repository(), list, ops))
  {
    if ops != [] {
      OnePerForever(list, ops[..|ops| - 1]);
      AttributionStepKeeps(Replay(Repository(), list, ops[..|ops| - 1]), Last(ops));
    }
  }

  /** The draft is for the same publication and has another checksum. */
  predicate Challenges(op: AttributionOp, a: Attribution) {
    op.draft.publicationId == a.publicationId && op.draft.checksum != a.checksum
  }

  ghost predicate Challenged(ops: seq<AttributionOp>, a: Attribution) {
    exists k :: 0 <= k < |ops| && Challenges(ops[k], a)
  }

  lemma HistoricalStep(list: seq<Attribution>, op: AttributionOp, i: nat)
    requires OnePer(list) && op.draft.checksum == Checksum(op.draft) && i < |list|
    ensures
      var after := Step(Repository(), list, op);
      && i < |after|
      && after[i] == list[i].(status := if Challenges(op, list[i]) then Conflicting else list[i].status)
  {
    AttributionStepKeeps(list, op);
    CreateShape(list, op.draft);
    if list[i].publicationId == op.draft.publicationId {
      assert PublicationIds(list)[i] == op.draft.publicationId;
      LocateDistinct(PublicationIds(list), i);
    }
  }

  lemma ChallengedSplit(ops: seq<AttributionOp>, a: Attribution)
    requires ops != []
    ensures Challenged(ops, a) <==> Challenged(ops[..|ops| - 1], a) || Challenges(Last(ops), a)
  {
    var front := ops[..|ops| - 1];
    assert forall k :: 0 <= k < |front| ==> front[k] == ops[k];
    assert ops[|front|] == Last(ops);
  }

  /** An attribution is historical: whatever is resolved or reconciled later, only its status changes. The
    * status changes exactly when a later draft for the publication has another checksum, and then the
    * attribution is conflicting from there on. */
  lemma {:induction false} AttributionsAreHistorical(list: seq<Attribution>, ops: seq<AttributionOp>, i: nat)
    requires OnePer(list) && Drafts(ops) && i < |list|
    ensures
      var after := Replay(Repository(), list, ops);
      && i < |after|
      && after[i] == list[i].(status := if Challenged(ops, list[i]) then Conflicting else list[i].status)
  {
    if ops != [] {
      var front := ops[..|ops| - 1];
      OnePerForever(list, front);
      AttributionsAreHistorical(list, front, i);
      HistoricalStep(Replay(Repository(), list, front), Last(ops), i);
      ChallengedSplit(ops, list[i]);
    }
  }

  /** What a checksum tells apart: publication, remote id, revision and evidence, and nothing else. */
  lemma SameChecksumIff(a: Attribution, b: Attribution)
    ensures Checksum(a) == Checksum(b) <==>
      a.publicationId == b.publicationId && a.remoteId == b.remoteId && a.revisionId == b.revisionId && a.evidence == b.evidence
  {
  }

  /** Where a publication has no attribution the draft is stored as it is; where it has one the list keeps its length,
    * and what is handed back is that one, marked conflicting exactly if the draft says otherwise about the
    * remote id, the revision or the evidence. */
  lemma CreatingStores(list: seq<Attribution>, draft: Attribution)
    requires OnePer(list) && draft.checksum == Checksum(draft)
    ensures
      var (after, stored) := CreateIn(list, draft);
      if draft.publicationId !in PublicationIds(list) then after == list + [draft] && stored == draft
      else |after| == |list| && exists i ::
        && 0 <= i < |list| && list[i].publicationId == draft.publicationId && after[i] == stored
        && stored.id == list[i].id && stored.checksum == list[i].checksum
        && (var same := draft.remoteId == list[i].remoteId && draft.revisionId == list[i].revisionId && draft.evidence == list[i].evidence;
            stored.status == if same then list[i].status else Conflicting)
  {
    var at := Locate(PublicationIds(list), draft.publicationId);
    if at.Some? {
      assert list[at.value].publicationId == draft.publicationId;
      assert list[at.value].checksum == Checksum(list[at.value]);
    }
  }

  /** The current attribution of a publication is its first: by the time of creation, and by id among equal times. */
  lemma {:induction false} CurrentIsFirst(list: seq<Attribution>, publicationId: string, a: Attribution)
    requires a in list && a.publicationId == publicationId
    ensures
      var r := Current(list, publicationId);
      && r.Some? && !Less(a.createdAt, r.value.createdAt)
      && (a.createdAt == r.value.createdAt ==> !Less(a.id, r.value.id))
  {
    var front, b := list[..|list| - 1], Last(list);
    assert list == front + [b];
    var k :| 0 <= k < |list| && list[k] == a;
    assert PublicationIds(list)[k] == publicationId;
    var r := Current(list, publicationId).value;
    LessTrichotomy(a.createdAt, a.createdAt);
    LessTrichotomy(a.id, a.id);
    if a in front {
      CurrentIsFirst(front, publicationId, a);
      var best := Current(front, publicationId).value;
      if r != best {
        EarlierTransitive(b, best, a);
      }
    }
  }

  /** What comes before the first of two comes before what is not before it. */
  lemma EarlierTransitive(b: Attribution, best: Attribution, a: Attribution)
    requires Less(b.createdAt, best.createdAt) || (b.createdAt == best.createdAt && Less(b.id, best.id))
    requires !Less(a.createdAt, best.createdAt) && (a.createdAt == best.createdAt ==> !Less(a.id, best.id))
    ensures !Less(a.createdAt, b.createdAt) && (a.createdAt == b.createdAt ==> !Less(a.id, b.id))
  {
    LessTrichotomy(a.createdAt, b.createdAt);
    LessTrichotomy(a.createdAt, best.createdAt);
    LessTrichotomy(b.createdAt, best.createdAt);
    if Less(a.createdAt, b.createdAt) && Less(b.createdAt, best.createdAt) {
      LessTransitive(a.createdAt, b.createdAt, best.createdAt);
    }
    if Less(a.id, b.id) && Less(b.id, best.id) {
      LessTransitive(a.id, b.id, best.id);
    }
  }

  // ---------------------------------------------------------------- the integrity scan's part

  /** The attributions a scan looks at; an empty workspace id means all. */
  function InWorkspace(list: seq<Attribution>, workspaceId: string): seq<Attribution> {
    if list == [] then []
    else
      var front := InWorkspace(list[..|list| - 1], workspaceId);
      if workspaceId == "" || Last(list).workspaceId == workspaceId then front + [Last(list)] else front
  }

  datatype Finding = ChecksumMismatch(id: string) | PostMissing(id: string)

  ghost predicate Found(postIds: seq<string>, list: seq<Attribution>, x: Finding) {
    match x
    case ChecksumMismatch(id) => exists a :: a in list && a.id == id && a.checksum != Checksum(a)
    case PostMissing(id) => exists a :: a in list && a.id == id && a.publicationId !in postIds
  }

  /** A scan looks at exactly the workspace's attributions, or at all if none is named. */
  lemma {:induction false} InWorkspaceIsPart(list: seq<Attribution>, workspaceId: string)
    ensures forall a :: a in InWorkspace(list, workspaceId) <==> a in list && (workspaceId == "" || a.workspaceId == workspaceId)
  {
    if list != [] {
      InWorkspaceIsPart(list[..|list| - 1], workspaceId);
      assert list == list[..|list| - 1] + [Last(list)];
    }
  }

  /** In every run a scan of any workspace finds no checksum that does not match. */
  lemma AttributionScansAreClean(ops: seq<AttributionOp>, postIds: seq<string>, workspaceId: string, x: Finding)
    requires Drafts(ops) && Found(postIds, InWorkspace(Replay(Repository(), [], ops), workspaceId), x)
    ensures x.PostMissing?
  {
    OnePerForever([], ops);
    InWorkspaceIsPart(Replay(Repository(), [], ops), workspaceId);
  }

  // ---------------------------------------------------------------- the repository, step by step

  class AttributionList {
    var attributions: seq<Attribution>

    constructor ()
      ensures attributions == []
    {
      attributions := [];
    }

    method CreateAttribution(draft: Attribution) returns (stored: Attribution)
      modifies this
      ensures (attributions, stored) == CreateIn(old(attributions), draft)
    {
      var at := Locate(PublicationIds(attributions), draft.publicationId);
      if at.Some? {
        var existing := attributions[at.value];
        if existing.checksum != draft.checksum {
          existing := existing.(status := Conflicting);
          attributions := attributions[at.value := existing];
        }
        return existing;
      }
      attributions := attributions + [draft];
      return draft;
    }

    method ReconcileAttribution(draft: Attribution) returns (remade: Attribution)
      modifies this
      ensures attributions == ReconcileIn(old(attributions), draft)
    {
      var current := Current(attributions, draft.publicationId);
      remade := CreateAttribution(draft);
      if current.Some? && current.value.checksum != remade.checksum {
        remade := remade.(status := Conflicting);
        attributions := UpsertInPlace(attributions, AttributionIds(attributions), remade.id, remade);
      }
    }

    /** The last loop of `AnalyticsIntegrityService.scan`. */
    method ScanAttributions(postIds: seq<string>, workspaceId: string) returns (findings: seq<Finding>)
      ensures forall x :: x in findings <==> Found(postIds, InWorkspace(attributions, workspaceId), x)
    {
      findings := [];
      for index := 0 to |attributions|
        invariant forall x :: x in findings <==> Found(postIds, InWorkspace(attributions[..index], workspaceId), x)
      {
        var a := attributions[index];
        ghost var seen := InWorkspace(attributions[..index], workspaceId);
        assert attributions[..index + 1][..index] == attributions[..index];
        if workspaceId == "" || a.workspaceId == workspaceId {
          assert InWorkspace(attributions[..index + 1], workspaceId) == seen + [a];
          if Checksum(a) != a.checksum {
            findings := findings + [ChecksumMismatch(a.id)];
          }
          if a.publicationId !in postIds {
            findings := findings + [PostMissing(a.id)];
          }
        }
      }
      assert attributions[..|attributions|] == attributions;
    }
  }
}
