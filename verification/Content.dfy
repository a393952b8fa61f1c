/** Content items, their revision history and their channel variants (`ContentService`). */
module Content {
  import opened Prelude
  import opened Mutators
  import opened Records
  import opened Text
  import opened Metadata
  import Variants

  datatype ItemStatus = Draft | Ready | Archived | Deleted

  /** Where an item came from. Importing a video gives the item an entity after its first revision is stored. */
  datatype Source = Source(kind: string, entityId: string, ref: string)

  /** The fields that a revision takes over from its item. */
  datatype Wording = Wording(title: string, body: string, summary: string, language: string, metadata: seq<Field>)

  datatype Item = Item(
    id: string, workspaceId: string, wording: Wording, status: ItemStatus, currentRevisionId: string,
    source: Source, canonicalText: string)

  /** What `content_revision_checksum` hashes; hashing is taken to be injective. */
  datatype Digest = Digest(wording: Wording, source: Source, canonicalText: string)

  datatype Revision = Revision(
    id: string, itemId: string, workspaceId: string, number: int, wording: Wording,
    source: Source, canonicalText: string, checksum: Digest)

  datatype Library = Library(items: seq<Item>, revisions: seq<Revision>, variants: seq<Variants.Variant>)

  function ItemIds(items: seq<Item>): seq<string> {
    seq(|items|, i requires 0 <= i < |items| => items[i].id)
  }

  function RevisionIds(revisions: seq<Revision>): seq<string> {
    seq(|revisions|, i requires 0 <= i < |revisions| => revisions[i].id)
  }

  // ---------------------------------------------------------------- wording

  function Canonical(w: Wording): Wording {
    Wording(Strip(w.title), Normalise(w.body), Strip(w.summary), Lower(Strip(w.language)), Safe(w.metadata))
  }

  function Stripped(source: Source): Source {
    Source(Strip(source.kind), Strip(source.entityId), Strip(source.ref))
  }

  function Checksum(w: Wording, source: Source, canonicalText: string): Digest {
    Digest(
      Canonical(w),
      Stripped(source),
      Normalise(if canonicalText != "" then canonicalText else w.body))
  }

  /** Everything `Canonical` does is done already, except perhaps to the body. */
  predicate Settled(w: Wording) {
    && Trimmed(w.title) && Trimmed(w.body) && Trimmed(w.summary)
    && Lower(Strip(w.language)) == w.language && Safe(w.metadata) == w.metadata
  }

  lemma CanonicalSettles(w: Wording)
    ensures Settled(Canonical(w))
  {
    StripTrims(w.title);
    StripTrims(ReplaceCrLf(w.body));
    StripTrims(w.summary);
    LanguageFixpoint(w.language);
    SafeFixpoint(w.metadata);
  }

  /** A stored wording is its own canonical form exactly when its body contains no CR LF. */
  lemma CanonicalFixpointIff(w: Wording)
    requires Settled(w)
    ensures Canonical(w) == w <==> !HasCrLf(w.body)
    ensures Canonical(w) == w.(body := Normalise(w.body))
  {
    StripTrims(w.title);
    StripTrims(w.summary);
    NormaliseFixpointIff(w.body);
  }

  // ---------------------------------------------------------------- revisions

  /** `list_by_content`, in stored order. */
  function History(revisions: seq<Revision>, itemId: string): seq<Revision> {
    if revisions == [] then []
    else
      var front := History(revisions[..|revisions| - 1], itemId);
      if Last(revisions).itemId == itemId then front + [Last(revisions)] else front
  }

  function Greatest(revisions: seq<Revision>, itemId: string): Option<int> {
    if revisions == [] then None
    else
      var g := Greatest(revisions[..|revisions| - 1], itemId);
      var last := Last(revisions);
      if last.itemId == itemId && (g.None? || last.number > g.value) then Some(last.number) else g
  }

  /** `next_revision_number`: one more than the greatest number so far. */
  function NextNumber(revisions: seq<Revision>, itemId: string): int {
    var g := Greatest(revisions, itemId);
    if g.None? then 1 else g.value + 1
  }

  /** `_create_revision`. */
  function NewRevision(revisions: seq<Revision>, item: Item, freshId: string): Revision {
    var canonical := if item.canonicalText != "" then item.canonicalText else item.wording.body;
    Revision(freshId, item.id, item.workspaceId, NextNumber(revisions, item.id), item.wording, item.source,
             canonical, Checksum(item.wording, item.source, canonical))
  }

  function Derived(item: Item): ItemStatus {
    if item.status.Archived? || item.status.Deleted? then item.status
    else if Strip(item.wording.body) != "" then Ready else Draft
  }

  function FindItem(lib: Library, id: string, workspaceId: string): Option<Item> {
    var at := Locate(ItemIds(lib.items), id);
    if at.None? || lib.items[at.value].status.Deleted?
       || (workspaceId != "" && lib.items[at.value].workspaceId != workspaceId)
    then None else Some(lib.items[at.value])
  }

  function FindRevision(lib: Library, id: string): Option<Revision> {
    var at := Locate(RevisionIds(lib.revisions), id);
    if at.None? then None else Some(lib.revisions[at.value])
  }

  function FindVariant(vs: seq<Variants.Variant>, id: string): Option<Variants.Variant> {
    var at := Locate(Variants.Ids(vs), id);
    if at.None? then None else Some(vs[at.value])
  }

  function PutItem(lib: Library, item: Item): Library {
    lib.(items := Upsert(lib.items, ItemIds(lib.items), item.id, item))
  }

  // ---------------------------------------------------------------- operations

  datatype Op =
    | CreateItem(freshId: string, revisionId: string, workspaceId: string, wording: Wording, source: Source, canonical: string)
    | Update(
        id: string, workspaceId: string, title: Option<string>, body: Option<string>, summary: Option<string>,
        language: Option<string>, metadata: Option<seq<Field>>, expected: string, revisionId: string, now: int)
    | Restore(id: string, fromRevision: string, workspaceId: string, revisionId: string, now: int)
    | Archive(id: string, workspaceId: string)
    | SaveItem(copy: Item)   // other code saves a whole item: the video importer, with another source
    | CreateVariant(
        id: string, workspaceId: string, sourceRevisionId: string, draft: Variants.Variant, suitable: bool)
    | UpdateVariant(
        variantId: string, workspaceId: string, title: Option<string>, body: Option<string>, language: Option<string>,
        hashtags: Option<seq<string>>, suitable: bool, now: int)
    | ValidateVariant(variantId: string, workspaceId: string, suitable: bool, now: int)

  /** The edits of `update_content`, applied to the wording the item has. */
  function Edited(w: Wording, op: Op): Wording
    requires op.Update?
  {
    Wording(
      if op.title.Some? then Strip(op.title.value) else w.title,
      if op.body.Some? then Normalise(op.body.value) else w.body,
      if op.summary.Some? then Strip(op.summary.value) else w.summary,
      if op.language.Some? then Lower(Strip(op.language.value)) else w.language,
      if op.metadata.Some? then Safe(op.metadata.value) else w.metadata)
  }

  /** The rest of `update_content`: a revision, the item pointing at it, and the variants of other
    * revisions of the item marked stale. */
  function Revise(lib: Library, item: Item, revisionId: string, now: int): Outcome<Library, ()> {
    if revisionId in RevisionIds(lib.revisions) then Raised
    else
      var revision := NewRevision(lib.revisions, item, revisionId);
      var item' := item.(currentRevisionId := revisionId, status := Derived(item));
      Changed(
        PutItem(lib, item').(
          revisions := lib.revisions + [revision],
          variants := Step(Variants.Repository(), lib.variants, Variants.MarkStale(item.id, revisionId, now))),
        ())
  }

  function NewItem(op: Op): Item
    requires op.CreateItem?
  {
    var w := Canonical(op.wording);
    Item(op.freshId, op.workspaceId, w.(title := if w.title == "" then "Untitled" else w.title), Draft, "", op.source,
         Normalise(if op.canonical != "" then op.canonical else op.wording.body))
  }

  /** The rest of `create_content`: the item is stored first, then its first revision, then the item again;
    * without a new revision id only the first write happens. */
  function AddItem(lib: Library, item: Item, revisionId: string): Outcome<Library, ()> {
    if item.id in ItemIds(lib.items) then Raised
    else
      var created := lib.(items := lib.items + [item]);
      if revisionId in RevisionIds(lib.revisions) then Changed(created, ())
      else
        var revision := NewRevision(lib.revisions, item, revisionId);
        var item' := item.(currentRevisionId := revisionId, status := Derived(item));
        Changed(PutItem(created, item').(revisions := lib.revisions + [revision]), ())
  }

  function RestoreAsUpdate(op: Op, w: Wording): Op
    requires op.Restore?
  {
    Update(op.id, op.workspaceId, Some(w.title), Some(w.body), Some(w.summary), Some(w.language), Some(w.metadata),
           "", op.revisionId, op.now)
  }

  function StatusFor(suitable: bool): Variants.Status {
    if suitable then Variants.Ready else Variants.Invalid
  }

  /** The variant that `create_variant` makes, but for its status. */
  function Drafted(op: Op, item: Item, revision: Revision): Variants.Variant
    requires op.CreateVariant?
  {
    op.draft.(
      workspaceId := op.workspaceId, itemId := item.id, sourceRevisionId := revision.id,
      body := Normalise(op.draft.body),
      language := if op.draft.language != "" then op.draft.language else revision.wording.language)
  }

  /** The variant that `update_variant` makes of the stored one, but for status and time. */
  function Amended(op: Op, v: Variants.Variant): Variants.Variant
    requires op.UpdateVariant?
  {
    v.(
      title := if op.title.Some? then Normalise(op.title.value) else v.title,
      body := if op.body.Some? then Normalise(op.body.value) else v.body,
      language := if op.language.Some? then Normalise(op.language.value) else v.language,
      hashtags := if op.hashtags.Some? then op.hashtags.value else v.hashtags)
  }

  /** The item and the revision that a new variant is for. */
  function SourceOf(lib: Library, op: Op): Option<(Item, Revision)>
    requires op.CreateVariant?
  {
    var item := FindItem(lib, op.id, op.workspaceId);
    if item.None? then None
    else
      var revision := FindRevision(lib, if op.sourceRevisionId != "" then op.sourceRevisionId else item.value.currentRevisionId);
      if revision.None? || revision.value.itemId != item.value.id then None else Some((item.value, revision.value))
  }

  /** The stored variant that an operation names. */
  function NamedVariant(lib: Library, op: Op): Option<Variants.Variant>
    requires op.UpdateVariant? || op.ValidateVariant?
  {
    var v := FindVariant(lib.variants, op.variantId);
    if v.None? || v.value.workspaceId != op.workspaceId then None else v
  }

  /** What a variant operation asks of the variant list, if it gets that far. */
  function VariantMutation(lib: Library, op: Op): Option<Variants.Op> {
    if op.CreateVariant? then
      var source := SourceOf(lib, op);
      if source.None? then None
      else Some(Variants.Create(Drafted(op, source.value.0, source.value.1).(status := StatusFor(op.suitable))))
    else if op.UpdateVariant? then
      var v := NamedVariant(lib, op);
      if v.None? then None
      else Some(Variants.Save(Amended(op, v.value).(status := StatusFor(op.suitable), updatedAt := op.now)))
    else if op.ValidateVariant? then
      var v := NamedVariant(lib, op);
      if v.None? then None
      else Some(Variants.Save(v.value.(status := StatusFor(op.suitable), updatedAt := op.now)))
    else None
  }

  function ApplyUpdate(lib: Library, op: Op): Outcome<Library, ()>
    requires op.Update?
  {
    var item := FindItem(lib, op.id, op.workspaceId);
    if item.None? then Raised
    else if op.expected != "" && item.value.currentRevisionId != op.expected then Raised
    else Revise(lib, item.value.(wording := Edited(item.value.wording, op)), op.revisionId, op.now)
  }

  function Apply(op: Op, lib: Library): Outcome<Library, ()> {
    match op
    case CreateItem(_, revisionId, _, _, _, _) => AddItem(lib, NewItem(op), revisionId)
    case Update(_, _, _, _, _, _, _, _, _, _) => ApplyUpdate(lib, op)
    case Restore(id, fromRevision, workspaceId, _, _) =>
      var item := FindItem(lib, id, workspaceId);
      var revision := FindRevision(lib, fromRevision);
      if item.None? || revision.None? || revision.value.itemId != item.value.id then Raised
      else ApplyUpdate(lib, RestoreAsUpdate(op, revision.value.wording))
    case Archive(id, workspaceId) =>
      var item := FindItem(lib, id, workspaceId);
      if item.None? then Raised else Changed(PutItem(lib, item.value.(status := Archived)), ())
    case SaveItem(copy) => Changed(PutItem(lib, copy), ())
    case _ =>
      var m := VariantMutation(lib, op);
      if m.None? then Raised
      else
        match Variants.Apply(m.value, lib.variants)
        case Changed(vs, _) => Changed(lib.(variants := vs), ())
        case Unchanged(_) => Unchanged(())
        case Raised => Raised
  }

  function Service(): Store<Op, Library, ()> {
    Store((op, lib) => Apply(op, lib), Library([], [], []))
  }

  // ---------------------------------------------------------------- the history of an item

  /** Numbered 1..n in stored order. */
  ghost predicate Numbered(h: seq<Revision>) {
    forall k :: 0 <= k < |h| ==> h[k].number == k + 1
  }

  /** What never changes about an item. */
  datatype Origin = Origin(id: string, workspaceId: string, canonicalText: string)

  function OriginOf(item: Item): Origin {
    Origin(item.id, item.workspaceId, item.canonicalText)
  }

  ghost predicate RevisionOk(r: Revision, o: Origin) {
    && r.id != "" && r.itemId == o.id && r.workspaceId == o.workspaceId
    && r.canonicalText == (if o.canonicalText != "" then o.canonicalText else r.wording.body)
    && r.checksum == Checksum(r.wording, r.source, r.canonicalText)
    && Settled(r.wording)
  }

  /** One item against the revision list: its history is numbered 1..n. */
  ghost predicate ItemOk(revisions: seq<Revision>, item: Item) {
    var h := History(revisions, item.id);
    h != [] && Numbered(h)
  }

  /** The item's current revision is the last one. */
  ghost predicate IsCurrent(revisions: seq<Revision>, item: Item) {
    var h := History(revisions, item.id);
    h != [] && Last(h).id == item.currentRevisionId
  }

  ghost predicate Currents(lib: Library) {
    forall i :: 0 <= i < |lib.items| ==> IsCurrent(lib.revisions, lib.items[i])
  }

  ghost predicate Inv(lib: Library) {
    && Distinct(ItemIds(lib.items)) && Distinct(RevisionIds(lib.revisions)) && Variants.OneReady(lib.variants)
    && (forall i :: 0 <= i < |lib.items| ==> ItemOk(lib.revisions, lib.items[i]))
    && (forall k :: 0 <= k < |lib.revisions| ==> lib.revisions[k].itemId in ItemIds(lib.items))
  }

  /** All items are `settled`, and every revision is `good` for the origin of its item. */
  ghost predicate Consistent(lib: Library, settled: Wording -> bool, good: (Revision, Origin) -> bool) {
    && (forall i :: 0 <= i < |lib.items| ==> settled(lib.items[i].wording))
    && (forall k, i :: 0 <= k < |lib.revisions| && 0 <= i < |lib.items| && lib.revisions[k].itemId == lib.items[i].id
          ==> good(lib.revisions[k], OriginOf(lib.items[i])))
  }

  /** Items and revisions hold settled wordings, and a revision carries its item's origin, the source that the
    * item had when it was made, and the checksum of what it says. */
  ghost predicate Genuine(lib: Library) {
    Consistent(lib, w => Settled(w), (r, o) => RevisionOk(r, o))
  }

  /** New ids are new and not empty. A copy that other code saves is of a stored item; its wording is settled, and
    * its workspace and canonical text, which nothing changes, are the item's. */
  ghost predicate Permitted(lib: Library, op: Op) {
    && (op.CreateItem? ==> op.freshId !in ItemIds(lib.items))
    && (op.CreateItem? || op.Update? || op.Restore? ==>
          op.revisionId != "" && op.revisionId !in RevisionIds(lib.revisions))
    && (op.SaveItem? ==>
          var at := Locate(ItemIds(lib.items), op.copy.id);
          at.Some? && OriginOf(op.copy) == OriginOf(lib.items[at.value]) && Settled(op.copy.wording))
  }

  lemma HistoryAppend(revisions: seq<Revision>, r: Revision, itemId: string)
    ensures History(revisions + [r], itemId) ==
            if r.itemId == itemId then History(revisions, itemId) + [r] else History(revisions, itemId)
  {
    assert (revisions + [r])[..|revisions|] == revisions;
  }

  lemma {:induction false} GreatestIs(revisions: seq<Revision>, itemId: string)
    requires Numbered(History(revisions, itemId))
    ensures var n := |History(revisions, itemId)|;
      Greatest(revisions, itemId) == if n == 0 then None else Some(n)
  {
    if revisions != [] {
      var front := revisions[..|revisions| - 1];
      var h := History(front, itemId);
      forall k | 0 <= k < |h|
        ensures h[k].number == k + 1
      {
        assert History(revisions, itemId)[k] == h[k];
      }
      GreatestIs(front, itemId);
      if Last(revisions).itemId == itemId {
        assert History(revisions, itemId)[|h|].number == |h| + 1;
      }
    }
  }

  lemma NextNumberIs(revisions: seq<Revision>, itemId: string)
    requires Numbered(History(revisions, itemId))
    ensures NextNumber(revisions, itemId) == |History(revisions, itemId)| + 1
  {
    GreatestIs(revisions, itemId);
  }

  lemma {:induction false} HistoryOfStranger(revisions: seq<Revision>, itemId: string)
    requires forall k :: 0 <= k < |revisions| ==> revisions[k].itemId != itemId
    ensures History(revisions, itemId) == []
  {
    if revisions != [] {
      HistoryOfStranger(revisions[..|revisions| - 1], itemId);
    }
  }

  lemma PutItemShape(items: seq<Item>, item: Item)
    requires Distinct(ItemIds(items)) && item.id in ItemIds(items)
    ensures
      var at := Locate(ItemIds(items), item.id);
      var after := Upsert(items, ItemIds(items), item.id, item);
      && at.Some? && after == items[at.value := item] && ItemIds(after) == ItemIds(items)
      && (forall i :: 0 <= i < |items| && items[i].id == item.id ==> i == at.value)
  {
    var at := Locate(ItemIds(items), item.id).value;
    assert ItemIds(items[at := item]) == ItemIds(items);
    forall i | 0 <= i < |items| && items[i].id == item.id
      ensures i == at
    {
      assert ItemIds(items)[i] == item.id;
      LocateDistinct(ItemIds(items), i);
    }
  }

  lemma AppendedOk(revisions: seq<Revision>, item: Item, r: Revision)
    requires Numbered(History(revisions, item.id))
    requires r.itemId == item.id && r.number == NextNumber(revisions, item.id) && item.currentRevisionId == r.id
    ensures r.number == |History(revisions, item.id)| + 1
    ensures ItemOk(revisions + [r], item)
  {
    NextNumberIs(revisions, item.id);
    HistoryAppend(revisions, r, item.id);
  }

  /** Writing one item and one revision of it keeps the rest. */
  lemma OthersKeep(before: Library, after: Library, at: nat, r: Revision)
    requires Inv(before) && at < |after.items|
    requires after.revisions == before.revisions + [r] && r.id !in RevisionIds(before.revisions)
    requires |before.items| <= |after.items|
    requires forall k :: 0 <= k < |after.items| && k != at ==> k < |before.items| && after.items[k] == before.items[k]
    requires forall k :: 0 <= k < |before.items| && k != at ==> before.items[k].id != r.itemId
    requires Distinct(ItemIds(after.items)) && Variants.OneReady(after.variants)
    requires ItemIds(before.items) <= ItemIds(after.items)
    requires ItemOk(after.revisions, after.items[at]) && after.items[at].id == r.itemId
    ensures Inv(after)
  {
    assert RevisionIds(after.revisions) == RevisionIds(before.revisions) + [r.id];
    forall k | 0 <= k < |after.items|
      ensures ItemOk(after.revisions, after.items[k])
    {
      var item := after.items[k];
      if k != at {
        assert item == before.items[k];
        HistoryAppend(before.revisions, r, item.id);
        assert ItemOk(before.revisions, item);
      }
    }
    forall k | 0 <= k < |after.revisions|
      ensures after.revisions[k].itemId in ItemIds(after.items)
    {
      if k < |before.revisions| {
        assert before.revisions[k].itemId in ItemIds(before.items);
      } else {
        assert ItemIds(after.items)[at] == r.itemId;
      }
    }
  }

  lemma ReviseShape(lib: Library, at: nat, item: Item, revisionId: string, now: int)
    requires Distinct(ItemIds(lib.items)) && at < |lib.items| && item.id == lib.items[at].id
    requires revisionId !in RevisionIds(lib.revisions)
    ensures
      var out := Revise(lib, item, revisionId, now);
      && out.Changed?
      && out.data.items == lib.items[at := item.(currentRevisionId := revisionId, status := Derived(item))]
      && out.data.revisions == lib.revisions + [NewRevision(lib.revisions, item, revisionId)]
      && out.data.variants == Step(Variants.Repository(), lib.variants, Variants.MarkStale(item.id, revisionId, now))
      && ItemIds(out.data.items) == ItemIds(lib.items)
      && (forall k :: 0 <= k < |lib.items| && k != at ==> lib.items[k].id != item.id)
  {
    assert ItemIds(lib.items)[at] == item.id;
    PutItemShape(lib.items, item.(currentRevisionId := revisionId, status := Derived(item)));
  }

  /** An item rewritten in place, and a revision of it appended. */
  lemma RevisedKeeps(lib: Library, out: Library, at: nat, item: Item, r: Revision)
    requires Inv(lib) && at < |lib.items| && item.id == lib.items[at].id && r.id !in RevisionIds(lib.revisions)
    requires out.items == lib.items[at := item] && out.revisions == lib.revisions + [r]
    requires Variants.OneReady(out.variants)
    requires r.itemId == item.id && r.id == item.currentRevisionId && r.number == NextNumber(lib.revisions, item.id)
    requires ItemIds(out.items) == ItemIds(lib.items)
    requires forall k :: 0 <= k < |lib.items| && k != at ==> lib.items[k].id != item.id
    ensures Inv(out)
  {
    assert ItemOk(lib.revisions, lib.items[at]);
    AppendedOk(lib.revisions, item, r);
    OthersKeep(lib, out, at, r);
  }

  lemma ReviseKeeps(
    lib: Library, at: nat, item: Item, revisionId: string, now: int, settled: Wording -> bool, good: (Revision, Origin) -> bool)
    requires Inv(lib) && Consistent(lib, settled, good)
    requires at < |lib.items| && OriginOf(item) == OriginOf(lib.items[at])
    requires revisionId !in RevisionIds(lib.revisions)
    requires settled(item.wording) && good(NewRevision(lib.revisions, item, revisionId), OriginOf(item))
    ensures
      var out := Revise(lib, item, revisionId, now);
      out.Changed? && Inv(out.data) && Consistent(out.data, settled, good)
  {
    var out := Revise(lib, item, revisionId, now);
    var item' := item.(currentRevisionId := revisionId, status := Derived(item));
    var r := NewRevision(lib.revisions, item, revisionId);
    assert item.id == lib.items[at].id;
    ReviseShape(lib, at, item, revisionId, now);
    Variants.StepKeepsOneReady(lib.variants, Variants.MarkStale(item.id, revisionId, now));
    RevisedKeeps(lib, out.data, at, item', r);
    SameOrigin(item, item');
    ConsistentAppend(lib, out.data, at, r, settled, good);
  }

  lemma NewIsOk(revisions: seq<Revision>, item: Item, freshId: string)
    requires Settled(item.wording) && freshId != ""
    ensures RevisionOk(NewRevision(revisions, item, freshId), OriginOf(item))
  {
  }

  lemma ConsistentAppend(
    before: Library, after: Library, at: nat, r: Revision, settled: Wording -> bool, good: (Revision, Origin) -> bool)
    requires Consistent(before, settled, good) && at < |after.items|
    requires after.revisions == before.revisions + [r]
    requires forall k :: 0 <= k < |after.items| && k != at ==> k < |before.items| && after.items[k] == before.items[k]
    requires forall k :: 0 <= k < |after.items| && k != at ==> after.items[k].id != r.itemId
    requires at < |before.items| ==> OriginOf(after.items[at]) == OriginOf(before.items[at])
    requires at >= |before.items| ==>
      forall k :: 0 <= k < |before.revisions| ==> before.revisions[k].itemId != after.items[at].id
    requires settled(after.items[at].wording) && good(r, OriginOf(after.items[at]))
    ensures Consistent(after, settled, good)
  {
    forall k, i | 0 <= k < |after.revisions| && 0 <= i < |after.items| && after.revisions[k].itemId == after.items[i].id
      ensures good(after.revisions[k], OriginOf(after.items[i]))
    {
      var item := after.items[i];
      if k < |before.revisions| {
        assert i < |before.items|;
        assert OriginOf(item) == OriginOf(before.items[i]);
        assert before.items[i].id == item.id;
      }
    }
  }

  lemma ConsistentRestatus(
    before: Library, after: Library, settled: Wording -> bool, good: (Revision, Origin) -> bool)
    requires Consistent(before, settled, good)
    requires after.revisions == before.revisions && |after.items| == |before.items|
    requires forall k :: 0 <= k < |before.items| ==> after.items[k] == before.items[k].(status := after.items[k].status)
    ensures Consistent(after, settled, good)
  {
    assert forall k :: 0 <= k < |before.items| ==> OriginOf(after.items[k]) == OriginOf(before.items[k]);
  }

  lemma CreatedItems(items: seq<Item>, item: Item, item': Item)
    requires Distinct(ItemIds(items)) && item.id !in ItemIds(items) && item'.id == item.id
    ensures
      var created := items + [item];
      var after := Upsert(created, ItemIds(created), item'.id, item');
      && after == items + [item'] && Distinct(ItemIds(after)) && ItemIds(after) == ItemIds(items) + [item.id]
    ensures forall k :: 0 <= k < |items| ==> items[k].id != item.id
  {
    var created := items + [item];
    assert ItemIds(created) == ItemIds(items) + [item.id];
    PutItemShape(created, item');
    LocateDistinct(ItemIds(created), |items|);
    assert ItemIds(items + [item']) == ItemIds(items) + [item.id];
    assert forall k :: 0 <= k < |items| ==> items[k].id == ItemIds(items)[k];
  }

  lemma NewHasNoRevisions(lib: Library, id: string)
    requires Inv(lib) && id !in ItemIds(lib.items)
    ensures forall k :: 0 <= k < |lib.revisions| ==> lib.revisions[k].itemId != id
    ensures History(lib.revisions, id) == []
  {
    forall k | 0 <= k < |lib.revisions|
      ensures lib.revisions[k].itemId != id
    {
      assert lib.revisions[k].itemId in ItemIds(lib.items);
    }
    HistoryOfStranger(lib.revisions, id);
  }

  lemma AddShape(lib: Library, item: Item, revisionId: string)
    requires Distinct(ItemIds(lib.items)) && item.id !in ItemIds(lib.items)
    requires revisionId !in RevisionIds(lib.revisions)
    ensures
      var out := AddItem(lib, item, revisionId);
      && out.Changed?
      && out.data.items == lib.items + [item.(currentRevisionId := revisionId, status := Derived(item))]
      && out.data.revisions == lib.revisions + [NewRevision(lib.revisions, item, revisionId)]
      && out.data.variants == lib.variants
      && Distinct(ItemIds(out.data.items)) && ItemIds(out.data.items) == ItemIds(lib.items) + [item.id]
      && forall k :: 0 <= k < |lib.items| ==> lib.items[k].id != item.id
  {
    CreatedItems(lib.items, item, item.(currentRevisionId := revisionId, status := Derived(item)));
  }

  /** A new item and its first revision, written next to what is there. */
  lemma AddedKeeps(lib: Library, out: Library, item: Item, r: Revision)
    requires Inv(lib) && item.id !in ItemIds(lib.items) && r.id !in RevisionIds(lib.revisions)
    requires out.items == lib.items + [item] && out.revisions == lib.revisions + [r] && out.variants == lib.variants
    requires r.itemId == item.id && r.id == item.currentRevisionId && r.number == NextNumber(lib.revisions, item.id)
    requires Distinct(ItemIds(out.items)) && ItemIds(out.items) == ItemIds(lib.items) + [item.id]
    requires forall k :: 0 <= k < |lib.items| ==> lib.items[k].id != item.id
    ensures Inv(out)
  {
    NewHasNoRevisions(lib, item.id);
    AppendedOk(lib.revisions, out.items[|lib.items|], r);
    OthersKeep(lib, out, |lib.items|, r);
  }

  lemma AddKeeps(
    lib: Library, item: Item, revisionId: string, settled: Wording -> bool, good: (Revision, Origin) -> bool)
    requires Inv(lib) && Consistent(lib, settled, good)
    requires item.id !in ItemIds(lib.items) && revisionId !in RevisionIds(lib.revisions)
    requires settled(item.wording) && good(NewRevision(lib.revisions, item, revisionId), OriginOf(item))
    ensures
      var out := AddItem(lib, item, revisionId);
      out.Changed? && Inv(out.data) && Consistent(out.data, settled, good) && lib.revisions <= out.data.revisions
  {
    var item' := item.(currentRevisionId := revisionId, status := Derived(item));
    var r := NewRevision(lib.revisions, item, revisionId);
    AddShape(lib, item, revisionId);
    SameOrigin(item, item');
    AddedKeeps(lib, AddItem(lib, item, revisionId).data, item', r);
    NewHasNoRevisions(lib, item.id);
    ConsistentAppend(lib, AddItem(lib, item, revisionId).data, |lib.items|, r, settled, good);
  }

  lemma SameOrigin(a: Item, b: Item)
    requires b == a.(currentRevisionId := b.currentRevisionId, status := b.status)
    ensures OriginOf(a) == OriginOf(b) && a.wording == b.wording
  {
  }

  lemma UntitledIsTrimmed()
    ensures Trimmed("Untitled")
  {
  }

  lemma UntitledSettles(w: Wording)
    requires Settled(w)
    ensures Settled(w.(title := if w.title == "" then "Untitled" else w.title))
  {
    UntitledIsTrimmed();
  }

  lemma NewItemSettles(op: Op)
    requires op.CreateItem?
    ensures Settled(NewItem(op).wording) && NewItem(op).id == op.freshId
  {
    CanonicalSettles(op.wording);
    UntitledSettles(Canonical(op.wording));
  }

  lemma CreateIsAdd(lib: Library, op: Op)
    requires op.CreateItem?
    ensures Step(Service(), lib, op) == Commit(lib, AddItem(lib, NewItem(op), op.revisionId))
  {
  }

  lemma CreateKeeps(lib: Library, op: Op)
    requires Inv(lib) && Genuine(lib) && op.CreateItem? && Permitted(lib, op)
    ensures Inv(Step(Service(), lib, op)) && Genuine(Step(Service(), lib, op))
    ensures lib.revisions <= Step(Service(), lib, op).revisions
  {
    var item := NewItem(op);
    CreateIsAdd(lib, op);
    NewItemSettles(op);
    NewIsOk(lib.revisions, item, op.revisionId);
    AddKeeps(lib, item, op.revisionId, w => Settled(w), (r, o) => RevisionOk(r, o));
  }

  lemma FoundIsStored(lib: Library, id: string, workspaceId: string)
    requires FindItem(lib, id, workspaceId).Some?
    ensures
      var at := Locate(ItemIds(lib.items), id).value;
      at < |lib.items| && FindItem(lib, id, workspaceId).value == lib.items[at] && lib.items[at].id == id
  {
    var at := Locate(ItemIds(lib.items), id).value;
    assert ItemIds(lib.items)[at] == id;
  }

  lemma EditedSettles(w: Wording, op: Op)
    requires op.Update? && Settled(w)
    ensures Settled(Edited(w, op))
  {
    if op.title.Some? { StripTrims(op.title.value); }
    if op.body.Some? { StripTrims(ReplaceCrLf(op.body.value)); }
    if op.summary.Some? { StripTrims(op.summary.value); }
    if op.language.Some? { LanguageFixpoint(op.language.value); }
    if op.metadata.Some? { SafeFixpoint(op.metadata.value); }
  }

  lemma UpdateKeeps(lib: Library, op: Op)
    requires Inv(lib) && Genuine(lib) && op.Update? && Permitted(lib, op)
    ensures Inv(Commit(lib, ApplyUpdate(lib, op))) && Genuine(Commit(lib, ApplyUpdate(lib, op)))
    ensures ApplyUpdate(lib, op).Changed? ==>
      var item := FindItem(lib, op.id, op.workspaceId);
      && item.Some?
      && ApplyUpdate(lib, op) == Revise(lib, item.value.(wording := Edited(item.value.wording, op)), op.revisionId, op.now)
  {
    var item := FindItem(lib, op.id, op.workspaceId);
    if item.Some? && (op.expected == "" || item.value.currentRevisionId == op.expected) {
      FoundIsStored(lib, op.id, op.workspaceId);
      var at := Locate(ItemIds(lib.items), op.id).value;
      EditedSettles(item.value.wording, op);
      var item' := item.value.(wording := Edited(item.value.wording, op));
      ReviseShape(lib, at, item', op.revisionId, op.now);
      NewIsOk(lib.revisions, item', op.revisionId);
      ReviseKeeps(lib, at, item', op.revisionId, op.now, w => Settled(w), (r, o) => RevisionOk(r, o));
    }
  }

  lemma ArchiveShape(lib: Library, op: Op)
    requires Inv(lib) && op.Archive?
    ensures
      var after := Step(Service(), lib, op);
      && after.revisions == lib.revisions && after.variants == lib.variants
      && |after.items| == |lib.items| && ItemIds(after.items) == ItemIds(lib.items)
      && (forall k :: 0 <= k < |lib.items| ==> after.items[k] == lib.items[k].(status := after.items[k].status))
  {
    var item := FindItem(lib, op.id, op.workspaceId);
    if item.Some? {
      FoundIsStored(lib, op.id, op.workspaceId);
      PutItemShape(lib.items, item.value.(status := Archived));
    }
  }

  lemma ArchiveKeeps(lib: Library, op: Op)
    requires Inv(lib) && op.Archive?
    ensures Inv(Step(Service(), lib, op))
  {
    ArchiveShape(lib, op);
    var after := Step(Service(), lib, op);
    forall k | 0 <= k < |after.items|
      ensures ItemOk(after.revisions, after.items[k])
    {
      assert ItemOk(lib.revisions, lib.items[k]);
    }
  }

  lemma ArchiveGenuine(lib: Library, op: Op)
    requires Inv(lib) && Genuine(lib) && op.Archive?
    ensures Genuine(Step(Service(), lib, op))
  {
    ArchiveShape(lib, op);
    ConsistentRestatus(lib, Step(Service(), lib, op), w => Settled(w), (r, o) => RevisionOk(r, o));
  }

  lemma SaveItemShape(lib: Library, op: Op)
    requires Inv(lib) && op.SaveItem? && Permitted(lib, op)
    ensures
      var after := Step(Service(), lib, op);
      var at := Locate(ItemIds(lib.items), op.copy.id);
      && at.Some? && at.value < |lib.items| && after == lib.(items := lib.items[at.value := op.copy])
      && ItemIds(after.items) == ItemIds(lib.items)
      && (forall k :: 0 <= k < |lib.items| ==> OriginOf(after.items[k]) == OriginOf(lib.items[k]))
  {
    PutItemShape(lib.items, op.copy);
  }

  lemma SaveItemKeeps(lib: Library, op: Op)
    requires Inv(lib) && op.SaveItem? && Permitted(lib, op)
    ensures Inv(Step(Service(), lib, op))
  {
    SaveItemShape(lib, op);
    var after := Step(Service(), lib, op);
    forall k | 0 <= k < |after.items|
      ensures ItemOk(after.revisions, after.items[k])
    {
      assert OriginOf(after.items[k]) == OriginOf(lib.items[k]) && ItemOk(lib.revisions, lib.items[k]);
    }
  }

  lemma SaveItemGenuine(lib: Library, op: Op)
    requires Inv(lib) && Genuine(lib) && op.SaveItem? && Permitted(lib, op)
    ensures Genuine(Step(Service(), lib, op))
  {
    SaveItemShape(lib, op);
    var after := Step(Service(), lib, op);
    forall k, i | 0 <= k < |after.revisions| && 0 <= i < |after.items| && after.revisions[k].itemId == after.items[i].id
      ensures RevisionOk(after.revisions[k], OriginOf(after.items[i]))
    {
      assert OriginOf(after.items[i]) == OriginOf(lib.items[i]) && lib.revisions[k].itemId == lib.items[i].id;
    }
  }

  lemma VariantOpKeeps(lib: Library, op: Op)
    requires Inv(lib) && (op.CreateVariant? || op.UpdateVariant? || op.ValidateVariant?)
    ensures
      var after := Step(Service(), lib, op);
      && Inv(after) && after.revisions == lib.revisions && after.items == lib.items
      && (var m := VariantMutation(lib, op);
          after.variants == if m.Some? then Step(Variants.Repository(), lib.variants, m.value) else lib.variants)
  {
    var m := VariantMutation(lib, op);
    if m.Some? {
      Variants.StepKeepsOneReady(lib.variants, m.value);
    }
  }

  lemma RestoreKeeps(lib: Library, op: Op)
    requires Inv(lib) && Genuine(lib) && op.Restore? && Permitted(lib, op)
    ensures Inv(Step(Service(), lib, op)) && Genuine(Step(Service(), lib, op))
    ensures lib.revisions <= Step(Service(), lib, op).revisions
  {
    var revision := FindRevision(lib, op.fromRevision);
    if revision.Some? {
      UpdateKeeps(lib, RestoreAsUpdate(op, revision.value.wording));
    }
  }

  lemma StepKeeps(lib: Library, op: Op)
    requires Inv(lib) && Genuine(lib) && Permitted(lib, op)
    ensures Inv(Step(Service(), lib, op)) && Genuine(Step(Service(), lib, op))
    ensures lib.revisions <= Step(Service(), lib, op).revisions
  {
    if op.CreateItem? {
      CreateKeeps(lib, op);
    } else if op.Update? {
      UpdateKeeps(lib, op);
    } else if op.Restore? {
      RestoreKeeps(lib, op);
    } else if op.Archive? {
      ArchiveKeeps(lib, op);
      ArchiveShape(lib, op);
      ArchiveGenuine(lib, op);
    } else if op.SaveItem? {
      SaveItemShape(lib, op);
      SaveItemKeeps(lib, op);
      SaveItemGenuine(lib, op);
    } else {
      VariantOpKeeps(lib, op);
    }
  }

  ghost predicate LegalRun(ops: seq<Op>) {
    Legal(Service(), Permitted, Service().initial, ops)
  }

  /** Over every run of whole operations, saves of whole items by other code among them, each item's revisions
    * are numbered exactly 1..n in the order they were stored. */
  lemma {:induction false} HistoriesForever(ops: seq<Op>)
    requires LegalRun(ops)
    ensures Inv(Replay(Service(), Service().initial, ops)) && Genuine(Replay(Service(), Service().initial, ops))
  {
    if ops != [] {
      LegalPrefix(Service(), Permitted, Service().initial, ops);
      HistoriesForever(ops[..|ops| - 1]);
      StepKeeps(Replay(Service(), Service().initial, ops[..|ops| - 1]), Last(ops));
    }
  }

  lemma CurrentsAppend(before: Library, after: Library, at: nat, r: Revision)
    requires Currents(before) && at < |after.items| && after.revisions == before.revisions + [r]
    requires after.items[at].id == r.itemId && after.items[at].currentRevisionId == r.id
    requires forall k :: 0 <= k < |after.items| && k != at ==>
      k < |before.items| && after.items[k] == before.items[k] && after.items[k].id != r.itemId
    ensures Currents(after)
  {
    forall k | 0 <= k < |after.items|
      ensures IsCurrent(after.revisions, after.items[k])
    {
      HistoryAppend(before.revisions, r, after.items[k].id);
      assert k != at ==> IsCurrent(before.revisions, before.items[k]);
    }
  }

  /** A copy that other code saves names the last revision. */
  ghost predicate CopyIsCurrent(lib: Library, op: Op) {
    op.SaveItem? ==> IsCurrent(lib.revisions, op.copy)
  }

  lemma RevisedIsCurrent(lib: Library, op: Op)
    requires Inv(lib) && Currents(lib) && Permitted(lib, op) && (op.Update? || op.Restore?) && Apply(op, lib).Changed?
    ensures Currents(Step(Service(), lib, op))
  {
    var at, item := ChangedIsRevise(lib, op);
    ReviseShape(lib, at, item, op.revisionId, op.now);
    CurrentsAppend(lib, Apply(op, lib).data, at, NewRevision(lib.revisions, item, op.revisionId));
  }

  lemma AddedIsCurrent(lib: Library, op: Op)
    requires Inv(lib) && Currents(lib) && Permitted(lib, op) && op.CreateItem?
    ensures Currents(Step(Service(), lib, op))
  {
    CreateIsAdd(lib, op);
    NewItemSettles(op);
    AddShape(lib, NewItem(op), op.revisionId);
    CurrentsAppend(lib, AddItem(lib, NewItem(op), op.revisionId).data, |lib.items|,
                   NewRevision(lib.revisions, NewItem(op), op.revisionId));
  }

  lemma SavedIsCurrentIff(lib: Library, op: Op)
    requires Inv(lib) && Currents(lib) && Permitted(lib, op) && op.SaveItem?
    ensures Currents(Step(Service(), lib, op)) <==> CopyIsCurrent(lib, op)
  {
    SaveItemShape(lib, op);
    var after := Step(Service(), lib, op);
    var at := Locate(ItemIds(lib.items), op.copy.id).value;
    assert after.items[at] == op.copy;
    if CopyIsCurrent(lib, op) {
      forall k | 0 <= k < |after.items|
        ensures IsCurrent(after.revisions, after.items[k])
      {
        assert k != at ==> IsCurrent(lib.revisions, lib.items[k]);
      }
    }
  }

  lemma CurrentsStepIff(lib: Library, op: Op)
    requires Inv(lib) && Currents(lib) && Permitted(lib, op)
    ensures Currents(Step(Service(), lib, op)) <==> CopyIsCurrent(lib, op)
  {
    if op.CreateItem? {
      AddedIsCurrent(lib, op);
    } else if op.Update? || op.Restore? {
      if Apply(op, lib).Changed? {
        RevisedIsCurrent(lib, op);
      }
    } else if op.SaveItem? {
      SavedIsCurrentIff(lib, op);
    } else if op.Archive? {
      ArchiveShape(lib, op);
      forall k | 0 <= k < |lib.items|
        ensures IsCurrent(lib.revisions, Step(Service(), lib, op).items[k])
      {
        assert IsCurrent(lib.revisions, lib.items[k]);
      }
    } else {
      VariantOpKeeps(lib, op);
    }
  }

  /** And its current revision is the last one, number n, throughout exactly if every copy that other code
    * saves names the item's last revision. */
  lemma CurrentsExactly(ops: seq<Op>)
    requires LegalRun(ops)
    ensures Throughout(Service(), Currents, Service().initial, ops) <==> Legal(Service(), CopyIsCurrent, Service().initial, ops)
  {
    forall lib, op | Kept(lib) && Permitted(lib, op)
      ensures Kept(Step(Service(), lib, op))
      ensures Currents(lib) ==> (Currents(Step(Service(), lib, op)) <==> CopyIsCurrent(lib, op))
    {
      StepKeeps(lib, op);
      if Currents(lib) {
        CurrentsStepIff(lib, op);
      }
    }
    KeptExactly(Service(), Kept, Permitted, Currents, CopyIsCurrent, Service().initial, ops);
  }

  /** Revisions are append-only: nothing stored by a shorter run is changed or removed by a longer one. */
  lemma {:induction false} RevisionsOnlyGrow(ops: seq<Op>, n: nat)
    requires LegalRun(ops) && n <= |ops|
    ensures Replay(Service(), Service().initial, ops[..n]).revisions <= Replay(Service(), Service().initial, ops).revisions
  {
    if n < |ops| {
      var front := ops[..|ops| - 1];
      LegalPrefix(Service(), Permitted, Service().initial, ops);
      HistoriesForever(front);
      RevisionsOnlyGrow(front, n);
      assert front[..n] == ops[..n];
      StepKeeps(Replay(Service(), Service().initial, front), Last(ops));
    } else {
      assert ops[..n] == ops;
    }
  }

  // ---------------------------------------------------------------- what an update and a creation leave

  /** An update goes through exactly if the item is on file, not deleted, of the workspace if one is named, and
    * at the revision the caller expects if it names one, and the new revision's id is new. */
  lemma UpdateGoesThroughIff(lib: Library, op: Op)
    requires op.Update?
    ensures
      var at := Locate(ItemIds(lib.items), op.id);
      Apply(op, lib).Changed? <==>
        && at.Some? && lib.items[at.value].status != Deleted
        && (op.workspaceId != "" ==> lib.items[at.value].workspaceId == op.workspaceId)
        && (op.expected != "" ==> lib.items[at.value].currentRevisionId == op.expected)
        && op.revisionId !in RevisionIds(lib.revisions)
  {
  }

  /** What an update says it leaves: each field as it was where the caller gives none, and otherwise the caller's,
    * stripped, normalised, lowered or filtered, in the item on file and in the revision that is appended. The
    * item's status follows from the body it then has, and the rest of it is as it was. */
  lemma UpdateLeaves(lib: Library, op: Op)
    requires Distinct(ItemIds(lib.items)) && op.Update? && Apply(op, lib).Changed?
    ensures
      var at := Locate(ItemIds(lib.items), op.id);
      var after := Step(Service(), lib, op);
      && at.Some? && |after.items| == |lib.items| && |after.revisions| == |lib.revisions| + 1
      && var was, item, r := lib.items[at.value], after.items[at.value], after.revisions[|lib.revisions|];
      && r.wording == item.wording
      && item.wording.title == (if op.title == None then was.wording.title else Strip(op.title.value))
      && item.wording.body == (if op.body == None then was.wording.body else Normalise(op.body.value))
      && item.wording.summary == (if op.summary == None then was.wording.summary else Strip(op.summary.value))
      && item.wording.language == (if op.language == None then was.wording.language else Lower(Strip(op.language.value)))
      && item.wording.metadata == (if op.metadata == None then was.wording.metadata else Safe(op.metadata.value))
      && item.status == (if was.status == Archived then Archived else if Strip(item.wording.body) == "" then Draft else Ready)
      && item.currentRevisionId == r.id == op.revisionId
      && item.id == was.id == op.id && item.workspaceId == was.workspaceId && item.source == was.source
      && item.canonicalText == was.canonicalText
  {
    var at, item := ChangedIsRevise(lib, op);
    ReviseShape(lib, at, item, op.revisionId, op.now);
  }

  /** The revision that is appended is the item's next one and takes everything else over from it; no other item
    * and no stored revision changes. */
  lemma UpdateAppends(lib: Library, op: Op)
    requires Distinct(ItemIds(lib.items)) && op.Update? && Apply(op, lib).Changed?
    requires Numbered(History(lib.revisions, op.id))
    ensures
      var at := Locate(ItemIds(lib.items), op.id);
      var after := Step(Service(), lib, op);
      && at.Some? && |after.items| == |lib.items| && |after.revisions| == |lib.revisions| + 1
      && var was, r := lib.items[at.value], after.revisions[|lib.revisions|];
      && r.itemId == op.id && r.workspaceId == was.workspaceId && r.source == was.source
      && r.number == |History(lib.revisions, op.id)| + 1
      && r.canonicalText == (if was.canonicalText == "" then r.wording.body else was.canonicalText)
      && after.revisions[..|lib.revisions|] == lib.revisions
      && forall k :: 0 <= k < |lib.items| && k != at.value ==> after.items[k] == lib.items[k]
  {
    var at, item := ChangedIsRevise(lib, op);
    ReviseShape(lib, at, item, op.revisionId, op.now);
    NextNumberIs(lib.revisions, op.id);
  }

  /** What a creation leaves: an item that says what the caller gave, stripped, normalised, lowered or filtered, and
    * untitled if it gave no title; at its first revision, which says the same. */
  lemma CreationLeaves(lib: Library, op: Op)
    requires Inv(lib) && op.CreateItem? && op.freshId !in ItemIds(lib.items) && op.revisionId !in RevisionIds(lib.revisions)
    ensures
      var after := Step(Service(), lib, op);
      && |after.items| == |lib.items| + 1 && after.items[..|lib.items|] == lib.items
      && |after.revisions| == |lib.revisions| + 1 && after.revisions[..|lib.revisions|] == lib.revisions
      && after.variants == lib.variants
      && var item, r := after.items[|lib.items|], after.revisions[|lib.revisions|];
      && item.wording == r.wording
      && r.wording.title == (if Strip(op.wording.title) == "" then "Untitled" else Strip(op.wording.title))
      && r.wording.body == Normalise(op.wording.body) && r.wording.summary == Strip(op.wording.summary)
      && r.wording.language == Lower(Strip(op.wording.language)) && r.wording.metadata == Safe(op.wording.metadata)
      && item.status == (if Strip(r.wording.body) == "" then Draft else Ready)
      && item.id == r.itemId == op.freshId && item.workspaceId == r.workspaceId == op.workspaceId
      && item.source == r.source == op.source && item.currentRevisionId == r.id == op.revisionId && r.number == 1
      && item.canonicalText == Normalise(if op.canonical == "" then op.wording.body else op.canonical)
      && r.canonicalText == (if item.canonicalText == "" then r.wording.body else item.canonicalText)
  {
    CreateIsAdd(lib, op);
    NewItemSettles(op);
    AddShape(lib, NewItem(op), op.revisionId);
    NewHasNoRevisions(lib, op.freshId);
    NextNumberIs(lib.revisions, op.freshId);
  }

  /** With a revision id that is taken a creation raises after its first write, and an item without a revision stays. */
  lemma CreationCutShort(lib: Library, op: Op)
    requires op.CreateItem? && op.freshId !in ItemIds(lib.items) && op.revisionId in RevisionIds(lib.revisions)
    ensures
      var after := Step(Service(), lib, op);
      && |after.items| == |lib.items| + 1 && after == lib.(items := after.items) && after.items[..|lib.items|] == lib.items
      && after.items[|lib.items|].id == op.freshId && after.items[|lib.items|].status == Draft
      && after.items[|lib.items|].currentRevisionId == ""
  {
  }

  /** Archiving sets the status of the named item, where it is visible, and changes nothing else. */
  lemma ArchivingLeaves(lib: Library, op: Op)
    requires Inv(lib) && op.Archive?
    ensures
      var at := Locate(ItemIds(lib.items), op.id);
      var after := Step(Service(), lib, op);
      if at.Some? && lib.items[at.value].status != Deleted
         && (op.workspaceId == "" || lib.items[at.value].workspaceId == op.workspaceId)
      then after == lib.(items := lib.items[at.value := lib.items[at.value].(status := Archived)])
      else after == lib && Apply(op, lib).Raised?
  {
    var item := FindItem(lib, op.id, op.workspaceId);
    if item.Some? {
      FoundIsStored(lib, op.id, op.workspaceId);
      PutItemShape(lib.items, item.value.(status := Archived));
    }
  }

  /** What a checksum tells apart: it is the same exactly if title, body, summary, language and metadata, the
    * source and the canonical text, or the body where there is none, are, each in its canonical form. */
  lemma SameChecksumIff(v: Wording, w: Wording, s: Source, t: Source, a: string, b: string)
    ensures Checksum(v, s, a) == Checksum(w, t, b) <==>
      && Strip(v.title) == Strip(w.title) && Normalise(v.body) == Normalise(w.body) && Strip(v.summary) == Strip(w.summary)
      && Lower(Strip(v.language)) == Lower(Strip(w.language)) && Safe(v.metadata) == Safe(w.metadata)
      && Strip(s.kind) == Strip(t.kind) && Strip(s.entityId) == Strip(t.entityId) && Strip(s.ref) == Strip(t.ref)
      && Normalise(if a == "" then v.body else a) == Normalise(if b == "" then w.body else b)
  {
  }

  // ---------------------------------------------------------------- one append at a time

  /** The revision file with its one mutation, `RevisionRepository.create`. The operations above read the next
    * number under one lock hold and append under another, and others can come between. */
  function RevisionFile(): Store<Revision, seq<Revision>, ()> {
    Store((r: Revision, revisions) =>
      if r.id in RevisionIds(revisions) then Raised else Changed(revisions + [r], ()), [])
  }

  ghost predicate AllNumbered(revisions: seq<Revision>) {
    forall itemId :: Numbered(History(revisions, itemId))
  }

  /** The number read is still the next one when the revision is appended. */
  ghost predicate NumberStands(revisions: seq<Revision>, r: Revision) {
    r.id !in RevisionIds(revisions) ==> r.number == NextNumber(revisions, r.itemId)
  }

  lemma AppendNumberedIff(revisions: seq<Revision>, r: Revision)
    requires AllNumbered(revisions)
    ensures AllNumbered(Step(RevisionFile(), revisions, r)) <==> NumberStands(revisions, r)
  {
    var after := Step(RevisionFile(), revisions, r);
    if r.id !in RevisionIds(revisions) {
      var h := History(revisions, r.itemId);
      assert Numbered(h);
      NextNumberIs(revisions, r.itemId);
      HistoryAppend(revisions, r, r.itemId);
      assert (h + [r])[|h|] == r;
      forall itemId | itemId != r.itemId
        ensures Numbered(History(after, itemId))
      {
        HistoryAppend(revisions, r, itemId);
        assert Numbered(History(revisions, itemId));
      }
      if r.number == |h| + 1 {
        assert Numbered(h + [r]);
      } else {
        assert !Numbered(History(after, r.itemId));
      }
    }
  }

  /** However the appends of several updates interleave, every item's revisions are numbered 1..n throughout
    * exactly if each number that was read is still the next one at its append. */
  lemma NumberingExactly(revisions: seq<Revision>, appends: seq<Revision>)
    requires AllNumbered(revisions)
    ensures Throughout(RevisionFile(), AllNumbered, revisions, appends)
            <==> Legal(RevisionFile(), NumberStands, revisions, appends)
  {
    forall e, r | AllNumbered(e)
      ensures AllNumbered(Step(RevisionFile(), e, r)) <==> NumberStands(e, r)
    {
      AppendNumberedIff(e, r);
    }
    KeptExactly(RevisionFile(), AnyState, AnyStep, AllNumbered, NumberStands, revisions, appends);
  }

  // ---------------------------------------------------------------- restoring

  /** A checksum covers the normalised body and the stripped source. */
  lemma ChecksumAgainIff(w: Wording, before: Source, now: Source, canonicalText: string)
    ensures
      var again := w.(body := Normalise(w.body));
      Checksum(again, now, if canonicalText != "" then canonicalText else again.body)
        == Checksum(w, before, if canonicalText != "" then canonicalText else w.body)
      <==> !HasCrLf(Normalise(w.body)) && Stripped(now) == Stripped(before)
  {
    StripTrims(ReplaceCrLf(w.body));
    NormaliseFixpointIff(Normalise(w.body));
  }

  /** A restore that goes through appends a revision of the item with the canonical form of the wording. */
  lemma RestoreAppends(lib: Library, op: Op) returns (item: Item, r: Revision)
    requires Inv(lib) && Genuine(lib) && Permitted(lib, op) && op.Restore? && Apply(op, lib).Changed?
    ensures FindItem(lib, op.id, op.workspaceId) == Some(item) && FindRevision(lib, op.fromRevision) == Some(r)
    ensures item.id == op.id && RevisionOk(r, OriginOf(item)) && Numbered(History(lib.revisions, op.id))
    ensures Step(Service(), lib, op).revisions ==
      lib.revisions + [NewRevision(lib.revisions, item.(wording := Canonical(r.wording)), op.revisionId)]
  {
    item, r := FindItem(lib, op.id, op.workspaceId).value, FindRevision(lib, op.fromRevision).value;
    FoundIsStored(lib, op.id, op.workspaceId);
    RevisionIsOk(lib, item, r);
    assert Edited(item.wording, RestoreAsUpdate(op, r.wording)) == Canonical(r.wording);
    var at := Locate(ItemIds(lib.items), op.id).value;
    ReviseShape(lib, at, item.(wording := Canonical(r.wording)), op.revisionId, op.now);
  }

  lemma RestoredFrom(lib: Library, op: Op)
    requires Inv(lib) && Genuine(lib) && Permitted(lib, op) && op.Restore? && Apply(op, lib).Changed?
    ensures
      var restored := FindRevision(lib, op.fromRevision);
      var after := Step(Service(), lib, op);
      && restored.Some? && FindItem(lib, op.id, op.workspaceId).Some? && |after.revisions| == |lib.revisions| + 1
      && var appended := Last(after.revisions);
      && appended.id == op.revisionId && appended.itemId == op.id
      && appended.number == |History(lib.revisions, op.id)| + 1
      && appended.wording == restored.value.wording.(body := Normalise(restored.value.wording.body))
      && (appended.wording == restored.value.wording <==> !HasCrLf(restored.value.wording.body))
      && (appended.checksum == restored.value.checksum <==>
            !HasCrLf(Normalise(restored.value.wording.body))
            && Stripped(FindItem(lib, op.id, op.workspaceId).value.source) == Stripped(restored.value.source))
  {
    var item, r := RestoreAppends(lib, op);
    CanonicalFixpointIff(r.wording);
    NextNumberIs(lib.revisions, op.id);
    ChecksumAgainIff(r.wording, r.source, item.source, item.canonicalText);
  }

  /** Restoring appends a revision with the canonical form of the restored wording. Title, summary,
    * language and metadata always come back, and the wording comes back whole exactly when the stored body
    * contains no CR LF. The checksum comes back exactly when normalising that body leaves no CR LF and the
    * item's source is still the one that the restored revision was made with. */
  lemma RestoreGivesItBack(ops: seq<Op>, op: Op)
    requires LegalRun(ops + [op]) && op.Restore?
    requires Apply(op, Replay(Service(), Service().initial, ops)).Changed?
    ensures
      var lib := Replay(Service(), Service().initial, ops);
      var restored := FindRevision(lib, op.fromRevision);
      var after := Step(Service(), lib, op);
      && restored.Some? && FindItem(lib, op.id, op.workspaceId).Some? && |after.revisions| == |lib.revisions| + 1
      && var appended := Last(after.revisions);
      && appended.id == op.revisionId && appended.itemId == op.id
      && appended.number == |History(lib.revisions, op.id)| + 1
      && appended.wording == restored.value.wording.(body := Normalise(restored.value.wording.body))
      && (appended.wording == restored.value.wording <==> !HasCrLf(restored.value.wording.body))
      && (appended.checksum == restored.value.checksum <==>
            !HasCrLf(Normalise(restored.value.wording.body))
            && Stripped(FindItem(lib, op.id, op.workspaceId).value.source) == Stripped(restored.value.source))
  {
    assert (ops + [op])[..|ops|] == ops && Last(ops + [op]) == op;
    LegalPrefix(Service(), Permitted, Service().initial, ops + [op]);
    HistoriesForever(ops);
    RestoredFrom(Replay(Service(), Service().initial, ops), op);
  }

  lemma RevisionIsOk(lib: Library, item: Item, r: Revision)
    requires Genuine(lib) && item in lib.items && r in lib.revisions && r.itemId == item.id
    ensures RevisionOk(r, OriginOf(item))
  {
    var k :| 0 <= k < |lib.revisions| && lib.revisions[k] == r;
    var i :| 0 <= i < |lib.items| && lib.items[i] == item;
    assert RevisionOk(lib.revisions[k], OriginOf(lib.items[i]));
  }

  // ---------------------------------------------------------------- variants and resolution

  /** A successful update or restore is a revision of the item it names. */
  lemma ChangedIsRevise(lib: Library, op: Op) returns (at: nat, item: Item)
    requires (op.Update? || op.Restore?) && Apply(op, lib).Changed?
    ensures FindItem(lib, op.id, op.workspaceId).Some? && Locate(ItemIds(lib.items), op.id) == Some(at)
    ensures at < |lib.items| && lib.items[at].id == op.id && item == lib.items[at].(wording := item.wording)
    ensures Apply(op, lib) == Revise(lib, item, op.revisionId, op.now)
  {
    var u := if op.Update? then op else RestoreAsUpdate(op, FindRevision(lib, op.fromRevision).value.wording);
    FoundIsStored(lib, op.id, op.workspaceId);
    at := Locate(ItemIds(lib.items), op.id).value;
    item := lib.items[at].(wording := Edited(lib.items[at].wording, u));
  }

  /** What a successful update or restore leaves, as far as items and variants go. */
  lemma ChangedShape(lib: Library, op: Op, after: Library) returns (at: nat)
    requires Inv(lib) && Permitted(lib, op) && (op.Update? || op.Restore?) && Apply(op, lib).Changed?
    requires after == Apply(op, lib).data
    ensures ItemIds(after.items) == ItemIds(lib.items) && at < |lib.items| == |after.items|
    ensures Locate(ItemIds(lib.items), op.id) == Some(at) && FindItem(lib, op.id, op.workspaceId).Some?
    ensures after.items[at].currentRevisionId == op.revisionId
    ensures after.items[at].status.Deleted? ==> lib.items[at].status.Deleted?
    ensures forall k :: 0 <= k < |lib.items| ==> after.items[k].workspaceId == lib.items[k].workspaceId
    ensures after.variants == Variants.Aged(lib.variants, op.id, op.revisionId, op.now)
  {
    var item;
    at, item := ChangedIsRevise(lib, op);
    ReviseShape(lib, at, item, op.revisionId, op.now);
    Variants.MarkingAges(lib.variants, op.id, op.revisionId, op.now);
  }

  /** When an update or a restore returns, the item points at the new revision and no ready variant of it
    * comes from another one. */
  lemma NoOldReadyAfterUpdate(lib: Library, op: Op)
    requires Inv(lib) && Permitted(lib, op) && (op.Update? || op.Restore?) && Apply(op, lib).Changed?
    ensures
      var after := Apply(op, lib).data;
      && FindItem(after, op.id, op.workspaceId).Some?
      && FindItem(after, op.id, op.workspaceId).value.currentRevisionId == op.revisionId
      && forall k :: 0 <= k < |after.variants| && after.variants[k].itemId == op.id && after.variants[k].status.Ready?
           ==> after.variants[k].sourceRevisionId == op.revisionId
  {
    var at := ChangedShape(lib, op, Apply(op, lib).data);
  }

  datatype ResolveError = NoItem | NoRevision | VariantMismatch

  /** `resolve_channel_content`: the revision to publish, and the variant that stands in for it if any. */
  function Resolve(
    lib: Library, itemId: string, workspaceId: string, channel: string, capability: string,
    sourceRevisionId: string, variantId: string): Result<(Revision, Option<Variants.Variant>), ResolveError>
  {
    var item := FindItem(lib, itemId, workspaceId);
    if item.None? then Err(NoItem)
    else
      var revision := FindRevision(lib, if sourceRevisionId != "" then sourceRevisionId else item.value.currentRevisionId);
      if revision.None? || revision.value.itemId != item.value.id then Err(NoRevision)
      else
        var explicit := if variantId != "" then FindVariant(lib.variants, variantId) else None;
        if explicit.Some? then
          if explicit.value.itemId != item.value.id || explicit.value.channel != channel then Err(VariantMismatch)
          else Ok((revision.value, explicit))
        else
          Ok((revision.value,
              Variants.SelectActive(lib.variants, item.value.id, channel, capability, revision.value.id)))
  }

  /** What a resolution answers: the item's named revision, or its current one if none is named; no item if it is not
    * visible, no revision if it has no such one, and a mismatch exactly if a stored variant is named that is of
    * another item or channel. */
  lemma ResolutionSays(
    lib: Library, itemId: string, workspaceId: string, channel: string, capability: string, sourceRevisionId: string, variantId: string)
    ensures
      var answer := Resolve(lib, itemId, workspaceId, channel, capability, sourceRevisionId, variantId);
      var item := FindItem(lib, itemId, workspaceId);
      && (answer == Err(NoItem) <==> item == None)
      && (item.Some? ==>
            var r := FindRevision(lib, if sourceRevisionId == "" then item.value.currentRevisionId else sourceRevisionId);
            var named := if variantId == "" then None else FindVariant(lib.variants, variantId);
            && (answer == Err(NoRevision) <==> r == None || r.value.itemId != item.value.id)
            && (answer == Err(VariantMismatch) <==>
                  r.Some? && r.value.itemId == item.value.id && named.Some?
                  && (named.value.itemId != item.value.id || named.value.channel != channel))
            && (answer.Ok? ==> Some(answer.value.0) == r && (named.Some? ==> answer.value.1 == named)))
  {
  }

  /** In every state a run can reach, stale variants made ready again included: without an explicit variant
    * the answer is a revision of the item, alone or with a ready variant built from exactly that
    * revision. */
  lemma ImplicitResolution(
    ops: seq<Op>, itemId: string, workspaceId: string, channel: string, capability: string,
    sourceRevisionId: string, variantId: string)
    requires LegalRun(ops)
    requires variantId == "" || FindVariant(Replay(Service(), Service().initial, ops).variants, variantId).None?
    ensures
      var lib := Replay(Service(), Service().initial, ops);
      var answer := Resolve(lib, itemId, workspaceId, channel, capability, sourceRevisionId, variantId);
      answer.Ok? ==>
        && answer.value.0 in lib.revisions && answer.value.0.itemId == itemId
        && (answer.value.1.Some? ==>
              var v := answer.value.1.value;
              && v in lib.variants && v.status.Ready? && v.sourceRevisionId == answer.value.0.id
              && v.itemId == itemId && v.channel == channel && v.capability == capability)
  {
    var lib := Replay(Service(), Service().initial, ops);
    var answer := Resolve(lib, itemId, workspaceId, channel, capability, sourceRevisionId, variantId);
    HistoriesForever(ops);
    if answer.Ok? {
      FoundIsStored(lib, itemId, workspaceId);
      RevisionIsOk(lib, FindItem(lib, itemId, workspaceId).value, answer.value.0);
    }
  }

  /** The answer's variant, if any, is ready, of the asked capability and built from the answer's revision. */
  predicate AnswerFits(answer: (Revision, Option<Variants.Variant>), capability: string) {
    answer.1.Some? ==>
      answer.1.value.status.Ready? && answer.1.value.capability == capability
      && answer.1.value.sourceRevisionId == answer.0.id
  }

  /** In every reachable state: an answer fits exactly if no stored variant is named, or the one named is
    * ready, of the asked capability and built from the revision that is answered. Nothing checks that. */
  lemma AnswerFitsIff(
    ops: seq<Op>, itemId: string, workspaceId: string, channel: string, capability: string,
    sourceRevisionId: string, variantId: string)
    requires LegalRun(ops)
    requires Resolve(Replay(Service(), Service().initial, ops), itemId, workspaceId, channel, capability,
                     sourceRevisionId, variantId).Ok?
    ensures
      var lib := Replay(Service(), Service().initial, ops);
      var answer := Resolve(lib, itemId, workspaceId, channel, capability, sourceRevisionId, variantId).value;
      var named := if variantId == "" then None else FindVariant(lib.variants, variantId);
      AnswerFits(answer, capability) <==>
        (named.Some? ==> named.value.status.Ready? && named.value.capability == capability
                         && named.value.sourceRevisionId == answer.0.id)
  {
    var lib := Replay(Service(), Service().initial, ops);
    if variantId == "" || FindVariant(lib.variants, variantId).None? {
      ImplicitResolution(ops, itemId, workspaceId, channel, capability, sourceRevisionId, variantId);
    }
  }

  /** An input on which it does not fit: any stored variant of the item that was built from another revision
    * is taken when it is named, whatever its status. */
  lemma ExplicitVariantIsNotChecked(lib: Library, item: Item, r: Revision, v: Variants.Variant)
    requires Inv(lib) && item in lib.items && !item.status.Deleted?
    requires r in lib.revisions && r.itemId == item.id && r.id != ""
    requires v in lib.variants && v.id != "" && v.itemId == item.id
    ensures Resolve(lib, item.id, item.workspaceId, v.channel, v.capability, r.id, v.id) == Ok((r, Some(v)))
    ensures AnswerFits((r, Some(v)), v.capability) <==> v.status.Ready? && v.sourceRevisionId == r.id
  {
    var i :| 0 <= i < |lib.items| && lib.items[i] == item;
    var k :| 0 <= k < |lib.revisions| && lib.revisions[k] == r;
    var j :| 0 <= j < |lib.variants| && lib.variants[j] == v;
    assert ItemIds(lib.items)[i] == item.id && RevisionIds(lib.revisions)[k] == r.id && Variants.Ids(lib.variants)[j] == v.id;
    LocateDistinct(ItemIds(lib.items), i);
    LocateDistinct(RevisionIds(lib.revisions), k);
    LocateDistinct(Variants.Ids(lib.variants), j);
  }

  /** Every variant belongs to a stored item and carries its workspace id. */
  ghost predicate AtHome(lib: Library) {
    forall k :: 0 <= k < |lib.variants| ==>
      var at := Locate(ItemIds(lib.items), lib.variants[k].itemId);
      at.Some? && lib.items[at.value].workspaceId == lib.variants[k].workspaceId
  }

  lemma {:induction false} LocateInPrefix(keys: seq<string>, more: seq<string>, key: string)
    requires keys <= more && key in keys
    ensures Locate(more, key) == Locate(keys, key)
  {
    assert more[0] == keys[0];
    if keys[0] != key {
      assert key in keys[1..];
      LocateInPrefix(keys[1..], more[1..], key);
    }
  }

  lemma ItemsStay(lib: Library, op: Op)
    requires Inv(lib) && Permitted(lib, op)
    ensures
      var after := Step(Service(), lib, op);
      && ItemIds(lib.items) <= ItemIds(after.items)
      && forall k :: 0 <= k < |lib.items| ==> after.items[k].workspaceId == lib.items[k].workspaceId
  {
    if op.CreateItem? {
      CreateShape(lib, op);
    } else if op.Update? || op.Restore? {
      if Apply(op, lib).Changed? {
        var at := ChangedShape(lib, op, Apply(op, lib).data);
      }
    } else if op.Archive? {
      ArchiveShape(lib, op);
    } else if op.SaveItem? {
      SaveItemShape(lib, op);
      assert forall k :: 0 <= k < |lib.items| ==>
        OriginOf(Step(Service(), lib, op).items[k]).workspaceId == OriginOf(lib.items[k]).workspaceId;
    } else {
      VariantOpKeeps(lib, op);
    }
  }

  /** Where a variant of the next list comes from: an unchanged place, or the one mutation. */
  lemma VariantsFrom(lib: Library, op: Op, k: nat)
    requires Inv(lib) && Permitted(lib, op) && (op.CreateVariant? ==> op.workspaceId != "")
    requires k < |Step(Service(), lib, op).variants|
    ensures
      var v := Step(Service(), lib, op).variants[k];
      || (exists j :: 0 <= j < |lib.variants| && lib.variants[j].itemId == v.itemId && lib.variants[j].workspaceId == v.workspaceId)
      || (exists i :: 0 <= i < |lib.items| && lib.items[i].id == v.itemId && lib.items[i].workspaceId == v.workspaceId)
  {
    if op.CreateVariant? || op.UpdateVariant? || op.ValidateVariant? {
      VariantMutationFrom(lib, op, k);
    } else {
      VariantsOtherwise(lib, op);
      assert lib.variants[k].itemId == Step(Service(), lib, op).variants[k].itemId;
    }
  }

  /** Item operations leave every variant its item and workspace. */
  lemma VariantsOtherwise(lib: Library, op: Op)
    requires Inv(lib) && Permitted(lib, op) && (op.CreateItem? || op.Update? || op.Restore? || op.Archive? || op.SaveItem?)
    ensures
      var after := Step(Service(), lib, op).variants;
      && |after| == |lib.variants|
      && forall j :: 0 <= j < |after| ==>
           after[j].itemId == lib.variants[j].itemId && after[j].workspaceId == lib.variants[j].workspaceId
  {
    if op.CreateItem? {
      CreateShape(lib, op);
    } else if op.Archive? {
      ArchiveShape(lib, op);
    } else if op.SaveItem? {
      SaveItemShape(lib, op);
    } else {
      UpdateAges(lib, op);
    }
  }

  lemma UpdateAges(lib: Library, op: Op)
    requires Inv(lib) && Permitted(lib, op) && (op.Update? || op.Restore?)
    ensures
      var after := Step(Service(), lib, op).variants;
      after == lib.variants || after == Variants.Aged(lib.variants, op.id, op.revisionId, op.now)
  {
    if Apply(op, lib).Changed? {
      var at := ChangedShape(lib, op, Apply(op, lib).data);
    }
  }

  lemma CreateShape(lib: Library, op: Op)
    requires Inv(lib) && Permitted(lib, op) && op.CreateItem?
    ensures
      var after := Step(Service(), lib, op);
      && after.variants == lib.variants && ItemIds(lib.items) <= ItemIds(after.items)
      && forall k :: 0 <= k < |lib.items| ==> after.items[k] == lib.items[k]
  {
    CreateIsAdd(lib, op);
    NewItemSettles(op);
    AddShape(lib, NewItem(op), op.revisionId);
  }

  lemma VariantMutationFrom(lib: Library, op: Op, k: nat)
    requires Inv(lib) && (op.CreateVariant? || op.UpdateVariant? || op.ValidateVariant?)
    requires op.CreateVariant? ==> op.workspaceId != ""
    requires k < |Step(Service(), lib, op).variants|
    ensures
      var v := Step(Service(), lib, op).variants[k];
      || (exists j :: 0 <= j < |lib.variants| && lib.variants[j].itemId == v.itemId && lib.variants[j].workspaceId == v.workspaceId)
      || (exists i :: 0 <= i < |lib.items| && lib.items[i].id == v.itemId && lib.items[i].workspaceId == v.workspaceId)
  {
    VariantOpKeeps(lib, op);
    var m := VariantMutation(lib, op);
    var after := Step(Service(), lib, op).variants;
    if k < |lib.variants| && after[k] == lib.variants[k] {
    } else {
      VariantMutationHome(lib, op);
      MutatedPlace(lib.variants, m.value, k);
    }
  }

  /** The variant that a mutation writes belongs to a stored item or replaces a variant of the same item. */
  lemma VariantMutationHome(lib: Library, op: Op)
    requires op.CreateVariant? || op.UpdateVariant? || op.ValidateVariant?
    requires op.CreateVariant? ==> op.workspaceId != ""
    requires VariantMutation(lib, op).Some?
    ensures
      var m := VariantMutation(lib, op).value;
      && !m.MarkStale?
      && (|| (exists j :: 0 <= j < |lib.variants| && lib.variants[j].itemId == m.variant.itemId
                          && lib.variants[j].workspaceId == m.variant.workspaceId)
          || (exists i :: 0 <= i < |lib.items| && lib.items[i].id == m.variant.itemId
                          && lib.items[i].workspaceId == m.variant.workspaceId))
  {
    var m := VariantMutation(lib, op).value;
    if op.CreateVariant? {
      FoundIsStored(lib, op.id, op.workspaceId);
      var at := Locate(ItemIds(lib.items), op.id).value;
      assert lib.items[at].id == m.variant.itemId;
    } else {
      var j := Locate(Variants.Ids(lib.variants), op.variantId).value;
      assert lib.variants[j].itemId == m.variant.itemId;
    }
  }

  lemma MutatedPlace(vs: seq<Variants.Variant>, m: Variants.Op, k: nat)
    requires !m.MarkStale? && Distinct(Variants.Ids(vs)) && k < |Step(Variants.Repository(), vs, m)|
    ensures
      var after := Step(Variants.Repository(), vs, m);
      after[k] == m.variant || (k < |vs| && after[k] == vs[k])
  {
    if m.Save? {
      Variants.SaveShape(vs, m.variant);
    }
  }

  lemma StepKeepsHome(lib: Library, op: Op)
    requires Inv(lib) && AtHome(lib) && Permitted(lib, op) && (op.CreateVariant? ==> op.workspaceId != "")
    ensures AtHome(Step(Service(), lib, op))
  {
    var after := Step(Service(), lib, op);
    ItemsStay(lib, op);
    forall k | 0 <= k < |after.variants|
      ensures
        var at := Locate(ItemIds(after.items), after.variants[k].itemId);
        at.Some? && after.items[at.value].workspaceId == after.variants[k].workspaceId
    {
      var v := after.variants[k];
      VariantsFrom(lib, op, k);
      if j :| 0 <= j < |lib.variants| && lib.variants[j].itemId == v.itemId && lib.variants[j].workspaceId == v.workspaceId {
        LocateInPrefix(ItemIds(lib.items), ItemIds(after.items), v.itemId);
      } else {
        var i :| 0 <= i < |lib.items| && lib.items[i].id == v.itemId && lib.items[i].workspaceId == v.workspaceId;
        assert ItemIds(lib.items)[i] == v.itemId;
        LocateDistinct(ItemIds(lib.items), i);
        LocateInPrefix(ItemIds(lib.items), ItemIds(after.items), v.itemId);
      }
    }
  }

  lemma {:induction false} HomeForever(ops: seq<Op>)
    requires LegalRun(ops)
    requires forall k :: 0 <= k < |ops| && ops[k].CreateVariant? ==> ops[k].workspaceId != ""
    ensures AtHome(Replay(Service(), Service().initial, ops))
  {
    if ops != [] {
      LegalPrefix(Service(), Permitted, Service().initial, ops);
      HomeForever(ops[..|ops| - 1]);
      HistoriesForever(ops[..|ops| - 1]);
      StepKeepsHome(Replay(Service(), Service().initial, ops[..|ops| - 1]), Last(ops));
    }
  }

  /** In every run whose variants are created under a workspace id, `select_active` never has more than one
    * candidate. */
  lemma SelectionNeverChooses(
    ops: seq<Op>, itemId: string, channel: string, capability: string, revisionId: string, i: nat, k: nat)
    requires LegalRun(ops)
    requires forall k :: 0 <= k < |ops| && ops[k].CreateVariant? ==> ops[k].workspaceId != ""
    requires
      var vs := Replay(Service(), Service().initial, ops).variants;
      && i < |vs| && Variants.Selectable(vs[i], itemId, channel, capability, revisionId)
      && k < |vs| && Variants.Selectable(vs[k], itemId, channel, capability, revisionId)
    ensures i == k
  {
    var lib := Replay(Service(), Service().initial, ops);
    HistoriesForever(ops);
    HomeForever(ops);
    var at := Locate(ItemIds(lib.items), itemId).value;
    Variants.SelectionIsForced(lib.variants, itemId, channel, capability, revisionId, lib.items[at].workspaceId, i);
  }

  /** A variant operation is its mutation of the variant list. */
  lemma MutationStep(lib: Library, op: Op, m: Variants.Op)
    requires op.CreateVariant? || op.UpdateVariant? || op.ValidateVariant?
    requires VariantMutation(lib, op) == Some(m)
    ensures Step(Service(), lib, op) == lib.(variants := Step(Variants.Repository(), lib.variants, m))
    ensures Apply(op, lib).Raised? == Variants.Apply(m, lib.variants).Raised?
    ensures Apply(op, lib).Changed? == Variants.Apply(m, lib.variants).Changed?
  {
  }

  lemma CreatedVariant(vs: seq<Variants.Variant>, v: Variants.Variant)
    requires v.id !in Variants.Ids(vs) && !Variants.Duplicates(vs, v)
    ensures Step(Variants.Repository(), vs, Variants.Create(v)) == vs + [v]
  {
  }

  /** The library after one item is created in an empty one. */
  lemma FirstItem(create: Op)
    requires create.CreateItem? && create.revisionId != ""
    ensures
      var lib := Step(Service(), Service().initial, create);
      && lib.variants == []
      && FindItem(lib, create.freshId, create.workspaceId).Some? && FindItem(lib, create.freshId, "").Some?
      && FindItem(lib, create.freshId, create.workspaceId) == FindItem(lib, create.freshId, "")
      && var item := FindItem(lib, create.freshId, "").value;
      && item.id == create.freshId && item.workspaceId == create.workspaceId && item.currentRevisionId == create.revisionId
      && FindRevision(lib, create.revisionId).Some?
      && FindRevision(lib, create.revisionId).value.id == create.revisionId
      && FindRevision(lib, create.revisionId).value.itemId == create.freshId
  {
    var empty := Service().initial;
    CreateIsAdd(empty, create);
    NewItemSettles(create);
    AddShape(empty, NewItem(create), create.revisionId);
    var lib := Step(Service(), empty, create);
    assert ItemIds(lib.items) == [create.freshId] && RevisionIds(lib.revisions) == [create.revisionId];
    assert Locate([create.freshId], create.freshId) == Some(0);
    assert Locate([create.revisionId], create.revisionId) == Some(0);
  }

  /** A library with an item and no variants takes a ready variant under the item's workspace id and another
    * under the empty one, which finds any item. */
  lemma TwoVariants(lib: Library, item: Item, r: Revision, draft: Variants.Variant, otherId: string)
    requires lib.variants == [] && item.workspaceId != "" && otherId != draft.id
    requires FindItem(lib, item.id, item.workspaceId) == FindItem(lib, item.id, "") == Some(item)
    requires FindRevision(lib, item.currentRevisionId) == Some(r) && r.itemId == item.id && r.id == item.currentRevisionId
    ensures
      var first := CreateVariant(item.id, item.workspaceId, "", draft, true);
      var second := CreateVariant(item.id, "", "", draft.(id := otherId), true);
      var vs := Step(Service(), Step(Service(), lib, first), second).variants;
      && |vs| == 2 && vs[0].workspaceId == item.workspaceId && vs[1].workspaceId == ""
      && Variants.Selectable(vs[0], item.id, draft.channel, draft.capability, r.id)
      && Variants.Selectable(vs[1], item.id, draft.channel, draft.capability, r.id)
  {
    var first := CreateVariant(item.id, item.workspaceId, "", draft, true);
    var second := CreateVariant(item.id, "", "", draft.(id := otherId), true);
    var v := Drafted(first, item, r).(status := Variants.Ready);
    var w := Drafted(second, item, r).(status := Variants.Ready);
    MutationStep(lib, first, Variants.Create(v));
    CreatedVariant([], v);
    var one := lib.(variants := [v]);
    assert [] + [v] == [v] && Step(Service(), lib, first) == one;
    assert SourceOf(one, second) == Some((item, r));
    MutationStep(one, second, Variants.Create(w));
    assert Variants.Ids([v]) == [v.id];
    CreatedVariant([v], w);
    assert [v] + [w] == [v, w];
  }

  /** So there can be a choice, two candidates for one selection, in a run from the empty library. */
  lemma ChoiceIsReachable(create: Op, draft: Variants.Variant, otherId: string)
    requires create.CreateItem? && create.workspaceId != "" && create.revisionId != "" && otherId != draft.id
    ensures
      var first := CreateVariant(create.freshId, create.workspaceId, "", draft, true);
      var second := CreateVariant(create.freshId, "", "", draft.(id := otherId), true);
      var vs := Replay(Service(), Service().initial, [create, first, second]).variants;
      && LegalRun([create, first, second])
      && |vs| == 2 && vs[0].workspaceId == create.workspaceId && vs[1].workspaceId == ""
      && Variants.Selectable(vs[0], create.freshId, draft.channel, draft.capability, create.revisionId)
      && Variants.Selectable(vs[1], create.freshId, draft.channel, draft.capability, create.revisionId)
  {
    var first := CreateVariant(create.freshId, create.workspaceId, "", draft, true);
    var second := CreateVariant(create.freshId, "", "", draft.(id := otherId), true);
    var lib := Step(Service(), Service().initial, create);
    FirstItem(create);
    ReplayThree(Service(), Service().initial, create, first, second);
    TwoVariants(lib, FindItem(lib, create.freshId, "").value, FindRevision(lib, create.revisionId).value, draft, otherId);
    LegalThree(Service(), Permitted, Service().initial, create, first, second);
  }

  // ---------------------------------------------------------------- what copies of items can do

  /** An item alone in the library, with its first revision. */
  ghost predicate Alone(lib: Library) {
    && Inv(lib) && Genuine(lib) && Currents(lib) && |lib.items| == |lib.revisions| == 1
    && !lib.items[0].status.Deleted? && lib.revisions[0].itemId == lib.items[0].id
    && lib.revisions[0].id == lib.items[0].currentRevisionId
  }

  lemma FirstIsAlone(create: Op)
    requires create.CreateItem? && create.revisionId != ""
    ensures
      var lib := Step(Service(), Service().initial, create);
      && Permitted(Service().initial, create) && Alone(lib)
      && lib.items[0].id == create.freshId && lib.items[0].workspaceId == create.workspaceId
      && lib.revisions[0].id == create.revisionId && lib.revisions[0].source == create.source
  {
    var empty := Service().initial;
    CreateIsAdd(empty, create);
    NewItemSettles(create);
    AddShape(empty, NewItem(create), create.revisionId);
    CreateKeeps(empty, create);
    AddedIsCurrent(empty, create);
  }

  /** A library with one item and its one revision, after the item is saved with another source. */
  lemma SavedAlone(lib: Library, source: Source)
    requires Inv(lib) && Genuine(lib) && |lib.items| == 1
    ensures
      var save := SaveItem(lib.items[0].(source := source));
      Permitted(lib, save) && Step(Service(), lib, save) == lib.(items := [save.copy])
  {
    var save := SaveItem(lib.items[0].(source := source));
    assert ItemIds(lib.items) == [lib.items[0].id];
    assert Locate([lib.items[0].id], lib.items[0].id) == Some(0);
    SaveItemShape(lib, save);
  }

  lemma RestoredAlone(lib: Library, restore: Op)
    requires Inv(lib) && |lib.items| == |lib.revisions| == 1 && !lib.items[0].status.Deleted?
    requires lib.revisions[0].itemId == lib.items[0].id
    requires restore.Restore? && restore.id == lib.items[0].id && restore.workspaceId == lib.items[0].workspaceId
    requires restore.fromRevision == lib.revisions[0].id && restore.revisionId !in ["", lib.revisions[0].id]
    ensures Permitted(lib, restore) && Apply(restore, lib).Changed?
    ensures FindItem(lib, restore.id, restore.workspaceId) == Some(lib.items[0])
    ensures FindRevision(lib, restore.fromRevision) == Some(lib.revisions[0])
  {
    assert ItemIds(lib.items) == [lib.items[0].id] && RevisionIds(lib.revisions) == [lib.revisions[0].id];
    assert Locate([lib.items[0].id], lib.items[0].id) == Some(0);
    assert Locate([lib.revisions[0].id], lib.revisions[0].id) == Some(0);
  }

  lemma SavedThenRestored(lib: Library, source: Source, restore: Op)
    requires Alone(lib) && Stripped(source) != Stripped(lib.revisions[0].source)
    requires restore.Restore? && restore.id == lib.items[0].id && restore.workspaceId == lib.items[0].workspaceId
    requires restore.fromRevision == lib.revisions[0].id && restore.revisionId !in ["", lib.revisions[0].id]
    ensures
      var save := SaveItem(lib.items[0].(source := source));
      var saved := Step(Service(), lib, save);
      var revisions := Step(Service(), saved, restore).revisions;
      && Permitted(lib, save) && Permitted(saved, restore)
      && |revisions| == 2 && revisions[0] == lib.revisions[0] && revisions[1].checksum != revisions[0].checksum
  {
    var save := SaveItem(lib.items[0].(source := source));
    SavedAlone(lib, source);
    SaveItemKeeps(lib, save);
    SaveItemGenuine(lib, save);
    var saved := lib.(items := [save.copy]);
    RestoredAlone(saved, restore);
    RestoredFrom(saved, restore);
    RestoreKeeps(saved, restore);
  }

  /** A new source, saved between the first revision and its restoring as the video importer saves one, gives
    * the restored wording another checksum. */
  lemma NewSourceChangesTheChecksum(create: Op, source: Source, restore: Op)
    requires create.CreateItem? && create.revisionId != "" && Stripped(source) != Stripped(create.source)
    requires restore.Restore? && restore.id == create.freshId && restore.workspaceId == create.workspaceId
    requires restore.fromRevision == create.revisionId && restore.revisionId !in ["", create.revisionId]
    ensures
      var items := Step(Service(), Service().initial, create).items;
      && |items| == 1
      && var save := SaveItem(items[0].(source := source));
      var revisions := Replay(Service(), Service().initial, [create, save, restore]).revisions;
      && LegalRun([create, save, restore])
      && |revisions| == 2 && revisions[0].checksum != revisions[1].checksum
  {
    FirstIsAlone(create);
    var lib := Step(Service(), Service().initial, create);
    var save := SaveItem(lib.items[0].(source := source));
    SavedThenRestored(lib, source, restore);
    LegalThree(Service(), Permitted, Service().initial, create, save, restore);
    ReplayThree(Service(), Service().initial, create, save, restore);
  }

  lemma UpdatedThenSaved(lib: Library, update: Op)
    requires Alone(lib)
    requires update.Update? && update.id == lib.items[0].id && update.workspaceId == lib.items[0].workspaceId
    requires update.expected == "" && update.revisionId !in ["", lib.revisions[0].id]
    ensures
      var save := SaveItem(lib.items[0]);
      var before := Step(Service(), lib, update);
      var after := Step(Service(), before, save);
      && Permitted(lib, update) && Permitted(before, save) && Currents(before) && !Currents(after)
      && |after.items| == 1 && |after.revisions| == 2 && after.items[0] == lib.items[0]
      && after.revisions[0] == lib.revisions[0]
  {
    var save := SaveItem(lib.items[0]);
    assert ItemIds(lib.items) == [update.id] && RevisionIds(lib.revisions) == [lib.revisions[0].id];
    assert Locate([update.id], update.id) == Some(0);
    var at, item := ChangedIsRevise(lib, update);
    ReviseShape(lib, at, item, update.revisionId, update.now);
    UpdateKeeps(lib, update);
    RevisedIsCurrent(lib, update);
    var before := Step(Service(), lib, update);
    assert IsCurrent(before.revisions, before.items[0]) && before.items[0].currentRevisionId != save.copy.currentRevisionId;
    SaveItemShape(before, save);
    SavedIsCurrentIff(before, save);
  }

  /** A copy of an item that was read before an update and saved after it takes the item back to the revision
    * before the last. */
  lemma OutdatedItemGoesBack(create: Op, update: Op)
    requires create.CreateItem? && create.revisionId != ""
    requires update.Update? && update.id == create.freshId && update.workspaceId == create.workspaceId
    requires update.expected == "" && update.revisionId !in ["", create.revisionId]
    ensures
      var items := Step(Service(), Service().initial, create).items;
      && |items| == 1
      && var save := SaveItem(items[0]);
      var before := Replay(Service(), Service().initial, [create, update]);
      var after := Replay(Service(), Service().initial, [create, update, save]);
      && LegalRun([create, update, save]) && Currents(before) && !Currents(after)
      && |after.items| == 1 && |after.revisions| == 2
      && after.items[0].currentRevisionId == after.revisions[0].id
  {
    FirstIsAlone(create);
    var lib := Step(Service(), Service().initial, create);
    UpdatedThenSaved(lib, update);
    LegalThree(Service(), Permitted, Service().initial, create, update, SaveItem(lib.items[0]));
    ReplayThree(Service(), Service().initial, create, update, SaveItem(lib.items[0]));
  }

  // ---------------------------------------------------------------- what variant operations leave

  /** What a new variant says: the caller's fields, the body normalised, the language the revision's if none is
    * given; for the named item and revision, or the item's current one, and ready or invalid as the verdict is.
    * It is stored unless item or revision is not there, or the list refuses it. */
  lemma NewVariantLeaves(lib: Library, op: Op)
    requires op.CreateVariant? && Apply(op, lib).Changed?
    ensures
      var at := Locate(ItemIds(lib.items), op.id);
      var after := Step(Service(), lib, op);
      && at.Some? && lib.items[at.value].status != Deleted
      && (op.workspaceId != "" ==> lib.items[at.value].workspaceId == op.workspaceId)
      && |after.variants| == |lib.variants| + 1 && after.variants[..|lib.variants|] == lib.variants
      && after.items == lib.items && after.revisions == lib.revisions
      && var revisionId := if op.sourceRevisionId == "" then lib.items[at.value].currentRevisionId else op.sourceRevisionId;
      var from := Locate(RevisionIds(lib.revisions), revisionId);
      && from.Some? && lib.revisions[from.value].itemId == op.id
      && var v := after.variants[|lib.variants|];
      && v.id == op.draft.id && v.workspaceId == op.workspaceId && v.itemId == op.id && v.sourceRevisionId == revisionId
      && v.channel == op.draft.channel && v.capability == op.draft.capability && v.title == op.draft.title
      && v.body == Normalise(op.draft.body) && v.hashtags == op.draft.hashtags && v.updatedAt == op.draft.updatedAt
      && v.language == (if op.draft.language == "" then lib.revisions[from.value].wording.language else op.draft.language)
      && v.status == (if op.suitable then Variants.Ready else Variants.Invalid)
  {
    var m := VariantMutation(lib, op).value;
    MutationStep(lib, op, m);
    FoundIsStored(lib, op.id, op.workspaceId);
    var source := SourceOf(lib, op).value;
    var at := Locate(RevisionIds(lib.revisions),
                     if op.sourceRevisionId != "" then op.sourceRevisionId else source.0.currentRevisionId);
    assert RevisionIds(lib.revisions)[at.value] == lib.revisions[at.value].id;
  }

  /** What an update or a validation leaves of a variant: each text as it was where the caller gives none, and
    * otherwise the caller's, normalised; the status the verdict's, the time the call's, the rest as it was. */
  lemma SavedVariantLeaves(lib: Library, op: Op)
    requires (op.UpdateVariant? || op.ValidateVariant?) && Apply(op, lib).Changed? && Distinct(Variants.Ids(lib.variants))
    ensures
      var at := Locate(Variants.Ids(lib.variants), op.variantId);
      var after := Step(Service(), lib, op);
      && at.Some? && |after.variants| == |lib.variants| && after.items == lib.items && after.revisions == lib.revisions
      && (forall k :: 0 <= k < |lib.variants| && k != at.value ==> after.variants[k] == lib.variants[k])
      && var was, v := lib.variants[at.value], after.variants[at.value];
      && was.workspaceId == op.workspaceId
      && v.title == (if op.ValidateVariant? || op.title == None then was.title else Normalise(op.title.value))
      && v.body == (if op.ValidateVariant? || op.body == None then was.body else Normalise(op.body.value))
      && v.language == (if op.ValidateVariant? || op.language == None then was.language else Normalise(op.language.value))
      && v.hashtags == (if op.ValidateVariant? || op.hashtags == None then was.hashtags else op.hashtags.value)
      && v.status == (if op.suitable then Variants.Ready else Variants.Invalid) && v.updatedAt == op.now
      && v == was.(title := v.title, body := v.body, language := v.language, hashtags := v.hashtags,
                   status := v.status, updatedAt := v.updatedAt)
  {
    var m := VariantMutation(lib, op).value;
    MutationStep(lib, op, m);
    var at := Locate(Variants.Ids(lib.variants), op.variantId).value;
    assert Variants.Ids(lib.variants)[at] == lib.variants[at].id;
    LocateDistinct(Variants.Ids(lib.variants), at);
    Variants.SaveShape(lib.variants, m.variant);
  }

  // ---------------------------------------------------------------- is a ready variant's text suitable?

  /** What the requirements of a channel are checked against. */
  datatype ChannelText = ChannelText(
    channel: string, capability: string, title: string, body: string, language: string, hashtags: seq<string>)

  function TextOf(v: Variants.Variant): ChannelText {
    ChannelText(v.channel, v.capability, v.title, v.body, v.language, v.hashtags)
  }

  /** What the requirements see of a variant, and all they see. */
  lemma SameTextIff(u: Variants.Variant, v: Variants.Variant)
    ensures TextOf(u) == TextOf(v) <==>
      && u.channel == v.channel && u.capability == v.capability && u.title == v.title && u.body == v.body
      && u.language == v.language && u.hashtags == v.hashtags
  {
  }

  /** The text that a variant operation has checked: the new variant's when creating, and the stored one's
    * when validating; updating validates, so it checks the stored text too, not the edited one. */
  function Checked(lib: Library, op: Op): Option<ChannelText> {
    if op.CreateVariant? then
      var source := SourceOf(lib, op);
      if source.None? then None else Some(TextOf(Drafted(op, source.value.0, source.value.1)))
    else if op.UpdateVariant? || op.ValidateVariant? then
      var v := NamedVariant(lib, op);
      if v.None? then None else Some(TextOf(v.value))
    else None
  }

  /** The operation with the verdict of the requirements, which are a function of the text. */
  function Judged(suits: ChannelText -> bool, lib: Library, op: Op): Op {
    var t := Checked(lib, op);
    if t.None? then op else op.(suitable := suits(t.value))
  }

  lemma JudgedCreate(suits: ChannelText -> bool, lib: Library, op: Op, item: Item, revision: Revision)
    requires op.CreateVariant? && SourceOf(lib, op) == Some((item, revision))
    ensures
      var v := Drafted(op, item, revision);
      VariantMutation(lib, Judged(suits, lib, op)) == Some(Variants.Create(v.(status := StatusFor(suits(TextOf(v))))))
  {
    assert SourceOf(lib, Judged(suits, lib, op)) == SourceOf(lib, op);
  }

  lemma JudgedUpdate(suits: ChannelText -> bool, lib: Library, op: Op, v: Variants.Variant)
    requires op.UpdateVariant? && NamedVariant(lib, op) == Some(v)
    ensures
      VariantMutation(lib, Judged(suits, lib, op)) ==
        Some(Variants.Save(Amended(op, v).(status := StatusFor(suits(TextOf(v))), updatedAt := op.now)))
  {
    assert NamedVariant(lib, Judged(suits, lib, op)) == NamedVariant(lib, op);
  }

  ghost predicate AllSuit(suits: ChannelText -> bool, vs: seq<Variants.Variant>) {
    forall i :: 0 <= i < |vs| && vs[i].status.Ready? ==> suits(TextOf(vs[i]))
  }

  /** The operation carries the verdict of the requirements. */
  ghost predicate Honest(suits: ChannelText -> bool, lib: Library, op: Op) {
    Permitted(lib, op) && Judged(suits, lib, op) == op
  }

  /** If an update goes through and the stored text suited, the edited text does too. */
  ghost predicate EditSuits(suits: ChannelText -> bool, lib: Library, op: Op) {
    op.UpdateVariant? && Apply(op, lib).Changed? && suits(Checked(lib, op).value) ==>
      suits(TextOf(Amended(op, NamedVariant(lib, op).value)))
  }

  lemma SavedSuitsIff(suits: ChannelText -> bool, vs: seq<Variants.Variant>, v: Variants.Variant)
    requires AllSuit(suits, vs) && Distinct(Variants.Ids(vs))
    ensures AllSuit(suits, Upsert(vs, Variants.Ids(vs), v.id, v)) <==> (v.status.Ready? ==> suits(TextOf(v)))
  {
    Variants.SaveShape(vs, v);
    var after := Upsert(vs, Variants.Ids(vs), v.id, v);
    var at := Locate(Variants.Ids(vs), v.id);
    assert after[if at.Some? then at.value else |vs|] == v;
  }

  lemma CreateSuits(suits: ChannelText -> bool, lib: Library, op: Op)
    requires AllSuit(suits, lib.variants) && Judged(suits, lib, op) == op && op.CreateVariant?
    ensures AllSuit(suits, Step(Service(), lib, op).variants)
  {
    var m := VariantMutation(lib, op);
    if m.Some? {
      MutationStep(lib, op, m.value);
      assert m.value.variant.status.Ready? ==> suits(TextOf(m.value.variant));
    }
  }

  lemma SaveSuitsIff(suits: ChannelText -> bool, lib: Library, op: Op)
    requires AllSuit(suits, lib.variants) && Distinct(Variants.Ids(lib.variants)) && Judged(suits, lib, op) == op
    requires op.UpdateVariant? || op.ValidateVariant?
    ensures AllSuit(suits, Step(Service(), lib, op).variants) <==> EditSuits(suits, lib, op)
  {
    var m := VariantMutation(lib, op);
    if m.Some? {
      var v := m.value.variant;
      MutationStep(lib, op, m.value);
      SavedSuitsIff(suits, lib.variants, v);
      assert v.status.Ready? <==> suits(Checked(lib, op).value);
      assert op.UpdateVariant? ==> TextOf(v) == TextOf(Amended(op, NamedVariant(lib, op).value));
      assert op.ValidateVariant? ==> TextOf(v) == Checked(lib, op).value;
    }
  }

  lemma ItemOpSuits(suits: ChannelText -> bool, lib: Library, op: Op)
    requires Inv(lib) && AllSuit(suits, lib.variants) && Permitted(lib, op)
    requires op.CreateItem? || op.Update? || op.Restore? || op.Archive? || op.SaveItem?
    ensures AllSuit(suits, Step(Service(), lib, op).variants)
  {
    if op.CreateItem? {
      CreateShape(lib, op);
    } else if op.Archive? {
      ArchiveShape(lib, op);
    } else if op.SaveItem? {
      SaveItemShape(lib, op);
    } else {
      UpdateAges(lib, op);
    }
  }

  /** An input on which it fails, in a run from the empty library: a variant is created, and an update gives
    * it any other text. The verdict was on the text that was stored, and the variant is ready with the new
    * one. */
  lemma UncheckedTextIsReady(create: Op, draft: Variants.Variant, update: Op)
    requires create.CreateItem? && create.revisionId != ""
    requires update.UpdateVariant? && update.variantId == draft.id && update.workspaceId == create.workspaceId && update.suitable
    ensures
      var first := CreateVariant(create.freshId, create.workspaceId, "", draft, true);
      var before := Replay(Service(), Service().initial, [create, first]);
      var after := Replay(Service(), Service().initial, [create, first, update]);
      && |before.variants| == 1 && |after.variants| == 1
      && Checked(before, update) == Some(TextOf(before.variants[0]))
      && after.variants[0].status.Ready? && TextOf(after.variants[0]) == TextOf(Amended(update, before.variants[0]))
  {
    var first := CreateVariant(create.freshId, create.workspaceId, "", draft, true);
    var lib := Step(Service(), Service().initial, create);
    FirstItem(create);
    ReplayThree(Service(), Service().initial, create, first, update);
    var item, r := FindItem(lib, create.freshId, "").value, FindRevision(lib, create.revisionId).value;
    var v := Drafted(first, item, r).(status := Variants.Ready);
    MutationStep(lib, first, Variants.Create(v));
    CreatedVariant([], v);
    assert [] + [v] == [v];
    UpdatedAlone(lib.(variants := [v]), update, v);
  }

  lemma UpdatedAlone(lib: Library, update: Op, v: Variants.Variant)
    requires lib.variants == [v] && update.UpdateVariant? && update.variantId == v.id && update.workspaceId == v.workspaceId
    requires update.suitable
    ensures Checked(lib, update) == Some(TextOf(v))
    ensures
      var w := Amended(update, v).(status := Variants.Ready, updatedAt := update.now);
      Step(Service(), lib, update).variants == [w]
  {
    var w := Amended(update, v).(status := Variants.Ready, updatedAt := update.now);
    assert Variants.Ids([v])[0] == v.id;
    assert Locate(Variants.Ids([v]), v.id) == Some(0);
    MutationStep(lib, update, Variants.Save(w));
    assert [v][0 := w] == [w];
  }

  ghost predicate Kept(lib: Library) {
    Inv(lib) && Genuine(lib)
  }

  /** Every ready variant's text suits its channel throughout a run exactly if no update edits a suitable
    * text into one that is not. */
  lemma ReadyTextSuitsExactly(suits: ChannelText -> bool, ops: seq<Op>)
    requires Legal(Service(), (lib, op) => Honest(suits, lib, op), Service().initial, ops)
    ensures Throughout(Service(), (lib: Library) => AllSuit(suits, lib.variants), Service().initial, ops)
            <==> Legal(Service(), (lib, op) => EditSuits(suits, lib, op), Service().initial, ops)
  {
    var honest := (lib, op) => Honest(suits, lib, op);
    var good := (lib: Library) => AllSuit(suits, lib.variants);
    var fits := (lib, op) => EditSuits(suits, lib, op);
    var start := Service().initial;
    forall lib, op | Kept(lib) && honest(lib, op)
      ensures Kept(Step(Service(), lib, op))
      ensures good(lib) ==> (good(Step(Service(), lib, op)) <==> fits(lib, op))
    {
      StepKeeps(lib, op);
      if good(lib) {
        if op.CreateVariant? {
          CreateSuits(suits, lib, op);
        } else if op.UpdateVariant? || op.ValidateVariant? {
          SaveSuitsIff(suits, lib, op);
        } else {
          ItemOpSuits(suits, lib, op);
        }
      }
    }
    assert Legal(Service(), honest, start, ops);
    KeptExactly(Service(), Kept, honest, good, fits, start, ops);
    assert Throughout(Service(), good, start, ops)
      <==> Throughout(Service(), (lib: Library) => AllSuit(suits, lib.variants), start, ops);
    assert Legal(Service(), fits, start, ops) <==> Legal(Service(), (lib, op) => EditSuits(suits, lib, op), start, ops);
  }

  // ---------------------------------------------------------------- the service, step by step

  class ContentService {
    var items: seq<Item>
    var revisions: seq<Revision>
    const repository: Variants.VariantList

    constructor (repository: Variants.VariantList)
      ensures items == [] && revisions == [] && this.repository == repository
    {
      items, revisions := [], [];
      this.repository := repository;
    }

    ghost function Stored(): Library
      reads this, repository
    {
      Library(items, revisions, repository.variants)
    }

    method NextRevisionNumber(itemId: string) returns (number: int)
      ensures number == NextNumber(revisions, itemId)
    {
      var greatest: Option<int> := None;
      for index := 0 to |revisions|
        invariant greatest == Greatest(revisions[..index], itemId)
      {
        var record := revisions[index];
        assert revisions[..index + 1][..index] == revisions[..index];
        if record.itemId == itemId && (greatest.None? || record.number > greatest.value) {
          greatest := Some(record.number);
        }
      }
      assert revisions[..|revisions|] == revisions;
      return if greatest.None? then 1 else greatest.value + 1;
    }

    method CreateRevision(item: Item, freshId: string) returns (ok: bool)
      modifies this`revisions
      ensures ok == (freshId !in RevisionIds(old(revisions)))
      ensures revisions == if ok then old(revisions) + [NewRevision(old(revisions), item, freshId)] else old(revisions)
    {
      var number := NextRevisionNumber(item.id);
      var canonical := if item.canonicalText != "" then item.canonicalText else item.wording.body;
      var revision := Revision(freshId, item.id, item.workspaceId, number, item.wording, item.source, canonical,
                               Checksum(item.wording, item.source, canonical));
      if freshId in RevisionIds(revisions) {
        return false;
      }
      revisions := revisions + [revision];
      return true;
    }

    method SaveItem(item: Item)
      modifies this`items
      ensures items == Upsert(old(items), ItemIds(old(items)), item.id, item)
    {
      items := UpsertInPlace(items, ItemIds(items), item.id, item);
    }

    /** The new revision may clash after the item is stored; then the item stays without one. */
    method CreateContent(op: Op) returns (ok: bool)
      requires op.CreateItem?
      modifies this
      ensures ok == (op.freshId !in ItemIds(old(items)) && op.revisionId !in RevisionIds(old(revisions)))
      ensures Stored() == Step(Service(), old(Stored()), op)
    {
      var item := NewItem(op);
      if item.id in ItemIds(items) {
        return false;
      }
      items := items + [item];
      ok := CreateRevision(item, op.revisionId);
      if ok {
        item := item.(currentRevisionId := op.revisionId, status := Derived(item));
        SaveItem(item);
      }
    }

    method StoreRevised(edited: Item, revisionId: string, now: int) returns (ok: bool)
      modifies this, repository
      ensures ok == Revise(old(Stored()), edited, revisionId, now).Changed?
      ensures Stored() == Commit(old(Stored()), Revise(old(Stored()), edited, revisionId, now))
    {
      ok := CreateRevision(edited, revisionId);
      if ok {
        var item := edited.(currentRevisionId := revisionId, status := Derived(edited));
        SaveItem(item);
        var stale := repository.MarkStaleFor(item.id, item.currentRevisionId, now);
      }
    }

    method UpdateContent(op: Op) returns (ok: bool)
      requires op.Update?
      modifies this, repository
      ensures ok == ApplyUpdate(old(Stored()), op).Changed?
      ensures Stored() == Commit(old(Stored()), ApplyUpdate(old(Stored()), op))
    {
      var at := Locate(ItemIds(items), op.id);
      if at.None? || items[at.value].status.Deleted?
         || (op.workspaceId != "" && items[at.value].workspaceId != op.workspaceId) {
        return false;
      }
      var item := items[at.value];
      if op.expected != "" && item.currentRevisionId != op.expected {
        return false;
      }
      ok := StoreRevised(item.(wording := Edited(item.wording, op)), op.revisionId, op.now);
    }

    method RestoreRevision(op: Op) returns (ok: bool)
      requires op.Restore?
      modifies this, repository
      ensures ok == Apply(op, old(Stored())).Changed?
      ensures Stored() == Step(Service(), old(Stored()), op)
    {
      var at := Locate(ItemIds(items), op.id);
      if at.None? || items[at.value].status.Deleted?
         || (op.workspaceId != "" && items[at.value].workspaceId != op.workspaceId) {
        return false;
      }
      var from := Locate(RevisionIds(revisions), op.fromRevision);
      if from.None? || revisions[from.value].itemId != items[at.value].id {
        return false;
      }
      ok := UpdateContent(RestoreAsUpdate(op, revisions[from.value].wording));
    }

    method ArchiveContent(op: Op) returns (ok: bool)
      requires op.Archive?
      modifies this`items
      ensures ok == Apply(op, old(Stored())).Changed?
      ensures Stored() == Step(Service(), old(Stored()), op)
    {
      var at := Locate(ItemIds(items), op.id);
      if at.None? || items[at.value].status.Deleted?
         || (op.workspaceId != "" && items[at.value].workspaceId != op.workspaceId) {
        return false;
      }
      SaveItem(items[at.value].(status := Archived));
      return true;
    }

    method StoreVariant(m: Variants.Op, ghost op: Op) returns (ok: bool)
      requires op.CreateVariant? || op.UpdateVariant? || op.ValidateVariant?
      requires !m.MarkStale? && VariantMutation(Stored(), op) == Some(m)
      modifies repository
      ensures ok == !Apply(op, old(Stored())).Raised? && Stored() == Step(Service(), old(Stored()), op)
    {
      MutationStep(Stored(), op, m);
      if m.Create? {
        ok := repository.CreateVariant(m.variant);
      } else {
        ok := repository.SaveVariant(m.variant);
      }
    }

    /** `create_variant`; `suits` is the requirement registry's verdict. */
    method CreateChannelVariant(suits: ChannelText -> bool, op: Op) returns (ok: bool)
      requires op.CreateVariant?
      modifies repository
      ensures
        var judged := Judged(suits, old(Stored()), op);
        ok == !Apply(judged, old(Stored())).Raised? && Stored() == Step(Service(), old(Stored()), judged)
    {
      var at := Locate(ItemIds(items), op.id);
      if at.None? || items[at.value].status.Deleted?
         || (op.workspaceId != "" && items[at.value].workspaceId != op.workspaceId) {
        return false;
      }
      var item := items[at.value];
      var from := Locate(RevisionIds(revisions), if op.sourceRevisionId != "" then op.sourceRevisionId else item.currentRevisionId);
      if from.None? || revisions[from.value].itemId != item.id {
        return false;
      }
      var revision := revisions[from.value];
      var variant := op.draft.(workspaceId := op.workspaceId, itemId := item.id, sourceRevisionId := revision.id);
      variant := variant.(body := Normalise(op.draft.body));
      if variant.language == "" {
        variant := variant.(language := revision.wording.language);
      }
      var suitable := suits(TextOf(variant));
      variant := variant.(status := if suitable then Variants.Ready else Variants.Invalid);
      assert SourceOf(Stored(), op) == Some((item, revision));
      JudgedCreate(suits, Stored(), op, item, revision);
      ok := StoreVariant(Variants.Create(variant), Judged(suits, Stored(), op));
    }

    /** The check of `validate_variant`: it reads the variant from the store. */
    method CheckStored(suits: ChannelText -> bool, variantId: string, workspaceId: string) returns (verdict: Option<bool>)
      ensures
        var v := FindVariant(repository.variants, variantId);
        verdict == if v.None? || v.value.workspaceId != workspaceId then None else Some(suits(TextOf(v.value)))
    {
      var at := Locate(Variants.Ids(repository.variants), variantId);
      if at.None? || repository.variants[at.value].workspaceId != workspaceId {
        return None;
      }
      return Some(suits(TextOf(repository.variants[at.value])));
    }

    /** `update_variant`: the edits are made on a copy, the check reads the store. */
    method UpdateChannelVariant(suits: ChannelText -> bool, op: Op) returns (ok: bool)
      requires op.UpdateVariant?
      modifies repository
      ensures
        var judged := Judged(suits, old(Stored()), op);
        ok == !Apply(judged, old(Stored())).Raised? && Stored() == Step(Service(), old(Stored()), judged)
    {
      var at := Locate(Variants.Ids(repository.variants), op.variantId);
      if at.None? || repository.variants[at.value].workspaceId != op.workspaceId {
        return false;
      }
      var variant := repository.variants[at.value];
      if op.title.Some? {
        variant := variant.(title := Normalise(op.title.value));
      }
      if op.body.Some? {
        variant := variant.(body := Normalise(op.body.value));
      }
      if op.language.Some? {
        variant := variant.(language := Normalise(op.language.value));
      }
      if op.hashtags.Some? {
        variant := variant.(hashtags := op.hashtags.value);
      }
      var verdict := CheckStored(suits, op.variantId, op.workspaceId);
      variant := variant.(status := if verdict.value then Variants.Ready else Variants.Invalid);
      variant := variant.(updatedAt := op.now);
      assert NamedVariant(Stored(), op) == Some(repository.variants[at.value]);
      JudgedUpdate(suits, Stored(), op, repository.variants[at.value]);
      ok := StoreVariant(Variants.Save(variant), Judged(suits, Stored(), op));
    }

    /** `validate_variant`, which persists its verdict. */
    method ValidateChannelVariant(suits: ChannelText -> bool, op: Op) returns (ok: bool)
      requires op.ValidateVariant?
      modifies repository
      ensures
        var judged := Judged(suits, old(Stored()), op);
        ok == !Apply(judged, old(Stored())).Raised? && Stored() == Step(Service(), old(Stored()), judged)
    {
      var verdict := CheckStored(suits, op.variantId, op.workspaceId);
      if verdict.None? {
        return false;
      }
      var variant := repository.variants[Locate(Variants.Ids(repository.variants), op.variantId).value];
      variant := variant.(status := if verdict.value then Variants.Ready else Variants.Invalid, updatedAt := op.now);
      ok := StoreVariant(Variants.Save(variant), Judged(suits, Stored(), op));
    }
  }
}
