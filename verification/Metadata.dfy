/** JSON metadata and the filter that content_services.py puts it through (`_safe_metadata`). */
module Metadata {
  import opened Text

  datatype Json = Null | Bool(b: bool) | Number(n: real) | Str(s: string) | List(items: seq<Json>) | Object(fields: seq<Field>)

  /** One entry of an object, in insertion order. */
  datatype Field = Field(key: string, value: Json)

  const FORBIDDEN := {
    "storage_reference", "storage_ref", "local_path", "materialized_path", "object_path", "transfer_path",
    "absolute_path", "provider_secret", "provider_details"
  }

  predicate Hidden(key: string) {
    var lowered := Lower(key);
    lowered in FORBIDDEN || Contains(lowered, "path") || Contains(lowered, "reference")
  }

  lemma LowerConcat(a: string, b: string)
    ensures Lower(a + b) == Lower(a) + Lower(b)
  {
  }

  lemma WordIsFound(a: string, word: string, b: string, found: string)
    requires Lower(word) == found
    ensures Contains(Lower(a + word + b), found)
  {
    LowerConcat(a + word, b);
    LowerConcat(a, word);
    assert HasAt(Lower(a) + found + Lower(b), found, |Lower(a)|);
  }

  /** Keys that speak of a path or a reference are hidden, in any case, and so are the names of the store's own
    * places and of provider secrets. */
  lemma LocationsAreHidden(a: string, word: string, b: string)
    requires Lower(word) in {"path", "reference"}
    ensures Hidden(a + word + b)
    ensures Hidden("storage_ref") && Hidden("provider_secret") && Hidden("provider_details")
  {
    WordIsFound(a, word, b, Lower(word));
    LowerFixpointIff("storage_ref");
    LowerFixpointIff("provider_secret");
    LowerFixpointIff("provider_details");
  }

  predicate Scalar(v: Json) {
    v.Bool? || v.Number? || v.Str?
  }

  function Scalars(items: seq<Json>): seq<Json> {
    if items == [] then []
    else if Scalar(items[0]) then [items[0]] + Scalars(items[1..])
    else Scalars(items[1..])
  }

  function SafeValue(v: Json): Json
    decreases v
  {
    match v
    case Object(fields) => Object(Safe(fields))
    case List(items) => List(Scalars(items))
    case _ => v
  }

  /** Drops entries whose key suggests a location or a secret, at every depth of nested objects, and
    * keeps only scalars in lists. */
  function Safe(fields: seq<Field>): (r: seq<Field>)
    ensures |r| <= |fields|
    decreases fields
  {
    if fields == [] then []
    else
      var f := fields[0];
      if Hidden(f.key) then Safe(fields[1..]) else [Field(f.key, SafeValue(f.value))] + Safe(fields[1..])
  }

  lemma {:induction false} ScalarsFixpoint(items: seq<Json>)
    ensures Scalars(Scalars(items)) == Scalars(items)
  {
    if items != [] {
      ScalarsFixpoint(items[1..]);
    }
  }

  lemma {:induction false} SafeFixpoint(fields: seq<Field>)
    ensures Safe(Safe(fields)) == Safe(fields)
    decreases fields
  {
    if fields != [] {
      SafeFixpoint(fields[1..]);
      var v := fields[0].value;
      match v {
        case Object(inner) => SafeFixpoint(inner);
        case List(items) => ScalarsFixpoint(items);
        case _ =>
      }
      assert SafeValue(SafeValue(v)) == SafeValue(v);
      if !Hidden(fields[0].key) {
        assert Safe(fields)[1..] == Safe(fields[1..]);
      }
    }
  }

  /** The filter takes entries one by one: an entry with a hidden key is dropped, any other stays in its place. */
  lemma {:induction false} SafeSplits(a: seq<Field>, f: Field, b: seq<Field>)
    ensures Safe(a + [f] + b) == Safe(a) + Safe([f]) + Safe(b)
    ensures if Hidden(f.key) then Safe([f]) == [] else |Safe([f])| == 1 && Safe([f])[0].key == f.key
  {
    var all := a + [f] + b;
    if a == [] {
      assert all[1..] == b && [f][1..] == [];
    } else {
      assert all[1..] == a[1..] + [f] + b;
      SafeSplits(a[1..], f, b);
    }
  }

  /** No hidden key is left at any depth. */
  ghost predicate Clean(fields: seq<Field>)
    decreases fields
  {
    forall i :: 0 <= i < |fields| ==>
      !Hidden(fields[i].key) && (fields[i].value.Object? ==> Clean(fields[i].value.fields))
  }

  lemma {:induction false} SafeIsClean(fields: seq<Field>)
    ensures Clean(Safe(fields))
    decreases fields
  {
    if fields != [] {
      SafeIsClean(fields[1..]);
      if fields[0].value.Object? {
        SafeIsClean(fields[0].value.fields);
      }
    }
  }

  /** No list holds anything but scalars, at any depth of nested objects. */
  ghost predicate Flat(fields: seq<Field>)
    decreases fields
  {
    forall i :: 0 <= i < |fields| ==>
      && (fields[i].value.List? ==> forall k :: 0 <= k < |fields[i].value.items| ==> Scalar(fields[i].value.items[k]))
      && (fields[i].value.Object? ==> Flat(fields[i].value.fields))
  }

  lemma {:induction false} ScalarsKeepScalars(items: seq<Json>)
    ensures Scalars(items) == items <==> forall k :: 0 <= k < |items| ==> Scalar(items[k])
    ensures |Scalars(items)| <= |items|
  {
    if items != [] {
      ScalarsKeepScalars(items[1..]);
      assert forall k :: 0 < k < |items| ==> items[k] == items[1..][k - 1];
      if Scalars(items) == items {
        assert Scalars(items[1..]) == items[1..];
        forall k | 0 <= k < |items|
          ensures Scalar(items[k])
        {
          assert k > 0 ==> items[k] == items[1..][k - 1];
        }
      }
    }
  }

  /** The filter leaves alone exactly the metadata without hidden keys and without objects or lists in lists, so
    * it loses nothing else. */
  lemma {:induction false} SafeFixpointIff(fields: seq<Field>)
    ensures Safe(fields) == fields <==> Clean(fields) && Flat(fields)
    decreases fields
  {
    if fields != [] {
      var f := fields[0];
      SafeFixpointIff(fields[1..]);
      match f.value {
        case Object(inner) => SafeFixpointIff(inner);
        case List(items) => ScalarsKeepScalars(items);
        case _ =>
      }
      assert fields == [f] + fields[1..];
      if !Hidden(f.key) {
        assert Safe(fields) == [Field(f.key, SafeValue(f.value))] + Safe(fields[1..]);
      }
      SplitClean(f, fields[1..]);
    }
  }

  lemma SplitClean(f: Field, rest: seq<Field>)
    ensures Clean([f] + rest) <==> !Hidden(f.key) && (f.value.Object? ==> Clean(f.value.fields)) && Clean(rest)
    ensures Flat([f] + rest) <==>
      && (f.value.List? ==> forall k :: 0 <= k < |f.value.items| ==> Scalar(f.value.items[k]))
      && (f.value.Object? ==> Flat(f.value.fields)) && Flat(rest)
  {
    var all := [f] + rest;
    assert all[0] == f && forall i :: 0 < i < |all| ==> all[i] == rest[i - 1];
    if Clean(all) {
      assert forall i :: 0 <= i < |rest| ==> rest[i] == all[i + 1];
    }
    if Flat(all) {
      assert forall i :: 0 <= i < |rest| ==> rest[i] == all[i + 1];
    }
  }
}
