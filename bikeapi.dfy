/** The bike resource routes of app.py over an abstract collection.

    The collection is the sequence of stored bikes in the store's natural
    order; each bike is its identifier and its other fields. What the store
    does is stated here as assumptions about MongoDB:
    - `insert_one` appends one document; it uses a submitted `_id` if there is
      one and otherwise a generated object identifier, and refuses an
      identifier already taken;
    - `find` yields the documents in collection order and `find_one` the first
      that matches;
    - `update_one` with `$set` merges the submitted fields into the first
      document with that identifier, and its modified count is positive exactly
      when some field value changes;
    - `delete_one` removes the first document with that identifier.
    The store being unreachable is a parameter of each route. */
module BikeApi {
  import opened Wrappers
  import opened Ascii
  import opened ObjectIds
  import opened Json
  import opened Documents
  import opened Responses
  import opened NewBike

  datatype Bike = Bike(id: Value, fields: Document)

  /** The document the store returns for a bike: its fields and its `_id`. */
  function AsDocument(b: Bike): Document {
    b.fields[IdKey := b.id]
  }

  /** Every bike has exactly one identifier, whose text the model knows, and
      no two bikes share one. */
  predicate WellFormedBikes(bikes: seq<Bike>) {
    && (forall i :: 0 <= i < |bikes| ==> IsScalar(bikes[i].id) && IdKey !in bikes[i].fields)
    && (forall i, j :: 0 <= i < j < |bikes| ==> bikes[i].id != bikes[j].id)
  }

  predicate HasId(bikes: seq<Bike>, id: Value) {
    exists i :: 0 <= i < |bikes| && bikes[i].id == id
  }

  /** The position of the first bike satisfying `p`. */
  function FirstIndex(bikes: seq<Bike>, p: Bike -> bool): (r: Option<nat>)
    ensures r.Some? ==> r.value < |bikes| && p(bikes[r.value])
    ensures r.Some? ==> forall j :: 0 <= j < r.value ==> !p(bikes[j])
    ensures r.None? ==> forall j :: 0 <= j < |bikes| ==> !p(bikes[j])
  {
    if bikes == [] then None
    else if p(bikes[0]) then Some(0)
    else match FirstIndex(bikes[1..], p)
      case None => None
      case Some(k) => Some(k + 1)
  }

  /** The filter `{'_id': obj_id}`. */
  function WithId(id: Value): Bike -> bool {
    (b: Bike) => b.id == id
  }

  /** In a collection without repeated identifiers, the first bike with an
      identifier is the only one. */
  lemma {:induction false} FirstWithIdIsOnly(bikes: seq<Bike>, id: Value)
    requires WellFormedBikes(bikes)
    ensures FirstIndex(bikes, WithId(id)).Some? <==> HasId(bikes, id)
    ensures FirstIndex(bikes, WithId(id)).Some? ==>
              forall j :: 0 <= j < |bikes| && bikes[j].id == id ==> j == FirstIndex(bikes, WithId(id)).value
  {
    var r := FirstIndex(bikes, WithId(id));
    if HasId(bikes, id) {
      var i :| 0 <= i < |bikes| && bikes[i].id == id;
      assert WithId(id)(bikes[i]);
    }
    if r.Some? {
      assert WithId(id)(bikes[r.value]);
    }
  }

  /** The serialized listing of the whole collection (app.py:80-81): each
      bike's fields with its identifier as text, in collection order. */
  function Listed(bikes: seq<Bike>): (r: seq<Value>)
    requires WellFormedBikes(bikes)
    ensures |r| == |bikes|
    ensures forall i :: 0 <= i < |bikes| ==> r[i] == Obj(bikes[i].fields[IdKey := Str(PyStr(bikes[i].id))])
  {
    var r := seq(|bikes|, i requires 0 <= i < |bikes| => Obj(Serialized(AsDocument(bikes[i]))));
    assert forall i :: 0 <= i < |bikes| ==> r[i] == Obj(bikes[i].fields[IdKey := Str(PyStr(bikes[i].id))]) by {
      forall i | 0 <= i < |bikes| {
        SerializedStoredBike(bikes[i]);
      }
    }
    r
  }

  /** serialize_doc on a stored bike replaces its identifier by the
      identifier's text and keeps every field. */
  lemma SerializedStoredBike(b: Bike)
    requires IsScalar(b.id)
    ensures Serialized(AsDocument(b)) == b.fields[IdKey := Str(PyStr(b.id))]
  {
    var d := AsDocument(b);
    var want := b.fields[IdKey := Str(PyStr(b.id))];
    assert Serialized(d).Keys == want.Keys;
    forall k | k in want ensures Serialized(d)[k] == want[k] {
    }
  }

  /** Listing is a round trip for identifiers: the `_id` text of every listed
      bike with an object identifier parses back to that identifier, so it
      addresses the same bike in an update or a delete. */
  lemma ListedIdsParseBack(bikes: seq<Bike>, i: nat)
    requires WellFormedBikes(bikes) && i < |bikes| && bikes[i].id.Oid?
    ensures Listed(bikes)[i].fields[IdKey].Str?
    ensures Parse(Listed(bikes)[i].fields[IdKey].s) == Some(bikes[i].id.oid)
  {
    ParseToText(bikes[i].id.oid);
  }

  /** Listing an empty collection is an empty array, not an error. */
  lemma ListedEmpty()
    ensures Listed([]) == []
  {
  }

  // ---- create --------------------------------------------------------------

  /** The identifier `insert_one` stores the document under. */
  function AssignedId(doc: Document, generated: ObjectId): Value {
    if IdKey in doc then doc[IdKey] else Oid(generated)
  }

  const AddedMessage: string := "Bike added successfully!"

  /** What a successful create stores shows up in the next listing: the
      earlier bikes as before, then the new one with its identifier as text,
      the same text the create reply gave as `inserted_id`. */
  lemma ListedAfterInsert(bikes: seq<Bike>, b: Bike)
    requires WellFormedBikes(bikes) && IsScalar(b.id) && IdKey !in b.fields && !HasId(bikes, b.id)
    ensures WellFormedBikes(bikes + [b])
    ensures Listed(bikes + [b]) == Listed(bikes) + [Obj(b.fields[IdKey := Str(PyStr(b.id))])]
  {
    var all := bikes + [b];
    assert forall i :: 0 <= i < |bikes| ==> all[i] == bikes[i];
    assert all[|bikes|] == b;
    var l, r := Listed(all), Listed(bikes) + [Obj(b.fields[IdKey := Str(PyStr(b.id))])];
    assert |l| == |r|;
    forall i | 0 <= i < |l| ensures l[i] == r[i] {
      if i < |bikes| {
        assert l[i] == Obj(bikes[i].fields[IdKey := Str(PyStr(bikes[i].id))]);
      }
    }
  }

  // ---- lookup by model -----------------------------------------------------

  /** The anchored, case-insensitive pattern `^name$` against one string: equal
      ignoring case, where `$` may also stand before a final newline. */
  predicate ModelTextMatches(stored: string, name: string) {
    || EqualIgnoringCase(stored, name)
    || (|stored| > 0 && stored[|stored| - 1] == '\n' && EqualIgnoringCase(stored[..|stored| - 1], name))
  }

  /** The anchored, case-insensitive regular-expression filter on the `model`
      field (app.py:89): a string `model` matches as above, an array matches
      when one of its strings does, and any other value never matches. */
  predicate ModelMatches(b: Bike, name: string) {
    && "model" in b.fields
    && match b.fields["model"]
       case Str(s) => ModelTextMatches(s, name)
       case Arr(xs) => exists k :: 0 <= k < |xs| && xs[k].Str? && ModelTextMatches(xs[k].s, name)
       case _ => false
  }

  function WithModel(name: string): Bike -> bool {
    (b: Bike) => ModelMatches(b, name)
  }

  /** The lookup is anchored at both ends and ignores case. */
  lemma ModelLookupExamples()
    ensures ModelTextMatches("Trek520", "trek520")
    ensures ModelTextMatches("Trek520", "TREK520")
    ensures ModelTextMatches("Trek520", "Trek520")
    ensures !ModelTextMatches("Trek520", "trek52")
    ensures !ModelTextMatches("Trek520", "xtrek520")
  {
    assert ToLower("Trek520") == "trek520";
    assert ToLower("TREK520") == "trek520";
    assert |ToLower("trek52")| == 6;
    assert ToLower("xtrek520")[0] == 'x';
  }

  // ---- update and delete by identifier -------------------------------------

  const InvalidIdMessage: string := "Invalid bike ID format"
  const NoUpdateDataMessage: string := "No update data provided"

  function UpdatedMessage(bikeId: string): string {
    "Bike with ID " + bikeId + " updated successfully!"
  }

  function NotUpdatedMessage(bikeId: string): string {
    "Bike with ID " + bikeId + " not found or no new data provided"
  }

  function DeletedMessage(bikeId: string): string {
    "Bike with ID " + bikeId + " deleted successfully!"
  }

  function NotFoundMessage(bikeId: string): string {
    "Bike with ID " + bikeId + " not found"
  }

  /** Removing one bike keeps the collection well formed, removes its
      identifier, and keeps every other bike. */
  lemma RemoveAtKeepsOthers(bikes: seq<Bike>, i: nat)
    requires WellFormedBikes(bikes) && i < |bikes|
    ensures WellFormedBikes(bikes[..i] + bikes[i + 1..])
    ensures !HasId(bikes[..i] + bikes[i + 1..], bikes[i].id)
    ensures forall b :: b in bikes && b.id != bikes[i].id ==> b in bikes[..i] + bikes[i + 1..]
  {
    var rest := bikes[..i] + bikes[i + 1..];
    assert forall k :: 0 <= k < |rest| ==> rest[k] == bikes[if k < i then k else k + 1];
    forall b | b in bikes && b.id != bikes[i].id ensures b in rest {
      var k :| 0 <= k < |bikes| && bikes[k] == b;
      assert k != i;
      assert rest[if k < i then k else k - 1] == b;
    }
  }

  /** The collection the routes act on. */
  class BikeStore {
    var bikes: seq<Bike>

    ghost predicate Valid()
      reads this
    {
      WellFormedBikes(bikes)
    }

    constructor ()
      ensures Valid() && bikes == []
    {
      bikes := [];
    }

    /** POST /api/v1/bikes. `generated` is the identifier the driver would
        generate for a document without `_id`. */
    method Create(body: Value, generated: ObjectId, outage: bool) returns (resp: Response)
      requires Valid()
      modifies this
      ensures Valid()
      ensures ValidateNewBike(body).Refused? ==> resp == ValidateNewBike(body).response && bikes == old(bikes)
      ensures ValidateNewBike(body).Accepted? && outage ==> resp == Crash(StoreUnavailable)
      ensures ValidateNewBike(body).Accepted? && !outage && !Encodable(body) ==> resp == Crash(IntegerTooLarge)
      ensures ValidateNewBike(body).Accepted? && !outage && Encodable(body) ==>
                var id := AssignedId(body.fields, generated);
                && (!IsScalar(id) ==> resp == Crash(IdRejected))
                && (IsScalar(id) && HasId(old(bikes), id) ==> resp == Crash(DuplicateKey))
                && (IsScalar(id) && !HasId(old(bikes), id) ==>
                      && resp == Reply(201, Obj(map["message" := Str(AddedMessage), "inserted_id" := Str(PyStr(id))]))
                      && bikes == old(bikes) + [Bike(id, body.fields - {IdKey})])
      ensures resp.Status() != 201 ==> bikes == old(bikes)
    {
      var checked := ValidateNewBike(body);
      if checked.Refused? {
        return checked.response;
      }
      var doc := checked.doc;
      var id := AssignedId(doc, generated);
      if outage {
        return Crash(StoreUnavailable);
      }
      if !Encodable(Obj(doc)) {
        return Crash(IntegerTooLarge);
      }
      if !IsScalar(id) {
        return Crash(IdRejected);
      }
      if HasId(bikes, id) {
        return Crash(DuplicateKey);
      }
      bikes := bikes + [Bike(id, doc - {IdKey})];
      resp := Reply(201, Obj(map["message" := Str(AddedMessage), "inserted_id" := Str(PyStr(id))]));
    }

    /** GET /api/v1/bikes: every bike, in collection order, with its
        identifier as text. */
    method List(outage: bool) returns (resp: Response)
      requires Valid()
      ensures outage ==> resp == Crash(StoreUnavailable)
      ensures !outage ==> resp == Reply(200, Arr(Listed(bikes)))
    {
      if outage {
        return Crash(StoreUnavailable);
      }
      resp := Reply(200, Arr(Listed(bikes)));
    }

    /** GET /api/v1/bikes/model/<model>: the first bike whose model matches. */
    method FindByModel(name: string, outage: bool) returns (resp: Response)
      requires Valid()
      ensures outage ==> resp == Crash(StoreUnavailable)
      ensures !outage && (forall i :: 0 <= i < |bikes| ==> !ModelMatches(bikes[i], name)) ==>
                resp == ErrorReply(404, "Bike not found")
      ensures !outage ==> forall i ::
                0 <= i < |bikes| && ModelMatches(bikes[i], name) && (forall j :: 0 <= j < i ==> !ModelMatches(bikes[j], name))
                ==> resp == Reply(200, Obj(bikes[i].fields[IdKey := Str(PyStr(bikes[i].id))]))
    {
      if outage {
        return Crash(StoreUnavailable);
      }
      var at := FirstIndex(bikes, WithModel(name));
      if at.None? {
        resp := ErrorReply(404, "Bike not found");
        assert forall i :: 0 <= i < |bikes| ==> !WithModel(name)(bikes[i]);
      } else {
        var doc := Serialized(AsDocument(bikes[at.value]));
        resp := Reply(200, Obj(doc));
        assert WithModel(name)(bikes[at.value]);
        assert forall j :: 0 <= j < at.value ==> !WithModel(name)(bikes[j]);
        assert doc == bikes[at.value].fields[IdKey := Str(PyStr(bikes[at.value].id))];
      }
    }

    /** PUT /api/v1/bikes/id/<bike_id>. */
    method Update(bikeId: string, body: Value, outage: bool) returns (resp: Response)
      requires Valid()
      modifies this
      ensures Valid()
      ensures Parse(bikeId).None? ==> resp == ErrorReply(400, InvalidIdMessage)
      ensures Parse(bikeId).Some? && !Truthy(body) ==> resp == ErrorReply(400, NoUpdateDataMessage)
      ensures Parse(bikeId).Some? && Truthy(body) && outage ==> resp == Crash(StoreUnavailable)
      ensures Parse(bikeId).Some? && Truthy(body) && !outage && !Encodable(body) ==> resp == Crash(IntegerTooLarge)
      ensures Parse(bikeId).Some? && Truthy(body) && !outage && Encodable(body) && !body.Obj? ==>
                resp == Crash(SetNeedsDocument)
      ensures Parse(bikeId).Some? && Truthy(body) && !outage && Encodable(body) && body.Obj? ==>
                var target := Oid(Parse(bikeId).value);
                && (!HasId(old(bikes), target) ==> resp == ErrorReply(404, NotUpdatedMessage(bikeId)))
                && forall i :: 0 <= i < |old(bikes)| && old(bikes)[i].id == target ==>
                     var b := old(bikes)[i];
                     if IdKey in body.fields && body.fields[IdKey] != b.id then
                       resp == Crash(ImmutableId)
                     else if Changes(b.fields, body.fields) then
                       && resp == MessageReply(200, UpdatedMessage(bikeId))
                       && bikes == old(bikes)[i := Bike(b.id, SetFields(b.fields, body.fields))]
                     else
                       resp == ErrorReply(404, NotUpdatedMessage(bikeId))
      ensures resp.Status() == 200 <==>
                && Parse(bikeId).Some? && Truthy(body) && !outage && Encodable(body) && body.Obj?
                && exists i :: 0 <= i < |old(bikes)| && old(bikes)[i].id == Oid(Parse(bikeId).value)
                     && (IdKey in body.fields ==> body.fields[IdKey] == old(bikes)[i].id)
                     && Changes(old(bikes)[i].fields, body.fields)
      ensures resp.Status() != 200 ==> bikes == old(bikes)
    {
      var oid := Parse(bikeId);
      if oid.None? {
        return ErrorReply(400, InvalidIdMessage);
      }
      if !Truthy(body) {
        return ErrorReply(400, NoUpdateDataMessage);
      }
      if outage {
        return Crash(StoreUnavailable);
      }
      if !Encodable(body) {
        return Crash(IntegerTooLarge);
      }
      if !body.Obj? {
        return Crash(SetNeedsDocument);
      }
      var target := Oid(oid.value);
      var upd := body.fields;
      FirstWithIdIsOnly(bikes, target);
      var at := FirstIndex(bikes, WithId(target));
      if at.None? {
        return ErrorReply(404, NotUpdatedMessage(bikeId));
      }
      var i := at.value;
      var b := bikes[i];
      if IdKey in upd && upd[IdKey] != b.id {
        return Crash(ImmutableId);
      }
      if Changes(b.fields, upd) {
        bikes := bikes[i := Bike(b.id, SetFields(b.fields, upd))];
        resp := MessageReply(200, UpdatedMessage(bikeId));
      } else {
        resp := ErrorReply(404, NotUpdatedMessage(bikeId));
      }
    }

    /** DELETE /api/v1/bikes/id/<bike_id>. */
    method Delete(bikeId: string, outage: bool) returns (resp: Response)
      requires Valid()
      modifies this
      ensures Valid()
      ensures Parse(bikeId).None? ==> resp == ErrorReply(400, InvalidIdMessage)
      ensures Parse(bikeId).Some? && outage ==> resp == Crash(StoreUnavailable)
      ensures Parse(bikeId).Some? && !outage ==>
                var target := Oid(Parse(bikeId).value);
                && (!HasId(old(bikes), target) ==> resp == ErrorReply(404, NotFoundMessage(bikeId)))
                && forall i :: 0 <= i < |old(bikes)| && old(bikes)[i].id == target ==>
                     resp == MessageReply(200, DeletedMessage(bikeId)) && bikes == old(bikes)[..i] + old(bikes)[i + 1..]
      ensures resp.Status() == 200 <==> Parse(bikeId).Some? && !outage && HasId(old(bikes), Oid(Parse(bikeId).value))
      ensures resp.Status() == 200 ==>
                var target := Oid(Parse(bikeId).value);
                && !HasId(bikes, target)
                && forall b :: b in old(bikes) && b.id != target ==> b in bikes
      ensures resp.Status() != 200 ==> bikes == old(bikes)
    {
      var oid := Parse(bikeId);
      if oid.None? {
        return ErrorReply(400, InvalidIdMessage);
      }
      if outage {
        return Crash(StoreUnavailable);
      }
      var target := Oid(oid.value);
      FirstWithIdIsOnly(bikes, target);
      var at := FirstIndex(bikes, WithId(target));
      if at.None? {
        return ErrorReply(404, NotFoundMessage(bikeId));
      }
      var i := at.value;
      RemoveAtKeepsOthers(bikes, i);
      bikes := bikes[..i] + bikes[i + 1..];
      resp := MessageReply(200, DeletedMessage(bikeId));
    }
  }
}
