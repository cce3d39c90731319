/** Operations on single documents: the helper that makes a stored
    document JSON-ready by turning its identifier into text, and the
    partial merge the store performs for a `$set` update. */
module Documents {
  import opened Json

  const IdKey: string := "_id"

  /** str() is spelled out for the identifier, if there is one. */
  predicate IdIsScalar(d: Document) {
    IdKey in d ==> IsScalar(d[IdKey])
  }

  /** serialize_doc on a dictionary: the `_id` entry, when present, is
      replaced by its text; every other entry stays as it is. An empty
      dictionary has no `_id` and is returned as it is. */
  function Serialized(d: Document): (r: Document)
    requires IdIsScalar(d)
    ensures r.Keys == d.Keys
    ensures forall k :: k in d && k != IdKey ==> r[k] == d[k]
    ensures IdKey in d ==> r[IdKey] == Str(PyStr(d[IdKey]))
    ensures IdIsScalar(r)
  {
    if d != map[] && IdKey in d then d[IdKey := Str(PyStr(d[IdKey]))] else d
  }

  /** Serializing an already serialized document changes nothing: the text
      of a string is the string itself. */
  lemma SerializedIdempotent(d: Document)
    requires IdIsScalar(d)
    ensures Serialized(Serialized(d)) == Serialized(d)
  {
  }

  /** A Python dictionary object, which serialize_doc updates in place. */
  class Dict {
    var entries: Document

    constructor (m: Document)
      ensures entries == m
    {
      entries := m;
    }
  }

  /** serialize_doc(doc): rewrites `_id` in place and returns the same
      object; None (a null reference) is returned untouched. */
  method SerializeDoc(doc: Dict?) returns (r: Dict?)
    requires doc != null ==> IdIsScalar(doc.entries)
    modifies doc
    ensures r == doc
    ensures doc != null ==> doc.entries == Serialized(old(doc.entries))
  {
    if doc != null && doc.entries != map[] && IdKey in doc.entries {
      doc.entries := doc.entries[IdKey := Str(PyStr(doc.entries[IdKey]))];
    }
    r := doc;
  }

  /** The partial merge `{'$set': upd}` applies to a document's fields:
      every field named in `upd` takes the submitted value, every other
      field keeps its value. The identifier is not a field here: the store
      keeps it apart and never changes it. */
  function SetFields(fields: Document, upd: Document): (r: Document)
    ensures r.Keys == fields.Keys + (upd.Keys - {IdKey})
    ensures forall k :: k in upd && k != IdKey ==> r[k] == upd[k]
    ensures forall k :: k in fields && (k !in upd || k == IdKey) ==> r[k] == fields[k]
  {
    fields + map k | k in upd && k != IdKey :: upd[k]
  }

  /** The store's modified count is positive exactly when some submitted
      field is new or carries a different value. */
  predicate Changes(fields: Document, upd: Document) {
    exists k :: k in upd && k != IdKey && (k !in fields || fields[k] != upd[k])
  }

  /** A change is reported exactly when the merge produces a different
      document. */
  lemma ChangesIffDiffers(fields: Document, upd: Document)
    ensures Changes(fields, upd) <==> SetFields(fields, upd) != fields
  {
    var r := SetFields(fields, upd);
    if Changes(fields, upd) {
      var k :| k in upd && k != IdKey && (k !in fields || fields[k] != upd[k]);
      assert k in r && r[k] == upd[k];
    } else {
      assert r.Keys == fields.Keys;
      forall k | k in r ensures r[k] == fields[k] {
        if k in upd && k != IdKey {
          assert fields[k] == upd[k];
        }
      }
    }
  }

  /** Applying the same `$set` a second time changes nothing further and
      is reported as no change. */
  lemma SetFieldsIdempotent(fields: Document, upd: Document)
    ensures SetFields(SetFields(fields, upd), upd) == SetFields(fields, upd)
    ensures !Changes(SetFields(fields, upd), upd)
  {
    var once := SetFields(fields, upd);
    assert !Changes(once, upd);
    ChangesIffDiffers(once, upd);
  }
}
