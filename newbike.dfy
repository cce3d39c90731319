/** The checks a create request passes before anything is stored
    (app.py, handle_all_bikes, POST). */
module NewBike {
  import opened Json
  import opened Responses

  const RequiredFields: seq<string> := ["make", "model", "price", "type"]

  const NoDataMessage: string := "No data provided in request body"
  const PriceMessage: string := "Price must be a number"

  /** The body kinds on which Python's `in` is defined. */
  predicate Iterable(v: Value) {
    v.Str? || v.Arr? || v.Obj?
  }

  /** type(v).__name__ */
  function TypeName(v: Value): string {
    match v
    case Null => "NoneType"
    case Bool(_) => "bool"
    case Int(_) => "int"
    case Float(_) => "float"
    case Str(_) => "str"
    case Arr(_) => "list"
    case Obj(_) => "dict"
    case Oid(_) => "ObjectId"
  }

  predicate IsSubstring(needle: string, hay: string) {
    exists i :: 0 <= i <= |hay| && needle <= hay[i..]
  }

  /** `item in container`: a substring test on a string, membership on a
      list, a key test on a dictionary. */
  predicate Contains(container: Value, item: string)
    requires Iterable(container)
  {
    match container
    case Str(s) => IsSubstring(item, s)
    case Arr(xs) => Str(item) in xs
    case Obj(m) => item in m
  }

  /** The required fields that `in` does not find in the body, in the order
      of the list (app.py:61). */
  function MissingFields(fields: seq<string>, body: Value): seq<string>
    requires Iterable(body)
  {
    if fields == [] then []
    else (if Contains(body, fields[0]) then [] else [fields[0]]) + MissingFields(fields[1..], body)
  }

  /** `a` can be obtained from `b` by deleting elements. */
  predicate IsSubsequence(a: seq<string>, b: seq<string>) {
    if a == [] then true
    else if b == [] then false
    else (a[0] == b[0] && IsSubsequence(a[1..], b[1..])) || IsSubsequence(a, b[1..])
  }

  /** The reported fields are exactly the listed fields the body lacks. */
  lemma {:induction false} MissingFieldsExact(fields: seq<string>, body: Value)
    requires Iterable(body)
    ensures forall f :: f in MissingFields(fields, body) <==> f in fields && !Contains(body, f)
  {
    if fields != [] {
      MissingFieldsExact(fields[1..], body);
      assert fields == [fields[0]] + fields[1..];
    }
  }

  /** ... and they are reported in the order of the list. */
  lemma {:induction false} MissingFieldsInOrder(fields: seq<string>, body: Value)
    requires Iterable(body)
    ensures IsSubsequence(MissingFields(fields, body), fields)
  {
    if fields != [] {
      MissingFieldsInOrder(fields[1..], body);
      var rest := MissingFields(fields[1..], body);
      if !Contains(body, fields[0]) {
        assert MissingFields(fields, body) == [fields[0]] + rest;
        assert ([fields[0]] + rest)[1..] == rest;
      } else {
        assert MissingFields(fields, body) == rest;
      }
    }
  }

  /** `sep.join(parts)` */
  function Join(parts: seq<string>, sep: string): string {
    if parts == [] then ""
    else if |parts| == 1 then parts[0]
    else parts[0] + sep + Join(parts[1..], sep)
  }

  function MissingMessage(missing: seq<string>): string {
    "Missing required fields: " + Join(missing, ", ")
  }

  /** The outcome of the checks: the document to insert, or the response
      that ends the request. */
  datatype Checked = Accepted(doc: Document) | Refused(response: Response)

  /** The three ordered checks of a create request: a falsy body first, then
      the required fields in their fixed order, then the type of the price.
      A body that is not a dictionary fails inside these checks with a
      Python exception, as the code would. */
  function ValidateNewBike(body: Value): (r: Checked)
    ensures !Truthy(body) ==> r == Refused(ErrorReply(400, NoDataMessage))
    ensures Truthy(body) && !Iterable(body) ==> r == Refused(Crash(NotIterable(TypeName(body))))
    ensures Truthy(body) && Iterable(body) && (exists f :: f in RequiredFields && !Contains(body, f)) ==>
              r == Refused(ErrorReply(400, MissingMessage(MissingFields(RequiredFields, body))))
    ensures Truthy(body) && Iterable(body) && !body.Obj? && (forall f :: f in RequiredFields ==> Contains(body, f)) ==>
              r == Refused(Crash(NoGetMethod(TypeName(body))))
    ensures Truthy(body) && body.Obj? && (forall f :: f in RequiredFields ==> f in body.fields) && !IsPyNumber(body.fields["price"]) ==>
              r == Refused(ErrorReply(400, PriceMessage))
    ensures r.Accepted? <==>
              Truthy(body) && body.Obj? && (forall f :: f in RequiredFields ==> f in body.fields) && IsPyNumber(body.fields["price"])
    ensures r.Accepted? ==> r.doc == body.fields
  {
    if !Truthy(body) then Refused(ErrorReply(400, NoDataMessage))
    else if !Iterable(body) then Refused(Crash(NotIterable(TypeName(body))))
    else
      var missing := MissingFields(RequiredFields, body);
      MissingFieldsExact(RequiredFields, body);
      assert missing == [] <==> forall f :: f in RequiredFields ==> Contains(body, f) by {
        if missing != [] { assert missing[0] in missing; }
      }
      if missing != [] then Refused(ErrorReply(400, MissingMessage(missing)))
      else
      assert Contains(body, RequiredFields[2]);
      if !body.Obj? then Refused(Crash(NoGetMethod(TypeName(body))))
      else if !IsPyNumber(body.fields["price"]) then Refused(ErrorReply(400, PriceMessage))
      else Accepted(body.fields)
  }

  /** Two fields missing: both are named, in the fixed order. */
  lemma MissingTwoFields()
    ensures ValidateNewBike(Obj(map["price" := Int(899), "make" := Str("Trek")]))
            == Refused(ErrorReply(400, "Missing required fields: model, type"))
  {
    var body := Obj(map["price" := Int(899), "make" := Str("Trek")]);
    assert Contains(body, "make") && Contains(body, "price");
    assert !Contains(body, "model") && !Contains(body, "type");
    var req := RequiredFields;
    assert MissingFields(req[3..], body) == ["type"];
    assert MissingFields(req[2..], body) == ["type"];
    assert MissingFields(req[1..], body) == ["model", "type"];
    assert MissingFields(req, body) == ["model", "type"];
    assert Truthy(body) by { assert "make" in body.fields; }
    assert "model" in req && !Contains(body, "model");
    assert Join(["model", "type"], ", ") == "model, type";
    assert MissingMessage(["model", "type"]) == "Missing required fields: model, type";
  }

  /** A boolean price passes the number check, since bool is a subclass of
      int, while a price given as a string does not. */
  lemma BooleanPriceIsANumber(m: Document, b: bool)
    requires forall f :: f in RequiredFields ==> f in m
    ensures ValidateNewBike(Obj(m["price" := Bool(b)])) == Accepted(m["price" := Bool(b)])
    ensures ValidateNewBike(Obj(m["price" := Str("899")])) == Refused(ErrorReply(400, PriceMessage))
  {
    assert Truthy(Obj(m["price" := Bool(b)])) by { assert "price" in m["price" := Bool(b)]; }
    assert Truthy(Obj(m["price" := Str("899")])) by { assert "price" in m["price" := Str("899")]; }
  }
}
