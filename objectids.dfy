/** The identifiers the document store assigns: 12-byte object identifiers,
    written as 24 hexadecimal digits. A path segment is turned into one by
    parsing; an identifier is turned back into text with str(). */
module ObjectIds {
  import opened Ascii
  import opened Wrappers

  predicate IsHexDigit(c: char) {
    '0' <= c <= '9' || 'a' <= c <= 'f' || 'A' <= c <= 'F'
  }

  predicate IsLowerHexDigit(c: char) {
    '0' <= c <= '9' || 'a' <= c <= 'f'
  }

  /** The text of an object identifier. */
  datatype IdText = IdText(hex: string)

  /** The text str() gives an identifier: 24 lower-case hexadecimal digits. */
  predicate Canonical(o: IdText) {
    |o.hex| == 24 && forall i :: 0 <= i < 24 ==> IsLowerHexDigit(o.hex[i])
  }

  /** An object identifier: 12 bytes, so its text is always canonical. */
  type ObjectId = o: IdText | Canonical(o) witness IdText("000000000000000000000000")

  /** The strings the model accepts as identifiers: exactly 24 hexadecimal
      digits of either case. */
  predicate WellFormed(s: string) {
    |s| == 24 && forall i :: 0 <= i < 24 ==> IsHexDigit(s[i])
  }

  /** The identifier parse of a path segment (app.py:100); None stands for
      the InvalidId exception. */
  function Parse(s: string): (r: Option<ObjectId>)
    ensures r.Some? <==> WellFormed(s)
    ensures r.Some? ==> EqualIgnoringCase(r.value.hex, s)
  {
    if WellFormed(s) then
      ToLowerIdempotent(s);
      Some(IdText(ToLower(s)))
    else None
  }

  /** str(oid). */
  function ToText(o: ObjectId): string {
    o.hex
  }

  /** Parsing the text of an identifier gives the identifier back. */
  lemma ParseToText(o: ObjectId)
    ensures Parse(ToText(o)) == Some(o)
  {
    assert WellFormed(o.hex);
    assert ToLower(o.hex) == o.hex;
  }

  /** Parsing does not depend on the case of the hexadecimal digits: the
      upper- and lower-case spellings of a well-formed identifier name the
      same object. */
  lemma ParseIgnoresCase(s: string)
    ensures Parse(ToLower(s)) == Parse(s)
  {
    var t := ToLower(s);
    assert WellFormed(s) <==> WellFormed(t) by {
      if WellFormed(s) {
        assert forall i :: 0 <= i < 24 ==> IsHexDigit(t[i]);
      }
      if WellFormed(t) {
        forall i | 0 <= i < 24 ensures IsHexDigit(s[i]) {
          assert t[i] == LowerChar(s[i]);
        }
      }
    }
    ToLowerIdempotent(s);
  }

  /** A literal that is not hexadecimal is rejected. */
  lemma NotAnIdIsRejected()
    ensures Parse("not-an-id") == None
    ensures Parse("zzzzzzzzzzzzzzzzzzzzzzzz") == None
  {
    assert !IsHexDigit("zzzzzzzzzzzzzzzzzzzzzzzz"[0]);
  }
}
