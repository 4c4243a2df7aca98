/** What the handlers use of MongoDB through Mongoose: ObjectId casting, the
    errors a query can throw, and `findOne`'s "first match in natural order". */
module Db {
  import opened Js

  predicate IsHexChar(c: char) {
    '0' <= c <= '9' || 'a' <= c <= 'f' || 'A' <= c <= 'F'
  }

  predicate IsLowerHexChar(c: char) {
    '0' <= c <= '9' || 'a' <= c <= 'f'
  }

  /** An ObjectId in its canonical text form: 24 lower-case hex digits. */
  type ObjectId = s: string | |s| == 24 && forall i :: 0 <= i < |s| ==> IsLowerHexChar(s[i])
    witness "000000000000000000000000"

  predicate IsHexText(s: string) {
    |s| == 24 && forall i :: 0 <= i < 24 ==> IsHexChar(s[i])
  }

  /** Casting a query value to an ObjectId: a string of 24 hex digits in
      either case names the id it spells; anything else is a CastError. */
  function CastObjectId(v: Value): (r: Option<ObjectId>)
    ensures r.Some? <==> v.Str? && IsHexText(v.s)
    ensures r.Some? ==> SameIgnoringCase(r.value, v.s)
  {
    if v.Str? && IsHexText(v.s) then
      var text := Lower(v.s);
      assert forall i :: 0 <= i < |text| ==> IsLowerHexChar(text[i]) by {
        forall i | 0 <= i < |text| ensures IsLowerHexChar(text[i]) {
          assert text[i] == LowerChar(v.s[i]);
        }
      }
      LowerFacts(v.s);
      var id: ObjectId := text;
      Some(id)
    else None
  }

  /** The text of a stored id casts back to that same id. */
  lemma CastCanonical(id: ObjectId)
    ensures CastObjectId(Str(id)) == Some(id)
  {
    assert Lower(id) == id;
  }

  /** A thrown error, as `errorHandler` reads it: `status`, `message`,
      `code` and `details` are all optional. An empty message is no message. */
  datatype Fault = Fault(status: Option<int>, message: string, code: Value, details: Value)

  /** Mongoose's CastError: the value is not an ObjectId. */
  const CastError := Fault(None, "Cast to ObjectId failed", Undefined, Undefined)

  /** Mongoose's ValidationError for a document of `model`. */
  function ValidationError(model: string): Fault {
    Fault(None, model + " validation failed", Undefined, Undefined)
  }

  /** The driver's duplicate-key error, raised by a unique index. */
  const DuplicateKey := Fault(None, "E11000 duplicate key error", Num(11000), Undefined)

  /** The TypeError of calling a method a value does not have. */
  function NotAFunction(call: string): Fault {
    Fault(None, call + " is not a function", Undefined, Undefined)
  }

  /** What an awaited query gives: its value, or the error it threw. */
  datatype Outcome<T> = Done(value: T) | Threw(fault: Fault)

  /** `err.code === 11000` */
  predicate IsDuplicateKey(f: Fault) {
    f.code == Num(11000)
  }

  /** The index of the first element that `matches` accepts, as `findOne`
      returns the first match in the collection's natural order. */
  function FindFirst<T>(s: seq<T>, matches: T -> bool): (r: Option<nat>)
    ensures r.Some? ==> r.value < |s| && matches(s[r.value])
    ensures r.Some? ==> forall i :: 0 <= i < r.value ==> !matches(s[i])
    ensures r.None? <==> forall i :: 0 <= i < |s| ==> !matches(s[i])
  {
    if s == [] then None
    else if matches(s[0]) then Some(0)
    else
      match FindFirst(s[1..], matches)
      case None => None
      case Some(k) => Some(k + 1)
  }
}
