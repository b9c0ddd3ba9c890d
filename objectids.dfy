/**
 * Identifiers of stored documents. An ObjectId is represented by its canonical
 * text: 24 lower-case hexadecimal digits. Casting a request string to an ObjectId
 * (what Mongoose does to `_id`, `userId` and `findById` arguments) accepts 24 hex
 * digits in either case and fails otherwise.
 */
module ObjectIds {
  import opened Wrappers
  import Text

  const IdLength := 24

  predicate IsHexDigit(c: char)
  {
    ('0' <= c <= '9') || ('a' <= c <= 'f') || ('A' <= c <= 'F')
  }

  /** The canonical text of an ObjectId. */
  predicate IsObjectId(s: string)
  {
    |s| == IdLength && forall k :: 0 <= k < |s| ==> ('0' <= s[k] <= '9') || ('a' <= s[k] <= 'f')
  }

  /** Cast of a string to an ObjectId: `Some` of the canonical text exactly when the
      string is 24 hexadecimal digits; equal ObjectIds compare equal whatever the case
      of the digits they were written with. */
  function CastObjectId(s: string): (r: Option<string>)
    ensures r.Some? <==> (|s| == IdLength && forall k :: 0 <= k < |s| ==> IsHexDigit(s[k]))
    ensures r.Some? ==> IsObjectId(r.value) && r.value == Text.AsciiLower(s)
    ensures IsObjectId(s) ==> r == Some(s)
  {
    if |s| == IdLength && forall k :: 0 <= k < |s| ==> IsHexDigit(s[k]) then
      var low := Text.AsciiLower(s);
      assert IsObjectId(s) ==> low == s;
      Some(low)
    else
      None
  }
}
