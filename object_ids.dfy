/**
 * BSON object ids as the routers use them. The model accepts exactly the
 * 24-character hexadecimal strings (in either case) and treats every other
 * text as one `ObjectId(text)` rejects with `InvalidId`; `str(oid)` gives the
 * 24 lower-case hex digits back.
 */
module ObjectIds {
  import opened Wrappers

  /** An object id, held as its canonical text: 24 lower-case hex digits. */
  datatype ObjectId = ObjectId(hex: string)

  predicate IsHexDigit(c: char) {
    ('0' <= c <= '9') || ('a' <= c <= 'f') || ('A' <= c <= 'F')
  }

  predicate IsLowerHexDigit(c: char) {
    ('0' <= c <= '9') || ('a' <= c <= 'f')
  }

  /** A hex digit in lower case. */
  function LowerHex(c: char): (r: char)
    requires IsHexDigit(c)
    ensures IsLowerHexDigit(r)
    ensures IsLowerHexDigit(c) ==> r == c
  {
    if 'A' <= c <= 'F' then (c as int - 'A' as int + 'a' as int) as char else c
  }

  /** The text `ObjectId(text)` accepts. */
  predicate IsObjectIdText(s: string) {
    |s| == 24 && forall i | 0 <= i < |s| :: IsHexDigit(s[i])
  }

  /** A well-formed object id: what `str(oid)` prints. */
  predicate IsCanonical(oid: ObjectId) {
    |oid.hex| == 24 && forall i | 0 <= i < 24 :: IsLowerHexDigit(oid.hex[i])
  }

  /** `ObjectId(text)` on 24 hex digits; `None` stands for `InvalidId` on any other text. */
  function Parse(s: string): (r: Option<ObjectId>)
    ensures r.Some? <==> IsObjectIdText(s)
    ensures r.Some? ==> IsCanonical(r.value)
  {
    if IsObjectIdText(s) then Some(ObjectId(seq(24, i requires 0 <= i < 24 => LowerHex(s[i]))))
    else None
  }

  /** Parsing is case-insensitive: texts that differ only in the case of their letters name one id. */
  lemma ParseIgnoresCase(s: string, t: string)
    requires IsObjectIdText(s) && IsObjectIdText(t)
    requires forall i | 0 <= i < 24 :: LowerHex(s[i]) == LowerHex(t[i])
    ensures Parse(s) == Parse(t)
  {
    assert Parse(s).value.hex == Parse(t).value.hex;
  }

  /** `ObjectId(str(oid)) == oid`: the printed form parses back to the same id. */
  lemma ParsePrinted(oid: ObjectId)
    requires IsCanonical(oid)
    ensures Parse(oid.hex) == Some(oid)
  {
    assert IsObjectIdText(oid.hex);
    assert Parse(oid.hex).value.hex == oid.hex;
  }
}
