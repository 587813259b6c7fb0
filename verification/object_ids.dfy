/** MongoDB ObjectIds: 12-byte values whose `toString()` is 24 lower-case
    hexadecimal digits. The API exposes a document's `_id` only through
    this string, so the string must identify the document. */
module ObjectIds {

  function Pow16(w: nat): (p: nat)
    ensures p > 0
  {
    if w == 0 then 1 else 16 * Pow16(w - 1)
  }

  /** Number of hexadecimal digits in an ObjectId string. */
  const IdDigits: nat := 24

  type ObjectId = n: nat | n < Pow16(24)

  function HexDigit(d: nat): char
    requires d < 16
  {
    if d < 10 then ('0' as int + d) as char else ('a' as int + d - 10) as char
  }

  predicate IsHexDigit(c: char) {
    ('0' <= c <= '9') || ('a' <= c <= 'f')
  }

  function DigitValue(c: char): (d: nat)
    requires IsHexDigit(c)
    ensures d < 16 && HexDigit(d) == c
  {
    if c <= '9' then c as int - '0' as int else c as int - 'a' as int + 10
  }

  /** `n` as exactly `w` hexadecimal digits, most significant first. */
  function ToHex(n: nat, w: nat): (r: string)
    requires n < Pow16(w)
    ensures |r| == w
    ensures forall i :: 0 <= i < |r| ==> IsHexDigit(r[i])
    decreases w
  {
    if w == 0 then ""
    else
      assert n / 16 < Pow16(w - 1);
      ToHex(n / 16, w - 1) + [HexDigit(n % 16)]
  }

  /** The number a string of hexadecimal digits denotes. */
  function FromHex(s: string): nat
    requires forall i :: 0 <= i < |s| ==> IsHexDigit(s[i])
    decreases |s|
  {
    if |s| == 0 then 0 else 16 * FromHex(s[..|s| - 1]) + DigitValue(s[|s| - 1])
  }

  /** Reading back the digits gives the number. */
  lemma {:induction false} FromToHex(n: nat, w: nat)
    requires n < Pow16(w)
    ensures FromHex(ToHex(n, w)) == n
    decreases w
  {
    if w > 0 {
      var r := ToHex(n, w);
      assert n / 16 < Pow16(w - 1);
      assert r[..|r| - 1] == ToHex(n / 16, w - 1);
      FromToHex(n / 16, w - 1);
    }
  }

  /** `oid.toString()`. */
  function IdString(oid: ObjectId): (r: string)
    ensures |r| == IdDigits
    ensures forall i :: 0 <= i < |r| ==> IsHexDigit(r[i])
    ensures FromHex(r) == oid
  {
    FromToHex(oid, 24);
    ToHex(oid, 24)
  }

  /** Distinct documents have distinct id strings. */
  lemma IdStringInjective(a: ObjectId, b: ObjectId)
    requires IdString(a) == IdString(b)
    ensures a == b
  {
  }
}
