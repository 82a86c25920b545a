/** encoding/hex: lower-case hexadecimal encoding of bytes. */
module Hex {

  type Byte = b: int | 0 <= b < 256

  predicate IsLowerHex(c: char) {
    '0' <= c <= '9' || 'a' <= c <= 'f'
  }

  /** The hex digit of a value below 16. */
  function Digit(n: int): (c: char)
    requires 0 <= n < 16
    ensures IsLowerHex(c)
    ensures n < 10 ==> c as int == '0' as int + n
    ensures n >= 10 ==> c as int == 'a' as int + (n - 10)
  {
    if n < 10 then ('0' as int + n) as char else ('a' as int + n - 10) as char
  }

  /** hex.EncodeToString: two lower-case digits per byte, high nibble first. */
  function EncodeToString(b: seq<Byte>): (r: string)
    ensures |r| == 2 * |b|
    ensures forall i :: 0 <= i < |r| ==> IsLowerHex(r[i])
    ensures forall i :: 0 <= i < |b| ==> r[2 * i] == Digit(b[i] / 16) && r[2 * i + 1] == Digit(b[i] % 16)
  {
    if b == [] then "" else [Digit(b[0] / 16), Digit(b[0] % 16)] + EncodeToString(b[1..])
  }

  /** Bytes 0x1f and 0xa0 encode as "1fa0". */
  lemma EncodeExample()
    ensures EncodeToString([0x1f, 0xa0]) == "1fa0"
  {
  }

  /** Distinct byte strings have distinct encodings. */
  lemma {:induction false} EncodeInjective(a: seq<Byte>, b: seq<Byte>)
    requires EncodeToString(a) == EncodeToString(b)
    ensures a == b
  {
    if a != [] {
      var ea, eb := EncodeToString(a), EncodeToString(b);
      assert ea[0] == eb[0] && ea[1] == eb[1];
      assert a[0] / 16 == b[0] / 16 && a[0] % 16 == b[0] % 16;
      assert ea[2..] == eb[2..];
      EncodeInjective(a[1..], b[1..]);
      assert a == [a[0]] + a[1..];
      assert b == [b[0]] + b[1..];
    }
  }
}
