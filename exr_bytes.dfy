/** Fixed-width integers, their little-endian byte encoding, the two's-complement
    reinterpretation of a 32-bit word, and the decimal rendering Rust's `{}` uses
    for an unsigned integer. */
module ExrBytes {

  type uint8 = x: int | 0 <= x < 0x100
  type uint32 = x: int | 0 <= x < 0x1_0000_0000
  type int32 = x: int | -0x8000_0000 <= x < 0x8000_0000

  /** `u32::from_le_bytes`: the first byte is the least significant. */
  function FromLe(b: seq<uint8>): (v: uint32)
    requires |b| == 4
  {
    b[0] as int + 0x100 * (b[1] as int) + 0x1_0000 * (b[2] as int) + 0x100_0000 * (b[3] as int)
  }

  /** The first byte is the least significant and the last the most significant. */
  lemma FromLeByteOrder(b: seq<uint8>)
    requires |b| == 4
    ensures FromLe(b) % 0x100 == b[0] && FromLe(b) / 0x100_0000 == b[3]
  {
  }

  /** `u32::to_le_bytes`, the encoding that FromLe undoes. */
  function ToLe(v: uint32): (b: seq<uint8>)
    ensures |b| == 4
  {
    var q1 := v / 0x100;
    var q2 := q1 / 0x100;
    [v % 0x100, q1 % 0x100, q2 % 0x100, q2 / 0x100]
  }

  lemma FromLeToLe(v: uint32)
    ensures FromLe(ToLe(v)) == v
  {
    var q1 := v / 0x100;
    var q2 := q1 / 0x100;
    assert v == v % 0x100 + 0x100 * q1;
    assert q1 == q1 % 0x100 + 0x100 * q2;
    assert q2 == q2 % 0x100 + 0x100 * (q2 / 0x100);
  }

  lemma ToLeFromLe(b: seq<uint8>)
    requires |b| == 4
    ensures ToLe(FromLe(b)) == b
  {
    var v := FromLe(b);
    assert v / 0x100 == b[1] as int + 0x100 * (b[2] as int) + 0x1_0000 * (b[3] as int);
    assert v / 0x100 / 0x100 == b[2] as int + 0x100 * (b[3] as int);
  }

  /** `u as i32`: the int32 with the same bit pattern as the 32-bit word `u`,
      i.e. the one congruent to `u` modulo 2^32. */
  function AsInt32(u: uint32): (i: int32)
    ensures i % 0x1_0000_0000 == u
    ensures i < 0 <==> u >= 0x8000_0000
  {
    if u < 0x8000_0000 then u else u - 0x1_0000_0000
  }

  /** `i as u32`, the inverse reinterpretation. */
  function AsUint32(i: int32): (u: uint32)
    ensures u % 0x1_0000_0000 == i % 0x1_0000_0000
  {
    if i >= 0 then i else i + 0x1_0000_0000
  }

  lemma AsInt32Bijective(u: uint32, i: int32)
    ensures AsUint32(AsInt32(u)) == u
    ensures AsInt32(AsUint32(i)) == i
  {
  }

  /** The decimal digit character for `d`. */
  function DigitChar(d: nat): char
    requires d < 10
  {
    "0123456789"[d]
  }

  predicate IsDigitChar(c: char)
  {
    '0' <= c <= '9'
  }

  function DigitValue(c: char): (d: nat)
    requires IsDigitChar(c)
    ensures d < 10 && DigitChar(d) == c
  {
    c as int - '0' as int
  }

  /** `format!("{}", n)` for an unsigned integer: no sign, no leading zeros. */
  function Decimal(n: nat): (s: string)
    ensures 0 < |s|
    ensures forall i :: 0 <= i < |s| ==> IsDigitChar(s[i])
    decreases n
  {
    if n < 10 then [DigitChar(n)] else Decimal(n / 10) + [DigitChar(n % 10)]
  }

  /** The number a string of decimal digits denotes. */
  function DecimalValue(s: string): nat
    requires forall i :: 0 <= i < |s| ==> IsDigitChar(s[i])
  {
    if s == [] then 0
    else 10 * DecimalValue(s[..|s| - 1]) + DigitValue(s[|s| - 1])
  }

  lemma {:induction false} DecimalRoundTrip(n: nat)
    ensures DecimalValue(Decimal(n)) == n
    decreases n
  {
    if n >= 10 {
      var s := Decimal(n);
      var init := Decimal(n / 10);
      DecimalRoundTrip(n / 10);
      assert s == init + [DigitChar(n % 10)];
      assert s[..|s| - 1] == init;
      assert DigitValue(s[|s| - 1]) == n % 10;
    }
  }

  /** A decimal rendering determines the number: different numbers print differently. */
  lemma DecimalInjective(m: nat, n: nat)
    requires Decimal(m) == Decimal(n)
    ensures m == n
  {
    DecimalRoundTrip(m);
    DecimalRoundTrip(n);
  }
}
