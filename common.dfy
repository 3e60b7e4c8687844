/** Small shared vocabulary: bytes, optional values, big-endian integers and text helpers. */
module Common {

  /** An octet on the wire. */
  type Byte = b: int | 0 <= b < 256

  datatype Option<T> = None | Some(value: T)

  const TWO_TO_32: int := 0x1_0000_0000

  /** The four bytes of `n` in network byte order. */
  function Uint32ToBytes(n: int): (r: seq<Byte>)
    requires 0 <= n < TWO_TO_32
    ensures |r| == 4
  {
    var m1 := n / 0x100;
    var m2 := m1 / 0x100;
    [m2 / 0x100, m2 % 0x100, m1 % 0x100, n % 0x100]
  }

  /** The unsigned 32-bit integer stored in network byte order at `s[i..i+4]`. */
  function Uint32At(s: seq<Byte>, i: nat): (n: int)
    requires i + 4 <= |s|
    ensures 0 <= n < TWO_TO_32
  {
    (s[i] as int) * 0x100_0000 + (s[i + 1] as int) * 0x1_0000 + (s[i + 2] as int) * 0x100 + (s[i + 3] as int)
  }

  lemma Uint32RoundTrip(n: int)
    requires 0 <= n < TWO_TO_32
    ensures Uint32At(Uint32ToBytes(n), 0) == n
  {
    var m1 := n / 0x100;
    var m2 := m1 / 0x100;
    assert n == m1 * 0x100 + n % 0x100;
    assert m1 == m2 * 0x100 + m1 % 0x100;
    assert m2 == (m2 / 0x100) * 0x100 + m2 % 0x100;
  }

  /** Four bytes written by Uint32ToBytes read back as the same number, wherever they sit. */
  lemma Uint32AtBytes(s: seq<Byte>, i: nat, n: int)
    requires 0 <= n < TWO_TO_32 && i + 4 <= |s| && s[i..i + 4] == Uint32ToBytes(n)
    ensures Uint32At(s, i) == n
  {
    var b := Uint32ToBytes(n);
    assert s[i] == b[0] && s[i + 1] == b[1] && s[i + 2] == b[2] && s[i + 3] == b[3];
    Uint32RoundTrip(n);
  }

  lemma Assoc<T>(a: seq<T>, b: seq<T>, c: seq<T>)
    ensures a + b + c == a + (b + c)
  {
  }

  /** Concatenation of `parts`, with `sep` between neighbours. */
  function Join(parts: seq<string>, sep: string): (r: string)
  {
    if |parts| == 0 then ""
    else if |parts| == 1 then parts[0]
    else Join(parts[..|parts| - 1], sep) + sep + parts[|parts| - 1]
  }

  /** True when `pat` occurs in `s` starting at position `i`. */
  predicate OccursAt(s: string, pat: string, i: nat)
  {
    i + |pat| <= |s| && s[i..i + |pat|] == pat
  }

  predicate Contains(s: string, pat: string)
  {
    exists i: nat | i <= |s| :: OccursAt(s, pat, i)
  }

  /** The number a string of decimal digits denotes, most significant digit first. */
  function DecimalValue(s: string): nat
    requires forall k :: 0 <= k < |s| ==> '0' <= s[k] <= '9'
  {
    if s == [] then 0
    else DecimalValue(s[..|s| - 1]) * 10 + (s[|s| - 1] as int - '0' as int)
  }

  /**
   * Decimal text of a natural number, as std::to_string writes it: digits only, denoting
   * `n`, with no leading zero.
   */
  function NatToString(n: nat): (r: string)
    ensures |r| > 0
    ensures forall k :: 0 <= k < |r| ==> '0' <= r[k] <= '9'
    ensures DecimalValue(r) == n
    ensures r[0] == '0' <==> n == 0
    decreases n
  {
    if n < 10 then [DigitChar(n)]
    else
      var prefix := NatToString(n / 10);
      var r := prefix + [DigitChar(n % 10)];
      assert r[..|r| - 1] == prefix;
      r
  }

  function DigitChar(d: nat): (c: char)
    requires d < 10
    ensures '0' <= c <= '9'
    ensures c as int - '0' as int == d
  {
    ['0', '1', '2', '3', '4', '5', '6', '7', '8', '9'][d]
  }

  /** Decimal text of a signed integer, with a leading '-' for negatives. */
  function IntToString(n: int): (r: string)
    ensures |r| > 0
  {
    if n < 0 then "-" + NatToString(-n) else NatToString(n)
  }
}
