/**
 * The Go machine types the jail package works with: bytes, fixed-width
 * integers, strings seen as byte sequences, and the little-endian byte
 * layout of integers on the 64-bit FreeBSD targets the package binds to.
 */
module GoTypes {

  type byte = x: int | 0 <= x < 0x100
  type int8 = x: int | -0x80 <= x < 0x80
  type int16 = x: int | -0x8000 <= x < 0x8000
  type int32 = x: int | -0x8000_0000 <= x < 0x8000_0000
  type int64 = x: int | -0x8000_0000_0000_0000 <= x < 0x8000_0000_0000_0000
  type uint32 = x: int | 0 <= x < 0x1_0000_0000
  type uint64 = x: int | 0 <= x < 0x1_0000_0000_0000_0000

  /** A Go string is a sequence of bytes; here each byte is one character below 256. */
  predicate IsByteString(s: string) {
    forall i | 0 <= i < |s| :: s[i] as int < 0x100
  }

  /**
   * A Go string. Characters stand for bytes; every string the package
   * builds satisfies IsByteString, and a character beyond a byte is taken
   * modulo 256.
   */
  type GoString = string

  /** The conversion []byte(s). */
  function ToBytes(s: GoString): (b: seq<byte>)
    ensures |b| == |s|
    ensures forall i | 0 <= i < |s| :: b[i] == s[i] as int % 0x100
  {
    seq(|s|, i requires 0 <= i < |s| => s[i] as int % 0x100)
  }

  /** The conversion string(b); it inverts ToBytes. */
  function FromBytes(b: seq<byte>): (s: GoString)
    ensures IsByteString(s) && ToBytes(s) == b
  {
    seq(|b|, i requires 0 <= i < |b| => b[i] as char)
  }

  lemma FromToBytes(s: GoString)
    requires IsByteString(s)
    ensures FromBytes(ToBytes(s)) == s
  {
  }

  /** The conversion int32(x) of Go: keep the low 32 bits, read them as signed. */
  function Int32Of(x: int): (r: int32)
    ensures (x - r) % 0x1_0000_0000 == 0
    ensures -0x8000_0000 <= x < 0x8000_0000 ==> r == x
  {
    var u := x % 0x1_0000_0000;
    if u < 0x8000_0000 then u else u - 0x1_0000_0000
  }

  /** The conversion uintptr(x) of a signed value: two's complement in 64 bits. */
  function Word(x: int64): (w: uint64)
    ensures (w - x) % 0x1_0000_0000_0000_0000 == 0
  {
    if x < 0 then x + 0x1_0000_0000_0000_0000 else x
  }

  /** Converting an int32 to a machine word and back to int32 is the identity. */
  lemma Int32OfWord(x: int32)
    ensures Int32Of(Word(x)) == x
  {
    if x < 0 {
      assert Word(x) == x + 0x1_0000_0000_0000_0000;
      assert Word(x) % 0x1_0000_0000 == x + 0x1_0000_0000;
    }
  }

  function Pow256(w: nat): (r: nat)
    ensures r > 0
  {
    if w == 0 then 1 else 0x100 * Pow256(w - 1)
  }

  /** The ranges of the Go integer widths used by the package. */
  lemma Pow256Widths()
    ensures Pow256(1) == 0x100 && Pow256(2) == 0x1_0000
    ensures Pow256(4) == 0x1_0000_0000 && Pow256(8) == 0x1_0000_0000_0000_0000
  {
  }

  /** The w low bytes of n, least significant first. */
  function ToLE(n: nat, w: nat): (b: seq<byte>)
    ensures |b| == w
  {
    if w == 0 then [] else [n % 0x100] + ToLE(n / 0x100, w - 1)
  }

  /** The number whose little-endian bytes are b (binary.LittleEndian). */
  function FromLE(b: seq<byte>): (n: nat)
    ensures n < Pow256(|b|)
  {
    if b == [] then 0 else b[0] + 0x100 * FromLE(b[1..])
  }

  lemma {:induction false} FromLEToLE(n: nat, w: nat)
    requires n < Pow256(w)
    ensures FromLE(ToLE(n, w)) == n
  {
    if w > 0 {
      FromLEToLE(n / 0x100, w - 1);
    }
  }

  lemma {:induction false} ToLEFromLE(b: seq<byte>)
    ensures ToLE(FromLE(b), |b|) == b
  {
    if b != [] {
      var n := FromLE(b);
      assert n == b[0] + 0x100 * FromLE(b[1..]);
      assert n % 0x100 == b[0];
      assert n / 0x100 == FromLE(b[1..]);
      ToLEFromLE(b[1..]);
    }
  }

  /** Whether x fits a signed integer of w bytes. */
  predicate FitsSigned(x: int, w: nat) {
    -(Pow256(w) / 2) <= x < Pow256(w) / 2
  }

  /** The w-byte two's complement representation of x, little-endian. */
  function SignedToLE(x: int, w: nat): (b: seq<byte>)
    requires FitsSigned(x, w)
    ensures |b| == w
  {
    ToLE(if x < 0 then x + Pow256(w) else x, w)
  }

  /** A power of 256 above 1 halves exactly. */
  lemma Pow256Halves(w: nat)
    requires w > 0
    ensures Pow256(w) == 2 * (Pow256(w) / 2)
  {
    assert Pow256(w) == 2 * (0x80 * Pow256(w - 1));
  }

  /** The signed number whose two's complement little-endian bytes are b. */
  function SignedFromLE(b: seq<byte>): (x: int)
    requires |b| > 0
    ensures FitsSigned(x, |b|)
  {
    var u, p := FromLE(b), Pow256(|b|);
    Pow256Halves(|b|);
    if u < p / 2 then u else u - p
  }

  lemma SignedRoundTrip(x: int, w: nat)
    requires w > 0 && FitsSigned(x, w)
    ensures SignedFromLE(SignedToLE(x, w)) == x
  {
    var u := if x < 0 then x + Pow256(w) else x;
    FromLEToLE(u, w);
  }
}
