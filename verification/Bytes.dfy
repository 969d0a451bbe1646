/** Big-endian integers as Python's struct module lays them out, and the UTF-8 grammar. */
module Bytes {
  import opened Prelude

  const TWO_16 := 0x1_0000
  const TWO_32 := 0x1_0000_0000
  const TWO_64 := 0x1_0000_0000_0000_0000

  function Power256(width: nat): (p: nat)
    ensures p > 0
  {
    if width == 0 then 1 else 256 * Power256(width - 1)
  }

  lemma Powers()
    ensures Power256(1) == 256 && Power256(2) == TWO_16 && Power256(4) == TWO_32 && Power256(8) == TWO_64
  {
    assert Power256(3) == 0x100_0000;
    assert Power256(6) == 0x1_0000_0000_0000;
  }

  /** The last `width` base-256 digits of n, most significant first. */
  function BigEndian(n: nat, width: nat): (bs: seq<byte>)
    ensures |bs| == width
  {
    if width == 0 then [] else BigEndian(n / 256, width - 1) + [n % 256]
  }

  function FromBigEndian(bs: seq<byte>): nat {
    if bs == [] then 0 else FromBigEndian(bs[..|bs| - 1]) * 256 + bs[|bs| - 1]
  }

  lemma {:induction false} DecodeEncode(n: nat, width: nat)
    requires n < Power256(width)
    ensures FromBigEndian(BigEndian(n, width)) == n
  {
    if width == 0 {
    } else {
      assert n / 256 < Power256(width - 1);
      DecodeEncode(n / 256, width - 1);
      assert BigEndian(n, width)[..width - 1] == BigEndian(n / 256, width - 1);
    }
  }

  lemma {:induction false} EncodeDecode(bs: seq<byte>)
    ensures FromBigEndian(bs) < Power256(|bs|)
    ensures BigEndian(FromBigEndian(bs), |bs|) == bs
  {
    if bs == [] {
    } else {
      var n := |bs| - 1;
      EncodeDecode(bs[..n]);
      assert FromBigEndian(bs) / 256 == FromBigEndian(bs[..n]) && FromBigEndian(bs) % 256 == bs[n];
    }
  }

  // ---------------------------------------------------------------- the layout of a field

  lemma DivideTwice(n: nat, a: nat, b: nat)
    requires a > 0 && b > 0
    ensures 0 < a * b && n / (a * b) == n / a / b
  {
    var k := n / a;
    var q := k / b;
    QuotientParts(n, a);
    QuotientParts(k, b);
    MixedRadix(n, a, b, q, n % a, k % b);
  }

  lemma QuotientParts(n: nat, a: nat)
    requires a > 0
    ensures n == a * (n / a) + n % a
  {
  }

  lemma MixedRadix(n: nat, a: nat, b: nat, q: nat, x: nat, y: nat)
    requires x < a && y < b && n == a * (b * q + y) + x
    ensures 0 < a * b && n / (a * b) == q
  {
    Remainder(a, b, x, y);
    Regroup(a, b, q, x, y);
    DivisionIsUnique(n, a * b, q, x + a * y);
  }

  lemma Regroup(a: nat, b: nat, q: nat, x: nat, y: nat)
    ensures a * (b * q + y) + x == (a * b) * q + (x + a * y)
  {
  }

  lemma Remainder(a: nat, b: nat, x: nat, y: nat)
    requires x < a && y < b
    ensures 0 < a * b && x + a * y < a * b
  {
    Grows(a, y + 1, b);
    assert a * (y + 1) == a * y + a;
  }

  lemma Grows(a: nat, x: nat, y: nat)
    requires x <= y
    ensures a * x <= a * y
  {
  }

  /** Digit by digit, the most significant first. */
  lemma {:induction false} BigEndianDigits(n: nat, width: nat, i: nat)
    requires i < width
    ensures BigEndian(n, width)[i] == n / Power256(width - 1 - i) % 256
  {
    if i == width - 1 {
    } else {
      BigEndianDigits(n / 256, width - 1, i);
      DivideTwice(n, 256, Power256(width - 2 - i));
    }
  }

  /** The sum of the digits, each times its place value. */
  function PlaceValues(bs: seq<byte>): nat {
    if bs == [] then 0 else bs[0] * Power256(|bs| - 1) + PlaceValues(bs[1..])
  }

  lemma {:induction false} PlaceValuesAppend(bs: seq<byte>, b: byte)
    ensures PlaceValues(bs + [b]) == 256 * PlaceValues(bs) + b
  {
    if bs == [] {
      assert [b][1..] == [];
    } else {
      assert (bs + [b])[1..] == bs[1..] + [b];
      PlaceValuesAppend(bs[1..], b);
      assert bs[0] * Power256(|bs|) == 256 * (bs[0] * Power256(|bs| - 1));
    }
  }

  lemma {:induction false} FromBigEndianSums(bs: seq<byte>)
    ensures FromBigEndian(bs) == PlaceValues(bs)
  {
    if bs == [] {
    } else {
      var n := |bs| - 1;
      FromBigEndianSums(bs[..n]);
      PlaceValuesAppend(bs[..n], bs[n]);
      assert bs == bs[..n] + [bs[n]];
    }
  }

  /** The bytes are the base-256 digits of `n`, the most significant first. */
  ghost predicate AreDigits(bs: seq<byte>, n: nat) {
    forall i :: 0 <= i < |bs| ==> bs[i] == n / Power256(|bs| - 1 - i) % 256
  }

  lemma BigEndianIsDigits(n: nat, width: nat)
    ensures AreDigits(BigEndian(n, width), n)
  {
    forall i | 0 <= i < width ensures BigEndian(n, width)[i] == n / Power256(width - 1 - i) % 256 {
      BigEndianDigits(n, width, i);
    }
  }

  /** Two's complement of a signed integer in a field of the given size. */
  function ToUnsigned(n: int, modulus: nat): nat
    requires modulus > 0 && -(modulus as int) <= n < modulus
  {
    if n < 0 then n + modulus else n
  }

  function ToSigned(n: nat, modulus: nat): int {
    if n < modulus / 2 then n else n - modulus
  }

  predicate FitsSigned(n: int, modulus: nat) {
    -((modulus / 2) as int) <= n < modulus / 2
  }

  /** A signed field holds the number modulo its size, and stands for the one in range that is congruent. */
  lemma TwosComplement(n: int, modulus: nat)
    requires modulus > 0 && FitsSigned(n, modulus)
    ensures ToUnsigned(n, modulus) == n % modulus
    ensures modulus % 2 == 0 ==> ToSigned(n % modulus, modulus) == n
  {
    if n < 0 {
      RemainderShifts(n, modulus);
    }
  }

  lemma SmallRemainder(n: nat, modulus: nat)
    requires n < modulus
    ensures n % modulus == n
  {
  }

  lemma SignedIsCongruent(n: nat, modulus: nat)
    requires n < modulus && modulus % 2 == 0
    ensures FitsSigned(ToSigned(n, modulus), modulus) && ToSigned(n, modulus) % modulus == n
  {
    var half := modulus / 2;
    assert modulus == half + half;
    if n < half {
      SmallRemainder(n, modulus);
      assert ToSigned(n, modulus) == n;
    } else {
      RemainderShifts(n - modulus, modulus);
      assert ToSigned(n, modulus) == n - modulus;
    }
  }

  lemma RemainderShifts(n: int, modulus: nat)
    requires -(modulus as int) <= n < 0
    ensures n % modulus == n + modulus
  {
    var q, r := n / modulus, n % modulus;
    assert n == modulus * q + r;
    ScaledBound(modulus, q + 1);
    assert modulus * (q + 1) == modulus * q + modulus;
  }

  /** The UTF-8 octet sequences of section 4 of RFC 3629: shortest forms only, no surrogates, nothing above U+10FFFF. */
  predicate ValidUtf8(bs: seq<byte>) {
    bs == [] || exists n :: 1 <= n <= 4 && n <= |bs| && CharUtf8(bs[..n]) && ValidUtf8(bs[n..])
  }

  predicate Continuation(b: byte) { 0x80 <= b <= 0xBF }

  predicate CharUtf8(c: seq<byte>) {
    match |c|
    case 1 => c[0] <= 0x7F
    case 2 => 0xC2 <= c[0] <= 0xDF && Continuation(c[1])
    case 3 => Continuation(c[2]) &&
              ((c[0] == 0xE0 && 0xA0 <= c[1] <= 0xBF) || (0xE1 <= c[0] <= 0xEC && Continuation(c[1])) ||
               (c[0] == 0xED && 0x80 <= c[1] <= 0x9F) || (0xEE <= c[0] <= 0xEF && Continuation(c[1])))
    case 4 => Continuation(c[2]) && Continuation(c[3]) &&
              ((c[0] == 0xF0 && 0x90 <= c[1] <= 0xBF) || (0xF1 <= c[0] <= 0xF3 && Continuation(c[1])) ||
               (c[0] == 0xF4 && 0x80 <= c[1] <= 0x8F))
    case _ => false
  }

  // ---------------------------------------------------------------- text as code points

  /** A Unicode scalar value: a code point that is not a surrogate. */
  type Scalar = u: int | 0 <= u <= 0x10FFFF && !(0xD800 <= u <= 0xDFFF)

  /** The encoding of section 3 of RFC 3629: six bits to each continuation octet. */
  function Utf8Of(u: Scalar): seq<byte> {
    if u < 0x80 then [u]
    else if u < 0x800 then [0xC0 + u / 64, 0x80 + u % 64]
    else if u < 0x1_0000 then [0xE0 + u / 4096, 0x80 + u / 64 % 64, 0x80 + u % 64]
    else [0xF0 + u / 262144, 0x80 + u / 4096 % 64, 0x80 + u / 64 % 64, 0x80 + u % 64]
  }

  function Encoded(us: seq<Scalar>): seq<byte> {
    if us == [] then [] else Utf8Of(us[0]) + Encoded(us[1..])
  }

  lemma EncodingIsChar(u: Scalar)
    ensures 1 <= |Utf8Of(u)| <= 4 && CharUtf8(Utf8Of(u))
  {
  }

  lemma SixBits(k: nat, x: nat)
    requires x < 64
    ensures (k * 64 + x) / 64 == k && (k * 64 + x) % 64 == x
  {
  }

  lemma TwoOctets(k: nat, x: nat) returns (u: Scalar)
    requires 2 <= k < 32 && x < 64
    ensures Utf8Of(u) == [0xC0 + k, 0x80 + x]
  {
    u := k * 64 + x;
    SixBits(k, x);
  }

  lemma ThreeOctets(k: nat, x: nat, y: nat) returns (u: Scalar)
    requires k < 16 && x < 64 && y < 64 && (k == 0 ==> x >= 32) && (k == 13 ==> x < 32)
    ensures Utf8Of(u) == [0xE0 + k, 0x80 + x, 0x80 + y]
  {
    var high := k * 64 + x;
    u := high * 64 + y;
    SixBits(k, x);
    SixBits(high, y);
    DivideTwice(u, 64, 64);
    assert 0x800 <= u < 0x1_0000;
  }

  lemma FourOctets(k: nat, x: nat, y: nat, z: nat) returns (u: Scalar)
    requires k < 5 && x < 64 && y < 64 && z < 64 && (k == 0 ==> x >= 16) && (k == 4 ==> x < 16)
    ensures Utf8Of(u) == [0xF0 + k, 0x80 + x, 0x80 + y, 0x80 + z]
  {
    var top := k * 64 + x;
    var high := top * 64 + y;
    u := high * 64 + z;
    SixBits(k, x);
    SixBits(top, y);
    SixBits(high, z);
    DivideTwice(u, 64, 64);
    DivideTwice(u, 4096, 64);
    assert 0x1_0000 <= u;
  }

  /** The scalar value that an octet sequence of the grammar stands for. */
  lemma CharIsEncoding(c: seq<byte>) returns (u: Scalar)
    requires CharUtf8(c)
    ensures c == Utf8Of(u)
  {
    if |c| == 1 {
      u := c[0];
    } else {
      hide Utf8Of;
      var x: int := c[1] - 0x80;
      if |c| == 2 {
        u := TwoOctets(c[0] - 0xC0, x);
      } else if |c| == 3 {
        u := ThreeOctets(c[0] - 0xE0, x, c[2] - 0x80);
      } else {
        u := FourOctets(c[0] - 0xF0, x, c[2] - 0x80, c[3] - 0x80);
      }
    }
  }

  lemma {:induction false} EncodedIsValid(us: seq<Scalar>)
    ensures ValidUtf8(Encoded(us))
  {
    if us == [] {
    } else {
      var head, bs := Utf8Of(us[0]), Encoded(us);
      EncodedIsValid(us[1..]);
      EncodingIsChar(us[0]);
      assert bs[..|head|] == head && bs[|head|..] == Encoded(us[1..]);
    }
  }

  lemma EncodedHead(u: Scalar, rest: seq<Scalar>)
    ensures Encoded([u] + rest) == Utf8Of(u) + Encoded(rest)
  {
    assert ([u] + rest)[1..] == rest;
    hide Utf8Of;
  }

  lemma FirstChar(bs: seq<byte>) returns (n: nat)
    requires ValidUtf8(bs) && bs != []
    ensures 1 <= n <= |bs| && CharUtf8(bs[..n]) && ValidUtf8(bs[n..])
  {
    n :| 1 <= n <= 4 && n <= |bs| && CharUtf8(bs[..n]) && ValidUtf8(bs[n..]);
  }

  lemma {:induction false} ValidIsEncoded(bs: seq<byte>) returns (us: seq<Scalar>)
    requires ValidUtf8(bs)
    ensures bs == Encoded(us)
    decreases |bs|
  {
    hide *;
    if bs == [] {
      us := [];
      NothingEncoded();
    } else {
      var n := FirstChar(bs);
      var head, tail := bs[..n], bs[n..];
      assert bs == head + tail;
      var u := CharIsEncoding(head);
      var rest := ValidIsEncoded(tail);
      us := [u] + rest;
      EncodedHead(u, rest);
    }
  }

  lemma NothingEncoded()
    ensures Encoded([]) == []
  {
  }

  /** The grammar accepts exactly the encodings of sequences of scalar values. */
  lemma ValidUtf8Iff(bs: seq<byte>)
    ensures ValidUtf8(bs) <==> exists us: seq<Scalar> :: bs == Encoded(us)
  {
    hide ValidUtf8, Encoded;
    if ValidUtf8(bs) {
      var us := ValidIsEncoded(bs);
    }
    if us: seq<Scalar> :| bs == Encoded(us) {
      EncodedIsValid(us);
    }
  }
}
