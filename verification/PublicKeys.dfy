// Strict Ed25519 public key validation (pkg/signing/validate.go).
module PublicKeys {
  import opened Wrappers

  newtype byte = x: int | 0 <= x < 256

  datatype KeyError = InvalidKeyLength | InvalidHex | ZeroKey | NonCanonicalPoint

  function Pow256(n: nat): (r: nat)
    ensures r >= 1
  {
    if n == 0 then 1 else 256 * Pow256(n - 1)
  }

  // The little-endian value of a byte string.
  function Value(b: seq<byte>): (v: nat)
    ensures v < Pow256(|b|)
  {
    if b == [] then 0 else b[0] as nat + 256 * Value(b[1..])
  }

  // 2^255, and the field prime 2^255 - 19 (section 5.1.3 of RFC 8032).
  function TopBit(): nat {
    128 * Pow256(31)
  }

  function FieldPrime(): int {
    TopBit() - 19
  }

  function HexDigit(c: char): Option<byte> {
    if '0' <= c <= '9' then Some((c as int - '0' as int) as byte)
    else if 'a' <= c <= 'f' then Some((c as int - 'a' as int + 10) as byte)
    else if 'A' <= c <= 'F' then Some((c as int - 'A' as int + 10) as byte)
    else None
  }

  function JoinHalves(high: byte, low: byte): byte {
    (high as int * 16 % 256 + low as int % 16) as byte
  }

  // hex.DecodeString
  function DecodeHex(s: string): (r: Option<seq<byte>>)
    ensures r.Some? ==> 2 * |r.value| == |s|
  {
    if s == "" then Some([])
    else if |s| == 1 then None
    else
      AddByte(HexDigit(s[0]), HexDigit(s[1]), DecodeHex(s[2..]))
  }

  function AddByte(high: Option<byte>, low: Option<byte>, rest: Option<seq<byte>>): Option<seq<byte>> {
    if high.None? || low.None? || rest.None? then None
    else Some([JoinHalves(high.value, low.value)] + rest.value)
  }

  const LOWER := "0123456789abcdef"
  const UPPER := "0123456789ABCDEF"

  // Two hex digits of either case spell a byte, the high half first.
  predicate Spells(high: char, low: char, b: byte) {
    && (high == LOWER[b as int / 16] || high == UPPER[b as int / 16])
    && (low == LOWER[b as int % 16] || low == UPPER[b as int % 16])
  }

  lemma DigitMeans(c: char, n: byte)
    requires n < 16
    ensures HexDigit(c) == Some(n) <==> c == LOWER[n as int] || c == UPPER[n as int]
    ensures HexDigit(c).Some? ==> HexDigit(c).value < 16
  {
  }

  lemma PairMeans(high: char, low: char, b: byte)
    ensures Spells(high, low, b) <==>
      HexDigit(high).Some? && HexDigit(low).Some? && HexDigit(high).value as int * 16 + HexDigit(low).value as int == b as int
  {
    DigitMeans(high, b / 16);
    DigitMeans(low, b % 16);
    if HexDigit(high).Some? && HexDigit(low).Some? {
      Halves(HexDigit(high).value as int, HexDigit(low).value as int, b as int);
    }
  }

  lemma Halves(high: int, low: int, b: int)
    requires 0 <= high && 0 <= low < 16
    ensures high * 16 + low == b <==> high == b / 16 && low == b % 16
  {
  }

  predicate SpellsAt(s: string, b: seq<byte>, i: nat)
    requires |s| == 2 * |b| && i < |b|
  {
    Spells(s[2 * i], s[2 * i + 1], b[i])
  }

  // A text decodes to a byte string exactly when its digits, pair by pair, spell it.
  lemma {:induction false} HexMeans(s: string, b: seq<byte>)
    ensures DecodeHex(s) == Some(b) <==> |s| == 2 * |b| && forall i :: 0 <= i < |b| ==> SpellsAt(s, b, i)
    decreases |s|
  {
    if |s| >= 2 && |s| == 2 * |b| {
      HexMeans(s[2..], b[1..]);
      FirstPair(s, b);
      RestPairs(s, b);
    }
  }

  lemma FirstPair(s: string, b: seq<byte>)
    requires |s| >= 2 && b != []
    ensures DecodeHex(s) == Some(b) <==> Spells(s[0], s[1], b[0]) && DecodeHex(s[2..]) == Some(b[1..])
  {
    PairMeans(s[0], s[1], b[0]);
    DigitsAreSmall(s[0]);
    DigitsAreSmall(s[1]);
    JoinedIs(HexDigit(s[0]), HexDigit(s[1]), DecodeHex(s[2..]), b);
  }

  lemma JoinedIs(high: Option<byte>, low: Option<byte>, rest: Option<seq<byte>>, b: seq<byte>)
    requires b != [] && (high.Some? ==> high.value < 16) && (low.Some? ==> low.value < 16)
    ensures AddByte(high, low, rest) == Some(b) <==>
      high.Some? && low.Some? && high.value as int * 16 + low.value as int == b[0] as int && rest == Some(b[1..])
  {
    if high.Some? && low.Some? && rest.Some? {
      JoinValue(high.value, low.value);
      OneMoreByte(JoinHalves(high.value, low.value), rest.value, b);
    }
  }

  lemma JoinValue(high: byte, low: byte)
    requires high < 16 && low < 16
    ensures JoinHalves(high, low) as int == high as int * 16 + low as int
  {
  }

  lemma OneMoreByte(x: byte, rest: seq<byte>, b: seq<byte>)
    requires b != []
    ensures [x] + rest == b <==> x == b[0] && rest == b[1..]
  {
    assert b == [b[0]] + b[1..];
    assert ([x] + rest)[0] == x && ([x] + rest)[1..] == rest;
  }

  lemma DigitsAreSmall(c: char)
    ensures HexDigit(c).Some? ==> HexDigit(c).value < 16
  {
  }

  lemma RestPairs(s: string, b: seq<byte>)
    requires |s| == 2 * |b| && b != []
    ensures (forall i :: 0 <= i < |b| ==> SpellsAt(s, b, i)) <==>
      SpellsAt(s, b, 0) && forall i :: 0 <= i < |b| - 1 ==> SpellsAt(s[2..], b[1..], i)
  {
    assert forall i :: 0 <= i < |b| - 1 ==> SpellsAt(s[2..], b[1..], i) == SpellsAt(s, b, i + 1);
    forall i | 0 < i < |b|
      ensures SpellsAt(s, b, i) == SpellsAt(s[2..], b[1..], i - 1)
    {
    }
  }

  lemma {:induction false} ValueConcat(a: seq<byte>, b: seq<byte>)
    ensures Value(a + b) == Value(a) + Pow256(|a|) * Value(b)
  {
    if a == [] {
      assert a + b == b;
    } else {
      assert (a + b)[1..] == a[1..] + b;
      ValueConcat(a[1..], b);
      Distribute(Value(a[1..]), Pow256(|a| - 1), Value(b));
    }
  }

  lemma Distribute(x: int, p: int, v: int)
    ensures 256 * (x + p * v) == 256 * x + (256 * p) * v
  {
  }

  // Only all-ones bytes reach the top of the range.
  lemma {:induction false} TopValue(b: seq<byte>)
    ensures Value(b) == Pow256(|b|) - 1 <==> forall i :: 0 <= i < |b| ==> b[i] == 255
  {
    if b != [] {
      TopValue(b[1..]);
      if forall i :: 0 <= i < |b[1..]| ==> b[1..][i] == 255 {
        forall i | 0 < i < |b|
          ensures b[i] == 255
        {
          assert b[i] == b[1..][i - 1];
        }
      } else {
        var k :| 0 <= k < |b[1..]| && b[1..][k] != 255;
        assert b[k + 1] != 255;
      }
    }
  }

  // The key as its lowest byte, the thirty middle bytes and the highest byte.
  lemma ValueByParts(b: seq<byte>)
    requires |b| == 32
    ensures Value(b) == b[0] as nat + 256 * (Value(b[1..31]) + Pow256(30) * b[31] as nat)
  {
    var tail := b[1..];
    assert tail == b[1..31] + [b[31]];
    ValueConcat(b[1..31], [b[31]]);
    assert Value([b[31]]) == b[31] as nat by {
      assert [b[31]][1..] == [];
    }
  }

  // The value without the sign bit of x, which is the top bit of the last byte.
  lemma ModuloTopBit(low: nat, mid: nat, high: nat, p: nat)
    requires low < 256 && mid < p && high < 256
    ensures (low + 256 * (mid + p * high)) % (128 * (256 * p)) == low + 256 * (mid + p * (high % 128))
  {
    SplitHigh(low, mid, high, p);
    RestIsSmall(low, mid, high % 128, p);
    QuotientIs(low + 256 * (mid + p * (high % 128)), 128 * (256 * p), high / 128);
  }

  lemma RestIsSmall(low: nat, mid: nat, high: nat, p: nat)
    requires low < 256 && mid < p && high < 128
    ensures 0 <= low + 256 * (mid + p * high) < 128 * (256 * p)
  {
    Monotone(p, high, 127);
    Monotone(p, 0, high);
  }

  lemma SplitHigh(low: nat, mid: nat, high: nat, p: nat)
    ensures low + 256 * (mid + p * high) == low + 256 * (mid + p * (high % 128)) + (128 * (256 * p)) * (high / 128)
  {
    var q := high / 128;
    assert high == 128 * q + high % 128;
    ProductOfSum(p, 128 * q, high % 128);
    Regroup(p, q);
    Regroup2(p, q);
  }

  lemma ProductOfSum(p: int, a: int, b: int)
    ensures p * (a + b) == p * a + p * b
  {
  }

  lemma Regroup(p: int, q: int)
    ensures p * (128 * q) == 128 * (p * q)
  {
  }

  lemma Regroup2(p: int, q: int)
    ensures (128 * (256 * p)) * q == 256 * (128 * (p * q))
  {
  }

  lemma Monotone(p: nat, a: nat, b: nat)
    requires a <= b
    ensures p * a <= p * b
  {
  }

  // Quotient and remainder are unique.
  lemma QuotientIs(r: nat, d: nat, q: nat)
    requires r < d
    ensures (r + d * q) % d == r
  {
    var x := r + d * q;
    var k, m := x / d, x % d;
    assert x == d * k + m;
    if k < q {
      Monotone(d, k + 1, q);
      ProductOfSum(d, k, 1);
    } else if q < k {
      Monotone(d, q + 1, k);
      ProductOfSum(d, q, 1);
    }
  }

  // The loop's verdict on the bytes: all ones above the lowest, and the lowest at least 0xed.
  ghost predicate AtOrAbovePrime(b: seq<byte>)
    requires |b| == 32
  {
    b[31] as int % 128 == 127 && (forall i :: 1 <= i <= 30 ==> b[i] == 255) && b[0] >= 0xed
  }

  // It says exactly that the encoded field element is not reduced.
  lemma NonCanonicalIff(b: seq<byte>)
    requires |b| == 32
    ensures AtOrAbovePrime(b) <==> Value(b) % TopBit() >= FieldPrime()
  {
    var mid := Value(b[1..31]);
    ValueByParts(b);
    MiddleAllOnes(b);
    TopBitUnfolds(30);
    Reduced(b[0] as nat, mid, b[31] as nat, Pow256(30), Value(b), TopBit());
  }

  lemma TopBitUnfolds(n: nat)
    requires n == 30
    ensures TopBit() == 128 * (256 * Pow256(n))
  {
    assert Pow256(n + 1) == 256 * Pow256(n);
  }

  lemma Reduced(low: nat, mid: nat, high: nat, p: nat, value: nat, top: nat)
    requires low < 256 && mid < p && high < 256
    requires value == low + 256 * (mid + p * high) && top == 128 * (256 * p)
    ensures value % top >= top - 19 <==> high % 128 == 127 && mid == p - 1 && low >= 0xed
  {
    ModuloTopBit(low, mid, high, p);
    Extremes(low, mid, high % 128, p);
  }

  lemma MiddleAllOnes(b: seq<byte>)
    requires |b| == 32
    ensures (forall i :: 1 <= i <= 30 ==> b[i] == 255) <==> Value(b[1..31]) == Pow256(30) - 1
  {
    var middle := b[1..31];
    TopValue(middle);
    assert forall i :: 0 <= i < 30 ==> middle[i] == b[i + 1];
    if forall i :: 0 <= i < 30 ==> middle[i] == 255 {
      forall i | 1 <= i <= 30
        ensures b[i] == 255
      {
        assert b[i] == middle[i - 1];
      }
    }
  }

  lemma Extremes(low: nat, mid: nat, high: nat, p: nat)
    requires low < 256 && mid < p && high <= 127
    ensures low + 256 * (mid + p * high) >= 128 * (256 * p) - 19 <==> high == 127 && mid == p - 1 && low >= 0xed
  {
    if high < 127 {
      Monotone(p, high, 126);
    }
  }

  method MiddleIsAllOnes(pubBytes: seq<byte>) returns (allFF: bool)
    requires |pubBytes| == 32
    ensures allFF <==> forall i :: 1 <= i <= 30 ==> pubBytes[i] == 255
  {
    allFF := true;
    var i := 30;
    while i >= 1
      invariant 0 <= i <= 30
      invariant allFF && forall k :: i < k <= 30 ==> pubBytes[k] == 255
    {
      if pubBytes[i] != 0xff {
        allFF := false;
        break;
      }
      i := i - 1;
    }
  }

  // A key is accepted iff it is 64 hex digits of a non-zero, reduced encoding; the errors are told apart in
  // this order: length, digits, zero, not reduced.
  method ValidateEd25519PublicKey(pubHex: string) returns (r: Result<seq<byte>, KeyError>)
    ensures r == Err(InvalidKeyLength) <==> |pubHex| != 64
    ensures r == Err(InvalidHex) <==> |pubHex| == 64 && DecodeHex(pubHex).None?
    ensures |pubHex| == 64 && DecodeHex(pubHex).Some? ==>
      var key := DecodeHex(pubHex).value;
      && (r == Err(ZeroKey) <==> Value(key) == 0)
      && (r == Err(NonCanonicalPoint) <==> Value(key) != 0 && Value(key) % TopBit() >= FieldPrime())
      && (r.Ok? <==> Value(key) != 0 && Value(key) % TopBit() < FieldPrime())
      && (r.Ok? ==> r.value == key)
  {
    if |pubHex| != 64 {
      return Err(InvalidKeyLength);
    }
    var decoded := DecodeHex(pubHex);
    if decoded.None? {
      return Err(InvalidHex);
    }
    var pubBytes := decoded.value;
    ZeroValue(pubBytes);
    NonCanonicalIff(pubBytes);
    if forall i :: 0 <= i < |pubBytes| ==> pubBytes[i] == 0 {
      return Err(ZeroKey);
    }
    var yLast := pubBytes[31] as int % 128;
    if yLast == 0x7f {
      var allFF := MiddleIsAllOnes(pubBytes);
      if allFF && pubBytes[0] >= 0xed {
        return Err(NonCanonicalPoint);
      }
    }
    return Ok(pubBytes);
  }

  lemma {:induction false} ZeroValue(b: seq<byte>)
    ensures Value(b) == 0 <==> forall i :: 0 <= i < |b| ==> b[i] == 0
  {
    if b != [] {
      ZeroValue(b[1..]);
      if forall i :: 0 <= i < |b[1..]| ==> b[1..][i] == 0 {
        forall i | 0 < i < |b|
          ensures b[i] == 0
        {
          assert b[i] == b[1..][i - 1];
        }
      } else {
        var k :| 0 <= k < |b[1..]| && b[1..][k] != 0;
        assert b[k + 1] != 0;
      }
    }
  }
}
