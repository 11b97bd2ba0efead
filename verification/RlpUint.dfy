/** Recursive length prefix coding of unsigned integers up to 64 bits (rlp/encode.go, rlp/decode.go). */
module RlpUint {
  import opened Types
  import opened Arithmetic

  type byte = x: int | 0 <= x < 256

  const MAX_UINT64 := 0xFFFF_FFFF_FFFF_FFFF

  /** Big-endian bytes without leading zeros. */
  function BigEndian(i: nat): (r: seq<byte>)
    ensures i > 0 ==> r != [] && r[0] != 0
  {
    if i == 0 then [] else BigEndian(i / 256) + [i % 256]
  }

  function FromBigEndian(s: seq<byte>): nat {
    if s == [] then 0 else FromBigEndian(s[..|s| - 1]) * 256 + s[|s| - 1]
  }

  function Pow256(n: nat): (p: nat)
    ensures p > 0
  {
    if n == 0 then 1 else 256 * Pow256(n - 1)
  }

  lemma {:induction false} BigEndianValue(i: nat)
    ensures FromBigEndian(BigEndian(i)) == i
  {
    if i > 0 {
      BigEndianValue(i / 256);
      assert BigEndian(i)[..|BigEndian(i)| - 1] == BigEndian(i / 256);
    }
  }

  lemma {:induction false} BigEndianLength(i: nat, n: nat)
    requires i < Pow256(n)
    ensures |BigEndian(i)| <= n
  {
    if i > 0 {
      assert n > 0 && i < 256 * Pow256(n - 1);
      assert |BigEndian(i)| == |BigEndian(i / 256)| + 1;
      hide Pow256, BigEndian;
      BigEndianLength(i / 256, n - 1);
    }
  }

  function EncodeUint(i: nat): (r: seq<byte>)
    requires i <= MAX_UINT64
    ensures 1 <= |r| <= 9
  {
    if i == 0 then [0x80]
    else if i < 128 then [i]
    else
      var s := BigEndian(i);
      EightBytes(i);
      [0x80 + |s|] + s
  }

  lemma EightBytes(i: nat)
    requires i <= MAX_UINT64
    ensures |BigEndian(i)| <= 8
  {
    assert Pow256(8) == MAX_UINT64 + 1 by {
      assert Pow256(2) == 0x1_0000;
      assert Pow256(4) == 0x1_0000_0000;
      assert Pow256(6) == 0x1_0000_0000_0000;
    }
    BigEndianLength(i, 8);
  }

  /** Dividing twice is dividing by the product. */
  lemma DivDiv(a: nat, k: nat, p: nat)
    requires k > 0 && p > 0
    ensures a / k / p == a / (k * p)
  {
    Euclid(a, k);
    Euclid(a / k, p);
    DivDivParts(a, k, p, a / k, a % k, a / k / p, a / k % p);
  }

  lemma Euclid(a: nat, k: nat)
    requires k > 0
    ensures a == a / k * k + a % k && a % k < k
  {
  }

  lemma DivDivParts(a: nat, k: nat, p: nat, x: nat, r: nat, y: nat, s: nat)
    requires k > 0 && p > 0 && r < k && s < p && a == x * k + r && x == y * p + s
    ensures k * p > 0 && a / (k * p) == y
  {
    SplitProduct(y, p, s, k, r);
    QuotientUnique(a, k * p, y, s * k + r);
  }

  lemma SplitProduct(y: nat, p: nat, s: nat, k: nat, r: nat)
    requires s < p && r < k
    ensures (y * p + s) * k + r == k * p * y + (s * k + r)
    ensures s * k + r < k * p
  {
    assert s * k <= (p - 1) * k == k * p - k;
  }

  function Digit(i: nat, k: nat): nat { i / Pow256(k) % 256 }

  lemma DigitDown(i: nat, k: nat)
    ensures Digit(i, 0) == i % 256 && Digit(i, k + 1) == Digit(i / 256, k)
  {
    DivDiv(i, 256, Pow256(k));
  }

  lemma BelowDown(i: nat, k: nat)
    ensures i < Pow256(k + 1) <==> i / 256 < Pow256(k)
  {
    BelowProduct(i, Pow256(k));
  }

  lemma BelowProduct(i: nat, p: nat)
    ensures i < 256 * p <==> i / 256 < p
  {
    Euclid(i, 256);
  }

  /** Digit by digit, the last one first, and no more digits than needed. */
  lemma {:induction false} BigEndianDigits(i: nat, k: nat)
    ensures k < |BigEndian(i)| ==> BigEndian(i)[|BigEndian(i)| - 1 - k] == Digit(i, k)
    ensures k == |BigEndian(i)| ==> i < Pow256(k)
    ensures k < |BigEndian(i)| ==> i >= Pow256(k)
    decreases k
  {
    if i > 0 {
      assert BigEndian(i) == BigEndian(i / 256) + [i % 256];
      if k == 0 {
        assert Pow256(0) == 1;
        hide Digit;
        DigitDown(i, 0);
      } else {
        hide BigEndian, Pow256, Digit;
        BigEndianDigits(i / 256, k - 1);
        DigitDown(i, k - 1);
        BelowDown(i, k - 1);
      }
    }
  }

  /** The encoding byte by byte: zero is the empty string, a small integer is itself, any other is its digits in base
      256, the highest first and not zero, behind their number. */
  lemma EncodedBytes(i: nat, k: nat)
    requires i <= MAX_UINT64
    ensures i == 0 ==> EncodeUint(i) == [0x80]
    ensures 0 < i < 128 ==> EncodeUint(i) == [i]
    ensures i >= 128 ==> var r := EncodeUint(i);
      && r[0] == 0x80 + |r| - 1 && Pow256(|r| - 2) <= i < Pow256(|r| - 1)
      && (k < |r| - 1 ==> r[|r| - 1 - k] == i / Pow256(k) % 256)
  {
    if i >= 128 {
      var s := BigEndian(i);
      hide BigEndian, Pow256;
      EightBytes(i);
      BigEndianDigits(i, k);
      BigEndianDigits(i, |s|);
      BigEndianDigits(i, |s| - 1);
    }
  }

  /** The integer at the front and what follows it; None for anything but the canonical form of a 64-bit integer. */
  function DecodeUint(s: seq<byte>): (r: Option<(nat, seq<byte>)>) {
    if s == [] then None
    else if s[0] < 0x80 then (if s[0] == 0 then None else Some((s[0], s[1..])))
    else if s[0] < 0xB8 then
      var size := s[0] - 0x80;
      if size > 8 || size > |s| - 1 then None
      else
        var v := FromBigEndian(s[1..1 + size]);
        if size > 1 && s[1] == 0 then None
        else if size > 0 && v < 128 then None
        else Some((v, s[1 + size..]))
    else None
  }

  /** Decoding undoes encoding, whatever follows. */
  lemma DecodeEncode(i: nat, rest: seq<byte>)
    requires i <= MAX_UINT64
    ensures DecodeUint(EncodeUint(i) + rest) == Some((i, rest))
  {
    var s := EncodeUint(i) + rest;
    if i == 0 || i < 128 {
      assert s[1..] == rest;
    } else {
      var digits := BigEndian(i);
      EightBytes(i);
      BigEndianValue(i);
      assert s[1..1 + |digits|] == digits;
      assert s[1 + |digits|..] == rest;
    }
  }

  lemma BigEndianStep(v: nat, d: byte)
    requires v > 0 || d > 0
    ensures BigEndian(v * 256 + d) == BigEndian(v) + [d]
  {
    assert (v * 256 + d) / 256 == v && (v * 256 + d) % 256 == d;
  }

  lemma {:induction false} FromBigEndianBack(s: seq<byte>)
    requires s == [] || s[0] != 0
    ensures BigEndian(FromBigEndian(s)) == s
  {
    if s != [] {
      LastDigit(s);
    }
  }

  lemma {:induction false} LastDigit(s: seq<byte>)
    requires s != [] && s[0] != 0
    ensures BigEndian(FromBigEndian(s)) == s
    decreases |s|
  {
    hide BigEndian;
    var n := |s| - 1;
    if n > 0 {
      LastDigit(s[..n]);
      assert FromBigEndian(s[..n]) > 0 by {
        ZeroIsEmpty();
      }
    } else {
      ZeroIsEmpty();
      assert s[..n] == [];
    }
    BigEndianStep(FromBigEndian(s[..n]), s[n]);
    assert s == s[..n] + [s[n]];
  }

  lemma ZeroIsEmpty()
    ensures BigEndian(0) == []
  {
  }

  /** Only the canonical form decodes: what is accepted is exactly what the encoder writes for that integer. */
  lemma EncodeDecode(s: seq<byte>)
    requires DecodeUint(s).Some?
    ensures DecodeUint(s).value.0 <= MAX_UINT64
    ensures EncodeUint(DecodeUint(s).value.0) + DecodeUint(s).value.1 == s
  {
    var i, rest := DecodeUint(s).value.0, DecodeUint(s).value.1;
    if s[0] < 0x80 {
      assert s == [s[0]] + s[1..];
    } else {
      var size := s[0] - 0x80;
      var digits := s[1..1 + size];
      assert s == [s[0]] + digits + rest;
      FromBigEndianBound(digits);
      BoundOfEight(size);
      if size > 0 {
        assert digits[0] == s[1];
        FromBigEndianBack(digits);
      }
    }
  }

  lemma {:induction false} FromBigEndianBound(s: seq<byte>)
    ensures FromBigEndian(s) < Pow256(|s|)
  {
    if s != [] {
      FromBigEndianBound(s[..|s| - 1]);
    }
  }

  lemma BoundOfEight(n: nat)
    requires n <= 8
    ensures Pow256(n) <= MAX_UINT64 + 1
  {
    assert Pow256(2) == 0x1_0000;
    assert Pow256(4) == 0x1_0000_0000;
    assert Pow256(6) == 0x1_0000_0000_0000;
    assert Pow256(8) == MAX_UINT64 + 1;
    assert n == 0 || n == 1 || n == 2 || n == 3 || n == 4 || n == 5 || n == 6 || n == 7 || n == 8;
  }
}
