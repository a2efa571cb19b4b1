/** Compact targets and the proof-of-work comparison (internal/crypto/target.go,
    internal/types/hash.go). */
module Target {
  import opened Types
  import opened Bytes

  // ---------- The code ----------

  /** The value of a compact encoding: one byte of exponent, a sign bit and 23 bits of
      mantissa. Negative and overflowing encodings stand for zero. */
  function CompactToBig(compact: U32): nat {
    var mantissa := compact % 0x80_0000;
    var negative := compact / 0x80_0000 % 2 == 1;
    var exponent := compact / 0x100_0000;
    var overflow :=
      && mantissa != 0
      && (exponent > 34 || (mantissa > 0xff && exponent > 33) || (mantissa > 0xffff && exponent > 32));
    if negative || overflow then 0
    else if exponent <= 3 then mantissa / Pow(3 - exponent)
    else mantissa * Pow(exponent - 3)
  }

  function BitLen(n: nat): nat {
    if n == 0 then 0 else 1 + BitLen(n / 2)
  }

  function BigToCompact(target: int): U32 {
    if target == 0 then 0
    else
      var t := if target < 0 then -target else target;
      var byteLen := (BitLen(t) + 7) / 8;
      Assemble(target < 0, if byteLen <= 3 then t * Pow(3 - byteLen) % TWO32 else t / Pow(byteLen - 3) % 0x100_0000,
               byteLen)
  }

  /** Puts the three leading bytes and the byte length together, moving the mantissa
      down by a byte where it would reach the sign bit. */
  function Assemble(negative: bool, top: nat, byteLen: nat): U32 {
    var wide := top / 0x80_0000 % 2 == 1;
    var mantissa := if wide then top / 256 else top;
    var exponent := if wide then byteLen + 1 else byteLen;
    ((if negative then 0x80_0000 else 0) + mantissa % 0x80_0000 + exponent % 256 * 0x100_0000) % TWO32
  }

  /** The big-endian digits of n, without leading zeros. */
  function BigEndian(n: nat): seq<Byte> {
    if n == 0 then [] else BigEndian(n / 256) + [n % 256]
  }

  function BigEndianValue(s: seq<Byte>): nat {
    if |s| == 0 then 0 else BigEndianValue(s[..|s| - 1]) * 256 + s[|s| - 1]
  }

  method CompactToHash(compact: U32) returns (h: Hash)
    ensures LittleEndian(h) == CompactToBig(compact)
  {
    hide Pow;
    hide CompactToBig;
    hide BigEndian;
    hide BigEndianValue;
    hide LittleEndian;
    var target := CompactToBig(compact);
    var b := BigEndian(target);
    CompactBelow(compact);
    DigitsBound(target, 32);
    var buf := new Byte[32](_ => 0);
    var i, j := 0, |b| - 1;
    while j >= 0
      invariant 0 <= i <= |b| && j == |b| - 1 - i
      invariant forall k :: 0 <= k < i ==> buf[k] == b[|b| - 1 - k]
      invariant forall k :: i <= k < 32 ==> buf[k] == 0
    {
      if i >= 32 {
        break;
      }
      buf[i] := b[j];
      i, j := i + 1, j - 1;
    }
    h := buf[..];
    ReversedValue(b, h);
    DigitsValue(target);
  }

  method HashToBig(h: Hash) returns (n: nat)
    ensures n == LittleEndian(h)
  {
    var be := new Byte[32](_ => 0);
    var i := 0;
    while i < 32
      invariant 0 <= i <= 32
      invariant forall k :: 0 <= k < i ==> be[k] == h[31 - k]
    {
      be[i] := h[31 - i];
      i := i + 1;
    }
    n := BigEndianValue(be[..]);
    ReversedValue(be[..], h);
  }

  method Less(a: Hash, b: Hash) returns (less: bool)
    ensures less == (LittleEndian(a) < LittleEndian(b))
  {
    hide LittleEndian;
    var i := 31;
    while i >= 0
      invariant -1 <= i <= 31 && forall k :: i < k < 32 ==> a[k] == b[k]
    {
      if a[i] != b[i] {
        assert a[i + 1..] == b[i + 1..];
        TopDigitDecides(a, b, i);
      }
      if a[i] < b[i] {
        return true;
      }
      if a[i] > b[i] {
        return false;
      }
      i := i - 1;
    }
    assert a == b;
    return false;
  }

  method LessOrEqual(a: Hash, b: Hash) returns (ok: bool)
    ensures ok == (LittleEndian(a) <= LittleEndian(b))
  {
    var less := Less(a, b);
    ok := a == b || less;
    if LittleEndian(a) == LittleEndian(b) {
      ValueDetermines(a, b);
    }
  }

  /** A header's proof of work is accepted exactly when the integer its hash stands
      for is at most the decoded target. */
  method ValidateProofOfWork(headerHash: Hash, bits: U32) returns (ok: bool)
    ensures ok == (LittleEndian(headerHash) <= CompactToBig(bits))
  {
    var target := CompactToHash(bits);
    ok := LessOrEqual(headerHash, target);
  }

  function CalcWork(bits: U32): nat {
    var target := CompactToBig(bits);
    if target <= 0 then 0 else Pow(32) / (target + 1)
  }

  // ---------- Byte strings as integers ----------

  lemma {:induction false} DigitsBound(n: nat, k: nat)
    requires n < Pow(k)
    ensures |BigEndian(n)| <= k
  {
    if n > 0 {
      DigitsBound(n / 256, k - 1);
    }
  }

  lemma {:induction false} DigitsValue(n: nat)
    ensures BigEndianValue(BigEndian(n)) == n
  {
    if n > 0 {
      DigitsValue(n / 256);
      assert BigEndian(n)[..|BigEndian(n)| - 1] == BigEndian(n / 256);
    }
  }

  /** Byte strings of one length are determined by their big-endian value. */
  lemma {:induction false} BigEndianDetermines(a: seq<Byte>, b: seq<Byte>)
    requires |a| == |b| && BigEndianValue(a) == BigEndianValue(b)
    ensures a == b
  {
    if |a| > 0 {
      var n := |a| - 1;
      BigEndianDetermines(a[..n], b[..n]);
      assert a == a[..n] + [a[n]] && b == b[..n] + [b[n]];
    }
  }

  lemma {:induction false} ZerosValue(s: seq<Byte>)
    requires forall k :: 0 <= k < |s| ==> s[k] == 0
    ensures LittleEndian(s) == 0
  {
    if |s| > 0 {
      ZerosValue(s[1..]);
    }
  }

  /** Reversing the bytes, with zeros added on top, keeps the value. */
  lemma {:induction false} ReversedValue(be: seq<Byte>, le: seq<Byte>)
    requires |be| <= |le|
    requires forall k :: 0 <= k < |be| ==> le[k] == be[|be| - 1 - k]
    requires forall k :: |be| <= k < |le| ==> le[k] == 0
    ensures LittleEndian(le) == BigEndianValue(be)
  {
    if |be| == 0 {
      ZerosValue(le);
    } else {
      ReversedValue(be[..|be| - 1], le[1..]);
    }
  }

  /** The most significant byte in which two hashes differ orders them. */
  lemma {:induction false} TopDigitDecides(a: seq<Byte>, b: seq<Byte>, i: nat)
    requires |a| == |b| && i < |a| && a[i + 1..] == b[i + 1..] && a[i] != b[i]
    ensures LittleEndian(a) < LittleEndian(b) <==> a[i] < b[i]
  {
    if b[i] < a[i] {
      LowerTopDigit(b, a, i);
    } else {
      LowerTopDigit(a, b, i);
    }
  }

  lemma {:induction false} LowerTopDigit(a: seq<Byte>, b: seq<Byte>, i: nat)
    requires |a| == |b| && i < |a| && a[i + 1..] == b[i + 1..] && a[i] < b[i]
    ensures LittleEndian(a) < LittleEndian(b)
  {
    hide LittleEndian;
    hide Pow;
    LittleEndianSplit(a, i);
    LittleEndianSplit(b, i);
    LittleEndianBound(a[..i]);
    TopDigit(a, i);
    TopDigit(b, i);
    var high := LittleEndian(a[i + 1..]);
    MulMono(Pow(i), a[i] + 1 + 256 * high, b[i] + 256 * high);
    assert Pow(i) * (a[i] + 1 + 256 * high) == Pow(i) * (a[i] + 256 * high) + Pow(i);
  }

  lemma TopDigit(s: seq<Byte>, i: nat)
    requires i < |s|
    ensures LittleEndian(s[i..]) == s[i] + 256 * LittleEndian(s[i + 1..])
  {
    assert s[i..][1..] == s[i + 1..];
  }

  // ---------- Powers and quotients ----------

  lemma MulMono(d: nat, a: int, b: int)
    requires a <= b
    ensures d * a <= d * b
  {
    assert d * (b - a) >= 0;
  }

  lemma Cancel(d: nat, a: int, b: int)
    requires d > 0
    ensures d * a < d * b ==> a < b
  {
    if b <= a {
      MulMono(d, b, a);
    }
  }

  lemma DivBounds(n: nat, d: nat)
    requires d > 0
    ensures d * (n / d) <= n < d * (n / d + 1)
  {
    assert n == d * (n / d) + n % d;
    assert d * (n / d + 1) == d * (n / d) + d;
  }

  lemma {:induction false} PowAdd(a: nat, b: nat)
    ensures Pow(a + b) == Pow(a) * Pow(b)
  {
    if a > 0 {
      PowAdd(a - 1, b);
      assert 256 * (Pow(a - 1) * Pow(b)) == Pow(a) * Pow(b);
    }
  }

  lemma {:induction false} PowGrows(a: nat, b: nat)
    requires a <= b
    ensures Pow(a) <= Pow(b)
  {
    if a < b {
      PowGrows(a, b - 1);
    }
  }

  lemma SmallPows()
    ensures Pow(0) == 1 && Pow(1) == 256 && Pow(2) == 0x1_0000 && Pow(3) == 0x100_0000
  {
  }

  lemma {:induction false} ScaledBelow(m: nat, k: nat, e: nat, top: nat)
    requires m < Pow(k) && k + e <= top
    ensures m * Pow(e) < Pow(top)
  {
    PowAdd(k, e);
    PowGrows(k + e, top);
    assert m * Pow(e) < Pow(k) * Pow(e);
  }

  /** Every encoding decodes to a value below 2^256. */
  lemma {:induction false} CompactBelow(compact: U32)
    ensures CompactToBig(compact) < Pow(32)
  {
    hide Pow;
    SmallPows();
    PowGrows(3, 32);
    var m, e := compact % 0x80_0000, compact / 0x100_0000;
    if e <= 3 {
      assert m / Pow(3 - e) <= m;
    } else if e <= 32 {
      ScaledBelow(m, 3, e - 3, 32);
    } else if e == 33 && m <= 0xffff {
      ScaledBelow(m, 2, 30, 32);
    } else if e == 34 && m <= 0xff {
      ScaledBelow(m, 1, 31, 32);
    } else if m == 0 {
      ScaledBelow(0, 0, e - 3, e);
      assert 0 * Pow(e - 3) == 0;
    }
  }

  // ---------- Encoding truncates ----------

  /** t with all bytes dropped below a mantissa of at most 23 bits. */
  function Truncate(t: nat): nat {
    if t < 0x80_0000 then t else 256 * Truncate(t / 256)
  }

  function Dropped(t: nat): nat {
    if t < 0x80_0000 then 0 else 1 + Dropped(t / 256)
  }

  function Exponent(t: nat): nat {
    if t < 0x80 then 1 else if t < 0x8000 then 2 else if t < 0x80_0000 then 3 else 1 + Exponent(t / 256)
  }

  function Mantissa(t: nat): nat {
    if t < 0x80 then t * 0x1_0000 else if t < 0x8000 then t * 256 else if t < 0x80_0000 then t else Mantissa(t / 256)
  }

  lemma {:induction false} MantissaBound(t: nat)
    ensures Mantissa(t) < 0x80_0000
    ensures t >= 0x8000 ==> Exponent(t) >= 3
  {
    if t >= 0x80_0000 {
      MantissaBound(t / 256);
    }
  }

  lemma {:induction false} MantissaValue(t: nat)
    requires t >= 0x8000
    ensures Exponent(t) >= 3 && Mantissa(t) * Pow(Exponent(t) - 3) == Truncate(t)
  {
    if t >= 0x80_0000 {
      MantissaValue(t / 256);
      var e := Exponent(t / 256) - 3;
      assert Mantissa(t) * (256 * Pow(e)) == 256 * (Mantissa(t) * Pow(e));
    }
  }

  lemma {:induction false} ExponentBound(t: nat, k: nat)
    requires 3 <= k && t < Pow(k)
    ensures Exponent(t) <= k + 1
  {
    if t >= 0x80_0000 && k > 3 {
      ExponentBound(t / 256, k - 1);
    } else if t >= 0x80_0000 {
      SmallPows();
      assert t / 256 < 0x80_0000;
    }
  }

  /** The byte length, digit by digit. */
  function ByteLen(t: nat): nat {
    if t == 0 then 0 else 1 + ByteLen(t / 256)
  }

  lemma BitLenHalves(t: nat)
    requires t >= 16
    ensures BitLen(t) == 4 + BitLen(t / 16)
  {
    var a := t / 2;
    var b := a / 2;
    var c := b / 2;
    assert BitLen(t) == 1 + BitLen(a) && BitLen(a) == 1 + BitLen(b);
    assert BitLen(b) == 1 + BitLen(c) && BitLen(c) == 1 + BitLen(c / 2);
    assert c / 2 == t / 16;
  }

  lemma BitLenStep(t: nat)
    requires t >= 256
    ensures BitLen(t) == 8 + BitLen(t / 256)
  {
    BitLenHalves(t);
    BitLenHalves(t / 16);
    assert t / 16 / 16 == t / 256;
  }

  lemma BitLenSmall(t: nat)
    requires 0 < t < 256
    ensures 1 <= BitLen(t) <= 8
  {
    var a := t / 16;
    assert BitLen(a / 2 / 2) <= 2 by {
      assert a / 2 / 2 < 4;
      assert BitLen(a / 2 / 2 / 2 / 2) == 0;
    }
    assert BitLen(a) <= 4;
    if t >= 16 {
      BitLenHalves(t);
    } else {
      assert t / 2 / 2 < 4;
      assert BitLen(t / 2 / 2 / 2 / 2) == 0;
      assert BitLen(t / 2 / 2) <= 2;
    }
  }

  lemma {:induction false} BytesOfBits(t: nat)
    ensures (BitLen(t) + 7) / 8 == ByteLen(t)
  {
    if t >= 256 {
      BitLenStep(t);
      BytesOfBits(t / 256);
    } else if t > 0 {
      BitLenSmall(t);
      assert ByteLen(t / 256) == 0;
    }
  }

  /** The leading three bytes of t, as BigToCompact extracts them. */
  function Top(t: nat): nat {
    TopBytes(t, ByteLen(t))
  }

  function TopBytes(t: nat, n: nat): nat {
    if n <= 3 then t * Pow(3 - n) else Quotient(t, Pow(n - 3))
  }

  function Quotient(t: nat, p: nat): nat
    requires p > 0
  {
    t / p
  }

  lemma DivTwice(t: nat, p: nat)
    requires p > 0
    ensures t / (256 * p) == t / 256 / p
  {
    var q, rem := t / 256, t % 256;
    var a, b := q / p, q % p;
    assert t == 256 * p * a + (256 * b + rem) by {
      assert q == p * a + b;
      assert 256 * (p * a) == 256 * p * a;
    }
    assert 256 * b + rem < 256 * p;
    QuotientIs(t, 256 * p, a, 256 * b + rem);
  }

  lemma QuotientIs(t: nat, d: nat, a: nat, rem: nat)
    requires d > 0 && t == d * a + rem && rem < d
    ensures t / d == a
  {
    DivBounds(t, d);
    assert d * (a + 1) == d * a + d;
    Cancel(d, t / d, a + 1);
    Cancel(d, a, t / d + 1);
  }

  lemma ByteLenStep(t: nat)
    requires t >= 0x100_0000
    ensures ByteLen(t) == ByteLen(t / 256) + 1 && ByteLen(t / 256) >= 3
  {
    var q := t / 256;
    assert q / 256 / 256 == t / 0x100_0000 && t / 0x100_0000 >= 1;
    assert ByteLen(q) == 1 + ByteLen(q / 256) && ByteLen(q / 256) == 1 + ByteLen(q / 256 / 256);
  }

  lemma PowStep(k: nat)
    ensures Pow(k + 1) == 256 * Pow(k)
  {
  }

  lemma {:induction false} TopStep(t: nat)
    requires t >= 0x100_0000
    ensures Top(t) == Top(t / 256) && ByteLen(t) == ByteLen(t / 256) + 1 && ByteLen(t / 256) >= 3
  {
    hide ByteLen;
    hide Pow;
    ByteLenStep(t);
    var n := ByteLen(t / 256);
    SmallPows();
    PowStep(n - 3);
    DivTwice(t, Pow(n - 3));
    assert Top(t) == t / Pow(n - 2) == t / 256 / Pow(n - 3);
  }

  lemma ByteLenSmall(t: nat)
    requires 0 < t < 0x100_0000
    ensures ByteLen(t) == if t < 0x100 then 1 else if t < 0x1_0000 then 2 else 3
  {
    assert t / 256 / 256 == t / 0x1_0000 && t / 0x1_0000 / 256 == 0;
    assert ByteLen(t / 256 / 256) == (if t < 0x1_0000 then 0 else 1);
    assert ByteLen(t / 256) == (if t < 0x100 then 0 else 1 + ByteLen(t / 256 / 256));
  }

  /** What the extraction yields, normalised so that the sign bit is clear. */
  lemma {:induction false} TopIsMantissa(t: nat)
    requires t > 0
    ensures Top(t) < 0x100_0000
    ensures Mantissa(t) == if Top(t) >= 0x80_0000 then Top(t) / 256 else Top(t)
    ensures Exponent(t) == if Top(t) >= 0x80_0000 then ByteLen(t) + 1 else ByteLen(t)
  {
    if t >= 0x100_0000 {
      TopStep(t);
      TopIsMantissa(t / 256);
    } else {
      ByteLenSmall(t);
      SmallPows();
      TopSmall(t);
    }
  }

  lemma {:induction false} TopSmall(t: nat)
    requires 0 < t < 0x100_0000
    requires Top(t) == if t < 0x100 then t * 0x1_0000 else if t < 0x1_0000 then t * 0x100 else t
    requires ByteLen(t) == if t < 0x100 then 1 else if t < 0x1_0000 then 2 else 3
    ensures Top(t) < 0x100_0000
    ensures Mantissa(t) == if Top(t) >= 0x80_0000 then Top(t) / 256 else Top(t)
    ensures Exponent(t) == if Top(t) >= 0x80_0000 then ByteLen(t) + 1 else ByteLen(t)
  {
    hide Top;
    hide ByteLen;
    if t >= 0x80_0000 {
      assert Mantissa(t / 256) == t / 256 && Exponent(t / 256) == 3;
    }
  }

  lemma {:induction false} EncodeIs(t: nat)
    requires 0 < t < Pow(32)
    ensures BigToCompact(t) == Mantissa(t) + Exponent(t) * 0x100_0000 < 34 * 0x100_0000
  {
    hide Pow;
    hide Mantissa;
    hide Exponent;
    BytesOfBits(t);
    TopIsMantissa(t);
    MantissaBound(t);
    ExponentBound(t, 32);
    EncodeParts(t);
  }

  lemma EncodeParts(t: nat)
    requires t > 0 && (BitLen(t) + 7) / 8 == ByteLen(t) && Top(t) < 0x100_0000 && ByteLen(t) <= 33
    ensures BigToCompact(t) ==
      (if Top(t) >= 0x80_0000 then Top(t) / 256 + (ByteLen(t) + 1) * 0x100_0000 else Top(t) + ByteLen(t) * 0x100_0000)
  {
    hide Pow;
    hide BitLen;
    hide ByteLen;
    hide Assemble;
    assert BigToCompact(t) == Assemble(false, Top(t), ByteLen(t));
    Assembled(Top(t), ByteLen(t));
  }

  lemma Assembled(top: nat, n: nat)
    requires top < 0x100_0000 && n <= 33
    ensures Assemble(false, top, n) ==
      (if top >= 0x80_0000 then top / 256 + (n + 1) * 0x100_0000 else top + n * 0x100_0000)
  {
  }

  /** Decoding after encoding truncates, and nothing else. */
  lemma {:induction false} EncodeThenDecode(t: nat)
    requires 0 < t < Pow(32)
    ensures CompactToBig(BigToCompact(t)) == Truncate(t)
  {
    hide Pow;
    hide Mantissa;
    hide Exponent;
    EncodeIs(t);
    MantissaBound(t);
    if t >= 0x8000 {
      MantissaValue(t);
      TruncateBelow(t);
      if Exponent(t) == 33 {
        MantissaAtTop(Mantissa(t));
      }
      DecodeParts(Mantissa(t), Exponent(t));
    } else {
      DecodeSmall(t);
    }
  }

  lemma MantissaAtTop(m: nat)
    requires m * Pow(30) < Pow(32)
    ensures m <= 0xffff
  {
    hide Pow;
    SmallPows();
    PowAdd(2, 30);
    Cancel(Pow(30), m, 0x1_0000);
  }

  lemma Fields(m: nat, e: nat)
    requires m < 0x80_0000 && e <= 33
    ensures var c := m + e * 0x100_0000;
      c < TWO32 && c % 0x80_0000 == m && c / 0x80_0000 % 2 == 0 && c / 0x100_0000 == e
  {
  }

  lemma DecodeParts(m: nat, e: nat)
    requires m < 0x80_0000 && 3 <= e <= 33 && (e == 33 ==> m <= 0xffff)
    ensures m + e * 0x100_0000 < TWO32 && CompactToBig(m + e * 0x100_0000) == m * Pow(e - 3)
  {
    hide Pow;
    SmallPows();
    Fields(m, e);
    if e == 3 {
      assert m / Pow(0) == m == m * Pow(0);
    }
  }

  lemma DecodeSmall(t: nat)
    requires 0 < t < 0x8000 && BigToCompact(t) == Mantissa(t) + Exponent(t) * 0x100_0000
    ensures CompactToBig(BigToCompact(t)) == Truncate(t)
  {
    hide BigToCompact;
    var c := BigToCompact(t);
    assert c % 0x80_0000 == Mantissa(t) && c / 0x80_0000 % 2 == 0 && c / 0x100_0000 == Exponent(t);
    SmallPows();
  }

  // ---------- What truncation does to a target ----------

  lemma {:induction false} TruncateBelow(t: nat)
    ensures Truncate(t) <= t
    ensures t - Truncate(t) < Pow(Dropped(t))
    ensures Dropped(t) > 0 ==> Truncate(t) >= 0x8000 * Pow(Dropped(t))
    ensures t > 0 ==> Truncate(t) > 0
  {
    if t >= 0x80_0000 {
      TruncateBelow(t / 256);
    }
  }

  /** A target survives the round trip with a relative error below 2^-15. */
  lemma {:induction false} RoundTripError(t: nat)
    requires 0 < t < Pow(32)
    ensures var d := CompactToBig(BigToCompact(t)); 0 < d <= t && (t - d) * 0x8000 < t
  {
    hide BigToCompact;
    hide CompactToBig;
    EncodeThenDecode(t);
    TruncateBelow(t);
  }

  lemma {:induction false} TruncateKeepsSize(t: nat)
    requires t >= 0x80_0000
    ensures Truncate(t) >= 0x80_0000
  {
    if t / 256 >= 0x80_0000 {
      TruncateKeepsSize(t / 256);
    }
  }

  lemma {:induction false} TruncateMonotone(s: nat, t: nat)
    requires s <= t
    ensures Truncate(s) <= Truncate(t)
  {
    if s >= 0x80_0000 {
      TruncateMonotone(s / 256, t / 256);
    } else if t >= 0x80_0000 {
      TruncateKeepsSize(t);
    }
  }

  lemma {:induction false} TruncateIdempotent(t: nat)
    ensures Truncate(Truncate(t)) == Truncate(t)
  {
    if t >= 0x80_0000 {
      TruncateKeepsSize(t);
      TruncateIdempotent(t / 256);
    }
  }

  /** The round trip is monotone and idempotent. */
  lemma {:induction false} RoundTripMonotone(s: nat, t: nat)
    requires 0 < s <= t < Pow(32)
    ensures CompactToBig(BigToCompact(s)) <= CompactToBig(BigToCompact(t))
  {
    EncodeThenDecode(s);
    EncodeThenDecode(t);
    TruncateMonotone(s, t);
  }

  lemma {:induction false} RoundTripIdempotent(t: nat)
    requires 0 < t < Pow(32)
    ensures var d := CompactToBig(BigToCompact(t)); CompactToBig(BigToCompact(d)) == d
  {
    hide BigToCompact;
    hide CompactToBig;
    EncodeThenDecode(t);
    TruncateBelow(t);
    EncodeThenDecode(Truncate(t));
    TruncateIdempotent(t);
  }

  // ---------- Work ----------

  /** Work is the largest number of expected tries w with w * (target + 1) <= 2^256; it
      is zero exactly for encodings of the zero target. */
  lemma {:induction false} WorkIs(bits: U32)
    ensures CalcWork(bits) >= 1 <==> CompactToBig(bits) > 0
    ensures CompactToBig(bits) > 0 ==>
      var w, t := CalcWork(bits), CompactToBig(bits); w * (t + 1) <= Pow(32) < (w + 1) * (t + 1)
  {
    hide CompactToBig;
    CompactBelow(bits);
    var t := CompactToBig(bits);
    hide Pow;
    DivBounds(Pow(32), t + 1);
    Cancel(t + 1, 1, Pow(32) / (t + 1) + 1);
  }

  /** A lower target means at least as much work. */
  lemma {:induction false} WorkAntitone(a: U32, b: U32)
    requires 0 < CompactToBig(a) <= CompactToBig(b)
    ensures CalcWork(a) >= CalcWork(b)
  {
    hide CompactToBig;
    hide Pow;
    WorkIs(a);
    WorkIs(b);
    var v, w, s, t := CalcWork(a), CalcWork(b), CompactToBig(a), CompactToBig(b);
    MulMono(v + 1, s + 1, t + 1);
    Cancel(t + 1, w, v + 1);
  }

  lemma {:induction false} BigPows()
    ensures Pow(26) == 0x1_0000_0000_0000_0000_0000_0000_0000_0000_0000_0000_0000_0000_0000
    ensures Pow(29) == 0x100_0000_0000_0000_0000_0000_0000_0000_0000_0000_0000_0000_0000_0000_0000
  {
    PowAdd(5, 5);
    PowAdd(3, 10);
    PowAdd(13, 13);
    PowAdd(3, 26);
    assert Pow(3) == 0x100_0000 && Pow(5) == 0x100_0000_0000;
    hide Pow;
    assert Pow(10) == 0x1_0000_0000_0000_0000_0000;
    assert Pow(13) == 0x100_0000_0000_0000_0000_0000_0000;
  }

  /** Encodings written out: a common starting difficulty, the easiest one, short ones whose
      low bytes are cut off, a negative one and one too large. */
  lemma {:induction false} KnownTargets()
    ensures CompactToBig(0x1d00_ffff)
            == 0xffff_0000_0000_0000_0000_0000_0000_0000_0000_0000_0000_0000_0000_0000
    ensures CompactToBig(0x207f_ffff)
            == 0x7fff_ff00_0000_0000_0000_0000_0000_0000_0000_0000_0000_0000_0000_0000_0000_0000
    ensures CompactToBig(0x0312_3456) == 0x12_3456 && CompactToBig(0x0112_3456) == 0x12
    ensures CompactToBig(0x0492_3456) == 0 && CompactToBig(0x2312_3456) == 0
  {
    hide Pow;
    SmallPows();
    BigPows();
  }
}
