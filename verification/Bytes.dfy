/** Byte strings as little-endian integers. */
module Bytes {
  import opened Types

  /** 256 to the power k. */
  function Pow(k: nat): (p: nat)
    ensures p >= 1
  {
    if k == 0 then 1 else 256 * Pow(k - 1)
  }

  /** The integer a byte string stands for, least significant byte first. */
  function LittleEndian(s: seq<Byte>): nat {
    if |s| == 0 then 0 else s[0] + 256 * LittleEndian(s[1..])
  }

  /** The k lowest bytes of n, least significant first. */
  function ToLE(n: nat, k: nat): (s: seq<Byte>)
    ensures |s| == k
  {
    if k == 0 then [] else [n % 256] + ToLE(n / 256, k - 1)
  }

  lemma {:induction false} LittleEndianBound(s: seq<Byte>)
    ensures LittleEndian(s) < Pow(|s|)
  {
    if |s| > 0 {
      LittleEndianBound(s[1..]);
    }
  }

  lemma FoldPow(i: nat, n: nat)
    requires i > 0
    ensures 256 * (Pow(i - 1) * n) == Pow(i) * n
  {
  }

  lemma {:induction false} LittleEndianSplit(s: seq<Byte>, i: nat)
    requires i <= |s|
    ensures LittleEndian(s) == LittleEndian(s[..i]) + Pow(i) * LittleEndian(s[i..])
  {
    if i == 0 {
      assert s[0..] == s;
    } else {
      hide Pow;
      LittleEndianSplit(s[1..], i - 1);
      assert s[1..][..i - 1] == s[..i][1..] && s[1..][i - 1..] == s[i..];
      FoldPow(i, LittleEndian(s[i..]));
    }
  }

  lemma {:induction false} ValueDetermines(a: seq<Byte>, b: seq<Byte>)
    requires |a| == |b| && LittleEndian(a) == LittleEndian(b)
    ensures a == b
  {
    if |a| > 0 {
      assert a[0] == LittleEndian(a) % 256 && b[0] == LittleEndian(b) % 256;
      ValueDetermines(a[1..], b[1..]);
      assert a == [a[0]] + a[1..] && b == [b[0]] + b[1..];
    }
  }

  lemma {:induction false} ToLEValue(n: nat, k: nat)
    requires n < Pow(k)
    ensures LittleEndian(ToLE(n, k)) == n
  {
    if k > 0 {
      ToLEValue(n / 256, k - 1);
      assert ToLE(n, k)[1..] == ToLE(n / 256, k - 1);
    }
  }

  /** Reading k bytes and writing them again gives the same bytes. */
  lemma {:induction false} ValueToLE(s: seq<Byte>)
    ensures ToLE(LittleEndian(s), |s|) == s
  {
    LittleEndianBound(s);
    ToLEValue(LittleEndian(s), |s|);
    ValueDetermines(ToLE(LittleEndian(s), |s|), s);
  }

  lemma Powers()
    ensures Pow(2) == 0x1_0000 && Pow(4) == TWO32 && Pow(8) == TWO64
  {
    assert Pow(1) == 256 && Pow(3) == 256 * Pow(2) && Pow(5) == 256 * Pow(4);
    assert Pow(6) == 256 * Pow(5) && Pow(7) == 256 * Pow(6);
  }
}
