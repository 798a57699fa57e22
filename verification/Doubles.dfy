/** Equality of two IEEE doubles that are given by their eight bytes. */
module Doubles {
  import opened Wire

  /** IEEE equality of two doubles given by their bytes: NaN equals nothing and
      the two zeros are equal. */
  predicate SameDouble(a: seq<byte>, b: seq<byte>) {
    |a| == 8 && |b| == 8 && !IsNaN(a) && !IsNaN(b) && (a == b || (IsZero(a) && IsZero(b)))
  }

  predicate IsZero(a: seq<byte>)
    requires |a| == 8
  {
    a[7] % 128 == 0 && forall i :: 0 <= i < 7 ==> a[i] == 0
  }

  predicate IsNaN(a: seq<byte>)
    requires |a| == 8
  {
    a[7] % 128 == 127 && a[6] >= 240 && (a[6] > 240 || exists i :: 0 <= i < 6 && a[i] != 0)
  }

  /** The bits below the sign of a double, as a number. */
  function Magnitude(a: seq<byte>): nat { FromLE(a) % 0x8000_0000_0000_0000 }

  const INFINITY := 0x7FF0_0000_0000_0000

  lemma {:induction false} LowAndHigh(a: seq<byte>, k: nat)
    requires k <= |a|
    ensures FromLE(a) == FromLE(a[..k]) + Pow256(k) * FromLE(a[k..]) && FromLE(a[..k]) < Pow256(k)
    decreases k
  {
    if k > 0 {
      LowAndHigh(a[1..], k - 1);
      assert a[1..][..k - 1] == a[..k][1..] && a[1..][k - 1..] == a[k..];
      Times256(Pow256(k - 1), FromLE(a[k..]));
    }
  }

  lemma Times256(p: nat, t: nat)
    ensures (256 * p) * t == 256 * (p * t)
  {
  }

  lemma {:induction false} NoBitsIff(a: seq<byte>)
    ensures FromLE(a) == 0 <==> forall i :: 0 <= i < |a| ==> a[i] == 0
  {
    if a != [] {
      NoBitsIff(a[1..]);
      assert forall i :: 0 <= i < |a| ==> a[i] == if i == 0 then a[0] else a[1..][i - 1];
    }
  }

  lemma TopBits(low: nat, m: nat, h: nat)
    requires low < 0x1_0000_0000_0000 && m < 256
    ensures (low + 0x1_0000_0000_0000 * m + 0x100_0000_0000_0000 * h) % 0x8000_0000_0000_0000
            == low + 0x1_0000_0000_0000 * m + 0x100_0000_0000_0000 * (h % 128)
  {
    assert h == 128 * (h / 128) + h % 128;
  }

  lemma MagnitudeOf(a: seq<byte>)
    requires |a| == 8
    ensures FromLE(a[..6]) < 0x1_0000_0000_0000
    ensures Magnitude(a)
            == FromLE(a[..6]) + 0x1_0000_0000_0000 * a[6] as int + 0x100_0000_0000_0000 * (a[7] as int % 128)
  {
    LowAndHigh(a, 6);
    SixBytes();
    LastTwo(a);
    hide FromLE, Pow256;
    TopBits(FromLE(a[..6]), a[6], a[7]);
  }

  lemma SixBytes()
    ensures Pow256(6) == 0x1_0000_0000_0000
  {
    Pow256Values();
    assert Pow256(5) == 256 * Pow256(4) && Pow256(6) == 256 * Pow256(5);
  }

  lemma LastTwo(a: seq<byte>)
    requires |a| == 8
    ensures FromLE(a[6..]) == a[6] as int + 256 * a[7] as int
  {
    assert a[6..][1..] == [a[7]] && [a[7]][1..] == [];
    assert FromLE([a[7]]) == a[7];
  }

  /** Not-a-number lies above infinity, the zeros at 0. */
  lemma DoubleBits(a: seq<byte>)
    requires |a| == 8
    ensures IsNaN(a) <==> Magnitude(a) > INFINITY
    ensures IsZero(a) <==> Magnitude(a) == 0
  {
    MagnitudeOf(a);
    NoBitsIff(a[..6]);
    hide Magnitude, FromLE;
    assert FromLE(a[..6]) > 0 <==> exists i :: 0 <= i < 6 && a[i] != 0;
  }

  lemma {:induction false} SameBytes(a: seq<byte>, b: seq<byte>)
    requires |a| == |b| && FromLE(a) == FromLE(b)
    ensures a == b
  {
    hide FromLE;
    if a != [] {
      FirstByte(a);
      FirstByte(b);
      SameBytes(a[1..], b[1..]);
      assert a == [a[0]] + a[1..] && b == [b[0]] + b[1..];
    }
  }

  lemma FirstByte(a: seq<byte>)
    requires a != []
    ensures FromLE(a) % 256 == a[0] && FromLE(a) / 256 == FromLE(a[1..])
  {
  }

  /** The comparison of two doubles, on their bits as numbers. */
  predicate SameNumber(a: seq<byte>, b: seq<byte>) {
    Magnitude(a) <= INFINITY && Magnitude(b) <= INFINITY
    && (FromLE(a) == FromLE(b) || Magnitude(a) == Magnitude(b) == 0)
  }

  lemma SameDoubleIff(a: seq<byte>, b: seq<byte>)
    requires |a| == |b| == 8
    ensures SameDouble(a, b) <==> SameNumber(a, b)
  {
    hide IsNaN, IsZero, Magnitude, FromLE;
    DoubleBits(a);
    DoubleBits(b);
    if FromLE(a) == FromLE(b) {
      SameBytes(a, b);
    }
  }
}
