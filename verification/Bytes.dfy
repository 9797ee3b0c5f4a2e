/** Bytes and fixed-width big-endian integers. */
module Bytes {

  type byte = b: int | 0 <= b < 256

  /** BLAKE3 as a free constructor: equal digests mean equal bytes. */
  datatype Digest = Blake3(of: seq<byte>)

  const U32: nat := 0x1_0000_0000
  const U64: nat := 0x1_0000_0000_0000_0000

  function Pow256(w: nat): (p: nat)
    ensures p > 0
  {
    if w == 0 then 1 else 256 * Pow256(w - 1)
  }

  lemma Widths()
    ensures Pow256(4) == U32 && Pow256(8) == U64
  {
    assert Pow256(4) == 256 * (256 * (256 * (256 * Pow256(0))));
    assert Pow256(8) == 256 * (256 * (256 * (256 * Pow256(4))));
  }

  /** The low `w` bytes of `n`, most significant first. */
  function Be(n: nat, w: nat): (s: seq<byte>)
    ensures |s| == w
  {
    if w == 0 then [] else Be(n / 256, w - 1) + [n % 256]
  }

  function FromBe(s: seq<byte>): nat {
    if s == [] then 0 else 256 * FromBe(s[..|s| - 1]) + s[|s| - 1]
  }

  /** Reading back what was written loses exactly what the width cannot hold. */
  lemma {:induction false} BeRoundTrip(n: nat, w: nat)
    requires n < Pow256(w)
    ensures FromBe(Be(n, w)) == n
  {
    if w > 0 {
      BeRoundTrip(n / 256, w - 1);
      assert Be(n, w)[..w - 1] == Be(n / 256, w - 1);
    }
  }

  lemma {:induction false} FromBeBound(s: seq<byte>)
    ensures FromBe(s) < Pow256(|s|)
    ensures Be(FromBe(s), |s|) == s
  {
    if s != [] {
      var init := s[..|s| - 1];
      FromBeBound(init);
      assert s == init + [s[|s| - 1]];
      assert (256 * FromBe(init) + s[|s| - 1]) / 256 == FromBe(init);
    }
  }

  /** The first byte weighs most. */
  lemma {:induction false} FirstByteFirst(s: seq<byte>)
    requires s != []
    ensures FromBe(s) == s[0] * Pow256(|s| - 1) + FromBe(s[1..])
  {
    if |s| > 1 {
      var n := |s| - 1;
      FirstByteFirst(s[..n]);
      assert s[1..][..n - 1] == s[..n][1..];
      assert 256 * (s[0] * Pow256(n - 1)) == s[0] * Pow256(n);
    } else {
      assert s[..0] == [] && s[1..] == [];
    }
  }

  lemma Be4(n: nat)
    requires n < U32
    ensures FromBe(Be(n, 4)) == n
  {
    Widths();
    BeRoundTrip(n, 4);
  }

  lemma Be8(n: nat)
    requires n < U64
    ensures FromBe(Be(n, 8)) == n
  {
    Widths();
    BeRoundTrip(n, 8);
  }

  /** Two concatenations of equally long heads are equal only piecewise. */
  lemma SplitEqual<T>(a: seq<T>, s: seq<T>, b: seq<T>, t: seq<T>)
    requires |a| == |b| && a + s == b + t
    ensures a == b && s == t
  {
    assert a == (a + s)[..|a|] && b == (b + t)[..|a|];
    assert s == (a + s)[|a|..] && t == (b + t)[|a|..];
  }

  lemma Cut<T>(s: seq<T>, i: nat, j: nat)
    requires i <= j <= |s|
    ensures s[i..] == s[i..j] + s[j..]
  {
  }

  lemma Rejoin<T>(a: seq<T>, b: seq<T>, i: nat, j: nat)
    requires i <= j <= |a| && j <= |b| && a[i..j] == b[i..j] && a[j..] == b[j..]
    ensures a[i..] == b[i..]
  {
    Cut(a, i, j);
    Cut(b, i, j);
  }
}
