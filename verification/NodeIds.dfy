/**
  160-bit node ids, their XOR distance and the bucket a distance falls into (dht.rs).
 */
module NodeIds {
  import opened Wrappers
  import opened Bytes

  const ID_LEN: nat := 20

  // ── Bits of a number below 2^n, the most significant first ─────────────────

  function Pow2(n: nat): (p: nat)
    ensures p > 0
  {
    if n == 0 then 1 else 2 * Pow2(n - 1)
  }

  predicate Top(x: nat, n: nat)
    requires n > 0
  {
    x >= Pow2(n - 1)
  }

  /** The number without its top bit. */
  function Low(x: nat, n: nat): nat
    requires n > 0
  {
    if Top(x, n) then x - Pow2(n - 1) else x
  }

  predicate BitOf(x: nat, n: nat, k: nat)
    requires k < n
    decreases n
  {
    if k == 0 then Top(x, n) else BitOf(Low(x, n), n - 1, k - 1)
  }

  function XorBits(x: nat, y: nat, n: nat): nat {
    if n == 0 then 0
    else (if Top(x, n) != Top(y, n) then Pow2(n - 1) else 0) + XorBits(Low(x, n), Low(y, n), n - 1)
  }

  function LeadingZeros(x: nat, n: nat): nat {
    if n == 0 || Top(x, n) then 0 else 1 + LeadingZeros(x, n - 1)
  }

  lemma {:induction false} XorBound(x: nat, y: nat, n: nat)
    ensures XorBits(x, y, n) < Pow2(n)
  {
    if n > 0 {
      XorBound(Low(x, n), Low(y, n), n - 1);
    }
  }

  /** The top bit and the rest of an XOR. */
  lemma XorParts(x: nat, y: nat, n: nat)
    requires n > 0
    ensures Top(XorBits(x, y, n), n) <==> Top(x, n) != Top(y, n)
    ensures Low(XorBits(x, y, n), n) == XorBits(Low(x, n), Low(y, n), n - 1)
  {
    XorBound(Low(x, n), Low(y, n), n - 1);
  }

  lemma {:induction false} XorZero(x: nat, y: nat, n: nat)
    requires x < Pow2(n) && y < Pow2(n)
    ensures XorBits(x, y, n) == 0 <==> x == y
  {
    if n > 0 {
      XorZero(Low(x, n), Low(y, n), n - 1);
    }
  }

  lemma {:induction false} XorCancel(x: nat, y: nat, z: nat, n: nat)
    requires x < Pow2(n) && y < Pow2(n) && XorBits(x, z, n) == XorBits(y, z, n)
    ensures x == y
  {
    if n > 0 {
      XorParts(x, z, n);
      XorParts(y, z, n);
      XorCancel(Low(x, n), Low(y, n), Low(z, n), n - 1);
    }
  }

  lemma {:induction false} XorBit(x: nat, y: nat, n: nat, k: nat)
    requires k < n
    ensures BitOf(XorBits(x, y, n), n, k) <==> BitOf(x, n, k) != BitOf(y, n, k)
  {
    XorParts(x, y, n);
    if k > 0 {
      XorBit(Low(x, n), Low(y, n), n - 1, k - 1);
    }
  }

  lemma {:induction false} LeadingZerosMeaning(x: nat, n: nat)
    requires 0 < x < Pow2(n)
    ensures LeadingZeros(x, n) < n && BitOf(x, n, LeadingZeros(x, n))
    ensures forall k: nat :: k < LeadingZeros(x, n) ==> !BitOf(x, n, k)
  {
    if !Top(x, n) {
      LeadingZerosMeaning(x, n - 1);
      forall k: nat | k < LeadingZeros(x, n) ensures !BitOf(x, n, k) {
        assert k > 0 ==> !BitOf(x, n - 1, k - 1);
      }
    }
  }

  lemma {:induction false} LeadingZerosOrder(x: nat, y: nat, n: nat)
    requires x < Pow2(n) && y < Pow2(n) && LeadingZeros(y, n) < LeadingZeros(x, n)
    ensures x < y
  {
    if !Top(y, n) {
      LeadingZerosOrder(x, y, n - 1);
    }
  }

  // ── Ids ────────────────────────────────────────────────────────────────────

  type NodeId = s: seq<byte> | |s| == 20 witness seq(20, _ => 0)

  function XorByte(x: byte, y: byte): byte {
    XorBound(x, y, 8);
    assert Pow2(8) == 256;
    XorBits(x, y, 8)
  }

  function Xor(a: NodeId, b: NodeId): NodeId {
    seq(ID_LEN, i requires 0 <= i < ID_LEN => XorByte(a[i], b[i]))
  }

  /** The first non-zero bit of `d` at or after byte `i`. */
  function FirstBitFrom(d: NodeId, i: nat): Option<nat>
    requires i <= ID_LEN
    decreases ID_LEN - i
  {
    if i == ID_LEN then None
    else if d[i] != 0 then Some(i * 8 + LeadingZeros(d[i], 8))
    else FirstBitFrom(d, i + 1)
  }

  function BucketIndex(d: NodeId): Option<nat> {
    FirstBitFrom(d, 0)
  }

  /** Bit `k` of an id, the most significant first. */
  predicate Bit(id: NodeId, k: nat)
    requires k < 160
  {
    BitOf(id[k / 8], 8, k % 8)
  }

  /** `i` is the most significant bit in which the two ids differ. */
  ghost predicate DifferFirstAt(a: NodeId, b: NodeId, i: nat) {
    && i < 160
    && Bit(a, i) != Bit(b, i)
    && forall k: nat :: k < i ==> Bit(a, k) == Bit(b, k)
  }

  lemma BytesDiffer(x: byte, y: byte)
    requires XorByte(x, y) != 0
    ensures var z := LeadingZeros(XorByte(x, y), 8);
      z < 8 && BitOf(x, 8, z) != BitOf(y, 8, z) && forall k: nat :: k < z ==> (BitOf(x, 8, k) <==> BitOf(y, 8, k))
  {
    assert Pow2(8) == 256;
    LeadingZerosMeaning(XorByte(x, y), 8);
    forall k: nat | k < 8 ensures BitOf(XorByte(x, y), 8, k) <==> BitOf(x, 8, k) != BitOf(y, 8, k) {
      XorBit(x, y, 8, k);
    }
  }

  lemma DifferInByte(a: NodeId, b: NodeId, i: nat)
    requires i < ID_LEN && (forall k :: 0 <= k < i ==> a[k] == b[k]) && XorByte(a[i], b[i]) != 0
    ensures DifferFirstAt(a, b, i * 8 + LeadingZeros(XorByte(a[i], b[i]), 8))
  {
    BytesDiffer(a[i], b[i]);
    var z := LeadingZeros(XorByte(a[i], b[i]), 8);
    assert (i * 8 + z) / 8 == i && (i * 8 + z) % 8 == z;
    forall k: nat | k < i * 8 + z ensures Bit(a, k) == Bit(b, k) {
      assert k / 8 <= i && (k / 8 == i ==> k % 8 < z);
    }
  }

  lemma {:induction false} FirstBitMeaning(a: NodeId, b: NodeId, d: NodeId, i: nat)
    requires i <= ID_LEN && d == Xor(a, b) && forall k :: 0 <= k < i ==> a[k] == b[k]
    ensures FirstBitFrom(d, i) == None ==> a == b
    ensures FirstBitFrom(d, i).Some? ==> DifferFirstAt(a, b, FirstBitFrom(d, i).value)
    decreases ID_LEN - i
  {
    if i < ID_LEN {
      assert Pow2(8) == 256;
      XorZero(a[i], b[i], 8);
      if d[i] == 0 {
        FirstBitMeaning(a, b, d, i + 1);
      } else {
        DifferInByte(a, b, i);
      }
    }
  }

  lemma {:induction false} NoDifference(d: NodeId, i: nat)
    requires i <= ID_LEN && forall k :: i <= k < ID_LEN ==> d[k] == 0
    ensures FirstBitFrom(d, i) == None
    decreases ID_LEN - i
  {
    if i < ID_LEN {
      NoDifference(d, i + 1);
    }
  }

  lemma FirstIsUnique(a: NodeId, b: NodeId, i: nat, j: nat)
    requires DifferFirstAt(a, b, i) && DifferFirstAt(a, b, j)
    ensures i == j
  {
  }

  /** A node's bucket is the position of the most significant bit in which its id
      differs from ours; only our own id has none. */
  lemma BucketIndexIff(a: NodeId, b: NodeId)
    ensures BucketIndex(Xor(a, b)) == None <==> a == b
    ensures forall i: nat :: BucketIndex(Xor(a, b)) == Some(i) <==> DifferFirstAt(a, b, i)
  {
    var r := BucketIndex(Xor(a, b));
    FirstBitMeaning(a, b, Xor(a, b), 0);
    if a == b {
      assert Pow2(8) == 256;
      forall k | 0 <= k < ID_LEN ensures Xor(a, b)[k] == 0 {
        XorZero(a[k], b[k], 8);
      }
      NoDifference(Xor(a, b), 0);
    }
    forall i: nat ensures r == Some(i) <==> DifferFirstAt(a, b, i) {
      if DifferFirstAt(a, b, i) && r.Some? {
        FirstIsUnique(a, b, i, r.value);
      }
    }
  }

  // ── The order of distances ─────────────────────────────────────────────────

  /** Big-endian comparison, from byte `i` on. */
  predicate LessFrom(d: NodeId, e: NodeId, i: nat)
    requires i <= ID_LEN
    decreases ID_LEN - i
  {
    i < ID_LEN && (d[i] < e[i] || (d[i] == e[i] && LessFrom(d, e, i + 1)))
  }

  predicate Less(d: NodeId, e: NodeId) {
    LessFrom(d, e, 0)
  }

  lemma {:induction false} LessTransFrom(c: NodeId, d: NodeId, e: NodeId, i: nat)
    requires i <= ID_LEN && LessFrom(c, d, i) && LessFrom(d, e, i)
    ensures LessFrom(c, e, i)
    decreases ID_LEN - i
  {
    if c[i] == d[i] == e[i] {
      LessTransFrom(c, d, e, i + 1);
    }
  }

  lemma {:induction false} LessTotalFrom(d: NodeId, e: NodeId, i: nat)
    requires i <= ID_LEN && forall k :: 0 <= k < i ==> d[k] == e[k]
    ensures !(LessFrom(d, e, i) && LessFrom(e, d, i))
    ensures d == e || LessFrom(d, e, i) || LessFrom(e, d, i)
    decreases ID_LEN - i
  {
    if i < ID_LEN && d[i] == e[i] {
      LessTotalFrom(d, e, i + 1);
    }
  }

  /** `k` is the first of `n` bits in which two numbers differ. */
  ghost predicate SplitAt(x: nat, y: nat, n: nat, k: nat) {
    k < n && BitOf(x, n, k) != BitOf(y, n, k) && forall j: nat :: j < k ==> BitOf(x, n, j) == BitOf(y, n, j)
  }

  lemma SplitBelow(x: nat, y: nat, n: nat, k: nat)
    requires 0 < k && SplitAt(x, y, n, k)
    ensures SplitAt(Low(x, n), Low(y, n), n - 1, k - 1)
  {
    var lx, ly, m := Low(x, n), Low(y, n), n - 1;
    forall j: nat | j < k - 1 ensures BitOf(lx, m, j) == BitOf(ly, m, j) {
      assert BitOf(x, n, j + 1) == BitOf(y, n, j + 1);
    }
  }

  /** Of two numbers the nearer to `z` is the one that agrees with it where they part. */
  lemma {:induction false} XorLess(x: nat, y: nat, z: nat, n: nat, k: nat)
    requires SplitAt(x, y, n, k)
    ensures XorBits(x, z, n) < XorBits(y, z, n) <==> BitOf(x, n, k) == BitOf(z, n, k)
    decreases n
  {
    XorBound(Low(x, n), Low(z, n), n - 1);
    XorBound(Low(y, n), Low(z, n), n - 1);
    if k > 0 {
      assert BitOf(x, n, 0) == BitOf(y, n, 0);
      SplitBelow(x, y, n, k);
      XorLess(Low(x, n), Low(y, n), Low(z, n), n - 1, k - 1);
    }
  }

  /** The XOR metric: `a` is nearer to the target than `b` if and only if it agrees with the
      target in the most significant bit in which the two differ. */
  lemma NearerIff(a: NodeId, b: NodeId, target: NodeId)
    ensures Less(Xor(a, target), Xor(b, target)) <==> exists i: nat :: DifferFirstAt(a, b, i) && Bit(a, i) == Bit(target, i)
  {
    if a == b {
      LessTotalFrom(Xor(a, target), Xor(b, target), 0);
    } else {
      var j := NearerFrom(a, b, target, 0);
      forall i: nat | DifferFirstAt(a, b, i) ensures i == j {
        FirstIsUnique(a, b, i, j);
      }
    }
  }

  lemma {:induction false} NearerFrom(a: NodeId, b: NodeId, target: NodeId, i: nat) returns (j: nat)
    requires i < ID_LEN && a != b && forall k :: 0 <= k < i ==> a[k] == b[k]
    ensures DifferFirstAt(a, b, j)
    ensures LessFrom(Xor(a, target), Xor(b, target), i) <==> Bit(a, j) == Bit(target, j)
    decreases ID_LEN - i
  {
    if a[i] == b[i] {
      assert i == ID_LEN - 1 ==> a == b;
      j := NearerFrom(a, b, target, i + 1);
    } else {
      j := NearerInByte(a, b, target, i);
    }
  }

  lemma NearerInByte(a: NodeId, b: NodeId, target: NodeId, i: nat) returns (j: nat)
    requires i < ID_LEN && a[i] != b[i] && forall k :: 0 <= k < i ==> a[k] == b[k]
    ensures DifferFirstAt(a, b, j)
    ensures LessFrom(Xor(a, target), Xor(b, target), i) <==> Bit(a, j) == Bit(target, j)
  {
    assert Pow2(8) == 256;
    XorZero(a[i], b[i], 8);
    BytesDiffer(a[i], b[i]);
    DifferInByte(a, b, i);
    var z := LeadingZeros(XorByte(a[i], b[i]), 8);
    j := i * 8 + z;
    assert j / 8 == i && j % 8 == z;
    XorLess(a[i], b[i], target[i], 8, z);
    XorLess(b[i], a[i], target[i], 8, z);
    assert Xor(a, target)[i] == XorBits(a[i], target[i], 8) && Xor(b, target)[i] == XorBits(b[i], target[i], 8);
  }

  /** No two nodes are equally far from a target. */
  lemma XorInjective(a: NodeId, b: NodeId, target: NodeId)
    requires Xor(a, target) == Xor(b, target)
    ensures a == b
  {
    assert Pow2(8) == 256;
    forall i | 0 <= i < ID_LEN ensures a[i] == b[i] {
      assert Xor(a, target)[i] == XorByte(a[i], target[i]) && Xor(b, target)[i] == XorByte(b[i], target[i]);
      XorCancel(a[i], b[i], target[i], 8);
    }
  }

  lemma {:induction false} FirstBitOrder(d: NodeId, e: NodeId, i: nat)
    requires i <= ID_LEN
    requires FirstBitFrom(d, i).Some? && FirstBitFrom(e, i).Some?
    requires FirstBitFrom(e, i).value < FirstBitFrom(d, i).value
    ensures LessFrom(d, e, i)
    decreases ID_LEN - i
  {
    if d[i] == 0 && e[i] == 0 {
      FirstBitOrder(d, e, i + 1);
    } else if d[i] != 0 && e[i] == 0 {
      assert Pow2(8) == 256;
      LeadingZerosMeaning(d[i], 8);
      FirstBitLater(e, i + 1);
    } else if d[i] != 0 {
      assert Pow2(8) == 256;
      LeadingZerosOrder(d[i], e[i], 8);
    }
  }

  lemma {:induction false} FirstBitLater(d: NodeId, i: nat)
    requires i <= ID_LEN
    ensures FirstBitFrom(d, i).Some? ==> i * 8 <= FirstBitFrom(d, i).value < 160
    decreases ID_LEN - i
  {
    if i < ID_LEN {
      assert Pow2(8) == 256;
      if d[i] != 0 {
        LeadingZerosMeaning(d[i], 8);
      }
      FirstBitLater(d, i + 1);
    }
  }

  /** Bucket 0 holds the FARTHEST nodes: every node of a lower bucket is farther from
      us than every node of a higher one. */
  lemma LowerBucketIsFarther(self: NodeId, near: NodeId, far: NodeId)
    requires near != self && far != self
    requires BucketIndex(Xor(self, far)).Some? && BucketIndex(Xor(self, near)).Some?
    requires BucketIndex(Xor(self, far)).value < BucketIndex(Xor(self, near)).value
    ensures Less(Xor(self, near), Xor(self, far))
  {
    FirstBitOrder(Xor(self, near), Xor(self, far), 0);
  }
}