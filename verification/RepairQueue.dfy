/**
  The bounded priority buffer of a repair pass (repair.rs): degraded chunks are kept up
  to a limit, the least endangered giving way, and repaired in ascending margin.
 */
module RepairQueue {

  const MAX_PENDING_REPAIRS: nat := 4096

  /** A degraded chunk; `margin` is how many further losses it can absorb. */
  datatype Degraded = Degraded(chunk: nat, margin: nat)

  /** How many of `s` have a margin of at most `m`. */
  function UpTo(s: seq<Degraded>, m: nat): nat {
    if s == [] then 0
    else UpTo(s[..|s| - 1], m) + (if s[|s| - 1].margin <= m then 1 else 0)
  }

  function Min(a: nat, b: nat): nat {
    if a < b then a else b
  }

  /** `heap` has the margins of the `cap` smallest of `seen`: at every threshold it counts
      as many as there are, up to the limit. */
  ghost predicate KeepsSmallest(heap: seq<Degraded>, seen: seq<Degraded>, cap: nat) {
    forall m: nat :: UpTo(heap, m) == Min(cap, UpTo(seen, m))
  }

  lemma UpToSnoc(s: seq<Degraded>, d: Degraded, m: nat)
    ensures UpTo(s + [d], m) == UpTo(s, m) + if d.margin <= m then 1 else 0
  {
    assert (s + [d])[..|s|] == s;
  }

  lemma {:induction false} UpToReplace(s: seq<Degraded>, i: nat, d: Degraded, m: nat)
    requires i < |s|
    ensures UpTo(s[i := d], m) + (if s[i].margin <= m then 1 else 0) == UpTo(s, m) + if d.margin <= m then 1 else 0
  {
    var n := |s| - 1;
    if i == n {
      assert s[i := d][..n] == s[..n];
    } else {
      assert s[i := d][..n] == s[..n][i := d];
      UpToReplace(s[..n], i, d, m);
    }
  }

  lemma {:induction false} UpToBound(s: seq<Degraded>, m: nat)
    ensures UpTo(s, m) <= |s|
    ensures (forall k :: 0 <= k < |s| ==> s[k].margin <= m) ==> UpTo(s, m) == |s|
    ensures (exists k :: 0 <= k < |s| && s[k].margin > m) ==> UpTo(s, m) < |s|
  {
    if s != [] {
      var init := s[..|s| - 1];
      UpToBound(init, m);
      if k :| 0 <= k < |s| && s[k].margin > m {
        assert k < |init| ==> init[k].margin > m;
      }
    }
  }

  ghost predicate Largest(heap: seq<Degraded>, w: nat) {
    w < |heap| && forall k :: 0 <= k < |heap| ==> heap[k].margin <= heap[w].margin
  }

  /** The full buffer meets one more chunk: swap it for the least endangered one if it is
      worse off than that, else drop it.  Either way the smallest margins are kept. */
  lemma FullBufferStep(heap: seq<Degraded>, seen: seq<Degraded>, w: nat, d: Degraded, m: nat)
    requires KeepsSmallest(heap, seen, |heap|) && Largest(heap, w)
    ensures UpTo(if heap[w].margin > d.margin then heap[w := d] else heap, m) == Min(|heap|, UpTo(seen + [d], m))
  {
    UpToSnoc(seen, d, m);
    UpToReplace(heap, w, d, m);
    UpToBound(heap, m);
    assert UpTo(heap, m) == Min(|heap|, UpTo(seen, m));
    if heap[w].margin <= m {
      forall k | 0 <= k < |heap| ensures heap[k].margin <= m {
      }
    }
  }

  lemma SwapWithin(heap: seq<Degraded>, seen: seq<Degraded>, w: nat, d: Degraded)
    requires multiset(heap) <= multiset(seen) && w < |heap|
    ensures multiset(heap[w := d]) <= multiset(seen + [d])
  {
    assert multiset(heap[w := d]) == multiset(heap) - multiset{heap[w]} + multiset{d};
    assert multiset(seen + [d]) == multiset(seen) + multiset{d};
  }

  predicate Ascending(s: seq<Degraded>) {
    forall i, j :: 0 <= i < j < |s| ==> s[i].margin <= s[j].margin
  }

  class PendingRepairs {
    /** The buffered chunks, in no particular order. */
    var heap: seq<Degraded>
    var deferred: nat
    /** Every chunk pushed so far. */
    ghost var seen: seq<Degraded>

    ghost predicate Valid()
      reads this
    {
      && |heap| == Min(MAX_PENDING_REPAIRS, |seen|)
      && KeepsSmallest(heap, seen, MAX_PENDING_REPAIRS)
      && multiset(heap) <= multiset(seen)
      && |heap| + deferred == |seen|
    }

    constructor ()
      ensures Valid() && seen == []
    {
      heap, deferred, seen := [], 0, [];
    }

    /** The position of a least endangered chunk. */
    method Peek() returns (w: nat)
      requires heap != []
      ensures Largest(heap, w)
    {
      w := 0;
      for k := 1 to |heap|
        invariant w < k && forall j :: 0 <= j < k ==> heap[j].margin <= heap[w].margin
      {
        if heap[k].margin > heap[w].margin {
          w := k;
        }
      }
    }

    /** Whatever the sequence of pushes, the buffer holds exactly the smallest margins
        seen, and buffered plus deferred is everything seen. */
    method Push(d: Degraded)
      requires Valid()
      modifies this
      ensures Valid() && seen == old(seen) + [d]
    {
      if |heap| < MAX_PENDING_REPAIRS {
        forall m: nat ensures UpTo(heap + [d], m) == Min(MAX_PENDING_REPAIRS, UpTo(seen + [d], m)) {
          UpToSnoc(heap, d, m);
          UpToSnoc(seen, d, m);
          UpToBound(seen, m);
          assert UpTo(heap, m) == Min(MAX_PENDING_REPAIRS, UpTo(seen, m));
        }
        heap := heap + [d];
        seen := seen + [d];
        return;
      }
      var w := Peek();
      forall m: nat
        ensures UpTo(if heap[w].margin > d.margin then heap[w := d] else heap, m) == Min(MAX_PENDING_REPAIRS, UpTo(seen + [d], m))
      {
        FullBufferStep(heap, seen, w, d, m);
      }
      SwapWithin(heap, seen, w, d);
      if heap[w].margin > d.margin {
        heap := heap[w := d];
      }
      deferred := deferred + 1;
      seen := seen + [d];
    }

    /** The repair order: the buffered chunks, smallest margin first. */
    method IntoSorted() returns (order: seq<Degraded>)
      requires Valid()
      ensures multiset(order) == multiset(heap) && Ascending(order)
      ensures KeepsSmallest(order, seen, MAX_PENDING_REPAIRS)
    {
      order := [];
      for n := 0 to |heap|
        invariant multiset(order) == multiset(heap[..n]) && Ascending(order)
        invariant forall m: nat :: UpTo(order, m) == UpTo(heap[..n], m)
      {
        assert heap[..n + 1] == heap[..n] + [heap[n]];
        forall m: nat ensures UpTo(heap[..n + 1], m) == UpTo(heap[..n], m) + if heap[n].margin <= m then 1 else 0 {
          UpToSnoc(heap[..n], heap[n], m);
        }
        order := InsertSorted(order, heap[n]);
      }
      assert heap[..|heap|] == heap;
    }
  }

  method InsertSorted(s: seq<Degraded>, d: Degraded) returns (r: seq<Degraded>)
    requires Ascending(s)
    ensures Ascending(r) && multiset(r) == multiset(s) + multiset{d}
    ensures forall m: nat :: UpTo(r, m) == UpTo(s, m) + if d.margin <= m then 1 else 0
  {
    var k := 0;
    while k < |s| && s[k].margin <= d.margin
      invariant 0 <= k <= |s| && forall j :: 0 <= j < k ==> s[j].margin <= d.margin
    {
      k := k + 1;
    }
    r := s[..k] + [d] + s[k..];
    assert s == s[..k] + s[k..];
    forall m: nat ensures UpTo(r, m) == UpTo(s, m) + if d.margin <= m then 1 else 0 {
      UpToConcat(s[..k], s[k..], m);
      UpToConcat(s[..k] + [d], s[k..], m);
      UpToSnoc(s[..k], d, m);
    }
  }

  lemma {:induction false} UpToConcat(a: seq<Degraded>, b: seq<Degraded>, m: nat)
    ensures UpTo(a + b, m) == UpTo(a, m) + UpTo(b, m)
  {
    if b == [] {
      assert a + b == a;
    } else {
      var n := |b| - 1;
      assert a + b == (a + b[..n]) + [b[n]];
      UpToConcat(a, b[..n], m);
      UpToSnoc(a + b[..n], b[n], m);
    }
  }
}
