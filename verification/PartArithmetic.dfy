/**
 How a stream is cut into parts of a fixed size
 (internal/objectstore/multipart.go:62-90, 178-206).
 */
module PartArithmetic {
  import opened Bytes

  predicate AllFull(bodies: seq<Bytes>, size: nat) {
    forall i | 0 <= i < |bodies| :: |bodies[i]| == size
  }

  /** All but the last exactly `size` long, the last not empty and not longer. */
  predicate IsCut(bodies: seq<Bytes>, size: nat) {
    bodies != [] ==>
      && AllFull(bodies[..|bodies| - 1], size)
      && 1 <= |bodies[|bodies| - 1]| <= size
  }

  /** The number of parts of `size` bytes that n bytes need: n / size rounded up. */
  function PartCount(n: nat, size: nat): nat
    requires size > 0
  {
    (n + size - 1) / size
  }

  /** Bytes i*size up to (i+1)*size of the data, or up to its end. */
  function PartAt(data: Bytes, size: nat, i: nat): Bytes
    requires size > 0 && i < PartCount(|data|, size)
  {
    PartStartsInside(|data|, size, i);
    data[i * size .. if (i + 1) * size <= |data| then (i + 1) * size else |data|]
  }

  lemma PartStartsInside(n: nat, size: nat, i: nat)
    requires size > 0 && i < PartCount(n, size)
    ensures 0 <= i * size < n
  {
    assert (i + 1) * size <= ((n + size - 1) / size) * size <= n + size - 1;
  }

  /** The reference answer: slice i for every i below the part count. */
  function Cut(data: Bytes, size: nat): seq<Bytes>
    requires size > 0
  {
    seq(PartCount(|data|, size), i requires 0 <= i < PartCount(|data|, size) => PartAt(data, size, i))
  }

  lemma {:induction false} FullLength(bodies: seq<Bytes>, size: nat)
    requires AllFull(bodies, size)
    ensures |Concat(bodies)| == |bodies| * size
  {
    if bodies != [] {
      FullLength(bodies[..|bodies| - 1], size);
      assert |bodies| * size == (|bodies| - 1) * size + size;
    }
  }

  lemma Distribute(i: nat, n: nat, size: nat)
    requires i < n
    ensures 0 <= i * size <= i * size + size == (i + 1) * size <= n * size
  {
    Monotone(i + 1, n, size);
  }

  lemma {:induction false} FullSlices(bodies: seq<Bytes>, size: nat, i: nat)
    requires AllFull(bodies, size) && i < |bodies|
    ensures 0 <= i * size <= (i + 1) * size <= |Concat(bodies)|
    ensures bodies[i] == Concat(bodies)[i * size .. (i + 1) * size]
  {
    var n := |bodies| - 1;
    FullLength(bodies, size);
    FullLength(bodies[..n], size);
    Distribute(i, |bodies|, size);
    if i < n {
      FullSlices(bodies[..n], size, i);
    }
  }

  /** A cut has the rounded-up number of parts and fits a budget of `urls` parts
      exactly when the data is not longer than urls * size. */
  lemma CutLength(bodies: seq<Bytes>, size: nat, urls: nat)
    requires size > 0 && IsCut(bodies, size)
    ensures |bodies| == PartCount(|Concat(bodies)|, size)
    ensures |bodies| <= urls <==> |Concat(bodies)| <= urls * size
  {
    if bodies != [] {
      var k := |bodies| - 1;
      FullLength(bodies[..k], size);
      ProductBetween(|Concat(bodies)|, size, k, urls);
    }
  }

  /** Arithmetic of k full parts and a last one that is not empty. */
  lemma ProductBetween(n: nat, size: nat, k: nat, urls: nat)
    requires size > 0 && k * size < n <= k * size + size
    ensures PartCount(n, size) == k + 1
    ensures k < urls <==> n <= urls * size
  {
    assert n + size - 1 == (k + 1) * size + (n - k * size - 1);
    Quotient(k + 1, size, n - k * size - 1);
    if k < urls {
      Monotone(k + 1, urls, size);
    } else {
      Monotone(urls, k, size);
    }
  }

  lemma Monotone(a: nat, b: nat, c: nat)
    requires a <= b
    ensures a * c <= b * c
  {
  }

  lemma {:induction false} Quotient(q: nat, d: nat, r: nat)
    requires r < d
    ensures (q * d + r) / d == q
  {
    var x := (q * d + r) / d;
    if x < q {
      Monotone(x + 1, q, d);
    } else if x > q {
      Monotone(q + 1, x, d);
    }
  }

  /** There is only one way to cut: every cut of the data is the reference answer. */
  lemma CutIsUnique(bodies: seq<Bytes>, size: nat)
    requires size > 0 && IsCut(bodies, size)
    ensures bodies == Cut(Concat(bodies), size)
  {
    var data := Concat(bodies);
    CutLength(bodies, size, 0);
    if bodies != [] {
      var n := |bodies| - 1;
      FullLength(bodies[..n], size);
      forall i | 0 <= i < |bodies| ensures bodies[i] == PartAt(data, size, i) {
        PartStartsInside(|data|, size, i);
        if i < n {
          FullSlices(bodies[..n], size, i);
        } else {
          assert (n + 1) * size == n * size + size;
        }
      }
    }
  }

  /** One more part after full ones is again a cut. */
  lemma ExtendCut(bodies: seq<Bytes>, body: Bytes, size: nat)
    requires AllFull(bodies, size) && 1 <= |body| <= size
    ensures IsCut(bodies + [body], size)
    ensures |body| == size ==> AllFull(bodies + [body], size)
  {
    assert (bodies + [body])[..|bodies|] == bodies;
  }
}
