/**
 * How a stream of records is cut into `insert_many` calls when the buffer is
 * flushed each time it reaches the batch size: full batches in order, and a
 * leftover tail shorter than one batch.
 */
module Batching {

  /** Concatenation of a sequence of batches, in order. */
  function Concat<T>(batches: seq<seq<T>>): seq<T> {
    if batches == [] then [] else batches[0] + Concat(batches[1..])
  }

  lemma {:induction false} ConcatSnoc<T>(batches: seq<seq<T>>, last: seq<T>)
    ensures Concat(batches + [last]) == Concat(batches) + last
  {
    if batches != [] {
      assert (batches + [last])[1..] == batches[1..] + [last];
      ConcatSnoc(batches[1..], last);
    }
  }

  lemma {:induction false} ConcatAppend<T>(front: seq<seq<T>>, back: seq<seq<T>>)
    ensures Concat(front + back) == Concat(front) + Concat(back)
    decreases |front|
  {
    if front != [] {
      assert (front + back)[1..] == front[1..] + back;
      ConcatAppend(front[1..], back);
    } else {
      assert front + back == back;
    }
  }

  lemma {:induction false} MulGrows(d: nat, b: nat)
    requires d >= 1
    ensures d * b >= b
    decreases d
  {
    if d > 1 {
      MulGrows(d - 1, b);
      assert d * b == (d - 1) * b + b;
    }
  }

  /** Euclidean division is determined by quotient and remainder. */
  lemma DivModUnique(n: int, b: int, q: int, r: int)
    requires b >= 1 && 0 <= r < b && n == q * b + r
    ensures n / b == q && n % b == r
  {
    var q', r' := n / b, n % b;
    assert n == q' * b + r' && 0 <= r' < b;
    if q' > q {
      MulGrows(q' - q, b);
      assert false;
    } else if q' < q {
      MulGrows(q - q', b);
      assert false;
    }
  }

  lemma DivModStep(n: nat, b: nat)
    requires b >= 1 && n >= b
    ensures n / b == (n - b) / b + 1 && n % b == (n - b) % b
  {
    var q, r := (n - b) / b, (n - b) % b;
    assert n == (q + 1) * b + r;
    DivModUnique(n, b, q + 1, r);
  }

  /** The batches written while streaming `s` with threshold `b`: only full ones. */
  function Batches<T>(s: seq<T>, b: nat): (r: seq<seq<T>>)
    requires b >= 1
    ensures forall i :: 0 <= i < |r| ==> |r[i]| == b
    decreases |s|
  {
    if |s| < b then [] else [s[..b]] + Batches(s[b..], b)
  }

  /** What is still in the buffer after streaming `s`: the tail after the last full batch. */
  function Leftover<T>(s: seq<T>, b: nat): (r: seq<T>)
    requires b >= 1
    ensures |r| < b
    decreases |s|
  {
    if |s| < b then s else Leftover(s[b..], b)
  }

  /** There are floor(|s| / b) full batches and |s| % b records left over. */
  lemma {:induction false} BatchCounts<T>(s: seq<T>, b: nat)
    requires b >= 1
    ensures |Batches(s, b)| == |s| / b
    ensures |Leftover(s, b)| == |s| % b
    decreases |s|
  {
    if |s| < b {
      DivModUnique(|s|, b, 0, |s|);
    } else {
      BatchCounts(s[b..], b);
      DivModStep(|s|, b);
    }
  }

  /** The written batches followed by the buffer give back the stream, in order. */
  lemma {:induction false} BatchesThenLeftover<T>(s: seq<T>, b: nat)
    requires b >= 1
    ensures Concat(Batches(s, b)) + Leftover(s, b) == s
    decreases |s|
  {
    if |s| >= b {
      var front, back := s[..b], s[b..];
      var full := Batches(s, b);
      assert full == [front] + Batches(back, b);
      assert full[0] == front && full[1..] == Batches(back, b);
      assert Concat(full) == front + Concat(Batches(back, b));
      BatchesThenLeftover(back, b);
      assert Leftover(s, b) == Leftover(back, b);
      assert front + back == s;
    }
  }

  /** Whatever was there before, then the full batches, then the buffer: the stream appended. */
  lemma WrittenThenBuffered<T>(before: seq<T>, s: seq<T>, b: nat)
    requires b >= 1
    ensures before + Concat(Batches(s, b)) + Leftover(s, b) == before + s
  {
    BatchesThenLeftover(s, b);
    assert before + Concat(Batches(s, b)) + Leftover(s, b) == before + (Concat(Batches(s, b)) + Leftover(s, b));
  }

  /**
   * Appending one record to the stream: it joins the buffer, and when the
   * buffer thereby reaches `b` records the buffer becomes one more batch and
   * is emptied.
   */
  lemma {:induction false} BatchesSnoc<T>(s: seq<T>, x: T, b: nat)
    requires b >= 1
    ensures |Leftover(s, b)| + 1 == b ==>
              Batches(s + [x], b) == Batches(s, b) + [Leftover(s, b) + [x]]
              && Leftover(s + [x], b) == []
    ensures |Leftover(s, b)| + 1 < b ==>
              Batches(s + [x], b) == Batches(s, b)
              && Leftover(s + [x], b) == Leftover(s, b) + [x]
    decreases |s|
  {
    if |s| >= b {
      assert (s + [x])[..b] == s[..b];
      assert (s + [x])[b..] == s[b..] + [x];
      BatchesSnoc(s[b..], x, b);
    } else if |s| + 1 == b {
      assert (s + [x])[b..] == [];
      assert (s + [x])[..b] == s + [x];
    }
  }

  /** Full batches plus, when non-empty, a final partial one: the intended flush-at-end behaviour. */
  function FlushedBatches<T>(s: seq<T>, b: nat): seq<seq<T>>
    requires b >= 1
  {
    Batches(s, b) + (if Leftover(s, b) == [] then [] else [Leftover(s, b)])
  }

  /**
   * With the final flush every record is written, in order, each call
   * non-empty and at most `b` long, and all but the last exactly `b`.
   */
  lemma FlushedBatchesComplete<T>(s: seq<T>, b: nat)
    requires b >= 1
    ensures Concat(FlushedBatches(s, b)) == s
    ensures forall i :: 0 <= i < |FlushedBatches(s, b)| ==> 0 < |FlushedBatches(s, b)[i]| <= b
    ensures forall i :: 0 <= i < |FlushedBatches(s, b)| - 1 ==> |FlushedBatches(s, b)[i]| == b
  {
    var full, rest := Batches(s, b), Leftover(s, b);
    BatchesThenLeftover(s, b);
    if rest == [] {
      assert FlushedBatches(s, b) == full;
      assert Concat(full) + [] == Concat(full);
    } else {
      ConcatSnoc(full, rest);
    }
  }

  /** With the final flush there are ceil(|s| / b) calls. */
  lemma FlushedBatchCount<T>(s: seq<T>, b: nat)
    requires b >= 1
    ensures |FlushedBatches(s, b)| == (|s| + b - 1) / b
  {
    BatchCounts(s, b);
    var q, r := |s| / b, |s| % b;
    assert |s| == q * b + r;
    if r == 0 {
      DivModUnique(|s| + b - 1, b, q, b - 1);
    } else {
      assert |s| + b - 1 == (q + 1) * b + (r - 1);
      DivModUnique(|s| + b - 1, b, q + 1, r - 1);
    }
  }

  /**
   * Without the final flush the records of a stream whose length is not a
   * multiple of `b` are not all written: exactly the last |s| % b are missing.
   */
  lemma UnflushedTailIsLost<T>(s: seq<T>, b: nat)
    requires b >= 1
    ensures Concat(Batches(s, b)) == s[..|s| - |s| % b]
    ensures |s| % b != 0 <==> Concat(Batches(s, b)) != s
  {
    BatchesThenLeftover(s, b);
    BatchCounts(s, b);
    var written, rest := Concat(Batches(s, b)), Leftover(s, b);
    assert written + rest == s;
    assert |written| == |s| - |s| % b;
    assert s[..|written|] == written;
  }
}
