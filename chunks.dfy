/** The `chunks` generator of train_memory.py and the step chunking built
    from it: successive slices `lst[i:i + n]` for `i` in `range(0, len(lst), n)`. */
module Chunking {
  import opened PyErrors

  /** The chunks for a positive step `n`. */
  function ChunksOf<T>(lst: seq<T>, n: nat): seq<seq<T>>
    requires n > 0
    decreases |lst|
  {
    if |lst| == 0 then []
    else if |lst| <= n then [lst]
    else [lst[..n]] + ChunksOf(lst[n..], n)
  }

  /** chunks(lst, n) as a list: `range` refuses a zero step, and a negative
      step gives an empty range, so no chunks. */
  function Chunks<T>(lst: seq<T>, n: int): (r: Result<seq<seq<T>>>)
    ensures r.Raise? <==> n == 0
    ensures n < 0 ==> r == Ok([])
    ensures n > 0 ==> r == Ok(ChunksOf(lst, n))
  {
    if n == 0 then Raise(ValueError)
    else if n < 0 then Ok([])
    else Ok(ChunksOf(lst, n))
  }

  /** The concatenation of a list of lists. */
  function Flatten<T>(css: seq<seq<T>>): seq<T>
    decreases |css|
  {
    if css == [] then [] else css[0] + Flatten(css[1..])
  }

  /** Concatenating the chunks gives back the list. */
  lemma {:induction false} ChunksConcat<T>(lst: seq<T>, n: nat)
    requires n > 0
    ensures Flatten(ChunksOf(lst, n)) == lst
    decreases |lst|
  {
    if |lst| > n {
      ChunksConcat(lst[n..], n);
      assert ChunksOf(lst, n)[1..] == ChunksOf(lst[n..], n);
      assert lst[..n] + lst[n..] == lst;
    } else if |lst| > 0 {
      assert ChunksOf(lst, n)[1..] == [];
    }
  }

  /** Every chunk but the last holds exactly `n` items; the last is non-empty
      and holds at most `n`; there are ceil(len / n) chunks. */
  lemma {:induction false} ChunkSizes<T>(lst: seq<T>, n: nat)
    requires n > 0
    ensures var cs := ChunksOf(lst, n);
      && (forall c :: 0 <= c < |cs| - 1 ==> |cs[c]| == n)
      && (|cs| > 0 ==> 0 < |cs[|cs| - 1]| <= n)
      && (|cs| == 0 <==> |lst| == 0)
      && (|lst| > 0 ==> (|cs| - 1) * n < |lst| <= |cs| * n)
    decreases |lst|
  {
    var cs := ChunksOf(lst, n);
    if |lst| > n {
      ChunkSizes(lst[n..], n);
      var rest := ChunksOf(lst[n..], n);
      assert cs == [lst[..n]] + rest;
      assert forall c :: 1 <= c < |cs| ==> cs[c] == rest[c - 1];
      MulSucc(|cs|, n);
      MulSucc(|rest|, n);
    }
  }

  /** The number of chunks is `(len + n - 1) / n`, the ceiling of len / n. */
  lemma ChunkCount<T>(lst: seq<T>, n: nat)
    requires n > 0
    ensures |ChunksOf(lst, n)| == (|lst| + n - 1) / n
  {
    ChunkSizes(lst, n);
    var k := |ChunksOf(lst, n)|;
    var x := |lst| + n - 1;
    assert k * n <= x < k * n + n by {
      if |lst| > 0 {
        assert (k - 1) * n == k * n - n;
      }
    }
    DivUnique(x, n, k);
  }

  /** `x / n` is the `k` with `k * n <= x < k * n + n`. */
  lemma DivUnique(x: int, n: int, k: int)
    requires n > 0 && k * n <= x < k * n + n
    ensures x / n == k
  {
    var q, r := x / n, x % n;
    assert x == q * n + r && 0 <= r < n;
    if q < k {
      assert (q + 1) * n == q * n + n;
      MulMono(q + 1, k, n);
    } else if q > k {
      assert (k + 1) * n == k * n + n;
      MulMono(k + 1, q, n);
    }
  }

  /** One more row of `n`. */
  lemma MulSucc(c: int, n: int)
    ensures (c - 1) * n + n == c * n
  {
  }

  /** A slice of `lst[n..]` is the slice of `lst` shifted by `n`. */
  lemma SliceShift<T>(lst: seq<T>, n: nat, a: nat, e: nat)
    requires n <= |lst| && a <= e <= |lst| - n
    ensures lst[n..][a..e] == lst[a + n..e + n]
  {
  }

  /** Multiplying by a positive number keeps order. */
  lemma MulMono(a: int, b: int, n: int)
    requires a <= b && n > 0
    ensures a * n <= b * n
  {
    assert b * n - a * n == (b - a) * n;
  }

  /** Chunk `c` is the slice `lst[c * n : c * n + n]`. */
  lemma {:induction false} ChunkAt<T>(lst: seq<T>, n: nat, c: nat)
    requires n > 0 && c < |ChunksOf(lst, n)|
    ensures c * n < |lst|
    ensures ChunksOf(lst, n)[c] == lst[c * n .. if c * n + n <= |lst| then c * n + n else |lst|]
    decreases |lst|
  {
    if c > 0 {
      assert |lst| > n;
      var rest := lst[n..];
      assert ChunksOf(lst, n)[c] == ChunksOf(rest, n)[c - 1];
      ChunkAt(rest, n, c - 1);
      var a := (c - 1) * n;
      MulSucc(c, n);
      var e := if a + n <= |rest| then a + n else |rest|;
      SliceShift(lst, n, a, e);
    }
  }

  /** The step indices 0, 1, ..., m - 1. */
  function Range(m: nat): (r: seq<int>)
    ensures |r| == m && forall i :: 0 <= i < m ==> r[i] == i
  {
    seq(m, i => i)
  }

  /** Every step index falls in exactly one chunk of
      `chunks(range(n_steps), chunk_size)`. */
  lemma StepsCovered(nSteps: nat, n: nat, i: int)
    requires n > 0 && 0 <= i < nSteps
    ensures exists c :: 0 <= c < |ChunksOf(Range(nSteps), n)| && i in ChunksOf(Range(nSteps), n)[c]
    ensures forall c1, c2 :: 0 <= c1 < c2 < |ChunksOf(Range(nSteps), n)| ==>
              !(i in ChunksOf(Range(nSteps), n)[c1] && i in ChunksOf(Range(nSteps), n)[c2])
  {
    var cs := ChunksOf(Range(nSteps), n);
    StepInItsChunk(nSteps, n, i);
    forall c1, c2 | 0 <= c1 < c2 < |cs|
      ensures !(i in cs[c1] && i in cs[c2])
    {
      if i in cs[c1] && i in cs[c2] {
        InChunk(Range(nSteps), n, c1, i);
        InChunk(Range(nSteps), n, c2, i);
        assert (c1 + 1) * n == c1 * n + n;
        MulMono(c1 + 1, c2, n);
      }
    }
  }

  /** Step `i` lies in chunk `i / n`. */
  lemma StepInItsChunk(nSteps: nat, n: nat, i: int)
    requires n > 0 && 0 <= i < nSteps
    ensures i / n < |ChunksOf(Range(nSteps), n)| && i in ChunksOf(Range(nSteps), n)[i / n]
  {
    var lst := Range(nSteps);
    var cs := ChunksOf(lst, n);
    var c := i / n;
    DivBounds(i, n);
    ChunkSizes(lst, n);
    BelowCount(c, |cs|, n, i, |lst|);
    ChunkAt(lst, n, c);
    assert cs[c][i - c * n] == lst[i];
  }

  /** `i / n` is the `c` with `c * n <= i < c * n + n`. */
  lemma DivBounds(i: int, n: int)
    requires 0 <= i && n > 0
    ensures 0 <= i / n && (i / n) * n <= i < (i / n) * n + n
  {
    assert i == (i / n) * n + i % n;
  }

  /** A position below `len <= k * n` that starts at `c * n` has `c < k`. */
  lemma BelowCount(c: int, k: int, n: int, i: int, len: int)
    requires n > 0 && c * n <= i < len <= k * n
    ensures c < k
  {
    if c >= k {
      MulMono(k, c, n);
    }
  }

  /** An index found in chunk `c` of the range lies in `[c * n, c * n + n)`. */
  lemma InChunk(lst: seq<int>, n: nat, c: nat, i: int)
    requires n > 0 && c < |ChunksOf(lst, n)|
    requires forall j :: 0 <= j < |lst| ==> lst[j] == j
    requires i in ChunksOf(lst, n)[c]
    ensures c * n <= i < c * n + n
  {
    ChunkAt(lst, n, c);
    var s := ChunksOf(lst, n)[c];
    var j :| 0 <= j < |s| && s[j] == i;
    assert s[j] == lst[c * n + j];
  }
}
