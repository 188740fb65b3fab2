/** The step loop of train_memory.py that hands each step its batch of uids.
    `perm_uids` starts as a random permutation of the `n` uids; each step
    takes `perm_uids[:n_queried]` and keeps `perm_uids[n_queried:]`, drawing a
    fresh permutation first when fewer than `n_queried` uids remain. The
    random permutations are an input: `draw(k)` is the permutation returned by
    the k-th call of `torch.randperm`, counting the first from 0. The step
    submissions, the thread pool and the optimizer are not modelled. */
module Batching {
  import opened PyErrors
  import opened Chunking

  /** Where Python's `s[:k]` ends and `s[k:]` starts, negative `k` counting
      from the end. */
  function Cut(len: nat, k: int): (c: nat)
    ensures c <= len
    ensures 0 <= k <= len ==> c == k
    ensures k > len ==> c == len
  {
    if k >= 0 then (if k <= len then k else len)
    else if len + k >= 0 then len + k
    else 0
  }

  /** Python's `s[:k]`. */
  function Take<T>(s: seq<T>, k: int): seq<T> {
    s[..Cut(|s|, k)]
  }

  /** Python's `s[k:]`. */
  function Drop<T>(s: seq<T>, k: int): seq<T> {
    s[Cut(|s|, k)..]
  }

  /** No value occurs twice. */
  predicate Distinct(s: seq<int>) {
    forall i, j :: 0 <= i < j < |s| ==> s[i] != s[j]
  }

  /** No value of `a` occurs in `b`. */
  predicate Disjoint(a: seq<int>, b: seq<int>) {
    forall x :: x in a ==> x !in b
  }

  /** The loop's state: the remaining `perm_uids`, and the number of the
      permutation it is what is left of. */
  datatype UidState = UidState(perm: seq<int>, epoch: nat)

  /** The uids given to one step, and the number of the permutation they
      were taken from. */
  datatype Batch = Batch(uids: seq<int>, epoch: nat)

  /** The state before the first step: the first permutation. */
  function Initial(draw: nat -> seq<int>): UidState {
    UidState(draw(0), 0)
  }

  /** One iteration of `for i in chunk`: refresh when fewer than `n_queried`
      uids remain, hand out the first `n_queried`, keep the rest. */
  function Step(st: UidState, nQueried: int, draw: nat -> seq<int>): (Batch, UidState) {
    var cur := if |st.perm| < nQueried then UidState(draw(st.epoch + 1), st.epoch + 1) else st;
    (Batch(Take(cur.perm, nQueried), cur.epoch), UidState(Drop(cur.perm, nQueried), cur.epoch))
  }

  /** A step draws a fresh permutation exactly when fewer than `n_queried`
      uids remain; its batch followed by the uids it keeps make up the
      permutation in use; with enough uids it takes the first `n_queried`. */
  lemma StepShape(st: UidState, nQueried: int, draw: nat -> seq<int>)
    ensures var r := Step(st, nQueried, draw);
      && r.1.epoch == (if |st.perm| < nQueried then st.epoch + 1 else st.epoch)
      && r.0.epoch == r.1.epoch
      && r.0.uids + r.1.perm == (if |st.perm| < nQueried then draw(st.epoch + 1) else st.perm)
      && (0 <= nQueried <= |st.perm| ==> r.0.uids == st.perm[..nQueried] && r.1.perm == st.perm[nQueried..])
  {
    var cur := if |st.perm| < nQueried then draw(st.epoch + 1) else st.perm;
    assert Take(cur, nQueried) + Drop(cur, nQueried) == cur;
  }

  /** The batches of the first `k` steps, and the state after them. */
  function Run(k: nat, st: UidState, nQueried: int, draw: nat -> seq<int>): (r: (seq<Batch>, UidState))
    ensures |r.0| == k
    decreases k
  {
    if k == 0 then ([], st)
    else
      var prev := Run(k - 1, st, nQueried, draw);
      var next := Step(prev.1, nQueried, draw);
      (prev.0 + [next.0], next.1)
  }

  /** With at least `n_queried` uids in the network, every step receives
      exactly `n_queried` uids. */
  lemma {:induction false} BatchSizes(k: nat, st: UidState, nQueried: int, n: nat, draw: nat -> seq<int>)
    requires 0 <= nQueried <= n
    requires forall e: nat :: |draw(e)| == n
    ensures forall j :: 0 <= j < k ==> |Run(k, st, nQueried, draw).0[j].uids| == nQueried
    decreases k
  {
    if k > 0 {
      BatchSizes(k - 1, st, nQueried, n, draw);
      var prev := Run(k - 1, st, nQueried, draw);
      assert Run(k, st, nQueried, draw).0 == prev.0 + [Step(prev.1, nQueried, draw).0];
    }
  }

  /** A slice of a sequence holds only values of the sequence. */
  lemma SliceMembers(s: seq<int>, k: int)
    ensures forall x :: x in Take(s, k) ==> x in s
    ensures forall x :: x in Drop(s, k) ==> x in s
    ensures Distinct(s) ==> Distinct(Drop(s, k))
    ensures Distinct(s) ==> Disjoint(Take(s, k), Drop(s, k))
  {
    var c := Cut(|s|, k);
    assert Take(s, k) == s[..c] && Drop(s, k) == s[c..];
    if Distinct(s) {
      forall x | x in Take(s, k) ensures x !in Drop(s, k) {
        var i :| 0 <= i < c && s[i] == x;
        forall j | 0 <= j < |s| - c ensures s[c..][j] != x {
          assert s[c..][j] == s[c + j];
        }
      }
    }
  }

  /** What the loop keeps true of the batches handed out so far and the
      state after them: the remaining permutation has no repeats; no batch
      comes from a later permutation than the one in use; batches of the
      permutation in use share no uid with what remains of it; and any two
      batches taken from the same permutation share no uid. */
  predicate RunInv(bs: seq<Batch>, s: UidState) {
    && Distinct(s.perm)
    && (forall j :: 0 <= j < |bs| ==> bs[j].epoch <= s.epoch)
    && (forall j :: 0 <= j < |bs| && bs[j].epoch == s.epoch ==> Disjoint(bs[j].uids, s.perm))
    && (forall i, j :: 0 <= i < j < |bs| && bs[i].epoch == bs[j].epoch ==> Disjoint(bs[i].uids, bs[j].uids))
  }

  /** The loop keeps its invariant through every step. */
  lemma {:induction false} RunInvariant(k: nat, st: UidState, nQueried: int, draw: nat -> seq<int>)
    requires Distinct(st.perm)
    requires forall e: nat :: Distinct(draw(e))
    ensures RunInv(Run(k, st, nQueried, draw).0, Run(k, st, nQueried, draw).1)
    decreases k
  {
    if k > 0 {
      RunInvariant(k - 1, st, nQueried, draw);
      var prev := Run(k - 1, st, nQueried, draw);
      StepKeepsInv(prev.0, prev.1, nQueried, draw);
      var r := Run(k, st, nQueried, draw);
      assert r.0 == prev.0 + [Step(prev.1, nQueried, draw).0];
      assert r.1 == Step(prev.1, nQueried, draw).1;
    }
  }

  /** One step keeps the invariant. */
  lemma StepKeepsInv(bs: seq<Batch>, s0: UidState, nQueried: int, draw: nat -> seq<int>)
    requires RunInv(bs, s0)
    requires forall e: nat :: Distinct(draw(e))
    ensures RunInv(bs + [Step(s0, nQueried, draw).0], Step(s0, nQueried, draw).1)
  {
    var next := Step(s0, nQueried, draw);
    var b, s1 := next.0, next.1;
    var bs' := bs + [b];
    var refresh := |s0.perm| < nQueried;
    var cur := if refresh then draw(s0.epoch + 1) else s0.perm;
    assert b.uids == Take(cur, nQueried) && s1.perm == Drop(cur, nQueried);
    assert b.epoch == s1.epoch;
    SliceMembers(cur, nQueried);
    forall j | 0 <= j < |bs'| && bs'[j].epoch == s1.epoch
      ensures Disjoint(bs'[j].uids, s1.perm)
    {
      if j < |bs| {
        assert bs'[j] == bs[j];
        assert !refresh;
      }
    }
    forall i, j | 0 <= i < j < |bs'| && bs'[i].epoch == bs'[j].epoch
      ensures Disjoint(bs'[i].uids, bs'[j].uids)
    {
      assert bs'[i] == bs[i];
      if j == |bs| {
        assert !refresh;
      } else {
        assert bs'[j] == bs[j];
      }
    }
  }

  /** Batches taken between two refreshes are pairwise disjoint, when every
      permutation drawn has no repeats. */
  lemma BatchesDisjoint(k: nat, nQueried: int, draw: nat -> seq<int>, i: nat, j: nat)
    requires forall e: nat :: Distinct(draw(e))
    requires i < j < k
    requires Run(k, Initial(draw), nQueried, draw).0[i].epoch == Run(k, Initial(draw), nQueried, draw).0[j].epoch
    ensures Disjoint(Run(k, Initial(draw), nQueried, draw).0[i].uids, Run(k, Initial(draw), nQueried, draw).0[j].uids)
  {
    RunInvariant(k, Initial(draw), nQueried, draw);
  }

  /** The number of steps `range(n_steps)` chunked by `chunk_size` yields. */
  function StepCount(nSteps: int, chunkSize: int): nat {
    if chunkSize > 0 && nSteps > 0 then nSteps else 0
  }

  /** The loop over `step_chunks`: chunking `range(n_steps)` with a zero
      `chunk_size` raises; otherwise each chunk's steps are handed their
      batches in order, `perm_uids` carrying over from chunk to chunk. */
  method Schedule(nSteps: int, chunkSize: int, nQueried: int, draw: nat -> seq<int>) returns (r: Result<seq<Batch>>)
    ensures chunkSize == 0 <==> r.Raise?
    ensures r.Raise? ==> r.error == ValueError
    ensures r.Ok? ==> r.value == Run(StepCount(nSteps, chunkSize), Initial(draw), nQueried, draw).0
  {
    var steps := Range(if nSteps > 0 then nSteps else 0);
    var stepChunks :- Chunks(steps, chunkSize);
    StepChunksCover(nSteps, chunkSize);
    TotalLenFlatten(stepChunks);
    var batches := FireChunks(stepChunks, nQueried, draw);
    r := Ok(batches);
  }

  /** `for ci, chunk in enumerate(step_chunks)`: fire every chunk in turn,
      starting from the first permutation. */
  method FireChunks(stepChunks: seq<seq<int>>, nQueried: int, draw: nat -> seq<int>) returns (batches: seq<Batch>)
    ensures batches == Run(TotalLen(stepChunks), Initial(draw), nQueried, draw).0
  {
    var perm, epoch := draw(0), 0;
    batches := [];
    var ci := 0;
    ghost var done := 0;
    assert Run(0, Initial(draw), nQueried, draw) == ([], Initial(draw));
    while ci < |stepChunks|
      invariant 0 <= ci <= |stepChunks|
      invariant done == TotalLen(stepChunks[..ci])
      invariant (batches, UidState(perm, epoch)) == Run(done, Initial(draw), nQueried, draw)
    {
      assert stepChunks[..ci + 1][..ci] == stepChunks[..ci];
      batches, perm, epoch := FireChunk(stepChunks[ci], nQueried, draw, batches, perm, epoch, done);
      done := done + |stepChunks[ci]|;
      ci := ci + 1;
    }
    assert stepChunks[..ci] == stepChunks;
  }

  /** The chunks of `range(n_steps)` hold `StepCount` steps in all. */
  lemma StepChunksCover(nSteps: int, chunkSize: int)
    requires chunkSize != 0
    ensures |Flatten(Chunks(Range(if nSteps > 0 then nSteps else 0), chunkSize).value)| == StepCount(nSteps, chunkSize)
  {
    if chunkSize > 0 {
      ChunksConcat(Range(if nSteps > 0 then nSteps else 0), chunkSize);
    }
  }

  /** The loop over the steps of one chunk: before each step, refresh
      `perm_uids` when fewer than `n_queried` remain; hand the step
      `perm_uids[:n_queried]`; keep `perm_uids[n_queried:]`. `done` counts the
      steps fired before this chunk. */
  method FireChunk(chunk: seq<int>, nQueried: int, draw: nat -> seq<int>,
                   batches: seq<Batch>, perm: seq<int>, epoch: nat, ghost done: nat)
    returns (batches': seq<Batch>, perm': seq<int>, epoch': nat)
    requires (batches, UidState(perm, epoch)) == Run(done, Initial(draw), nQueried, draw)
    ensures (batches', UidState(perm', epoch')) == Run(done + |chunk|, Initial(draw), nQueried, draw)
  {
    batches', perm', epoch' := batches, perm, epoch;
    var j := 0;
    while j < |chunk|
      invariant 0 <= j <= |chunk|
      invariant (batches', UidState(perm', epoch')) == Run(done + j, Initial(draw), nQueried, draw)
    {
      ghost var st := UidState(perm', epoch');
      ghost var next := Step(st, nQueried, draw);
      assert Run(done + j + 1, Initial(draw), nQueried, draw) == (batches' + [next.0], next.1);
      if |perm'| < nQueried {
        epoch' := epoch' + 1;
        perm' := draw(epoch');
      }
      batches' := batches' + [Batch(Take(perm', nQueried), epoch')];
      perm' := Drop(perm', nQueried);
      j := j + 1;
    }
  }

  /** The number of items in a list of lists, counted chunk by chunk. */
  function TotalLen<T>(css: seq<seq<T>>): nat
    decreases |css|
  {
    if css == [] then 0 else TotalLen(css[..|css| - 1]) + |css[|css| - 1]|
  }

  /** Counting chunk by chunk gives the length of the concatenation. */
  lemma {:induction false} TotalLenFlatten<T>(css: seq<seq<T>>)
    ensures TotalLen(css) == |Flatten(css)|
    decreases |css|
  {
    if css != [] {
      var n := |css|;
      TotalLenFlatten(css[..n - 1]);
      FlattenSnoc(css, n - 1);
      assert css[..n] == css;
    }
  }

  /** Flattening one more chunk adds its length. */
  lemma {:induction false} FlattenSnoc<T>(css: seq<seq<T>>, i: nat)
    requires i < |css|
    ensures |Flatten(css[..i + 1])| == |Flatten(css[..i])| + |css[i]|
    decreases i
  {
    if i > 0 {
      assert css[..i + 1][1..] == css[1..][..i];
      assert css[..i][1..] == css[1..][..i - 1];
      FlattenSnoc(css[1..], i - 1);
    } else {
      assert css[..1][1..] == [];
    }
  }
}
