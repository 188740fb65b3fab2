/** The peer selection, response join and scoring bookkeeping of the template
    validator (bittensor/_neuron/text/template_validator/nucleus_impl.py).

    Tensors are flat sequences of reals. The numeric library operations and
    the helpers whose source is not part of this model are parameters with
    no properties assumed: the Gaussian noise (`noise(i)` is the i-th
    sample), `bittensor.unbiased_topk`, `F.softmax`, `F.normalize` and the
    Jacobian of the loss (given as its value, `grad`). The neural layers that
    produce the partial losses are not modelled: the partial losses are an
    input. */
module Validator {
  import opened PyErrors
  import opened Proto

  /** The slope `leaky_relu` applies to negative entries. */
  const NEGATIVE_SLOPE: real := 0.1

  /** A mask that holds nowhere counts zero. */
  lemma {:induction false} CountNone(mask: seq<bool>)
    requires forall i :: 0 <= i < |mask| ==> !mask[i]
    ensures CountTrue(mask) == 0
    decreases |mask|
  {
    if mask != [] {
      CountNone(mask[..|mask| - 1]);
    }
  }

  /** `torch.where(mask)[0]`: the positions where the mask holds, in
      increasing order. */
  function Where(mask: seq<bool>): (idx: seq<nat>)
    ensures |idx| == CountTrue(mask)
    ensures forall j :: 0 <= j < |idx| ==> idx[j] < |mask| && mask[idx[j]]
    ensures forall i :: 0 <= i < |mask| && mask[i] ==> i in idx
    ensures forall j, k :: 0 <= j < k < |idx| ==> idx[j] < idx[k]
    decreases |mask|
  {
    if mask == [] then []
    else
      var prev := Where(mask[..|mask| - 1]);
      if mask[|mask| - 1] then prev + [|mask| - 1] else prev
  }

  /** `metagraph.active > 0`, position by position. */
  function ActiveMask(active: seq<int>): (m: seq<bool>)
    ensures |m| == |active| && forall i :: 0 <= i < |active| ==> (m[i] <==> active[i] > 0)
  {
    seq(|active|, i requires 0 <= i < |active| => active[i] > 0)
  }

  /** `return_ops == Success`, position by position. */
  function SuccessMask(ops: seq<int>): (m: seq<bool>)
    ensures |m| == |ops| && forall i :: 0 <= i < |ops| ==> (m[i] <==> ops[i] == SUCCESS_CODE)
  {
    seq(|ops|, i requires 0 <= i < |ops| => ops[i] == SUCCESS_CODE)
  }

  /** `xs[idx]` for a tensor of indices: negative indices count from the end;
      any index outside the tensor raises IndexError. */
  function Gather<T>(xs: seq<T>, idx: seq<int>): (r: Result<seq<T>>)
    ensures r.Raise? <==> exists j :: 0 <= j < |idx| && !(-|xs| <= idx[j] < |xs|)
    ensures r.Raise? ==> r.error == IndexError
    ensures r.Ok? ==> |r.value| == |idx|
    ensures r.Ok? ==> forall j :: 0 <= j < |idx| ==> r.value[j] == xs[if idx[j] < 0 then idx[j] + |xs| else idx[j]]
    decreases |idx|
  {
    if idx == [] then Ok([])
    else
      var prev :- Gather(xs, idx[..|idx| - 1]);
      var i := idx[|idx| - 1];
      if !(-|xs| <= i < |xs|) then Raise(IndexError)
      else
        assert forall j :: 0 <= j < |idx| - 1 ==> idx[..|idx| - 1][j] == idx[j];
        Ok(prev + [xs[if i < 0 then i + |xs| else i]])
  }

  /** `min(a, b, c)`. */
  function Min3(a: int, b: int, c: int): (m: int)
    ensures m <= a && m <= b && m <= c
    ensures m == a || m == b || m == c
  {
    if a <= b && a <= c then a else if b <= c then b else c
  }

  /** `torch.where(active > 0)[0]`: the active uids, in increasing order. */
  function ActiveUids(active: seq<int>): (uids: seq<nat>)
    ensures forall i :: i in uids <==> 0 <= i < |active| && active[i] > 0
    ensures forall j, k :: 0 <= j < k < |uids| ==> uids[j] < uids[k]
  {
    Where(ActiveMask(active))
  }

  /** `peer_weights[active_uids]`: the weight of each active uid, in order;
      an active uid past the weight vector raises IndexError. */
  function ActiveWeights(active: seq<int>, peerWeights: seq<real>): (r: Result<seq<real>>)
    ensures r.Raise? <==> exists i :: |peerWeights| <= i < |active| && active[i] > 0
    ensures r.Raise? ==> r.error == IndexError
    ensures r.Ok? ==> |r.value| == |ActiveUids(active)|
    ensures r.Ok? ==> forall j :: 0 <= j < |r.value| ==> ActiveUids(active)[j] < |peerWeights|
    ensures r.Ok? ==> forall j :: 0 <= j < |r.value| ==> r.value[j] == peerWeights[ActiveUids(active)[j]]
  {
    GatherActiveRaises(active, peerWeights);
    Gather(peerWeights, ActiveUids(active))
  }

  /** Indexing the weights by the active uids fails exactly when an active
      uid lies past the weight vector. */
  lemma GatherActiveRaises(active: seq<int>, peerWeights: seq<real>)
    ensures Gather(peerWeights, ActiveUids(active)).Raise? <==> exists i :: |peerWeights| <= i < |active| && active[i] > 0
  {
    var uids := ActiveUids(active);
    var r := Gather(peerWeights, uids);
    if r.Raise? {
      var j :| 0 <= j < |uids| && !(-|peerWeights| <= uids[j] < |peerWeights|);
      assert uids[j] in uids;
    }
    if i :| |peerWeights| <= i < |active| && active[i] > 0 {
      assert i in uids;
    }
  }

  /** The noisy top-k: Gaussian noise, scaled by the standard deviation of
      the active weights, is added to them, `unbiased_topk` picks `k` of
      them, and the chosen indices are mapped back to uids. Every uid chosen
      is an active uid. `torch.std` of fewer than two weights is nan, and
      `torch.normal` refuses a nan deviation with RuntimeError. */
  function NoisyTopk(activeUids: seq<nat>, activeWeights: seq<real>, k: int, noise: nat -> real,
                     unbiasedTopk: (seq<real>, int) -> (seq<real>, seq<int>)): (r: Result<(seq<real>, seq<nat>)>)
    ensures r.Ok? ==> forall j :: 0 <= j < |r.value.1| ==> r.value.1[j] in activeUids
    ensures r.Ok? ==> |r.value.1| == |unbiasedTopk(seq(|activeWeights|, i requires 0 <= i < |activeWeights| => activeWeights[i] + noise(i)), k).1|
    ensures r.Ok? ==> var c := unbiasedTopk(seq(|activeWeights|, i requires 0 <= i < |activeWeights| => activeWeights[i] + noise(i)), k);
              r.value.0 == c.0 && Gather(activeUids, c.1) == Ok(r.value.1)
    ensures r == Raise(RuntimeError) <==> |activeWeights| < 2
    ensures r.Raise? ==> r.error == RuntimeError || r.error == IndexError
  {
    if |activeWeights| < 2 then Raise(RuntimeError)
    else
      var noisy := seq(|activeWeights|, i requires 0 <= i < |activeWeights| => activeWeights[i] + noise(i));
      var chosen := unbiasedTopk(noisy, k);
      var uids :- Gather(activeUids, chosen.1);
      Ok((chosen.0, uids))
  }

  /** What `query` selects before it calls the network. */
  datatype Selection = Selection(activeUids: seq<nat>, activeWeights: seq<real>, realTopk: int,
                                 topkWeights: seq<real>, topkUids: seq<nat>)

  /** The selection step of `Validator.query`: the active uids and their
      weights; `real_topk`, the configured topk bounded by the peer count and
      the number of active uids; the noisy top-k over the active weights; and
      the uids the chosen indices stand for. */
  function Select(topk: int, n: int, active: seq<int>, peerWeights: seq<real>,
                  noise: nat -> real, unbiasedTopk: (seq<real>, int) -> (seq<real>, seq<int>)): (r: Result<Selection>)
    ensures r.Ok? ==> forall i :: i in r.value.activeUids <==> 0 <= i < |active| && active[i] > 0
    ensures r.Ok? ==> forall j, k :: 0 <= j < k < |r.value.activeUids| ==> r.value.activeUids[j] < r.value.activeUids[k]
    ensures r.Ok? ==> |r.value.activeWeights| == |r.value.activeUids|
    ensures r.Ok? ==> forall j :: 0 <= j < |r.value.activeUids| ==> r.value.activeUids[j] < |peerWeights|
    ensures r.Ok? ==> forall j :: 0 <= j < |r.value.activeUids| ==> r.value.activeWeights[j] == peerWeights[r.value.activeUids[j]]
    ensures r.Ok? ==> r.value.realTopk == Min3(topk, n, |r.value.activeUids|)
    ensures r.Ok? ==> forall j :: 0 <= j < |r.value.topkUids| ==> r.value.topkUids[j] in r.value.activeUids
    ensures r.Ok? ==> NoisyTopk(r.value.activeUids, r.value.activeWeights, r.value.realTopk, noise, unbiasedTopk)
                      == Ok((r.value.topkWeights, r.value.topkUids))
    ensures r.Ok? ==> |r.value.activeUids| >= 2
    ensures (exists i :: |peerWeights| <= i < |active| && active[i] > 0) ==> r == Raise(IndexError)
    ensures (forall i :: |peerWeights| <= i < |active| ==> active[i] <= 0) ==>
              (r == Raise(RuntimeError) <==> |ActiveUids(active)| < 2)
    ensures r.Raise? ==> r.error == RuntimeError || r.error == IndexError
  {
    var activeUids := ActiveUids(active);
    var activeWeights :- ActiveWeights(active, peerWeights);
    var realTopk := Min3(topk, n, |activeUids|);
    var chosen :- NoisyTopk(activeUids, activeWeights, realTopk, noise, unbiasedTopk);
    Ok(Selection(activeUids, activeWeights, realTopk, chosen.0, chosen.1))
  }

  /** `topk_weights[mask]`: the entries where the mask holds, in order; a mask
      of another length raises IndexError. */
  function MaskSelect(xs: seq<real>, mask: seq<bool>): (r: Result<seq<real>>)
    ensures r.Raise? <==> |xs| != |mask|
    ensures r.Ok? ==> |r.value| == CountTrue(mask)
    ensures r.Ok? ==> forall j :: 0 <= j < |r.value| ==> r.value[j] == xs[Where(mask)[j]]
  {
    if |xs| != |mask| then Raise(IndexError)
    else
      var idx := Where(mask);
      Ok(seq(|idx|, j requires 0 <= j < |idx| => xs[idx[j]]))
  }

  /** The all-zero tensor. */
  function Zeros(size: nat): (z: seq<real>)
    ensures |z| == size && forall e :: 0 <= e < size ==> z[e] == 0.0
  {
    seq(size, e => 0.0)
  }

  /** `acc + v * w`, elementwise. */
  function AddScaled(acc: seq<real>, v: seq<real>, w: real): (r: seq<real>)
    requires |acc| == |v|
    ensures |r| == |acc|
  {
    seq(|acc|, e requires 0 <= e < |acc| => acc[e] + v[e] * w)
  }

  /** The output after the first `k` passes of the join loop: each pass adds
      the response of the next joining uid times its joining weight; a
      joining index past the uids or the responses raises IndexError, and a
      response of another size cannot be added. */
  function Accumulate(responses: seq<seq<real>>, uids: seq<nat>, weights: seq<real>, size: nat, k: nat): (r: Result<seq<real>>)
    requires k <= |weights|
    ensures r.Ok? ==> |r.value| == size
    decreases k
  {
    if k == 0 then Ok(Zeros(size))
    else
      var prev :- Accumulate(responses, uids, weights, size, k - 1);
      if k - 1 >= |uids| || uids[k - 1] >= |responses| then Raise(IndexError)
      else if |responses[uids[k - 1]]| != size then Raise(RuntimeError)
      else Ok(AddScaled(prev, responses[uids[k - 1]], weights[k - 1]))
  }

  /** Once a pass of the join raises, the loop ends with that error. */
  lemma {:induction false} AccumulateStaysRaised(responses: seq<seq<real>>, uids: seq<nat>, weights: seq<real>,
                                                 size: nat, k: nat, k': nat)
    requires k <= k' <= |weights|
    ensures Accumulate(responses, uids, weights, size, k).Raise? ==>
              Accumulate(responses, uids, weights, size, k') == Accumulate(responses, uids, weights, size, k)
    decreases k' - k
  {
    if k < k' {
      AccumulateStaysRaised(responses, uids, weights, size, k, k' - 1);
    }
  }

  /** The join as a whole: success positions, their softmaxed weights, and
      the weighted sum of their responses into a zero tensor. */
  function JoinSpec(ops: seq<int>, topkWeights: seq<real>, responses: seq<seq<real>>,
                    softmax: seq<real> -> seq<real>, size: nat): (r: Result<seq<real>>)
    ensures r.Ok? ==> |r.value| == size
  {
    var mask := SuccessMask(ops);
    var masked :- MaskSelect(topkWeights, mask);
    var weights := softmax(masked);
    Accumulate(responses, Where(mask), weights, size, |weights|)
  }

  /** `output += v * w`: add a scaled tensor in place, entry by entry. */
  method AddInPlace(output: array<real>, v: seq<real>, w: real)
    requires output.Length == |v|
    modifies output
    ensures output[..] == AddScaled(old(output[..]), v, w)
  {
    var e := 0;
    while e < output.Length
      invariant 0 <= e <= output.Length
      invariant forall i :: 0 <= i < e ==> output[i] == old(output[i]) + v[i] * w
      invariant forall i :: e <= i < output.Length ==> output[i] == old(output[i])
    {
      output[e] := output[e] + v[e] * w;
      e := e + 1;
    }
    assert forall i :: 0 <= i < output.Length ==> output[..][i] == AddScaled(old(output[..]), v, w)[i];
  }

  /** The join loop of `Validator.query`: start from the zero tensor of the
      output shape and, for each joining weight in turn, add the response of
      the matching successful position times that weight, in place. */
  method Join(ops: seq<int>, topkWeights: seq<real>, responses: seq<seq<real>>,
              softmax: seq<real> -> seq<real>, size: nat) returns (r: Result<seq<real>>)
    ensures r == JoinSpec(ops, topkWeights, responses, softmax, size)
  {
    var mask := SuccessMask(ops);
    var joiningUids := Where(mask);
    var masked :- MaskSelect(topkWeights, mask);
    var joiningWeights := softmax(masked);
    r := JoinLoop(responses, joiningUids, joiningWeights, size);
  }

  /** The loop of the join: `output += responses[joining_uids[index]] *
      joining_weight` for each joining weight in turn. */
  method JoinLoop(responses: seq<seq<real>>, joiningUids: seq<nat>, joiningWeights: seq<real>, size: nat)
    returns (r: Result<seq<real>>)
    ensures r == Accumulate(responses, joiningUids, joiningWeights, size, |joiningWeights|)
  {
    var output := new real[size](_ => 0.0);
    assert output[..] == Zeros(size);
    var index := 0;
    while index < |joiningWeights|
      invariant 0 <= index <= |joiningWeights|
      invariant Accumulate(responses, joiningUids, joiningWeights, size, index) == Ok(output[..])
    {
      if index >= |joiningUids| || joiningUids[index] >= |responses| {
        AccumulateStaysRaised(responses, joiningUids, joiningWeights, size, index + 1, |joiningWeights|);
        return Raise(IndexError);
      }
      var response := responses[joiningUids[index]];
      if |response| != size {
        AccumulateStaysRaised(responses, joiningUids, joiningWeights, size, index + 1, |joiningWeights|);
        return Raise(RuntimeError);
      }
      assert Accumulate(responses, joiningUids, joiningWeights, size, index + 1)
          == Ok(AddScaled(output[..], response, joiningWeights[index]));
      AddInPlace(output, response, joiningWeights[index]);
      index := index + 1;
    }
    r := Ok(output[..]);
  }

  /** If no position succeeds, the output stays the all-zero tensor. */
  lemma JoinNoSuccess(ops: seq<int>, topkWeights: seq<real>, responses: seq<seq<real>>,
                      softmax: seq<real> -> seq<real>, size: nat)
    requires |ops| == |topkWeights|
    requires forall i :: 0 <= i < |ops| ==> ops[i] != SUCCESS_CODE
    requires softmax([]) == []
    ensures JoinSpec(ops, topkWeights, responses, softmax, size) == Ok(Zeros(size))
  {
    var mask := SuccessMask(ops);
    CountNone(mask);
    assert MaskSelect(topkWeights, mask) == Ok([]);
  }

  /** The joining uids and the joining weights have the same length, the
      number of successful positions, when softmax keeps lengths. */
  lemma JoinLengths(ops: seq<int>, topkWeights: seq<real>, softmax: seq<real> -> seq<real>)
    requires |ops| == |topkWeights|
    requires forall xs :: |softmax(xs)| == |xs|
    ensures var mask := SuccessMask(ops);
      && MaskSelect(topkWeights, mask).Ok?
      && |Where(mask)| == |softmax(MaskSelect(topkWeights, mask).value)| == CountTrue(mask)
  {
  }

  /** The join reads a response only at a successful position: responses at
      failed positions contribute nothing. */
  lemma {:induction false} AccumulateIgnoresFailed(ops: seq<int>, r1: seq<seq<real>>, r2: seq<seq<real>>,
                                                   weights: seq<real>, size: nat, k: nat)
    requires k <= |weights|
    requires |r1| == |r2| == |ops|
    requires forall p :: 0 <= p < |ops| && ops[p] == SUCCESS_CODE ==> r1[p] == r2[p]
    ensures Accumulate(r1, Where(SuccessMask(ops)), weights, size, k)
         == Accumulate(r2, Where(SuccessMask(ops)), weights, size, k)
    decreases k
  {
    if k > 0 {
      AccumulateIgnoresFailed(ops, r1, r2, weights, size, k - 1);
    }
  }

  /** The join's output does not depend on what failed peers answered. */
  lemma JoinIgnoresFailed(ops: seq<int>, topkWeights: seq<real>, r1: seq<seq<real>>, r2: seq<seq<real>>,
                          softmax: seq<real> -> seq<real>, size: nat)
    requires |r1| == |r2| == |ops|
    requires forall p :: 0 <= p < |ops| && ops[p] == SUCCESS_CODE ==> r1[p] == r2[p]
    ensures JoinSpec(ops, topkWeights, r1, softmax, size) == JoinSpec(ops, topkWeights, r2, softmax, size)
  {
    var mask := SuccessMask(ops);
    var masked := MaskSelect(topkWeights, mask);
    if masked.Ok? {
      var weights := softmax(masked.value);
      AccumulateIgnoresFailed(ops, r1, r2, weights, size, |weights|);
    }
  }

  /** The sum over the first `m` positions of each successful response times
      the joining weight of its rank among the successes. */
  function SuccessSum(responses: seq<seq<real>>, ops: seq<int>, weights: seq<real>, size: nat, m: nat): (s: seq<real>)
    requires m <= |ops| <= |responses|
    requires CountTrue(SuccessMask(ops)) <= |weights|
    requires forall p :: 0 <= p < |ops| && ops[p] == SUCCESS_CODE ==> |responses[p]| == size
    ensures |s| == size
    decreases m
  {
    if m == 0 then Zeros(size)
    else
      var prev := SuccessSum(responses, ops, weights, size, m - 1);
      if ops[m - 1] == SUCCESS_CODE then
        CountPrefix(SuccessMask(ops), m - 1);
        AddScaled(prev, responses[m - 1], weights[CountTrue(SuccessMask(ops)[..m - 1])])
      else prev
  }

  /** Counting over a prefix never exceeds counting over the whole; counting
      over a prefix that ends in a success counts one more. */
  lemma {:induction false} CountPrefix(mask: seq<bool>, i: nat)
    requires i < |mask|
    ensures CountTrue(mask[..i]) + (if mask[i] then 1 else 0) == CountTrue(mask[..i + 1])
    ensures CountTrue(mask[..i + 1]) <= CountTrue(mask)
    decreases |mask| - i
  {
    assert mask[..i + 1][..i] == mask[..i];
    if i + 1 < |mask| {
      CountPrefix(mask, i + 1);
    } else {
      assert mask[..i + 1] == mask;
    }
  }

  /** Where over a prefix is the matching prefix of Where over the whole. */
  lemma {:induction false} WherePrefix(mask: seq<bool>, m: nat)
    requires m <= |mask|
    ensures CountTrue(mask[..m]) <= |Where(mask)|
    ensures Where(mask[..m]) == Where(mask)[..CountTrue(mask[..m])]
    decreases |mask| - m
  {
    if m < |mask| {
      WherePrefix(mask, m + 1);
      CountPrefix(mask, m);
      var c, c1 := CountTrue(mask[..m]), CountTrue(mask[..m + 1]);
      var p := mask[..m + 1];
      assert Where(p) == (if mask[m] then Where(mask[..m]) + [m] else Where(mask[..m])) by {
        assert p[..|p| - 1] == mask[..m];
      }
      assert Where(mask[..m]) == Where(p)[..c];
      assert Where(mask)[..c1][..c] == Where(mask)[..c];
    } else {
      assert mask[..m] == mask;
    }
  }

  /** A true position is listed by Where at the rank given by the number of
      true positions before it. */
  lemma WhereAtCount(mask: seq<bool>, i: nat)
    requires i < |mask| && mask[i]
    ensures CountTrue(mask[..i]) < |Where(mask)|
    ensures Where(mask)[CountTrue(mask[..i])] == i
  {
    var c := CountTrue(mask[..i]);
    CountPrefix(mask, i);
    WherePrefix(mask, i + 1);
    assert Where(mask[..i + 1]) == Where(mask[..i]) + [i] by {
      assert mask[..i + 1][..i] == mask[..i];
    }
    assert Where(mask[..i + 1])[c] == Where(mask)[..c + 1][c];
  }

  /** The join's output is the sum, over the successful positions only, of
      each response times its joining weight. */
  lemma {:induction false} JoinIsSuccessSum(responses: seq<seq<real>>, ops: seq<int>, weights: seq<real>, size: nat, m: nat)
    requires m <= |ops| == |responses|
    requires CountTrue(SuccessMask(ops)) == |weights|
    requires forall p :: 0 <= p < |ops| && ops[p] == SUCCESS_CODE ==> |responses[p]| == size
    ensures CountTrue(SuccessMask(ops)[..m]) <= |weights|
    ensures Accumulate(responses, Where(SuccessMask(ops)), weights, size, CountTrue(SuccessMask(ops)[..m]))
         == Ok(SuccessSum(responses, ops, weights, size, m))
    decreases m
  {
    var mask := SuccessMask(ops);
    var uids := Where(mask);
    if m == 0 {
      assert mask[..0] == [];
    } else {
      JoinIsSuccessSum(responses, ops, weights, size, m - 1);
      CountPrefix(mask, m - 1);
      var c := CountTrue(mask[..m - 1]);
      if ops[m - 1] == SUCCESS_CODE {
        WhereAtCount(mask, m - 1);
      }
    }
  }

  /** The empirical term of one peer: how much worse its response alone does
      than the joined output, relative to the joined loss. */
  function EmpiricalTerm(partialLoss: real, loss: real): (s: real)
    requires loss > 0.0
    ensures s == 0.0 <==> partialLoss == loss
    ensures s > 0.0 <==> partialLoss > loss
    ensures s < 0.0 <==> partialLoss < loss
  {
    (partialLoss - loss) / loss
  }

  /** `validator_scores` after the first `k` entries of `partial_context`
      (uid, partial loss) have been written into the zero vector. The
      division is one of Python floats, evaluated before the store: a zero
      loss raises ZeroDivisionError at the first entry; otherwise a uid past
      the vector raises IndexError. */
  function EmpiricalSpec(n: nat, partial: seq<(nat, real)>, loss: real, k: nat): (r: Result<seq<real>>)
    requires loss >= 0.0 && k <= |partial|
    ensures r.Ok? ==> |r.value| == n
    ensures loss == 0.0 ==> (r.Raise? <==> k > 0)
    ensures loss > 0.0 ==> (r.Raise? <==> exists j :: 0 <= j < k && partial[j].0 >= n)
    ensures r.Raise? ==> r.error == (if loss == 0.0 then ZeroDivisionError else IndexError)
    decreases k
  {
    if k == 0 then Ok(Zeros(n))
    else
      var prev :- EmpiricalSpec(n, partial, loss, k - 1);
      var (uid, partialLoss) := partial[k - 1];
      if loss == 0.0 then Raise(ZeroDivisionError)
      else if uid >= n then Raise(IndexError)
      else Ok(prev[uid := EmpiricalTerm(partialLoss, loss)])
  }

  /** The empirical score vector, when `partial_context` names each uid at
      most once (it is a dictionary): unnamed uids keep 0 and each named uid
      holds its own empirical term. */
  lemma {:induction false} EmpiricalEntries(n: nat, partial: seq<(nat, real)>, loss: real, k: nat)
    requires loss > 0.0 && k <= |partial|
    requires forall i, j :: 0 <= i < j < |partial| ==> partial[i].0 != partial[j].0
    requires forall j :: 0 <= j < |partial| ==> partial[j].0 < n
    ensures EmpiricalSpec(n, partial, loss, k).Ok?
    ensures forall u :: 0 <= u < n && (forall j :: 0 <= j < k ==> partial[j].0 != u) ==>
              EmpiricalSpec(n, partial, loss, k).value[u] == 0.0
    ensures forall j :: 0 <= j < k ==>
              EmpiricalSpec(n, partial, loss, k).value[partial[j].0] == EmpiricalTerm(partial[j].1, loss)
    decreases k
  {
    if k > 0 {
      EmpiricalEntries(n, partial, loss, k - 1);
    }
  }

  /** `F.leaky_relu(x, negative_slope=0.1)`, elementwise. */
  function LeakyRelu(xs: seq<real>): (r: seq<real>)
    ensures |r| == |xs|
    ensures forall i :: 0 <= i < |xs| && xs[i] >= 0.0 ==> r[i] == xs[i]
    ensures forall i :: 0 <= i < |xs| && xs[i] < 0.0 ==> r[i] == NEGATIVE_SLOPE * xs[i]
  {
    seq(|xs|, i requires 0 <= i < |xs| => if xs[i] >= 0.0 then xs[i] else NEGATIVE_SLOPE * xs[i])
  }

  /** The rectification keeps each entry's sign and the order between
      entries, so it keeps the peers' ranking. */
  lemma LeakyReluKeepsOrder(xs: seq<real>, i: nat, j: nat)
    requires i < |xs| && j < |xs|
    ensures xs[i] <= xs[j] <==> LeakyRelu(xs)[i] <= LeakyRelu(xs)[j]
    ensures LeakyRelu(xs)[i] >= 0.0 <==> xs[i] >= 0.0
  {
  }

  /** `xs * a + ys * b`, elementwise; tensors of different sizes cannot be
      added. */
  function Combine(xs: seq<real>, a: real, ys: seq<real>, b: real): (r: Result<seq<real>>)
    ensures r.Raise? <==> |xs| != |ys|
    ensures r.Ok? ==> |r.value| == |xs| && forall i :: 0 <= i < |xs| ==> r.value[i] == xs[i] * a + ys[i] * b
  {
    if |xs| != |ys| then Raise(RuntimeError)
    else Ok(seq(|xs|, i requires 0 <= i < |xs| => xs[i] * a + ys[i] * b))
  }

  /** `jacobian * -peer_weights`: each peer's first-order term; a gradient of
      another size cannot be multiplied. */
  function FirstOrder(grad: seq<real>, peerWeights: seq<real>): (r: Result<seq<real>>)
    ensures r.Raise? <==> |grad| != |peerWeights|
    ensures r.Ok? ==> |r.value| == |grad| && forall i :: 0 <= i < |grad| ==> r.value[i] == grad[i] * -peerWeights[i]
  {
    Multiply(grad, seq(|peerWeights|, i requires 0 <= i < |peerWeights| => -peerWeights[i]))
  }

  /** The final score vector from the empirical vector: both it and the
      first-order vector normalized, combined half and half, then
      rectified. */
  function FinalScores(empirical: seq<real>, grad: seq<real>, peerWeights: seq<real>,
                       normalize: seq<real> -> seq<real>): (r: Result<seq<real>>)
    ensures r.Ok? ==> |r.value| == |normalize(empirical)|
  {
    var firstOrder :- FirstOrder(grad, peerWeights);
    var combined :- Combine(normalize(empirical), 0.5, normalize(firstOrder), 0.5);
    Ok(LeakyRelu(combined))
  }

  /** With vectors of the peer count and a normalization that keeps lengths,
      the final scores are one per peer, each the rectified half-and-half
      sum of the normalized empirical and first-order terms. */
  lemma FinalScoresEntries(empirical: seq<real>, grad: seq<real>, peerWeights: seq<real>,
                           normalize: seq<real> -> seq<real>)
    requires |empirical| == |grad| == |peerWeights|
    requires forall xs :: |normalize(xs)| == |xs|
    ensures FirstOrder(grad, peerWeights).Ok?
    ensures FinalScores(empirical, grad, peerWeights, normalize).Ok?
    ensures |FinalScores(empirical, grad, peerWeights, normalize).value| == |peerWeights|
    ensures forall i :: 0 <= i < |peerWeights| ==>
              var x := normalize(empirical)[i] * 0.5 + normalize(FirstOrder(grad, peerWeights).value)[i] * 0.5;
              FinalScores(empirical, grad, peerWeights, normalize).value[i] == (if x >= 0.0 then x else NEGATIVE_SLOPE * x)
  {
    var firstOrder := FirstOrder(grad, peerWeights).value;
    assert |normalize(firstOrder)| == |firstOrder|;
    assert |normalize(empirical)| == |empirical|;
  }

  /** The whole of `Validator.scores` on its inputs. */
  function ScoresSpec(peerWeights: seq<real>, partial: seq<(nat, real)>, loss: real, grad: seq<real>,
                      normalize: seq<real> -> seq<real>): (r: Result<seq<real>>)
    requires loss >= 0.0
  {
    var empirical :- EmpiricalSpec(|peerWeights|, partial, loss, |partial|);
    FinalScores(empirical, grad, peerWeights, normalize)
  }

  /** `Validator.scores`: write each peer's empirical term into a zero
      vector, in place, then normalize, combine and rectify. */
  method Scores(peerWeights: seq<real>, partial: seq<(nat, real)>, loss: real, grad: seq<real>,
                normalize: seq<real> -> seq<real>) returns (r: Result<seq<real>>)
    requires loss >= 0.0
    ensures r == ScoresSpec(peerWeights, partial, loss, grad, normalize)
  {
    var validatorScores := new real[|peerWeights|](_ => 0.0);
    assert validatorScores[..] == Zeros(|peerWeights|);
    var k := 0;
    while k < |partial|
      invariant 0 <= k <= |partial|
      invariant EmpiricalSpec(|peerWeights|, partial, loss, k) == Ok(validatorScores[..])
    {
      var (uid, partialLoss) := partial[k];
      if loss == 0.0 {
        return Raise(ZeroDivisionError);
      }
      if uid >= validatorScores.Length {
        assert partial[k].0 >= |peerWeights|;
        return Raise(IndexError);
      }
      validatorScores[uid] := (partialLoss - loss) / loss;
      k := k + 1;
    }
    r := FinalScores(validatorScores[..], grad, peerWeights, normalize);
  }

  /** With a gradient of the peer count and every partial uid in range, the
      scores are the final scores of the empirical vector, one per peer. */
  lemma ScoresShape(peerWeights: seq<real>, partial: seq<(nat, real)>, loss: real, grad: seq<real>,
                    normalize: seq<real> -> seq<real>)
    requires loss > 0.0
    requires |grad| == |peerWeights|
    requires forall j :: 0 <= j < |partial| ==> partial[j].0 < |peerWeights|
    requires forall xs :: |normalize(xs)| == |xs|
    ensures EmpiricalSpec(|peerWeights|, partial, loss, |partial|).Ok?
    ensures ScoresSpec(peerWeights, partial, loss, grad, normalize)
         == FinalScores(EmpiricalSpec(|peerWeights|, partial, loss, |partial|).value, grad, peerWeights, normalize)
    ensures ScoresSpec(peerWeights, partial, loss, grad, normalize).Ok?
    ensures |ScoresSpec(peerWeights, partial, loss, grad, normalize).value| == |peerWeights|
  {
    var empirical := EmpiricalSpec(|peerWeights|, partial, loss, |partial|).value;
    FinalScoresEntries(empirical, grad, peerWeights, normalize);
  }

  /** `xs * ys`, elementwise; tensors of different sizes cannot be multiplied. */
  function Multiply(xs: seq<real>, ys: seq<real>): (r: Result<seq<real>>)
    ensures r.Raise? <==> |xs| != |ys|
    ensures r.Ok? ==> |r.value| == |xs| && forall i :: 0 <= i < |xs| ==> r.value[i] == xs[i] * ys[i]
  {
    if |xs| != |ys| then Raise(RuntimeError)
    else Ok(seq(|xs|, i requires 0 <= i < |xs| => xs[i] * ys[i]))
  }
}
