/** The per-chunk loss averages and the success totals of the experiment
    driver (train_memory.py). A step's losses are the entries of its loss
    dictionary, (name, value) pairs in insertion order; a step's successes
    are one flag per queried uid. */
module LossStats {
  import opened PyErrors

  /** The prefix under which an average is logged. */
  const PREFIX: string := "loss/"

  /** A step's loss dictionary, entry by entry. */
  type LossEntries = seq<(string, real)>

  /** The entries of all step results of a chunk, one step after another. */
  function Entries(results: seq<LossEntries>): (es: LossEntries)
    decreases |results|
  {
    if results == [] then [] else Entries(results[..|results| - 1]) + results[|results| - 1]
  }

  /** One pass of the collecting loop as written: membership is checked on the
      bare name but the list lives under the prefixed name. A bare name that
      is present without its prefixed name raises KeyError. */
  function StepWritten(losses: map<string, seq<real>>, e: (string, real)): (r: Result<map<string, seq<real>>>)
  {
    var (k, v) := e;
    if k in losses then
      if PREFIX + k in losses then Ok(losses[PREFIX + k := losses[PREFIX + k] + [v]])
      else Raise(KeyError)
    else Ok(losses[PREFIX + k := [v]])
  }

  /** The lists the collecting loop as written builds from a run of entries. */
  function CollectWritten(es: LossEntries): (r: Result<map<string, seq<real>>>)
    ensures r.Ok? ==> forall key :: key in r.value ==> |r.value[key]| > 0
    ensures r.Raise? ==> r.error == KeyError
    decreases |es|
  {
    if es == [] then Ok(map[])
    else
      var prev :- CollectWritten(es[..|es| - 1]);
      StepWritten(prev, es[|es| - 1])
  }

  /** Once the collecting loop raises, it ends with that error. */
  lemma {:induction false} CollectWrittenStaysRaised(es: LossEntries, more: LossEntries)
    ensures CollectWritten(es).Raise? ==> CollectWritten(es + more) == CollectWritten(es)
    decreases |more|
  {
    if more != [] {
      var init := more[..|more| - 1];
      CollectWrittenStaysRaised(es, init);
      assert (es + more)[..|es + more| - 1] == es + init;
    } else {
      assert es + more == es;
    }
  }

  /** One pass of the collecting loop as evidently intended: the test and the
      store both use the prefixed name. */
  function StepIntended(losses: map<string, seq<real>>, e: (string, real)): map<string, seq<real>>
  {
    var (k, v) := e;
    if PREFIX + k in losses then losses[PREFIX + k := losses[PREFIX + k] + [v]]
    else losses[PREFIX + k := [v]]
  }

  /** The lists the intended collecting loop builds from a run of entries. */
  function CollectIntended(es: LossEntries): (m: map<string, seq<real>>)
    ensures forall key :: key in m ==> |m[key]| > 0
    decreases |es|
  {
    if es == [] then map[] else StepIntended(CollectIntended(es[..|es| - 1]), es[|es| - 1])
  }

  /** The sum of a list of reals. */
  function Sum(vs: seq<real>): real
    decreases |vs|
  {
    if vs == [] then 0.0 else Sum(vs[..|vs| - 1]) + vs[|vs| - 1]
  }

  /** `sum(v) / len(v)` on a non-empty list. */
  function Mean(vs: seq<real>): (m: real)
    requires |vs| > 0
    ensures |vs| == 1 ==> m == vs[0]
  {
    assert |vs| == 1 ==> Sum(vs) == Sum([]) + vs[0];
    Sum(vs) / (|vs| as real)
  }

  /** Each list of the dictionary replaced by its mean. */
  function Averages(losses: map<string, seq<real>>): (avgs: map<string, real>)
    requires forall key :: key in losses ==> |losses[key]| > 0
    ensures avgs.Keys == losses.Keys
  {
    map key | key in losses :: Mean(losses[key])
  }

  /** The collecting loop as written: the lists of every step result of a
      chunk, each then replaced by its mean. */
  method AggregateLosses(results: seq<LossEntries>) returns (r: Result<map<string, real>>)
    ensures CollectWritten(Entries(results)).Raise? ==> r == Raise(CollectWritten(Entries(results)).error)
    ensures CollectWritten(Entries(results)).Ok? ==> r == Ok(Averages(CollectWritten(Entries(results)).value))
  {
    var losses: map<string, seq<real>> := map[];
    var i := 0;
    while i < |results|
      invariant 0 <= i <= |results|
      invariant CollectWritten(Entries(results[..i])) == Ok(losses)
    {
      assert results[..i + 1][..i] == results[..i];
      assert Entries(results[..i + 1]) == Entries(results[..i]) + results[i];
      var res := CollectStep(Entries(results[..i]), results[i], losses);
      if res.Raise? {
        CollectWrittenStaysRaised(Entries(results[..i + 1]), Entries(results[i + 1..]));
        EntriesSplit(results, i);
        return Raise(res.error);
      }
      losses := res.value;
      i := i + 1;
    }
    assert results[..i] == results;
    var avgs := AverageInPlace(losses);
    r := Ok(avgs);
  }

  /** The inner loop as written, over the entries `l` of one step result,
      continuing the lists collected from the entries `done` before it. */
  method CollectStep(ghost done: LossEntries, l: LossEntries, losses: map<string, seq<real>>)
    returns (r: Result<map<string, seq<real>>>)
    requires CollectWritten(done) == Ok(losses)
    ensures r == CollectWritten(done + l)
  {
    var cur := losses;
    var j := 0;
    assert done + l[..j] == done;
    while j < |l|
      invariant 0 <= j <= |l|
      invariant CollectWritten(done + l[..j]) == Ok(cur)
    {
      var (k, v) := l[j];
      CollectWrittenSnoc(done, l, j);
      var next := AddEntryWritten(cur, k, v);
      if next.Raise? {
        CollectWrittenStaysRaised(done + l[..j + 1], l[j + 1..]);
        assert done + l[..j + 1] + l[j + 1..] == done + l;
        return next;
      }
      cur := next.value;
      j := j + 1;
    }
    assert l[..j] == l;
    r := Ok(cur);
  }

  /** Collecting one more entry of a step result applies one pass as written. */
  lemma CollectWrittenSnoc(done: LossEntries, l: LossEntries, j: nat)
    requires j < |l|
    ensures CollectWritten(done + l[..j]).Ok? ==>
              CollectWritten(done + l[..j + 1]) == StepWritten(CollectWritten(done + l[..j]).value, l[j])
    ensures CollectWritten(done + l[..j]).Raise? ==> CollectWritten(done + l[..j + 1]).Raise?
  {
    var es := done + l[..j + 1];
    assert es[..|es| - 1] == done + l[..j];
    assert es[|es| - 1] == l[j];
  }

  /** Collecting one more entry of a step result applies one intended pass. */
  lemma CollectIntendedSnoc(done: LossEntries, l: LossEntries, j: nat)
    requires j < |l|
    ensures CollectIntended(done + l[..j + 1]) == StepIntended(CollectIntended(done + l[..j]), l[j])
  {
    var es := done + l[..j + 1];
    assert es[..|es| - 1] == done + l[..j];
    assert es[|es| - 1] == l[j];
  }

  /** The body of the inner loop as written: append under the prefixed
      name when the bare name is a key, otherwise start a list under it. */
  method AddEntryWritten(losses: map<string, seq<real>>, k: string, v: real) returns (r: Result<map<string, seq<real>>>)
    ensures r == StepWritten(losses, (k, v))
  {
    if k in losses {
      if PREFIX + k !in losses {
        return Raise(KeyError);
      }
      r := Ok(losses[PREFIX + k := losses[PREFIX + k] + [v]]);
    } else {
      r := Ok(losses[PREFIX + k := [v]]);
    }
  }

  /** The body of the inner loop as evidently intended. */
  method AddEntryIntended(losses: map<string, seq<real>>, k: string, v: real) returns (next: map<string, seq<real>>)
    ensures next == StepIntended(losses, (k, v))
  {
    if PREFIX + k in losses {
      next := losses[PREFIX + k := losses[PREFIX + k] + [v]];
    } else {
      next := losses[PREFIX + k := [v]];
    }
  }

  /** The entries of the results split at a step boundary. */
  lemma {:induction false} EntriesSplit(results: seq<LossEntries>, i: nat)
    requires i < |results|
    ensures Entries(results) == Entries(results[..i]) + results[i] + Entries(results[i + 1..])
    decreases |results|
  {
    var n := |results|;
    if i == n - 1 {
      assert results[..i] == results[..n - 1];
      assert results[i + 1..] == [];
    } else {
      EntriesSplit(results[..n - 1], i);
      assert results[..n - 1][..i] == results[..i];
      assert results[..n - 1][i + 1..] == results[i + 1..n - 1];
      var tail := results[i + 1..];
      assert tail[..|tail| - 1] == results[i + 1..n - 1];
      assert tail[|tail| - 1] == results[n - 1];
    }
  }

  /** `for k, v in losses.items(): losses[k] = sum(v) / len(v)`. */
  method AverageInPlace(losses: map<string, seq<real>>) returns (avgs: map<string, real>)
    requires forall key :: key in losses ==> |losses[key]| > 0
    ensures avgs == Averages(losses)
  {
    avgs := map[];
    var todo := losses.Keys;
    while todo != {}
      invariant todo <= losses.Keys
      invariant avgs.Keys == losses.Keys - todo
      invariant forall key :: key in avgs ==> avgs[key] == Mean(losses[key])
      decreases |todo|
    {
      var k :| k in todo;
      avgs := avgs[k := Mean(losses[k])];
      todo := todo - {k};
    }
  }

  /** The collecting loop as evidently intended: the same loop with the test
      on the prefixed name, which cannot raise. */
  method AggregateLossesIntended(results: seq<LossEntries>) returns (avgs: map<string, real>)
    ensures avgs == Averages(CollectIntended(Entries(results)))
  {
    var losses: map<string, seq<real>> := map[];
    var i := 0;
    while i < |results|
      invariant 0 <= i <= |results|
      invariant CollectIntended(Entries(results[..i])) == losses
    {
      assert results[..i + 1][..i] == results[..i];
      assert Entries(results[..i + 1]) == Entries(results[..i]) + results[i];
      losses := CollectStepIntended(Entries(results[..i]), results[i], losses);
      i := i + 1;
    }
    assert results[..i] == results;
    avgs := AverageInPlace(losses);
  }

  /** The inner loop as evidently intended, over the entries `l` of one step
      result, continuing the lists collected from the entries `done`. */
  method CollectStepIntended(ghost done: LossEntries, l: LossEntries, losses: map<string, seq<real>>)
    returns (cur: map<string, seq<real>>)
    requires CollectIntended(done) == losses
    ensures cur == CollectIntended(done + l)
  {
    cur := losses;
    var j := 0;
    assert done + l[..j] == done;
    while j < |l|
      invariant 0 <= j <= |l|
      invariant CollectIntended(done + l[..j]) == cur
    {
      var (k, v) := l[j];
      CollectIntendedSnoc(done, l, j);
      cur := AddEntryIntended(cur, k, v);
      j := j + 1;
    }
    assert l[..j] == l;
  }

  /** The names of a run of entries. */
  function Names(es: LossEntries): (ns: set<string>)
    ensures forall k :: k in ns <==> exists j :: 0 <= j < |es| && es[j].0 == k
    decreases |es|
  {
    if es == [] then {}
    else
      var prev := Names(es[..|es| - 1]);
      assert forall j :: 0 <= j < |es| - 1 ==> es[..|es| - 1][j] == es[j];
      prev + {es[|es| - 1].0}
  }

  /** The values logged under one name, in order. */
  function ValuesOf(es: LossEntries, k: string): (vs: seq<real>)
    ensures |vs| <= |es|
    decreases |es|
  {
    if es == [] then []
    else ValuesOf(es[..|es| - 1], k) + (if es[|es| - 1].0 == k then [es[|es| - 1].1] else [])
  }

  /** The value logged last under a name that was logged. */
  function LastValue(es: LossEntries, k: string): real
    requires k in Names(es)
    decreases |es|
  {
    if es[|es| - 1].0 == k then es[|es| - 1].1 else LastValue(es[..|es| - 1], k)
  }

  /** A name that was logged has at least one value, the last of which is
      the value logged last. */
  lemma {:induction false} ValuesOfNamed(es: LossEntries, k: string)
    requires k in Names(es)
    ensures |ValuesOf(es, k)| > 0
    ensures ValuesOf(es, k)[|ValuesOf(es, k)| - 1] == LastValue(es, k)
    decreases |es|
  {
    if es[|es| - 1].0 != k {
      ValuesOfNamed(es[..|es| - 1], k);
    }
  }

  /** A name that was never logged has no values. */
  lemma {:induction false} ValuesOfEmpty(es: LossEntries, k: string)
    requires k !in Names(es)
    ensures ValuesOf(es, k) == []
    decreases |es|
  {
    if es != [] {
      ValuesOfEmpty(es[..|es| - 1], k);
    }
  }

  /** No name starts with the logging prefix. */
  predicate Unprefixed(es: LossEntries) {
    forall j :: 0 <= j < |es| ==> !(PREFIX <= es[j].0)
  }

  /** `key` is the prefixed form of a name of the entries. */
  predicate IsLogged(key: string, es: LossEntries) {
    PREFIX <= key && key[|PREFIX|..] in Names(es)
  }

  /** The prefixed name splits back into the prefix and the name. */
  lemma PrefixParts(k: string)
    ensures PREFIX <= PREFIX + k
    ensures (PREFIX + k)[|PREFIX|..] == k
  {
  }

  /** A key that starts with the prefix is the prefix followed by the rest. */
  lemma Unprefix(key: string)
    requires PREFIX <= key
    ensures key == PREFIX + key[|PREFIX|..]
  {
    assert key[..|PREFIX|] == PREFIX;
    assert key == key[..|PREFIX|] + key[|PREFIX|..];
  }

  /** The intended loop's keys are exactly the prefixed names. */
  lemma {:induction false} IntendedKeys(es: LossEntries)
    ensures forall key :: key in CollectIntended(es) <==> IsLogged(key, es)
    decreases |es|
  {
    if es != [] {
      var init := es[..|es| - 1];
      var k := es[|es| - 1].0;
      IntendedKeys(init);
      assert Names(es) == Names(init) + {k};
      PrefixParts(k);
      forall key
        ensures key in CollectIntended(es) <==> IsLogged(key, es)
      {
        if PREFIX <= key {
          Unprefix(key);
        }
      }
    }
  }

  /** The intended loop keeps, under each prefixed name, every value logged
      under the bare name, in order. */
  lemma {:induction false} IntendedValues(es: LossEntries)
    ensures forall k :: k in Names(es) ==> PREFIX + k in CollectIntended(es)
    ensures forall k :: k in Names(es) ==> CollectIntended(es)[PREFIX + k] == ValuesOf(es, k)
    decreases |es|
  {
    if es != [] {
      var init := es[..|es| - 1];
      var (k, v) := es[|es| - 1];
      IntendedValues(init);
      IntendedKeys(init);
      var prev := CollectIntended(init);
      PrefixParts(k);
      forall k' | k' in Names(es)
        ensures PREFIX + k' in CollectIntended(es)
        ensures CollectIntended(es)[PREFIX + k'] == ValuesOf(es, k')
      {
        PrefixParts(k');
        if k' != k {
          assert k' in Names(init);
          assert PREFIX + k' != PREFIX + k;
        } else if k !in Names(init) {
          assert PREFIX + k !in prev;
          ValuesOfEmpty(init, k);
        }
      }
    }
  }

  /** As written, when no name starts with the prefix, the loop does not
      raise and its keys are exactly the prefixed names. */
  lemma {:induction false} WrittenKeys(es: LossEntries)
    requires Unprefixed(es)
    ensures CollectWritten(es).Ok?
    ensures forall key :: key in CollectWritten(es).value <==> IsLogged(key, es)
    decreases |es|
  {
    if es != [] {
      var init := es[..|es| - 1];
      var k := es[|es| - 1].0;
      assert Unprefixed(init) by {
        assert forall j :: 0 <= j < |init| ==> init[j] == es[j];
      }
      WrittenKeys(init);
      assert k !in CollectWritten(init).value by {
        assert !(PREFIX <= k);
      }
      assert Names(es) == Names(init) + {k};
      PrefixParts(k);
      forall key
        ensures key in CollectWritten(es).value <==> IsLogged(key, es)
      {
        if PREFIX <= key {
          Unprefix(key);
        }
      }
    }
  }

  /** As written, when no name starts with the prefix, the bare-name test
      never holds: each prefixed list is overwritten by the latest value, so
      it holds exactly the last value logged under the name. */
  lemma {:induction false} WrittenKeepsLast(es: LossEntries)
    requires Unprefixed(es)
    ensures CollectWritten(es).Ok?
    ensures forall k :: k in Names(es) ==> PREFIX + k in CollectWritten(es).value
    ensures forall k :: k in Names(es) ==> CollectWritten(es).value[PREFIX + k] == [LastValue(es, k)]
    decreases |es|
  {
    if es != [] {
      var init := es[..|es| - 1];
      var (k, v) := es[|es| - 1];
      assert Unprefixed(init) by {
        assert forall j :: 0 <= j < |init| ==> init[j] == es[j];
      }
      WrittenKeepsLast(init);
      WrittenKeys(init);
      var prev := CollectWritten(init).value;
      assert k !in prev by {
        assert !(PREFIX <= k);
      }
      assert CollectWritten(es) == Ok(prev[PREFIX + k := [v]]);
      forall k' | k' in Names(es)
        ensures PREFIX + k' in CollectWritten(es).value
        ensures CollectWritten(es).value[PREFIX + k'] == [LastValue(es, k')]
      {
        PrefixParts(k);
        PrefixParts(k');
        if k' != k {
          assert k' in Names(init);
          assert PREFIX + k' != PREFIX + k;
        }
      }
    }
  }

  /** As written, each logged average is the last value under its name. */
  lemma WrittenAveragesAreLast(es: LossEntries, k: string)
    requires Unprefixed(es) && k in Names(es)
    ensures CollectWritten(es).Ok?
    ensures PREFIX + k in Averages(CollectWritten(es).value)
    ensures Averages(CollectWritten(es).value)[PREFIX + k] == LastValue(es, k)
  {
    WrittenKeepsLast(es);
    ValuesOfNamed(es, k);
  }

  /** As intended, each logged average is the mean of every value under its
      name. */
  lemma IntendedAveragesAreMeans(es: LossEntries, k: string)
    requires k in Names(es)
    ensures PREFIX + k in Averages(CollectIntended(es))
    ensures |ValuesOf(es, k)| > 0
    ensures Averages(CollectIntended(es))[PREFIX + k] == Mean(ValuesOf(es, k))
  {
    IntendedValues(es);
    ValuesOfNamed(es, k);
  }

  /** Two steps logging `routing` as 1.0 then 3.0, one after the other. */
  function TwoRoutingSteps(): seq<LossEntries> {
    [[("routing", 1.0)], [("routing", 3.0)]]
  }

  /** The entries of the two routing steps, with the facts about them that
      both averaging examples use. */
  lemma TwoRoutingEntries()
    ensures Entries(TwoRoutingSteps()) == [("routing", 1.0), ("routing", 3.0)]
    ensures Unprefixed(Entries(TwoRoutingSteps()))
    ensures "routing" in Names(Entries(TwoRoutingSteps()))
    ensures PREFIX + "routing" == "loss/routing"
  {
    var results := TwoRoutingSteps();
    assert results[..1] == [[("routing", 1.0)]];
    assert results[..1][..0] == [];
    assert Entries(results[..1]) == [("routing", 1.0)];
    var es := Entries(results);
    assert !(PREFIX <= "routing") by {
      assert PREFIX[0] != "routing"[0];
    }
    assert es[1].0 == "routing";
  }

  /** As written, the chunk's routing average of the two routing steps is
      3.0, the last value, and not their mean. */
  lemma WrittenRoutingAverage()
    ensures var r := AggregateLossesSpec(TwoRoutingSteps());
      r.Ok? && "loss/routing" in r.value && r.value["loss/routing"] == 3.0
  {
    TwoRoutingEntries();
    var es := Entries(TwoRoutingSteps());
    WrittenAveragesAreLast(es, "routing");
  }

  /** As intended, the chunk's routing average of the two routing steps is
      2.0, their mean. */
  lemma IntendedRoutingAverage()
    ensures var avgs := Averages(CollectIntended(Entries(TwoRoutingSteps())));
      "loss/routing" in avgs && avgs["loss/routing"] == 2.0
  {
    TwoRoutingEntries();
    var es := Entries(TwoRoutingSteps());
    IntendedAveragesAreMeans(es, "routing");
    assert es[..1] == [("routing", 1.0)];
    assert es[..1][..0] == [];
    assert ValuesOf(es, "routing") == [1.0, 3.0];
    assert Sum([1.0, 3.0]) == 4.0 by {
      assert [1.0, 3.0][..1] == [1.0];
      assert [1.0][..0] == [];
    }
  }

  /** As written, a step that logs `x` and then `loss/x` raises KeyError. */
  lemma PrefixedNameRaises()
    ensures AggregateLossesSpec([[("x", 1.0), ("loss/x", 2.0)]]) == Raise(KeyError)
  {
    var bad: seq<LossEntries> := [[("x", 1.0), ("loss/x", 2.0)]];
    assert bad[..0] == [];
    var bes := Entries(bad);
    assert bes == [("x", 1.0), ("loss/x", 2.0)];
    assert bes[..1] == [("x", 1.0)];
    assert bes[..1][..0] == [];
    assert PREFIX + "x" == "loss/x";
    assert CollectWritten(bes[..1]) == Ok(map["loss/x" := [1.0]]);
    assert PREFIX + "loss/x" != "loss/x";
  }

  /** What the collecting loop as written computes. */
  function AggregateLossesSpec(results: seq<LossEntries>): (r: Result<map<string, real>>)
    ensures r.Raise? ==> r.error == KeyError
  {
    var losses :- CollectWritten(Entries(results));
    Ok(Averages(losses))
  }

  /** `losses['loss/routing']`: the routing average of a chunk, KeyError when
      no step logged a routing loss. */
  function RoutingAverage(avgs: map<string, real>): (r: Result<real>)
    ensures r.Raise? <==> PREFIX + "routing" !in avgs
    ensures r.Ok? ==> r.value == avgs[PREFIX + "routing"]
  {
    if PREFIX + "routing" in avgs then Ok(avgs[PREFIX + "routing"]) else Raise(KeyError)
  }

  /** `[sum(l[1]) / len(l[1]) for l in chunk_results]`: each step's success
      rate; a step that queried no uid divides by zero. */
  function StepSuccessRates(successes: seq<seq<bool>>): (r: Result<seq<real>>)
    ensures r.Raise? <==> exists j :: 0 <= j < |successes| && |successes[j]| == 0
    ensures r.Ok? ==> |r.value| == |successes|
    ensures r.Ok? ==> forall j :: 0 <= j < |successes| ==> 0.0 <= r.value[j] <= 1.0
    decreases |successes|
  {
    if successes == [] then Ok([])
    else
      var prev :- StepSuccessRates(successes[..|successes| - 1]);
      var l := successes[|successes| - 1];
      if |l| == 0 then Raise(ZeroDivisionError)
      else
        CountBound(l);
        assert forall j :: 0 <= j < |successes| - 1 ==> successes[..|successes| - 1][j] == successes[j];
        Ok(prev + [(CountTrue(l) as real) / (|l| as real)])
  }

  /** No more flags hold than there are flags. */
  lemma {:induction false} CountBound(flags: seq<bool>)
    ensures CountTrue(flags) <= |flags|
    decreases |flags|
  {
    if flags != [] {
      CountBound(flags[..|flags| - 1]);
    }
  }

  /** `sum([sum(ri) for ri in success_results])`: the successful queries over
      the run. */
  function TotalSuccess(results: seq<seq<bool>>): nat
    decreases |results|
  {
    if results == [] then 0 else TotalSuccess(results[..|results| - 1]) + CountTrue(results[|results| - 1])
  }

  /** The failed queries over the run, counted directly. */
  function TotalFalse(results: seq<seq<bool>>): nat
    decreases |results|
  {
    if results == [] then 0
    else
      CountBound(results[|results| - 1]);
      TotalFalse(results[..|results| - 1]) + (|results[|results| - 1]| - CountTrue(results[|results| - 1]))
  }

  /** `n_queried * n_steps - total_success`: the failures the summary
      reports, computed from the configured sizes. */
  function TotalFailed(nQueried: nat, nSteps: nat, results: seq<seq<bool>>): int {
    nQueried * nSteps - TotalSuccess(results)
  }

  /** When the run made `n_steps` steps of `n_queried` queries each, the
      reported failures are exactly the queries that did not succeed. */
  lemma {:induction false} FailedCountsFailures(nQueried: nat, nSteps: nat, results: seq<seq<bool>>)
    requires |results| == nSteps
    requires forall j :: 0 <= j < |results| ==> |results[j]| == nQueried
    ensures TotalFailed(nQueried, nSteps, results) == TotalFalse(results)
    ensures 0 <= TotalFailed(nQueried, nSteps, results) <= nQueried * nSteps
    decreases |results|
  {
    if results != [] {
      var init := results[..|results| - 1];
      FailedCountsFailures(nQueried, nSteps - 1, init);
      CountBound(results[|results| - 1]);
      assert nQueried * nSteps == nQueried * (nSteps - 1) + nQueried;
    }
  }

  /** `total_success / (total_success + total_failed)`: the run's success
      rate, ZeroDivisionError when nothing was to be sent. */
  function SuccessRate(nQueried: nat, nSteps: nat, results: seq<seq<bool>>): (r: Result<real>)
    ensures r.Raise? <==> nQueried * nSteps == 0
    ensures r.Ok? ==> r.value * ((nQueried * nSteps) as real) == TotalSuccess(results) as real
  {
    var sent := TotalSuccess(results) + TotalFailed(nQueried, nSteps, results);
    if sent == 0 then Raise(ZeroDivisionError)
    else
      DivMul(TotalSuccess(results) as real, sent as real);
      Ok((TotalSuccess(results) as real) / (sent as real))
  }

  /** Dividing and then multiplying by the same non-zero number. */
  lemma DivMul(a: real, b: real)
    requires b != 0.0
    ensures (a / b) * b == a
  {
  }

  /** With the configured shape the success rate lies between 0 and 1. */
  lemma SuccessRateBounds(nQueried: nat, nSteps: nat, results: seq<seq<bool>>)
    requires nQueried * nSteps > 0
    requires |results| == nSteps
    requires forall j :: 0 <= j < |results| ==> |results[j]| == nQueried
    ensures SuccessRate(nQueried, nSteps, results).Ok?
    ensures 0.0 <= SuccessRate(nQueried, nSteps, results).value <= 1.0
  {
    FailedCountsFailures(nQueried, nSteps, results);
    var sent := nQueried * nSteps;
    assert TotalSuccess(results) + TotalFailed(nQueried, nSteps, results) == sent;
    FractionBounds(TotalSuccess(results) as real, sent as real);
  }

  /** A part over a positive whole lies between 0 and 1. */
  lemma FractionBounds(part: real, whole: real)
    requires 0.0 <= part <= whole && whole > 0.0
    ensures 0.0 <= part / whole <= 1.0
  {
    assert part / whole * whole == part;
  }
}
