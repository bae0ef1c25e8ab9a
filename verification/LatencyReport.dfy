/** The p95 of a run's latency samples: the value at the nearest rank. */
module LatencyReport {
  import opened Basics

  function Insert(x: real, xs: seq<real>): seq<real> {
    if xs == [] || x <= xs[0] then [x] + xs else [xs[0]] + Insert(x, xs[1..])
  }

  function Sort(xs: seq<real>): seq<real> {
    if xs == [] then [] else Insert(xs[0], Sort(xs[1..]))
  }

  ghost predicate Sorted(xs: seq<real>) { forall i, j :: 0 <= i < j < |xs| ==> xs[i] <= xs[j] }

  lemma {:induction false} InsertKeepsElements(x: real, xs: seq<real>)
    ensures multiset(Insert(x, xs)) == multiset{x} + multiset(xs)
  {
    if xs != [] && x > xs[0] {
      InsertKeepsElements(x, xs[1..]);
      assert xs == [xs[0]] + xs[1..];
    }
  }

  lemma {:induction false} InsertSorts(x: real, xs: seq<real>)
    requires Sorted(xs)
    ensures Sorted(Insert(x, xs))
  {
    if xs != [] && x > xs[0] {
      var rest := Insert(x, xs[1..]);
      InsertSorts(x, xs[1..]);
      InsertKeepsElements(x, xs[1..]);
      forall j | 0 <= j < |rest| ensures xs[0] <= rest[j] {
        assert rest[j] in multiset(rest);
        assert rest[j] == x || rest[j] in xs[1..];
      }
    }
  }

  lemma {:induction false} SortSorts(xs: seq<real>)
    ensures Sorted(Sort(xs)) && multiset(Sort(xs)) == multiset(xs) && |Sort(xs)| == |xs|
  {
    if xs != [] {
      SortSorts(xs[1..]);
      InsertSorts(xs[0], Sort(xs[1..]));
      InsertKeepsElements(xs[0], Sort(xs[1..]));
      assert xs == [xs[0]] + xs[1..];
      assert |multiset(Sort(xs))| == |Sort(xs)|;
    }
  }

  /** How many samples are at most v. */
  function AtMost(xs: seq<real>, v: real): nat {
    if xs == [] then 0 else (if xs[0] <= v then 1 else 0) + AtMost(xs[1..], v)
  }

  /** `math.ceil(len(samples) * .95) - 1`, with .95 the rational 19/20. */
  function RankIndex(n: nat): int { (19 * n + 19) / 20 - 1 }

  /** At least 95% of the samples are at most v. */
  predicate Covers(xs: seq<real>, v: real) { 20 * AtMost(xs, v) >= 19 * |xs| }

  lemma {:induction false} AtMostJoins(a: seq<real>, b: seq<real>, v: real)
    ensures AtMost(a + b, v) == AtMost(a, v) + AtMost(b, v)
  {
    if a == [] {
      assert a + b == b;
    } else {
      assert (a + b)[1..] == a[1..] + b;
      AtMostJoins(a[1..], b, v);
    }
  }

  lemma CancelOne(a: multiset<real>, b: multiset<real>, x: real)
    requires multiset{x} + a == multiset{x} + b
    ensures a == b
  {
    assert (multiset{x} + a) - multiset{x} == a && (multiset{x} + b) - multiset{x} == b;
  }

  lemma TakingOneOut(xs: seq<real>, i: nat, v: real)
    requires i < |xs|
    ensures var rest := xs[..i] + xs[i + 1..];
      && multiset(xs) == multiset{xs[i]} + multiset(rest)
      && AtMost(xs, v) == (if xs[i] <= v then 1 else 0) + AtMost(rest, v)
  {
    var a, b := xs[..i], xs[i + 1..];
    assert xs == a + [xs[i]] + b;
    AtMostJoins(a + [xs[i]], b, v);
    AtMostJoins(a, [xs[i]], v);
    AtMostJoins(a, b, v);
    assert multiset(a + [xs[i]] + b) == multiset{xs[i]} + multiset(a + b);
  }

  /** Counting does not depend on the order of the samples. */
  lemma {:induction false} AtMostOfPermutation(a: seq<real>, b: seq<real>, v: real)
    requires multiset(a) == multiset(b)
    ensures AtMost(a, v) == AtMost(b, v)
  {
    if a == [] {
      assert |multiset(b)| == |b| == 0;
    } else {
      assert a[0] in multiset(b);
      var i :| 0 <= i < |b| && b[i] == a[0];
      TakingOneOut(a, 0, v);
      TakingOneOut(b, i, v);
      assert a[..0] + a[1..] == a[1..];
      CancelOne(multiset(a[1..]), multiset(b[..i] + b[i + 1..]), a[0]);
      AtMostOfPermutation(a[1..], b[..i] + b[i + 1..], v);
    }
  }

  lemma {:induction false} AllAtMost(xs: seq<real>, v: real)
    requires forall i :: 0 <= i < |xs| ==> xs[i] <= v
    ensures AtMost(xs, v) == |xs|
  {
    if xs != [] { AllAtMost(xs[1..], v); }
  }

  lemma {:induction false} NoneAtMost(xs: seq<real>, v: real)
    requires forall i :: 0 <= i < |xs| ==> xs[i] > v
    ensures AtMost(xs, v) == 0
  {
    if xs != [] { NoneAtMost(xs[1..], v); }
  }

  lemma {:induction false} AtMostBounded(xs: seq<real>, v: real)
    ensures AtMost(xs, v) <= |xs|
  {
    if xs != [] { AtMostBounded(xs[1..], v); }
  }

  /** In a sorted list the element at index k is the least number that at least
      k + 1 elements do not exceed. */
  lemma RankInSorted(s: seq<real>, k: nat, w: real)
    requires Sorted(s) && k < |s|
    ensures AtMost(s, w) > k <==> s[k] <= w
  {
    if s[k] <= w {
      assert s == s[..k + 1] + s[k + 1..];
      AllAtMost(s[..k + 1], w);
      AtMostJoins(s[..k + 1], s[k + 1..], w);
    } else {
      assert s == s[..k] + s[k..];
      NoneAtMost(s[k..], w);
      AtMostBounded(s[..k], w);
      AtMostJoins(s[..k], s[k..], w);
    }
  }

  function P95(samples: seq<real>): real
    requires samples != []
  {
    SortSorts(samples);
    Sort(samples)[RankIndex(|samples|)]
  }

  /** The reported value is a sample, and the numbers that at least 95% of the
      samples do not exceed are exactly those not below it. */
  lemma P95IsNearestRank(samples: seq<real>)
    requires samples != []
    ensures P95(samples) in samples
    ensures forall w :: Covers(samples, w) <==> P95(samples) <= w
  {
    SortSorts(samples);
    var s, k := Sort(samples), RankIndex(|samples|);
    assert s[k] in multiset(s);
    forall w ensures Covers(samples, w) <==> s[k] <= w {
      AtMostOfPermutation(samples, s, w);
      RankInSorted(s, k, w);
    }
  }

  /** One step of a recorded run. */
  datatype RunStep = RunStep(name: string, samples: seq<real>)

  /** The samples of all `rpc.samples` steps. */
  function Collect(steps: seq<RunStep>): seq<real> {
    if steps == [] then []
    else (if steps[0].name == "rpc.samples" then steps[0].samples else []) + Collect(steps[1..])
  }

  function Percentile(steps: seq<RunStep>): Option<real> {
    if Collect(steps) == [] then None else Some(P95(Collect(steps)))
  }

  /** Every `rpc.samples` step contributes all its samples, in order, and no other step
      contributes any. */
  lemma {:induction false} CollectJoins(a: seq<RunStep>, b: seq<RunStep>)
    ensures Collect(a + b) == Collect(a) + Collect(b)
    ensures forall s: RunStep :: Collect([s]) == if s.name == "rpc.samples" then s.samples else []
  {
    forall s: RunStep ensures Collect([s]) == (if s.name == "rpc.samples" then s.samples else []) {
      assert [s][1..] == [] && s.samples + [] == s.samples;
    }
    if a == [] {
      assert a + b == b;
    } else {
      assert (a + b)[1..] == a[1..] + b;
      CollectJoins(a[1..], b);
    }
  }

  lemma {:induction false} CollectedFrom(steps: seq<RunStep>, x: real)
    ensures x in Collect(steps) <==> exists s :: s in steps && s.name == "rpc.samples" && x in s.samples
  {
    if steps != [] {
      CollectedFrom(steps[1..], x);
      assert steps == [steps[0]] + steps[1..];
    }
  }

  /** A run without samples reports no figure; any other reports one of its own
      samples, the nearest-rank p95 of them all. */
  lemma PercentileOfRun(steps: seq<RunStep>)
    ensures Percentile(steps).None? <==> forall s :: s in steps && s.name == "rpc.samples" ==> s.samples == []
    ensures Percentile(steps).Some? ==>
      && (exists s :: s in steps && s.name == "rpc.samples" && Percentile(steps).value in s.samples)
      && forall w :: Covers(Collect(steps), w) <==> Percentile(steps).value <= w
  {
    var all := Collect(steps);
    if all == [] {
      forall s | s in steps && s.name == "rpc.samples" ensures s.samples == [] {
        if s.samples != [] { CollectedFrom(steps, s.samples[0]); }
      }
    } else {
      CollectedFrom(steps, all[0]);
      P95IsNearestRank(all);
      CollectedFrom(steps, P95(all));
    }
  }
}
