/** The series objects of the metric registry and what they hold after any history of samples. */
module Series {
  import opened Options
  import opened Samples
  import opened Suffixes

  datatype Exemplar = Exemplar(value: real, labels: map<string, string>)

  // ---- Histogram ----

  datatype HistogramState = HistogramState(buckets: seq<real>, counts: seq<nat>, sum: real, count: nat,
    exemplar: Option<Exemplar>)

  datatype Observation = Observation(value: real, exemplar: Option<Exemplar>)

  function NewHistogram(buckets: seq<real>): HistogramState {
    HistogramState(buckets, seq(|buckets|, _ => 0), 0.0, 0, None)
  }

  function ObserveHistogram(s: HistogramState, o: Observation): HistogramState {
    s.(counts := seq(|s.counts|, i requires 0 <= i < |s.counts| =>
           s.counts[i] + if i < |s.buckets| && o.value <= s.buckets[i] then 1 else 0),
       sum := s.sum + o.value,
       count := s.count + 1,
       exemplar := if o.exemplar.Some? then o.exemplar else s.exemplar)
  }

  ghost function HistogramAfter(buckets: seq<real>, history: seq<Observation>): HistogramState {
    if history == [] then NewHistogram(buckets)
    else ObserveHistogram(HistogramAfter(buckets, history[..|history| - 1]), history[|history| - 1])
  }

  ghost function Values(history: seq<Observation>): seq<real> {
    seq(|history|, i requires 0 <= i < |history| => history[i].value)
  }

  /** The exemplar is that of the last observation to have one. */
  lemma {:induction false} ExemplarIsLatest(buckets: seq<real>, history: seq<Observation>)
    ensures var e := HistogramAfter(buckets, history).exemplar;
            if e == None then forall o <- history :: o.exemplar == None
            else exists i :: 0 <= i < |history| && history[i].exemplar == e
                   && forall j :: i < j < |history| ==> history[j].exemplar == None
  {
    if history != [] {
      var earlier, o := history[..|history| - 1], history[|history| - 1];
      ExemplarIsLatest(buckets, earlier);
      var e := HistogramAfter(buckets, earlier).exemplar;
      if o.exemplar.Some? {
        assert history[|history| - 1].exemplar == HistogramAfter(buckets, history).exemplar;
      } else if e.Some? {
        var i :| 0 <= i < |earlier| && earlier[i].exemplar == e
          && forall j :: i < j < |earlier| ==> earlier[j].exemplar == None;
        assert history[i].exemplar == e;
      } else {
        forall x | x in history ensures x.exemplar == None { assert x in earlier || x == o; }
      }
    }
  }

  /** Each stored bucket is the number of observations at or below its bound; sum and count are exact. */
  lemma {:induction false} HistogramCounts(buckets: seq<real>, history: seq<Observation>)
    ensures var s := HistogramAfter(buckets, history);
            && s.buckets == buckets && |s.counts| == |buckets|
            && (forall i :: 0 <= i < |buckets| ==> s.counts[i] == CountLe(Values(history), buckets[i]))
            && s.sum == Sum(Values(history)) && s.count == |history|
  {
    if history != [] {
      var earlier, o := history[..|history| - 1], history[|history| - 1];
      HistogramCounts(buckets, earlier);
      assert Values(history) == Values(earlier) + [o.value];
      forall i | 0 <= i < |buckets|
        ensures CountLe(Values(history), buckets[i])
            == CountLe(Values(earlier), buckets[i]) + if o.value <= buckets[i] then 1 else 0
      {
        CountLeSnoc(Values(earlier), o.value, buckets[i]);
      }
      assert Values(history)[..|history| - 1] == Values(earlier);
    }
  }

  /** For ascending bounds the stored buckets never decrease, and none exceeds the count. */
  lemma StoredBucketsCumulative(buckets: seq<real>, history: seq<Observation>, i: nat, j: nat)
    requires Ascending(buckets) && i <= j < |buckets|
    ensures var s := HistogramAfter(buckets, history);
            |s.counts| == |buckets| && s.counts[i] <= s.counts[j] <= s.count
  {
    HistogramCounts(buckets, history);
    CountMonotone(Values(history), buckets[i], buckets[j]);
  }

  // ---- What a scrape reports ----

  function SumTo(counts: seq<nat>, n: nat): nat
    requires n <= |counts|
  {
    if n == 0 then 0 else SumTo(counts, n - 1) + counts[n - 1]
  }

  ghost predicate LastWithBound(buckets: seq<real>, i: nat) {
    i < |buckets| && buckets[i] !in buckets[i + 1..]
  }

  /** The bucket map of a snapshot: under each bound, all stored buckets up to it added up. */
  ghost predicate Reports(buckets: seq<real>, counts: seq<nat>, m: map<real, nat>)
    requires |counts| == |buckets|
  {
    && (forall b :: b in m <==> b in buckets)
    && (forall i :: 0 <= i < |buckets| && LastWithBound(buckets, i) ==>
          buckets[i] in m && m[buckets[i]] == SumTo(counts, i + 1))
  }

  lemma {:induction false} SumToZero(counts: seq<nat>, n: nat)
    requires n <= |counts|
    ensures SumTo(counts, n) == 0 <==> forall j :: 0 <= j < n ==> counts[j] == 0
  {
    if n > 0 { SumToZero(counts, n - 1); }
  }

  /**
   The reported entry of a bound is the number of observations at or below it, as its name says,
   exactly when nothing was observed at or below any earlier bound: the stored buckets are already
   cumulative and the snapshot adds them up once more.
   */
  lemma ReportedExactly(buckets: seq<real>, history: seq<Observation>, m: map<real, nat>, i: nat)
    requires LastWithBound(buckets, i)
    requires var s := HistogramAfter(buckets, history); |s.counts| == |buckets| && Reports(buckets, s.counts, m)
    ensures buckets[i] in m
    ensures m[buckets[i]] >= CountLe(Values(history), buckets[i])
    ensures m[buckets[i]] == CountLe(Values(history), buckets[i])
      <==> forall j :: 0 <= j < i ==> CountLe(Values(history), buckets[j]) == 0
  {
    HistogramCounts(buckets, history);
    SumToZero(HistogramAfter(buckets, history).counts, i);
  }

  /** One observation under two bounds is reported twice under the second. */
  lemma DoubleCounted(m: map<real, nat>)
    requires var s := HistogramAfter([1.0, 2.0], [Observation(0.5, None)]);
             |s.counts| == 2 && Reports([1.0, 2.0], s.counts, m)
    ensures 2.0 in m && m[2.0] == 2 && HistogramAfter([1.0, 2.0], [Observation(0.5, None)]).count == 1
  {
    var buckets, history := [1.0, 2.0], [Observation(0.5, None)];
    HistogramCounts(buckets, history);
    assert Values(history) == [0.5];
    assert LastWithBound(buckets, 1);
    assert CountLe([0.5], 1.0) == 1 && CountLe([0.5], 2.0) == 1;
    var counts := HistogramAfter(buckets, history).counts;
    assert SumTo(counts, 2) == SumTo(counts, 1) + counts[1] && SumTo(counts, 1) == SumTo(counts, 0) + counts[0];
  }

  class HistogramSeries {
    const buckets: seq<real>
    var counts: seq<nat>
    var sum: real
    var count: nat
    var exemplar: Option<Exemplar>

    ghost function View(): HistogramState
      reads this
    {
      HistogramState(buckets, counts, sum, count, exemplar)
    }

    constructor (buckets: seq<real>)
      ensures View() == NewHistogram(buckets)
    {
      this.buckets := buckets;
      counts, sum, count, exemplar := seq(|buckets|, _ => 0), 0.0, 0, None;
    }

    method Observe(value: real, exemplar: Option<Exemplar>)
      requires |counts| == |buckets|
      modifies this
      ensures View() == ObserveHistogram(old(View()), Observation(value, exemplar))
    {
      sum, count := sum + value, count + 1;
      for i := 0 to |buckets|
        invariant |counts| == |buckets| && sum == old(sum) + value && count == old(count) + 1
        invariant this.exemplar == old(this.exemplar)
        invariant forall j :: 0 <= j < i ==> counts[j] == old(counts)[j] + if value <= buckets[j] then 1 else 0
        invariant forall j :: i <= j < |buckets| ==> counts[j] == old(counts)[j]
      {
        if value <= buckets[i] { counts := counts[i := counts[i] + 1]; }
      }
      if exemplar.Some? { this.exemplar := exemplar; }
    }

    /** The bucket loop of the registry's snapshot. */
    method SnapshotBuckets() returns (m: map<real, nat>)
      requires |counts| == |buckets|
      ensures Reports(buckets, counts, m)
    {
      m := map[];
      var cumulative := 0;
      for i := 0 to |buckets|
        invariant cumulative == SumTo(counts, i)
        invariant ReportsUpTo(buckets, counts, m, i)
      {
        ReportNext(buckets, counts, m, i);
        cumulative := cumulative + counts[i];
        m := m[buckets[i] := cumulative];
      }
      ReportDone(buckets, counts, m);
    }
  }

  /** The bucket map after the first `n` bounds. */
  ghost predicate ReportsUpTo(buckets: seq<real>, counts: seq<nat>, m: map<real, nat>, n: nat)
    requires |counts| == |buckets| && n <= |buckets|
  {
    && (forall b :: b in m <==> b in buckets[..n])
    && (forall i :: 0 <= i < n && (forall k :: i < k < n ==> buckets[k] != buckets[i]) ==>
          buckets[i] in m && m[buckets[i]] == SumTo(counts, i + 1))
  }

  lemma ReportNext(buckets: seq<real>, counts: seq<nat>, m: map<real, nat>, n: nat)
    requires |counts| == |buckets| && n < |buckets| && ReportsUpTo(buckets, counts, m, n)
    ensures ReportsUpTo(buckets, counts, m[buckets[n] := SumTo(counts, n + 1)], n + 1)
  {
    var m' := m[buckets[n] := SumTo(counts, n + 1)];
    assert buckets[..n + 1] == buckets[..n] + [buckets[n]];
    forall i | 0 <= i < n + 1 && forall k :: i < k < n + 1 ==> buckets[k] != buckets[i]
      ensures buckets[i] in m' && m'[buckets[i]] == SumTo(counts, i + 1)
    {
      if i < n { assert buckets[n] != buckets[i]; }
    }
  }

  lemma ReportDone(buckets: seq<real>, counts: seq<nat>, m: map<real, nat>)
    requires |counts| == |buckets| && ReportsUpTo(buckets, counts, m, |buckets|)
    ensures Reports(buckets, counts, m)
  {
    assert buckets[..|buckets|] == buckets;
    forall i, k | 0 <= i < k < |buckets| && LastWithBound(buckets, i) ensures buckets[k] != buckets[i] {
      assert buckets[k] == buckets[i + 1..][k - i - 1];
    }
  }

  // ---- Summary ----

  datatype SummaryState = SummaryState(values: seq<real>, sum: real, count: nat, maxSamples: nat)

  const MAX_SAMPLES := 512

  function NewSummary(maxSamples: nat): SummaryState { SummaryState([], 0.0, 0, maxSamples) }

  function ObserveSummary(s: SummaryState, v: real): SummaryState {
    var grown := s.values + [v];
    s.(values := if |grown| > s.maxSamples then grown[s.maxSamples / 2..] else grown,
       sum := s.sum + v,
       count := s.count + 1)
  }

  ghost function SummaryAfter(maxSamples: nat, history: seq<real>): SummaryState {
    if history == [] then NewSummary(maxSamples)
    else ObserveSummary(SummaryAfter(maxSamples, history[..|history| - 1]), history[|history| - 1])
  }

  /** The samples of `s` are a suffix of the history, of which it has exact sum and count. */
  ghost predicate SumsUp(s: SummaryState, history: seq<real>) {
    IsSuffix(s.values, history) && s.sum == Sum(history) && s.count == |history|
  }

  lemma SumsUpNext(s: SummaryState, earlier: seq<real>, v: real)
    requires SumsUp(s, earlier)
    ensures SumsUp(ObserveSummary(s, v), earlier + [v])
  {
    assert (earlier + [v])[..|earlier|] == earlier;
    SuffixSnoc(s.values, earlier, v);
    if |s.values + [v]| > s.maxSamples { SuffixDrop(s.values + [v], earlier + [v], s.maxSamples / 2); }
  }

  /** The samples kept are the latest ones, with exact sum and count of all of them. */
  lemma {:induction false} SummaryKeepsSuffix(maxSamples: nat, history: seq<real>)
    ensures SumsUp(SummaryAfter(maxSamples, history), history)
    ensures SummaryAfter(maxSamples, history).maxSamples == maxSamples
  {
    if history != [] {
      var earlier, v := history[..|history| - 1], history[|history| - 1];
      SummaryKeepsSuffix(maxSamples, earlier);
      SumsUpNext(SummaryAfter(maxSamples, earlier), earlier, v);
      assert history == earlier + [v];
    }
  }

  /**
   All samples are kept up to the cap; beyond it the earliest half of the cap has been dropped as often as it
   takes to leave no more.
   */
  lemma {:induction false} SummarySize(maxSamples: nat, history: seq<real>) returns (drops: nat)
    requires maxSamples >= 2
    ensures var n := |SummaryAfter(maxSamples, history).values|;
            && n == |history| - drops * (maxSamples / 2) && n <= maxSamples
            && (|history| <= maxSamples ==> drops == 0)
            && (drops > 0 ==> n > maxSamples - maxSamples / 2)
  {
    SummaryKeepsSuffix(maxSamples, history);
    if history == [] {
      drops := 0;
    } else {
      var earlier := history[..|history| - 1];
      SummaryKeepsSuffix(maxSamples, earlier);
      drops := SummarySize(maxSamples, earlier);
      if |SummaryAfter(maxSamples, earlier).values| == maxSamples {
        assert (drops + 1) * (maxSamples / 2) == drops * (maxSamples / 2) + maxSamples / 2;
        drops := drops + 1;
      }
    }
  }

  /** The cap holds over every history exactly when it is at least two: below that the trim removes nothing. */
  lemma SummaryCapExactly(maxSamples: nat)
    ensures (forall history :: |SummaryAfter(maxSamples, history).values| <= maxSamples) <==> maxSamples >= 2
  {
    if maxSamples >= 2 {
      forall history ensures |SummaryAfter(maxSamples, history).values| <= maxSamples {
        var drops := SummarySize(maxSamples, history);
      }
    } else {
      assert [0.0, 0.0][..1] == [0.0] && [0.0][..0] == [];
      assert |SummaryAfter(maxSamples, [0.0]).values| == 1;
      assert |SummaryAfter(maxSamples, [0.0, 0.0]).values| == 2;
    }
  }

  class SummarySeries {
    const maxSamples: nat
    var values: seq<real>
    var sum: real
    var count: nat

    ghost function View(): SummaryState
      reads this
    {
      SummaryState(values, sum, count, maxSamples)
    }

    constructor (maxSamples: nat)
      ensures View() == NewSummary(maxSamples)
    {
      this.maxSamples := maxSamples;
      values, sum, count := [], 0.0, 0;
    }

    method Observe(value: real)
      modifies this
      ensures View() == ObserveSummary(old(View()), value)
    {
      sum, count := sum + value, count + 1;
      values := values + [value];
      if |values| > maxSamples { values := values[maxSamples / 2..]; }
    }

    /** Each objective's nearest-rank sample; zero without samples. */
    method Quantiles(objectives: seq<real>) returns (out: map<real, real>)
      ensures forall q :: q in out <==> q in objectives
      ensures forall q :: q in out ==> out[q] == NearestRank(values, q)
    {
      out := map[];
      for i := 0 to |objectives|
        invariant forall q :: q in out <==> q in objectives[..i]
        invariant forall q :: q in out ==> out[q] == NearestRank(values, q)
      {
        out := out[objectives[i] := NearestRank(values, objectives[i])];
      }
    }
  }
}
