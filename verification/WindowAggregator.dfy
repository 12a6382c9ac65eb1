/** Rolling windows of samples with a time bound and a size bound. */
module WindowAggregator {
  import opened Samples

  datatype Sample = Sample(time: real, value: real)

  datatype AggregatedWindow = AggregatedWindow(avg: real, p95: real, p99: real, count: nat, sum: real)

  ghost predicate Monotone(h: seq<Sample>) {
    forall i, j :: 0 <= i < j < |h| ==> h[i].time <= h[j].time
  }

  /** A suffix of the history that a window of `windowS` seconds and `maxSamples` entries allows at `now`. */
  ghost predicate Fits(h: seq<Sample>, i: nat, now: real, windowS: real, maxSamples: nat) {
    && i <= |h| && |h| - i <= maxSamples
    && forall j :: i <= j < |h| ==> now - h[j].time <= windowS
  }

  /** `q` is the longest suffix that fits. */
  ghost predicate LongestFitting(h: seq<Sample>, q: seq<Sample>, now: real, windowS: real, maxSamples: nat) {
    && |q| <= |h| && q == h[|h| - |q|..]
    && Fits(h, |h| - |q|, now, windowS, maxSamples)
    && forall i :: 0 <= i < |h| - |q| ==> !Fits(h, i, now, windowS, maxSamples)
  }

  /** A sample is still in the window iff it is among the latest `maxSamples` and at most `windowS` seconds old. */
  lemma KeptExactly(h: seq<Sample>, q: seq<Sample>, now: real, windowS: real, maxSamples: nat, j: nat)
    requires Monotone(h) && LongestFitting(h, q, now, windowS, maxSamples) && j < |h|
    ensures |q| <= |h| && q == h[|h| - |q|..]
    ensures j >= |h| - |q| <==> |h| - j <= maxSamples && now - h[j].time <= windowS
  {
    if |h| - j <= maxSamples && now - h[j].time <= windowS { assert Fits(h, j, now, windowS, maxSamples); }
  }

  /** What keeps a start index from fitting, one sample at a time. */
  ghost predicate Blocked(h: seq<Sample>, i: nat, now: real, windowS: real, maxSamples: nat)
    requires i < |h|
  {
    |h| - i > maxSamples || now - h[i].time > windowS
  }

  lemma SuffixNext(h: seq<Sample>, from: nat)
    requires from < |h|
    ensures h[from..] != [] && h[from..][0] == h[from] && h[from..][1..] == h[from + 1..]
  {
  }

  /** A start index that fits, just after one that is blocked, gives the longest suffix. */
  lemma TrimmedIsLongest(h: seq<Sample>, from: nat, now: real, windowS: real, maxSamples: nat)
    requires Monotone(h) && from <= |h| && |h| - from <= maxSamples
    requires from < |h| ==> now - h[from].time <= windowS
    requires from > 0 ==> Blocked(h, from - 1, now, windowS, maxSamples)
    ensures LongestFitting(h, h[from..], now, windowS, maxSamples)
  {
  }

  /** Older start indices stay blocked when a sample is added at a later time. */
  lemma BlockedLater(h: seq<Sample>, s: Sample, q: seq<Sample>, before: real, windowS: real, maxSamples: nat)
      returns (from: nat)
    requires Monotone(h + [s]) && before <= s.time && LongestFitting(h, q, before, windowS, maxSamples)
    ensures from <= |h| && q + [s] == (h + [s])[from..]
    ensures from > 0 ==> Blocked(h + [s], from - 1, s.time, windowS, maxSamples)
  {
    from := |h| - |q|;
    if from > 0 {
      assert !Fits(h, from - 1, before, windowS, maxSamples);
    }
  }

  lemma MonotoneGrows(h: seq<Sample>, s: Sample)
    requires Monotone(h) && (h != [] ==> h[|h| - 1].time <= s.time)
    ensures Monotone(h + [s])
  {
  }

  /** The number that, taken `count` times, makes `total`; zero of nothing. */
  function Mean(total: real, count: nat): (mean: real)
    ensures count > 0 ==> mean * count as real == total
    ensures count == 0 ==> mean == 0.0
  {
    if count == 0 then 0.0 else total / count as real
  }

  /** A key's queue is the longest suffix of its history that fitted when the latest sample came. */
  ghost predicate Current(h: seq<Sample>, q: seq<Sample>, clock: real, windowS: real, maxSamples: nat) {
    && Monotone(h) && h != [] && h[|h| - 1].time <= clock
    && LongestFitting(h, q, h[|h| - 1].time, windowS, maxSamples)
  }

  ghost predicate AllCurrent(history: map<string, seq<Sample>>, samples: map<string, seq<Sample>>, clock: real,
    windowS: real, maxSamples: nat)
  {
    && samples.Keys == history.Keys
    && (forall k :: k in history ==> Current(history[k], samples[k], clock, windowS, maxSamples))
  }

  ghost function QueueOf(m: map<string, seq<Sample>>, key: string): seq<Sample> { if key in m then m[key] else [] }

  /** `q` starts at `from` of the history, just after a sample that is blocked. */
  ghost predicate Startable(h: seq<Sample>, q: seq<Sample>, from: nat, now: real, windowS: real, maxSamples: nat) {
    && Monotone(h) && from <= |h| && q == h[from..]
    && (from > 0 ==> Blocked(h, from - 1, now, windowS, maxSamples))
  }

  /** With a sample appended, trimming can start where the old queue did. */
  lemma ObserveStart(history: map<string, seq<Sample>>, samples: map<string, seq<Sample>>, clock: real, windowS: real,
    maxSamples: nat, key: string, s: Sample) returns (from: nat)
    requires AllCurrent(history, samples, clock, windowS, maxSamples) && clock <= s.time
    ensures Startable(QueueOf(history, key) + [s], QueueOf(samples, key) + [s], from, s.time, windowS, maxSamples)
  {
    var h, q := QueueOf(history, key), QueueOf(samples, key);
    from := 0;
    if key in history {
      assert Current(h, q, clock, windowS, maxSamples);
      MonotoneGrows(h, s);
      from := BlockedLater(h, s, q, h[|h| - 1].time, windowS, maxSamples);
    }
  }

  lemma PutCurrent(history: map<string, seq<Sample>>, samples: map<string, seq<Sample>>, clock: real, windowS: real,
    maxSamples: nat, key: string, h: seq<Sample>, q: seq<Sample>, now: real)
    requires AllCurrent(history, samples, clock, windowS, maxSamples) && clock <= now
    requires Monotone(h) && h != [] && h[|h| - 1].time == now && LongestFitting(h, q, now, windowS, maxSamples)
    ensures AllCurrent(history[key := h], samples[key := q], now, windowS, maxSamples)
  {
  }

  class WindowAggregator {
    const windowS: real
    const maxSamples: nat
    var samples: map<string, seq<Sample>>
    ghost var history: map<string, seq<Sample>>  // everything observed, by key
    ghost var clock: real

    ghost predicate Valid()
      reads this
    {
      windowS >= 1.0 && maxSamples >= 16 && AllCurrent(history, samples, clock, windowS, maxSamples)
    }

    constructor (windowS: real, maxSamples: int, now: real)
      ensures Valid() && samples == map[] && history == map[]
      ensures this.windowS == (if windowS < 1.0 then 1.0 else windowS)
      ensures this.maxSamples == (if maxSamples < 16 then 16 else maxSamples)
    {
      this.windowS := if windowS < 1.0 then 1.0 else windowS;
      this.maxSamples := if maxSamples < 16 then 16 else maxSamples;
      samples, history, clock := map[], map[], now;
    }

    /** The two trimming loops, on the queue of one key, which starts at `from` of its history. */
    method Trim(q: seq<Sample>, now: real, ghost h: seq<Sample>, ghost from: nat) returns (kept: seq<Sample>)
      requires Startable(h, q, from, now, windowS, maxSamples)
      ensures Monotone(h) && LongestFitting(h, kept, now, windowS, maxSamples)
    {
      kept := q;
      ghost var start: nat := from;
      while kept != [] && now - kept[0].time > windowS
        invariant 0 <= start <= |h| && kept == h[start..]
        invariant start > 0 ==> Blocked(h, start - 1, now, windowS, maxSamples)
        decreases |kept|
      {
        SuffixNext(h, start);
        kept, start := kept[1..], start + 1;
      }
      while |kept| > maxSamples
        invariant 0 <= start <= |h| && kept == h[start..]
        invariant start > 0 ==> Blocked(h, start - 1, now, windowS, maxSamples)
        invariant start < |h| ==> now - h[start].time <= windowS
        decreases |kept|
      {
        SuffixNext(h, start);
        kept, start := kept[1..], start + 1;
      }
      TrimmedIsLongest(h, start, now, windowS, maxSamples);
    }

    /** The queue of one key with a sample appended, trimmed. */
    method TrimAppended(key: string, s: Sample) returns (kept: seq<Sample>)
      requires Valid() && clock <= s.time
      ensures AllCurrent(history[key := QueueOf(history, key) + [s]], samples[key := kept], s.time, windowS, maxSamples)
    {
      var q := if key in samples then samples[key] else [];
      ghost var from := ObserveStart(history, samples, clock, windowS, maxSamples, key, s);
      kept := Trim(q + [s], s.time, QueueOf(history, key) + [s], from);
      PutCurrent(history, samples, clock, windowS, maxSamples, key, QueueOf(history, key) + [s], kept, s.time);
    }

    method Observe(key: string, value: real, now: real)
      requires Valid() && clock <= now
      modifies this
      ensures Valid() && clock == now
      ensures history == old(history)[key := QueueOf(old(history), key) + [Sample(now, value)]]
      ensures forall k :: k in old(samples) && k != key ==> k in samples && samples[k] == old(samples)[k]
    {
      var kept := TrimAppended(key, Sample(now, value));
      history, clock := history[key := QueueOf(history, key) + [Sample(now, value)]], now;
      samples := samples[key := kept];
      ghost var current := Valid();
      assert current;
    }

    method Window(key: string) returns (w: AggregatedWindow)
      ensures var values := Measured(if key in samples then samples[key] else []);
        && w.count == |values| && w.sum == Sum(values)
        && w.avg == Mean(w.sum, w.count)
        && w.p95 == NearestRank(values, 0.95) && w.p99 == NearestRank(values, 0.99) && w.p95 <= w.p99
    {
      var q := if key in samples then samples[key] else [];
      var values := Measured(q);
      var total, count := Sum(values), |values|;
      NearestRankMonotone(values, 0.95, 0.99);
      w := AggregatedWindow(if count > 0 then total / count as real else 0.0,
        NearestRank(values, 0.95), NearestRank(values, 0.99), count, total);
    }
  }

  function Measured(q: seq<Sample>): seq<real> {
    seq(|q|, i requires 0 <= i < |q| => q[i].value)
  }
}
