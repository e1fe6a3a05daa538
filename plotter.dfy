/**
 * The statistics the plotter derives from a simulation result before it draws
 * anything: the running reception probability with its 95% confidence band,
 * the instantaneous and running-mean throughput, the time axis, the interval
 * annotations and the heights of the interval marker lines.
 */
module Plotter {
  import opened Results
  import opened SimData

  /** The 97.5% quantile of the standard normal law, giving a 95% band. */
  const Z: real := 1.96

  /** Bytes credited to every successful slot: a fixed packet size. */
  const PAYLOAD_BYTES: real := 16.0

  /** root is an exact square root on the non-negative reals (the host's math.sqrt). */
  ghost predicate IsSqrt(root: real -> real)
  {
    forall x :: 0.0 <= x ==> 0.0 <= root(x) && root(x) * root(x) == x
  }

  lemma RootPositive(root: real -> real, x: real)
    requires IsSqrt(root) && 0.0 < x
    ensures 0.0 < root(x)
  {
    assert root(x) * root(x) == x;
  }

  // ---------------------------------------------------------------------------
  // Reception probability and its confidence band

  /** The running success probability succ / tot after the samples s. */
  function SuccessRate(s: seq<Sample>): (p: real)
    requires |s| > 0
    ensures 0.0 <= p <= 1.0
  {
    Successes(s) as real / |s| as real
  }

  /**
   * The half-width 1.96 * sqrt(succ * (tot - succ)) / (tot * sqrt(tot)) of the
   * band after succ successes among tot samples.
   */
  function HalfWidth(root: real -> real, succ: real, tot: real): (ci: real)
    requires IsSqrt(root) && 0.0 <= succ <= tot && 0.0 < tot
    ensures 0.0 <= ci
  {
    RootPositive(root, tot);
    NonNegProduct(succ, tot - succ);
    Z * root(succ * (tot - succ)) / (tot * root(tot))
  }

  lemma NonNegProduct(x: real, y: real)
    requires 0.0 <= x && 0.0 <= y
    ensures 0.0 <= x * y
  {
  }

  lemma QuotientElim(x: real, d: real)
    requires d != 0.0
    ensures (x / d) * d == x
  {
  }

  /** ci * (n * b) == Z * a with b * b == n gives ci^2 * n^3 == Z^2 * a^2. */
  lemma BandSquare(ci: real, a: real, b: real, n: real)
    requires ci * (n * b) == Z * a && b * b == n
    ensures ci * ci * (n * n * n) == Z * Z * (a * a)
  {
    calc {
      ci * ci * (n * n * n);
      ci * ci * (n * n * (b * b));
      (ci * (n * b)) * (ci * (n * b));
      (Z * a) * (Z * a);
      Z * Z * (a * a);
    }
  }

  /**
   * The half-width is the non-negative ci with
   * ci^2 == 1.96^2 * succ * (tot - succ) / tot^3, stated multiplied out by tot^3.
   */
  lemma HalfWidthSquare(root: real -> real, k: real, n: real)
    requires IsSqrt(root) && 0.0 <= k <= n && 0.0 < n
    ensures HalfWidth(root, k, n) * HalfWidth(root, k, n) * (n * n * n) == Z * Z * (k * (n - k))
  {
    NonNegProduct(k, n - k);
    var ci, a, b := HalfWidth(root, k, n), root(k * (n - k)), root(n);
    assert a * a == k * (n - k);
    assert b * b == n;
    RootPositive(root, n);
    NonNegProduct(n, b);
    assert n * b != 0.0;
    QuotientElim(Z * a, n * b);
    BandSquare(ci, a, b, n);
  }

  /** With p * n == k, the product k * (n - k) is p * (1 - p) scaled by n^2. */
  lemma RateProduct(k: real, n: real, p: real)
    requires p * n == k
    ensures k * (n - k) == (p * (1.0 - p)) * (n * n)
  {
  }

  /** From c * n^3 == Z^2 * k * (n - k) and p * n == k follows c * n == Z^2 * p * (1 - p). */
  lemma RateForm(c: real, k: real, n: real, p: real)
    requires 0.0 < n && p * n == k && c * (n * n * n) == Z * Z * (k * (n - k))
    ensures c * n == Z * Z * (p * (1.0 - p))
  {
    ScaledRate(c, k, n, p);
    CancelSquare(c * n, Z * Z * (p * (1.0 - p)), n);
  }

  lemma CancelSquare(u: real, v: real, n: real)
    requires 0.0 < n && u * (n * n) == v * (n * n)
    ensures u == v
  {
    PositiveSquare(n);
    assert (u - v) * (n * n) == 0.0;
  }

  lemma PositiveSquare(n: real)
    requires 0.0 < n
    ensures n * n != 0.0
  {
  }

  lemma ScaledRate(c: real, k: real, n: real, p: real)
    requires c * (n * n * n) == Z * Z * (k * (n - k)) && p * n == k
    ensures (c * n) * (n * n) == (Z * Z * (p * (1.0 - p))) * (n * n)
  {
    RateProduct(k, n, p);
    calc {
      (c * n) * (n * n);
      c * (n * n * n);
      Z * Z * (k * (n - k));
      Z * Z * ((p * (1.0 - p)) * (n * n));
    }
  }

  /**
   * In terms of the rate p = succ / tot: ci^2 * tot == 1.96^2 * p * (1 - p),
   * so for a fixed rate the band narrows as tot grows.
   */
  lemma HalfWidthByRate(root: real -> real, k: real, n: real)
    requires IsSqrt(root) && 0.0 <= k <= n && 0.0 < n
    ensures var p := k / n;
      HalfWidth(root, k, n) * HalfWidth(root, k, n) * n == Z * Z * (p * (1.0 - p))
  {
    var ci := HalfWidth(root, k, n);
    HalfWidthSquare(root, k, n);
    QuotientElim(k, n);
    RateForm(ci * ci, k, n, k / n);
  }

  /**
   * rate, lo and hi are the running probability and its band over the samples s:
   * entry t describes the first t + 1 samples.
   */
  ghost predicate RateBand(root: real -> real, s: seq<Sample>, rate: seq<real>, lo: seq<real>, hi: seq<real>)
    requires IsSqrt(root)
  {
    && |rate| == |s| && |lo| == |s| && |hi| == |s|
    && forall t :: 0 <= t < |s| ==>
         && rate[t] == SuccessRate(s[..t + 1])
         && hi[t] == rate[t] + HalfWidth(root, Successes(s[..t + 1]) as real, (t + 1) as real)
         && lo[t] == rate[t] - HalfWidth(root, Successes(s[..t + 1]) as real, (t + 1) as real)
  }

  lemma RateBandSnoc(root: real -> real, s: seq<Sample>, rate: seq<real>, lo: seq<real>, hi: seq<real>, x: Sample)
    requires IsSqrt(root) && RateBand(root, s, rate, lo, hi)
    ensures var s' := s + [x];
      var p, ci := SuccessRate(s'), HalfWidth(root, Successes(s') as real, |s'| as real);
      RateBand(root, s', rate + [p], lo + [p - ci], hi + [p + ci])
  {
    var s' := s + [x];
    var p, ci := SuccessRate(s'), HalfWidth(root, Successes(s') as real, |s'| as real);
    var rate', lo', hi' := rate + [p], lo + [p - ci], hi + [p + ci];
    forall t | 0 <= t < |s'|
      ensures && rate'[t] == SuccessRate(s'[..t + 1])
              && hi'[t] == rate'[t] + HalfWidth(root, Successes(s'[..t + 1]) as real, (t + 1) as real)
              && lo'[t] == rate'[t] - HalfWidth(root, Successes(s'[..t + 1]) as real, (t + 1) as real)
    {
      if t < |s| {
        assert s'[..t + 1] == s[..t + 1];
      } else {
        assert s'[..t + 1] == s';
      }
    }
  }

  // ---------------------------------------------------------------------------
  // Throughput

  /** 16 / tx_time * 1000 raises ZeroDivisionError for a success on a zero-length slot. */
  predicate DividesByZero(m: ChannelModel, s: Sample)
  {
    s.1 && m.txTime == 0.0
  }

  /** The instantaneous throughput (bytes per second) of sample s drawn under model m. */
  function Instant(m: ChannelModel, s: Sample): (y: real)
    requires !DividesByZero(m, s)
    ensures m.txTime > 0.0 ==> 0.0 <= y
    ensures y != 0.0 <==> s.1
  {
    if s.1 then PAYLOAD_BYTES / m.txTime * 1000.0 else 0.0
  }

  /** Some successful sample of the result would be divided by a zero slot length. */
  ghost predicate ZeroDivisionAt(entries: seq<Entry>)
  {
    exists t :: 0 <= t < |Flatten(entries)| && DividesByZero(Owners(entries)[t], Flatten(entries)[t])
  }

  /** y is the instantaneous throughput of each sample of s, drawn under the matching model of owners. */
  ghost predicate ThroughputOf(s: seq<Sample>, owners: seq<ChannelModel>, y: seq<real>)
  {
    && |owners| == |s| && |y| == |s|
    && forall t :: 0 <= t < |s| ==> !DividesByZero(owners[t], s[t]) && y[t] == Instant(owners[t], s[t])
  }

  function Sum(s: seq<real>): real
  {
    if s == [] then 0.0 else Sum(s[..|s| - 1]) + s[|s| - 1]
  }

  /** The arithmetic mean of a non-empty sequence. */
  function Mean(s: seq<real>): real
    requires |s| > 0
  {
    Sum(s) / |s| as real
  }

  /** The online update (m * i + y) / (i + 1) of the mean of the first i values gives the mean of the first i + 1. */
  lemma MeanRecurrence(s: seq<real>, i: nat)
    requires 0 < i < |s|
    ensures Mean(s[..i + 1]) == (Mean(s[..i]) * i as real + s[i]) / (i as real + 1.0)
  {
    assert s[..i + 1][..i] == s[..i];
    assert Sum(s[..i + 1]) == Sum(s[..i]) + s[i];
    var n := i as real;
    assert Mean(s[..i]) * n == Sum(s[..i]);
  }

  /** The mean of one value is that value. */
  lemma MeanSingle(s: seq<real>)
    requires |s| > 0
    ensures Mean(s[..1]) == s[0]
  {
    assert s[..1][..0] == [];
    assert Sum(s[..1]) == s[0];
  }

  lemma {:induction false} SumBounds(s: seq<real>, lo: real, hi: real)
    requires forall t :: 0 <= t < |s| ==> lo <= s[t] <= hi
    ensures lo * |s| as real <= Sum(s) <= hi * |s| as real
  {
    if s != [] {
      SumBounds(s[..|s| - 1], lo, hi);
    }
  }

  /** A mean lies within any bounds of the values it averages. */
  lemma MeanWithinBounds(s: seq<real>, lo: real, hi: real)
    requires |s| > 0
    requires forall t :: 0 <= t < |s| ==> lo <= s[t] <= hi
    ensures lo <= Mean(s) <= hi
  {
    SumBounds(s, lo, hi);
    var n := |s| as real;
    assert lo * n / n == lo && hi * n / n == hi;
  }

  /** Python's max over a non-empty list. */
  function MaxOf(s: seq<real>): (m: real)
    requires |s| > 0
    ensures m in s
    ensures forall t :: 0 <= t < |s| ==> s[t] <= m
  {
    if |s| == 1 then s[0]
    else
      var rest := MaxOf(s[1..]);
      if rest > s[0] then rest else s[0]
  }

  /** Python's min over a non-empty list. */
  function MinOf(s: seq<real>): (m: real)
    requires |s| > 0
    ensures m in s
    ensures forall t :: 0 <= t < |s| ==> m <= s[t]
  {
    if |s| == 1 then s[0]
    else
      var rest := MinOf(s[1..]);
      if rest < s[0] then rest else s[0]
  }

  /** The running mean lies between the least and the greatest value averaged. */
  lemma MeanBetweenExtremes(s: seq<real>)
    requires |s| > 0
    ensures MinOf(s) <= Mean(s) <= MaxOf(s)
  {
    MeanWithinBounds(s, MinOf(s), MaxOf(s));
  }

  /** The running mean of y, computed online from the previous mean and the new value. */
  method RunningMeans(y: seq<real>) returns (means: seq<real>)
    ensures |means| == |y|
    ensures forall i :: 0 <= i < |y| ==> means[i] == Mean(y[..i + 1])
  {
    means := [];
    for i := 0 to |y|
      invariant |means| == i
      invariant forall k :: 0 <= k < i ==> means[k] == Mean(y[..k + 1])
    {
      if i == 0 {
        MeanSingle(y);
        means := means + [y[i]];
      } else {
        var m := (means[i - 1] * i as real + y[i]) / (i as real + 1.0);
        MeanRecurrence(y, i);
        means := means + [m];
      }
    }
  }

  // ---------------------------------------------------------------------------
  // The plotter

  datatype PlotError =
    | EmptySeries   // max() of an empty list: the result holds no sample at all
    | ZeroDivision  // a successful sample of a model whose tx_time is 0

  /** The series and annotations plot_rcv_prob draws. */
  datatype RcvProbPlot = RcvProbPlot(
    x: seq<int>, rate: seq<real>, ciMin: seq<real>, ciMax: seq<real>,
    marks: seq<(int, string)>, height: real)

  /** The series and annotations plot_throughput draws. */
  datatype ThroughputPlot = ThroughputPlot(
    x: seq<int>, y: seq<real>, means: seq<real>,
    marks: seq<(int, string)>, height: real)

  /** The timestamps of a list of samples, in order. */
  function Timestamps(data: seq<Sample>): (x: seq<int>)
    ensures IsAxis(data, x)
  {
    seq(|data|, k requires 0 <= k < |data| => data[k].0)
  }

  /**
   * The interval annotations: one (start_time, title) per interval, in order,
   * or none at all when the result has a single interval.
   */
  ghost predicate IsMarks(entries: seq<Entry>, marks: seq<(int, string)>)
  {
    MarksUpTo(entries, |entries|, marks)
  }

  /** The annotations collected after the first i intervals. */
  ghost predicate MarksUpTo(entries: seq<Entry>, i: nat, marks: seq<(int, string)>)
    requires i <= |entries|
  {
    && |marks| == (if |entries| > 1 then i else 0)
    && forall k :: 0 <= k < |marks| ==>
         marks[k] == (entries[k].interval.startTime, entries[k].interval.model.title)
  }

  /** Visiting interval i appends its annotation exactly when there is more than one interval. */
  lemma MarksStep(entries: seq<Entry>, i: nat, marks: seq<(int, string)>)
    requires i < |entries| && MarksUpTo(entries, i, marks)
    ensures var e := entries[i].interval;
      MarksUpTo(entries, i + 1, if |entries| > 1 then marks + [(e.startTime, e.model.title)] else marks)
  {
  }

  /** x is the timestamp axis of the samples s. */
  ghost predicate IsAxis(s: seq<Sample>, x: seq<int>)
  {
    |x| == |s| && forall t :: 0 <= t < |s| ==> x[t] == s[t].0
  }

  /** Extending the samples by one interval's data extends the axis by its timestamps. */
  lemma AxisAppend(s: seq<Sample>, x: seq<int>, data: seq<Sample>)
    requires IsAxis(s, x)
    ensures IsAxis(s + data, x + Timestamps(data))
  {
  }

  /** Where every rate lies on or under its upper bound, so does the largest rate. */
  lemma BandPeak(rate: seq<real>, hi: seq<real>)
    requires |rate| == |hi| > 0
    requires forall t :: 0 <= t < |rate| ==> rate[t] <= hi[t]
    ensures MaxOf(rate) <= MaxOf(hi)
  {
    var t :| 0 <= t < |rate| && rate[t] == MaxOf(rate);
  }

  /** Every point of a band lies in [0, 1] and between its lower and upper bound. */
  lemma RateBandBounds(root: real -> real, s: seq<Sample>, rate: seq<real>, lo: seq<real>, hi: seq<real>)
    requires IsSqrt(root) && RateBand(root, s, rate, lo, hi)
    ensures forall t :: 0 <= t < |s| ==> 0.0 <= rate[t] <= 1.0 && lo[t] <= rate[t] <= hi[t]
  {
    forall t | 0 <= t < |s|
      ensures 0.0 <= rate[t] <= 1.0 && lo[t] <= rate[t] <= hi[t]
    {
      assert rate[t] == SuccessRate(s[..t + 1]);
      assert 0.0 <= HalfWidth(root, Successes(s[..t + 1]) as real, (t + 1) as real);
    }
  }

  /**
   * The per-sample loop of plot_rcv_prob over one interval: it carries the
   * running counts on from the samples already seen and extends the
   * probability series and its band by one point per sample.
   */
  method AccumulateRate(root: real -> real, data: seq<Sample>, ghost done: seq<Sample>,
                        succ0: nat, tot0: nat, rate0: seq<real>, lo0: seq<real>, hi0: seq<real>)
    returns (succ: nat, tot: nat, rate: seq<real>, lo: seq<real>, hi: seq<real>)
    requires IsSqrt(root)
    requires tot0 == |done| && succ0 == Successes(done) && RateBand(root, done, rate0, lo0, hi0)
    ensures tot == |done + data| && succ == Successes(done + data)
    ensures RateBand(root, done + data, rate, lo, hi)
  {
    succ, tot, rate, lo, hi := succ0, tot0, rate0, lo0, hi0;
    ghost var seen := done;
    for j := 0 to |data|
      invariant seen == done + data[..j]
      invariant tot == |seen| && succ == Successes(seen)
      invariant RateBand(root, seen, rate, lo, hi)
    {
      var sample := data[j];
      ghost var next := seen + [sample];
      assert next[..|seen|] == seen;
      if sample.1 {
        succ := succ + 1;
      }
      tot := tot + 1;
      assert succ == Successes(next) && tot == |next|;
      var p := succ as real / tot as real;
      var ci := HalfWidth(root, succ as real, tot as real);
      assert p == SuccessRate(next);
      RateBandSnoc(root, seen, rate, lo, hi, sample);
      assert data[..j + 1] == data[..j] + [sample];
      seen := next;
      rate := rate + [p];
      hi := hi + [p + ci];
      lo := lo + [p - ci];
    }
    assert data[..|data|] == data;
  }

  /**
   * The per-sample loop of plot_throughput over one interval drawn under
   * model: one instantaneous throughput per sample, or ZeroDivisionError at
   * the first successful sample when the model's slot length is zero.
   */
  method AccumulateThroughput(model: ChannelModel, data: seq<Sample>, ghost done: seq<Sample>,
                              ghost owners: seq<ChannelModel>, y0: seq<real>)
    returns (r: Result<seq<real>, PlotError>)
    requires ThroughputOf(done, owners, y0)
    ensures r.Err? <==> exists j :: 0 <= j < |data| && DividesByZero(model, data[j])
    ensures r.Err? ==> r.error == ZeroDivision
    ensures r.Ok? ==> ThroughputOf(done + data, owners + seq(|data|, _ => model), r.value)
  {
    var y := y0;
    ghost var seen, seenOwners := done, owners;
    for j := 0 to |data|
      invariant seen == done + data[..j]
      invariant seenOwners == owners + seq(j, _ => model)
      invariant forall k :: 0 <= k < j ==> !DividesByZero(model, data[k])
      invariant ThroughputOf(seen, seenOwners, y)
    {
      var sample := data[j];
      if sample.1 {
        if model.txTime == 0.0 {
          assert DividesByZero(model, data[j]);
          return Err(ZeroDivision);
        }
        y := y + [PAYLOAD_BYTES / model.txTime * 1000.0];
      } else {
        y := y + [0.0];
      }
      assert data[..j + 1] == data[..j] + [sample];
      assert seq(j + 1, _ => model) == seq(j, _ => model) + [model];
      seen := seen + [sample];
      seenOwners := seenOwners + [model];
    }
    assert data[..|data|] == data;
    r := Ok(y);
  }

  /**
   * The loop of plot_rcv_prob over the intervals: the timestamp axis, the
   * running probability with its band, the interval annotations and the
   * number of samples seen.
   */
  method CollectRate(root: real -> real, entries: seq<Entry>)
    returns (x: seq<int>, rate: seq<real>, ciMin: seq<real>, ciMax: seq<real>, marks: seq<(int, string)>, tot: nat)
    requires IsSqrt(root)
    ensures tot == |Flatten(entries)|
    ensures IsAxis(Flatten(entries), x)
    ensures RateBand(root, Flatten(entries), rate, ciMin, ciMax)
    ensures IsMarks(entries, marks)
  {
    x, rate, ciMin, ciMax, marks := [], [], [], [], [];
    var succ := 0;
    tot := 0;
    ghost var done: seq<Sample> := [];
    var i := 0;
    while i < |entries|
      invariant 0 <= i <= |entries|
      invariant done == Flatten(entries[..i])
      invariant tot == |done| && succ == Successes(done)
      invariant IsAxis(done, x)
      invariant RateBand(root, done, rate, ciMin, ciMax)
      invariant MarksUpTo(entries, i, marks)
    {
      var entry := entries[i];
      var data := entry.samples;
      MarksStep(entries, i, marks);
      if |entries| > 1 {
        marks := marks + [(entry.interval.startTime, entry.interval.model.title)];
      }
      succ, tot, rate, ciMin, ciMax := AccumulateRate(root, data, done, succ, tot, rate, ciMin, ciMax);
      AxisAppend(done, x, data);
      done := done + data;
      FlattenSnoc(entries, i);
      x := x + Timestamps(data);
      i := i + 1;
      assert entries[..i][..i - 1] == entries[..i - 1];
    }
    assert entries[..i] == entries;
  }

  /**
   * The loop of plot_throughput over the intervals: the timestamp axis, the
   * instantaneous throughput of every sample and the interval annotations,
   * or ZeroDivisionError at the first successful sample of a model whose
   * slot length is zero.
   */
  method CollectThroughput(entries: seq<Entry>)
    returns (r: Result<(seq<int>, seq<real>, seq<(int, string)>), PlotError>)
    ensures r.Err? <==> ZeroDivisionAt(entries)
    ensures r.Err? ==> r.error == ZeroDivision
    ensures r.Ok? ==>
      && IsAxis(Flatten(entries), r.value.0)
      && ThroughputOf(Flatten(entries), Owners(entries), r.value.1)
      && IsMarks(entries, r.value.2)
  {
    var x: seq<int> := [];
    var y: seq<real> := [];
    var marks: seq<(int, string)> := [];
    ghost var done: seq<Sample> := [];
    ghost var owners: seq<ChannelModel> := [];
    var i := 0;
    while i < |entries|
      invariant 0 <= i <= |entries|
      invariant done == Flatten(entries[..i]) && owners == Owners(entries[..i])
      invariant IsAxis(done, x)
      invariant ThroughputOf(done, owners, y)
      invariant MarksUpTo(entries, i, marks)
    {
      var entry := entries[i];
      var data := entry.samples;
      var model := entry.interval.model;
      MarksStep(entries, i, marks);
      if |entries| > 1 {
        marks := marks + [(entry.interval.startTime, model.title)];
      }
      var step := AccumulateThroughput(model, data, done, owners, y);
      if step.Err? {
        ghost var j :| 0 <= j < |data| && DividesByZero(model, data[j]);
        FlattenAt(entries, i, j);
        FlattenSnoc(entries, i);
        return Err(ZeroDivision);
      }
      y := step.value;
      AxisAppend(done, x, data);
      done, owners := done + data, owners + seq(|data|, _ => model);
      FlattenSnoc(entries, i);
      x := x + Timestamps(data);
      i := i + 1;
      assert entries[..i][..i - 1] == entries[..i - 1];
    }
    assert entries[..i] == entries;
    r := Ok((x, y, marks));
  }

  class Plotter {
    /** The simulation result: (interval, samples) pairs in timeline order. */
    const intervals: seq<Entry>

    constructor (intervals: seq<Entry>)
      requires |intervals| > 0
      ensures this.intervals == intervals
    {
      this.intervals := intervals;
    }

    /** The reception-probability series, its band and the marker height. */
    method PlotRcvProb(root: real -> real) returns (r: Result<RcvProbPlot, PlotError>)
      requires IsSqrt(root)
      ensures r.Err? <==> |Flatten(intervals)| == 0
      ensures r.Err? ==> r.error == EmptySeries
      ensures r.Ok? ==>
        var v, s := r.value, Flatten(intervals);
        && IsAxis(s, v.x)
        && RateBand(root, s, v.rate, v.ciMin, v.ciMax)
        && IsMarks(intervals, v.marks)
        && (forall t :: 0 <= t < |s| ==> 0.0 <= v.rate[t] <= 1.0 && v.ciMin[t] <= v.rate[t] <= v.ciMax[t])
        && v.height in v.ciMax
        && (forall t :: 0 <= t < |s| ==> v.rate[t] <= v.height && v.ciMax[t] <= v.height)
    {
      var x, rate, ciMin, ciMax, marks, tot := CollectRate(root, intervals);
      ghost var done := Flatten(intervals);
      if tot == 0 {
        return Err(EmptySeries);
      }
      RateBandBounds(root, done, rate, ciMin, ciMax);
      BandPeak(rate, ciMax);
      var hiMax, rateMax := MaxOf(ciMax), MaxOf(rate);
      var height := if rateMax > hiMax then rateMax else hiMax;
      r := Ok(RcvProbPlot(x, rate, ciMin, ciMax, marks, height));
    }

    /** The instantaneous and mean throughput series and the marker height. */
    method PlotThroughput() returns (r: Result<ThroughputPlot, PlotError>)
      ensures r.Err? <==> ZeroDivisionAt(intervals) || |Flatten(intervals)| == 0
      ensures r.Err? ==> r.error == if ZeroDivisionAt(intervals) then ZeroDivision else EmptySeries
      ensures r.Ok? ==>
        var v, s := r.value, Flatten(intervals);
        && IsAxis(s, v.x)
        && ThroughputOf(s, Owners(intervals), v.y)
        && |v.means| == |s|
        && (forall t :: 0 <= t < |s| ==> v.means[t] == Mean(v.y[..t + 1]))
        && IsMarks(intervals, v.marks)
        && v.height in v.y
        && (forall t :: 0 <= t < |s| ==> v.y[t] <= v.height)
    {
      var collected := CollectThroughput(intervals);
      if collected.Err? {
        return Err(ZeroDivision);
      }
      var (x, y, marks) := collected.value;
      var means := RunningMeans(y);
      if |y| == 0 {
        return Err(EmptySeries);
      }
      var height := MaxOf(y);
      r := Ok(ThroughputPlot(x, y, means, marks, height));
    }
  }
}
