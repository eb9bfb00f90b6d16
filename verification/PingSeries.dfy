/** Charts of the ping store: series of points, their downsampling and the summaries over them. */
module PingSeries {
  import opened Common
  import opened PingStore

  datatype Point = Point(
    t: int, avg: Option<real>, min: Option<real>, max: Option<real>, sent: nat, recv: nat, lossPct: real)

  function Mean(sum: real, n: nat): real
    requires n > 0
  {
    sum / n as real
  }

  function LossPct(sent: nat, recv: nat): real {
    if sent == 0 then 0.0 else 100.0 * ((sent - recv) as real) / (sent as real)
  }

  function PointOf(b: Bucket): Point {
    Point(b.id, if b.recv > 0 then Some(Mean(b.sum, b.recv)) else None, b.min, b.max, b.sent, b.recv,
          LossPct(b.sent, b.recv))
  }

  /** The points of the buckets that are not older than the cutoff. */
  function SeriesOf(bs: seq<Bucket>, cutoff: real): seq<Point> {
    if bs == [] then []
    else SeriesOf(bs[..|bs| - 1], cutoff)
         + if bs[|bs| - 1].id as real < cutoff then [] else [PointOf(bs[|bs| - 1])]
  }

  method BucketSeries(buckets: seq<Bucket>, cur: Option<Bucket>, cutoff: real) returns (out: seq<Point>)
    ensures out == SeriesOf(buckets + (if cur.Some? then [cur.value] else []), cutoff)
  {
    hide PointOf;
    out := [];
    var src := buckets + if cur.Some? then [cur.value] else [];
    for i := 0 to |src|
      invariant out == SeriesOf(src[..i], cutoff)
    {
      assert src[..i + 1][..i] == src[..i];
      if src[i].id as real < cutoff {
        continue;
      }
      out := out + [PointOf(src[i])];
    }
    assert src[..|src|] == src;
  }

  // ------------------------------------------------------------------ figures of a series

  function Sents(s: seq<Point>): nat {
    if s == [] then 0 else s[0].sent + Sents(s[1..])
  }

  function Recvs(s: seq<Point>): nat {
    if s == [] then 0 else s[0].recv + Recvs(s[1..])
  }

  function MinOf(s: seq<Point>): Option<real> {
    if s == [] then None else OptMin(s[0].min, MinOf(s[1..]))
  }

  function MaxOf(s: seq<Point>): Option<real> {
    if s == [] then None else OptMax(s[0].max, MaxOf(s[1..]))
  }

  /** The averages that are there. */
  function Avgs(s: seq<Point>): (r: seq<real>) {
    if s == [] then [] else Avgs(s[..|s| - 1]) + if s[|s| - 1].avg.Some? then [s[|s| - 1].avg.value] else []
  }

  function MeanOf(values: seq<real>): Option<real> {
    if values == [] then None else Some(Mean(Sum(values), |values|))
  }

  /** One point for a stretch of points. */
  function Merge(chunk: seq<Point>): Point
    requires chunk != []
  {
    Point(chunk[0].t, MeanOf(Avgs(chunk)), MinOf(chunk), MaxOf(chunk), Sents(chunk), Recvs(chunk),
          LossPct(Sents(chunk), Recvs(chunk)))
  }

  // ------------------------------------------------------------------ downsampling

  /** Every `f` points merged into one. */
  function Groups(s: seq<Point>, f: nat): seq<Point>
    requires f > 0
  {
    if s == [] then [] else if |s| <= f then [Merge(s)] else [Merge(s[..f])] + Groups(s[f..], f)
  }

  /** `downsample_series`: a factor of one or less leaves the series as it is. */
  function Downsample(s: seq<Point>, factor: int): seq<Point> {
    if factor <= 1 then s else Groups(s, factor)
  }

  method DownsampleSeries(s: seq<Point>, factor: int) returns (out: seq<Point>)
    ensures out == Downsample(s, factor)
  {
    hide Merge;
    if factor <= 1 || s == [] {
      return s;
    }
    out := [];
    var i := 0;
    assert s[0..] == s;
    while i < |s|
      invariant 0 <= i
      invariant Groups(s, factor) == out + if i < |s| then Groups(s[i..], factor) else []
    {
      var end := if i + factor < |s| then i + factor else |s|;
      var chunk := s[i..end];
      if end < |s| {
        assert s[i..][..factor] == chunk && s[i..][factor..] == s[end..];
      } else {
        assert s[i..] == chunk;
      }
      out := out + [Merge(chunk)];
      i := i + factor;
    }
  }

  /** The rounded-up quotient. */
  predicate IsCeiling(q: nat, n: nat, f: nat) {
    n <= q * f && (q > 0 ==> (q - 1) * f < n)
  }

  lemma {:induction false} GroupCount(s: seq<Point>, f: nat)
    requires f > 0
    ensures IsCeiling(|Groups(s, f)|, |s|, f)
    decreases |s|
  {
    hide Merge;
    if |s| > f {
      GroupCount(s[f..], f);
      var q := |Groups(s[f..], f)|;
      assert |Groups(s, f)| == q + 1 && q > 0;
      assert (q + 1) * f == q * f + f && q * f == (q - 1) * f + f;
    }
  }

  // ------------------------------------------------------------------ what downsampling keeps

  lemma {:induction false} FiguresAppend(a: seq<Point>, b: seq<Point>)
    ensures Sents(a + b) == Sents(a) + Sents(b) && Recvs(a + b) == Recvs(a) + Recvs(b)
    ensures MinOf(a + b) == OptMin(MinOf(a), MinOf(b)) && MaxOf(a + b) == OptMax(MaxOf(a), MaxOf(b))
  {
    if a == [] {
      assert a + b == b;
    } else {
      assert (a + b)[1..] == a[1..] + b;
      FiguresAppend(a[1..], b);
    }
  }

  /** The same totals and extremes. */
  predicate SameFigures(a: seq<Point>, b: seq<Point>) {
    Sents(a) == Sents(b) && Recvs(a) == Recvs(b) && MinOf(a) == MinOf(b) && MaxOf(a) == MaxOf(b)
  }

  lemma {:induction false} MergeKeeps(chunk: seq<Point>)
    requires chunk != []
    ensures SameFigures([Merge(chunk)], chunk)
  {
  }

  lemma {:induction false} AppendKeeps(a: seq<Point>, b: seq<Point>, c: seq<Point>, d: seq<Point>)
    requires SameFigures(a, b) && SameFigures(c, d)
    ensures SameFigures(a + c, b + d)
  {
    hide Sents, Recvs, MinOf, MaxOf, OptMin, OptMax;
    FiguresAppend(a, c);
    FiguresAppend(b, d);
  }

  lemma {:induction false} GroupsKeep(s: seq<Point>, f: nat)
    requires f > 0
    ensures SameFigures(Groups(s, f), s)
    ensures s != [] ==> Groups(s, f) != [] && Groups(s, f)[0].t == s[0].t
    decreases |s|
  {
    hide SameFigures, Sents, Recvs, MinOf, MaxOf, Avgs, MeanOf, LossPct;
    if s == [] {
      Reflexive(s);
    } else if |s| <= f {
      MergeKeeps(s);
    } else {
      GroupsKeep(s[f..], f);
      MergeKeeps(s[..f]);
      AppendKeeps([Merge(s[..f])], s[..f], Groups(s[f..], f), s[f..]);
      assert s[..f] + s[f..] == s;
    }
  }

  lemma {:induction false} Reflexive(s: seq<Point>)
    ensures SameFigures(s, s)
  {
  }

  /** Totals and extremes are those of the input series, and there are as many points as chunks. */
  lemma {:induction false} DownsampleKeeps(s: seq<Point>, factor: int)
    ensures SameFigures(Downsample(s, factor), s)
    ensures factor >= 1 ==> IsCeiling(|Downsample(s, factor)|, |s|, factor)
  {
    hide Groups, Sents, Recvs, MinOf, MaxOf;
    if factor > 1 {
      GroupsKeep(s, factor);
      GroupCount(s, factor);
    }
  }

  // ------------------------------------------------------------------ downsampling twice

  /** Equal but for the averages, which are averages of averages. */
  predicate SameButAvg(p: Point, q: Point) {
    p == q.(avg := p.avg)
  }

  predicate AllSameButAvg(a: seq<Point>, b: seq<Point>) {
    |a| == |b| && forall i | 0 <= i < |a| :: SameButAvg(a[i], b[i])
  }

  lemma {:induction false} MergeTwice(s: seq<Point>, f: nat)
    requires f > 0 && s != []
    ensures Groups(s, f) != [] && SameButAvg(Merge(Groups(s, f)), Merge(s))
  {
    hide Groups, Sents, Recvs, MinOf, MaxOf, LossPct, Avgs, MeanOf;
    GroupsKeep(s, f);
  }

  lemma {:induction false} FirstGroup(s: seq<Point>, f: nat)
    requires f > 0 && |s| >= f
    ensures Groups(s, f) == [Merge(s[..f])] + Groups(s[f..], f)
  {
    if |s| == f {
      assert s[..f] == s && s[f..] == [];
    }
  }

  predicate IsMultiple(n: nat, f: nat, k: nat) {
    if k == 0 then n == 0 else n >= f && IsMultiple(n - f, f, k - 1)
  }

  lemma {:induction false} MultipleIs(n: nat, f: nat, k: nat)
    requires n == k * f
    ensures IsMultiple(n, f, k)
  {
    if k > 0 {
      assert k * f == (k - 1) * f + f;
      MultipleIs(n - f, f, k - 1);
    }
  }

  lemma {:induction false} FirstGroupOfBoth(x: seq<Point>, y: seq<Point>, f: nat)
    requires f > 0 && |x| >= f
    ensures Groups(x + y, f) == [Merge(x[..f])] + Groups(x[f..] + y, f)
  {
    hide Groups, Merge;
    FirstGroup(x + y, f);
    assert (x + y)[..f] == x[..f];
    assert (x + y)[f..] == x[f..] + y;
  }

  lemma {:induction false} MultipleStep(n: nat, f: nat, k: nat)
    requires IsMultiple(n, f, k) && k > 0
    ensures n >= f && IsMultiple(n - f, f, k - 1)
  {
  }

  /** Splitting behind `k` whole chunks. */
  lemma {:induction false} GroupsSplit(x: seq<Point>, y: seq<Point>, f: nat, k: nat)
    requires f > 0 && IsMultiple(|x|, f, k)
    ensures Groups(x + y, f) == Groups(x, f) + Groups(y, f) && |Groups(x, f)| == k
    decreases k
  {
    if k == 0 {
      assert x == [] && x + y == y;
    } else {
      hide Groups, Merge, IsMultiple;
      MultipleStep(|x|, f, k);
      FirstGroup(x, f);
      FirstGroupOfBoth(x, y, f);
      GroupsSplit(x[f..], y, f, k - 1);
      SameFront(Merge(x[..f]), Groups(x[f..], f), Groups(y, f));
    }
  }

  lemma {:induction false} SameFront(p: Point, a: seq<Point>, b: seq<Point>)
    ensures [p] + (a + b) == ([p] + a) + b
  {
  }

  lemma {:induction false} ProductsOrdered(x: nat, y: nat, a: nat)
    requires x <= y
    ensures x * a <= y * a
  {
  }

  lemma {:induction false} FewGroups(s: seq<Point>, a: nat, b: nat)
    requires a > 0 && |s| <= a * b
    ensures |Groups(s, a)| <= b
  {
    hide Groups;
    GroupCount(s, a);
    var q := |Groups(s, a)|;
    if q > b {
      ProductsOrdered(b, q - 1, a);
    }
  }

  lemma {:induction false} GroupsTwice(s: seq<Point>, a: nat, b: nat)
    requires a > 0 && b > 0
    ensures a * b > 0 && AllSameButAvg(Groups(Groups(s, a), b), Groups(s, a * b))
    decreases |s|
  {
    hide Merge, SameButAvg;
    var f := a * b;
    assert f >= a && f > 0;
    if s == [] {
    } else if |s| <= f {
      FewGroups(s, a, b);
      MergeTwice(s, a);
    } else {
      var head, rest := s[..f], s[f..];
      assert b * a == f;
      MultipleIs(f, a, b);
      GroupsSplit(head, rest, a, b);
      assert head + rest == s;
      var g, more := Groups(head, a), Groups(rest, a);
      GroupsTwice(rest, a, b);
      MergeTwice(head, a);
      assert Groups(s, a) == g + more && |g| == b;
      GroupsKeep(rest, a);
      assert more != [];
      assert (g + more)[..b] == g && (g + more)[b..] == more;
      assert Groups(g + more, b) == [Merge(g)] + Groups(more, b);
    }
  }

  /** Downsampling by `a` and then by `b` is downsampling by their product, in all but the averages. */
  lemma {:induction false} DownsamplingComposes(s: seq<Point>, a: int, b: int)
    requires a >= 1 && b >= 1
    ensures AllSameButAvg(Downsample(Downsample(s, a), b), Downsample(s, a * b))
  {
    hide Groups;
    if a == 1 {
      assert a * b == b;
    } else if b == 1 {
      assert a * b == a;
    } else {
      GroupsTwice(s, a, b);
      assert a * b > 1;
    }
  }

  // ------------------------------------------------------------------ averages

  lemma {:induction false} MeanBetween(sum: real, n: nat, lo: real, hi: real)
    requires n > 0 && lo * n as real <= sum <= hi * n as real
    ensures lo <= Mean(sum, n) <= hi
  {
  }

  lemma {:induction false} SumBetween(values: seq<real>, lo: real, hi: real)
    requires forall i | 0 <= i < |values| :: lo <= values[i] <= hi
    ensures lo * |values| as real <= Sum(values) <= hi * |values| as real
  {
    if values != [] {
      var n := |values| - 1;
      SumBetween(values[..n], lo, hi);
      assert lo * (n + 1) as real == lo * n as real + lo;
      assert hi * (n + 1) as real == hi * n as real + hi;
    }
  }

  lemma {:induction false} MeanOfBetween(values: seq<real>, lo: real, hi: real)
    requires values != [] && forall i | 0 <= i < |values| :: lo <= values[i] <= hi
    ensures lo <= MeanOf(values).value <= hi
  {
    hide Sum, Mean;
    SumBetween(values, lo, hi);
    MeanBetween(Sum(values), |values|, lo, hi);
  }

  /** Average and extremes are there exactly when something was received, and the average lies between them. */
  predicate Sound(p: Point) {
    && p.recv <= p.sent
    && (p.recv == 0 <==> p.avg.None?) && (p.recv == 0 <==> p.min.None?) && (p.recv == 0 <==> p.max.None?)
    && (p.recv > 0 ==> p.min.value <= p.avg.value <= p.max.value)
  }

  predicate AllSound(s: seq<Point>) {
    forall i | 0 <= i < |s| :: Sound(s[i])
  }

  /** The point of a bucket that summarizes samples. */
  lemma {:induction false} BucketIsSound(b: Bucket, samples: seq<Sample>)
    requires Describes(b, samples)
    ensures Sound(PointOf(b))
  {
    hide Values, Sum, Mean, LossPct;
    var values := Values(samples);
    if values != [] {
      assert MeanOf(values) == Some(Mean(b.sum, b.recv));
      MeanOfBetween(values, b.min.value, b.max.value);
    }
  }

  /** Averages and extremes of a sound series. */
  lemma {:induction false} SeriesFigures(s: seq<Point>, p: Point)
    requires Sound(p)
    ensures Avgs(s + [p]) == Avgs(s) + (if p.recv > 0 then [p.avg.value] else [])
    ensures Recvs(s + [p]) == Recvs(s) + p.recv && Sents(s + [p]) == Sents(s) + p.sent
    ensures MinOf(s + [p]) == OptMin(MinOf(s), p.min) && MaxOf(s + [p]) == OptMax(MaxOf(s), p.max)
  {
    assert (s + [p])[|s|] == p && (s + [p])[..|s|] == s;
    FiguresAppend(s, [p]);
    assert [p][1..] == [];
    assert MinOf([p]) == OptMin(p.min, None) && MaxOf([p]) == OptMax(p.max, None);
    assert Sents([p]) == p.sent + Sents([]) && Recvs([p]) == p.recv + Recvs([]);
  }

  lemma {:induction false} AvgsWithin(s: seq<Point>)
    requires AllSound(s)
    ensures Recvs(s) <= Sents(s)
    ensures Recvs(s) == 0 <==> Avgs(s) == []
    ensures (Recvs(s) == 0 <==> MinOf(s).None?) && (Recvs(s) == 0 <==> MaxOf(s).None?)
    ensures forall i | 0 <= i < |Avgs(s)| ::
              MinOf(s).Some? && MaxOf(s).Some? && MinOf(s).value <= Avgs(s)[i] <= MaxOf(s).value
  {
    if s != [] {
      var front, p := s[..|s| - 1], s[|s| - 1];
      assert s == front + [p] && Sound(p);
      AvgsWithin(front);
      SeriesFigures(front, p);
      hide Avgs, Recvs, Sents, MinOf, MaxOf;
      forall i | 0 <= i < |Avgs(s)|
        ensures MinOf(s).Some? && MaxOf(s).Some? && MinOf(s).value <= Avgs(s)[i] <= MaxOf(s).value
      {
        StillBetween(Avgs(s)[i], MinOf(front), MaxOf(front), p);
      }
    }
  }

  /** Widening the extremes keeps what lay between them. */
  lemma {:induction false} StillBetween(v: real, min: Option<real>, max: Option<real>, p: Point)
    requires Sound(p)
    requires (min.Some? && max.Some? && min.value <= v <= max.value) || (p.recv > 0 && v == p.avg.value)
    ensures var lo, hi := OptMin(min, p.min), OptMax(max, p.max);
            lo.Some? && hi.Some? && lo.value <= v <= hi.value
  {
  }

  /** Merging keeps averages within extremes, although they become averages of averages. */
  lemma {:induction false} MergeIsSound(chunk: seq<Point>)
    requires chunk != [] && AllSound(chunk)
    ensures Sound(Merge(chunk))
  {
    hide Avgs, Recvs, Sents, MinOf, MaxOf, MeanOf, LossPct, AllSound;
    AvgsWithin(chunk);
    if Avgs(chunk) != [] {
      MeanOfBetween(Avgs(chunk), MinOf(chunk).value, MaxOf(chunk).value);
    }
    assert Avgs(chunk) == [] <==> MeanOf(Avgs(chunk)).None? by { MeanOfNone(Avgs(chunk)); }
  }

  lemma {:induction false} MeanOfNone(values: seq<real>)
    ensures values == [] <==> MeanOf(values).None?
  {
  }

  lemma {:induction false} GroupsAreSound(s: seq<Point>, f: nat)
    requires f > 0 && AllSound(s)
    ensures AllSound(Groups(s, f))
    decreases |s|
  {
    hide Merge, Sound;
    if s != [] && |s| <= f {
      MergeIsSound(s);
    } else if s != [] {
      MergeIsSound(s[..f]);
      GroupsAreSound(s[f..], f);
    }
  }

  lemma {:induction false} DownsamplingIsSound(s: seq<Point>, factor: int)
    requires AllSound(s)
    ensures AllSound(Downsample(s, factor))
  {
    hide Groups, Sound;
    if factor > 1 {
      GroupsAreSound(s, factor);
    }
  }

  // ------------------------------------------------------------------ the day summary

  datatype Summary = Summary(
    sent: nat, recv: nat, lossPct: real, avg: Option<real>, min: Option<real>, max: Option<real>, availability: real,
    outage: nat, window: nat, series: seq<Point>)

  predicate IsOutage(p: Point) {
    p.recv == 0 && p.sent > 0
  }

  function DaySummary(s: seq<Point>, factor: int): Summary {
    Summary(Sents(s), Recvs(s), LossPct(Sents(s), Recvs(s)), MeanOf(Avgs(s)), MinOf(s), MaxOf(s),
            if Sents(s) == 0 then 0.0 else 100.0 * (Recvs(s) as real) / (Sents(s) as real),
            |Filter(s, IsOutage)|, |s|, Downsample(s, factor))
  }

  /** The summary's totals and extremes are those of the chart beneath it at any factor; its average lies between. */
  lemma {:induction false} SummaryAgreesWithChart(s: seq<Point>, factor: int)
    requires AllSound(s)
    ensures var d := DaySummary(s, factor);
            && d.sent == Sents(d.series) && d.recv == Recvs(d.series)
            && d.min == MinOf(d.series) && d.max == MaxOf(d.series)
            && (d.recv == 0 <==> d.avg.None?)
            && (d.recv > 0 ==> d.min.Some? && d.max.Some? && d.min.value <= d.avg.value <= d.max.value)
            && AllSound(d.series)
  {
    hide Avgs, Recvs, Sents, MinOf, MaxOf, MeanOf, LossPct, AllSound, Downsample, Filter;
    DownsampleKeeps(s, factor);
    DownsamplingIsSound(s, factor);
    AvgsWithin(s);
    MeanOfNone(Avgs(s));
    if Avgs(s) != [] {
      MeanOfBetween(Avgs(s), MinOf(s).value, MaxOf(s).value);
    }
  }

  lemma {:induction false} SeriesIsSound(bs: seq<Bucket>, cutoff: real)
    requires forall k | 0 <= k < |bs| :: Honest(bs[k])
    ensures AllSound(SeriesOf(bs, cutoff))
  {
    hide Honest, Sound, PointOf;
    if bs != [] {
      var last := bs[|bs| - 1];
      SeriesIsSound(bs[..|bs| - 1], cutoff);
      HonestIsSound(last);
    }
  }

  lemma {:induction false} HonestIsSound(b: Bucket)
    requires Honest(b)
    ensures Sound(PointOf(b))
  {
    hide Describes, Sound, PointOf;
    var c: seq<Sample> :| Describes(b, c);
    BucketIsSound(b, c);
  }

  /** Whatever was stored, in whatever order of time: what the store charts and summarizes is sound at every level. */
  lemma {:induction false} ChartsAreSound(samples: seq<Sample>, width: nat, limit: nat, cutoff: real, factor: int)
    requires width > 0
    ensures var s := SeriesOf(Tail(Runs(samples, width), limit + 1), cutoff);
            var d := DaySummary(s, factor);
            && AllSound(s) && AllSound(d.series)
            && d.sent == Sents(d.series) && d.recv == Recvs(d.series)
            && d.min == MinOf(d.series) && d.max == MaxOf(d.series)
            && (d.recv == 0 <==> d.avg.None?)
            && (d.recv > 0 ==> d.min.Some? && d.max.Some? && d.min.value <= d.avg.value <= d.max.value)
  {
    hide Runs, SeriesOf, DaySummary, AllSound, Honest, Sents, Recvs, MinOf, MaxOf;
    RunsAreHonest(samples, width);
    var kept := Tail(Runs(samples, width), limit + 1);
    SeriesIsSound(kept, cutoff);
    SummaryAgreesWithChart(SeriesOf(kept, cutoff), factor);
  }

  // ------------------------------------------------------------------ what the figures mean

  /** `m` is the sum shared among `n`, and is missing when there is nothing to share. */
  predicate IsMean(m: Option<real>, sum: real, n: nat) {
    (n == 0 <==> m.None?) && (m.Some? ==> m.value * n as real == sum)
  }

  /** `x` percent of the whole are the part; of nothing it is 0. */
  predicate IsPercent(x: real, part: int, whole: nat) {
    if whole == 0 then x == 0.0 else x * whole as real == 100.0 * part as real
  }

  /** The sum of the averages that are there. */
  function AvgSum(s: seq<Point>): real {
    if s == [] then 0.0
    else AvgSum(s[..|s| - 1]) + match s[|s| - 1].avg case Some(v) => v case None => 0.0
  }

  /** How many points have an average. */
  function AvgCount(s: seq<Point>): nat {
    if s == [] then 0 else AvgCount(s[..|s| - 1]) + if s[|s| - 1].avg.Some? then 1 else 0
  }

  lemma {:induction false} MeanTimes(sum: real, n: nat)
    requires n > 0
    ensures Mean(sum, n) * n as real == sum
  {
  }

  lemma {:induction false} MeanOfIs(values: seq<real>)
    ensures IsMean(MeanOf(values), Sum(values), |values|)
  {
    if values != [] {
      MeanTimes(Sum(values), |values|);
    }
  }

  lemma {:induction false} AvgsAre(s: seq<Point>)
    ensures Sum(Avgs(s)) == AvgSum(s) && |Avgs(s)| == AvgCount(s)
  {
    if s != [] {
      var front, p := s[..|s| - 1], s[|s| - 1];
      AvgsAre(front);
      if p.avg.Some? {
        assert Avgs(s)[..|Avgs(front)|] == Avgs(front);
      } else {
        assert Avgs(s) == Avgs(front);
      }
    }
  }

  lemma {:induction false} SeriesMean(s: seq<Point>)
    ensures IsMean(MeanOf(Avgs(s)), AvgSum(s), AvgCount(s))
  {
    hide MeanOf, Sum, Avgs, AvgSum, AvgCount, IsMean;
    AvgsAre(s);
    MeanOfIs(Avgs(s));
  }

  lemma {:induction false} LossIsPercent(sent: nat, recv: nat)
    ensures IsPercent(LossPct(sent, recv), sent - recv, sent)
  {
    if sent > 0 {
      ShareTimes(100.0 * (sent - recv) as real, sent as real);
    }
  }

  lemma {:induction false} ShareTimes(x: real, n: real)
    requires n > 0.0
    ensures x / n * n == x
  {
  }

  /** One point stands for a stretch of points. */
  predicate StandsFor(p: Point, chunk: seq<Point>)
    requires chunk != []
  {
    && p.t == chunk[0].t && p.sent == Sents(chunk) && p.recv == Recvs(chunk)
    && p.min == MinOf(chunk) && p.max == MaxOf(chunk)
    && IsMean(p.avg, AvgSum(chunk), AvgCount(chunk))
    && IsPercent(p.lossPct, p.sent - p.recv, p.sent)
  }

  lemma {:induction false} MergeStandsFor(chunk: seq<Point>)
    requires chunk != []
    ensures StandsFor(Merge(chunk), chunk)
  {
    hide Avgs, AvgSum, AvgCount, MeanOf, Sents, Recvs, MinOf, MaxOf, LossPct, IsMean, IsPercent;
    SeriesMean(chunk);
    LossIsPercent(Sents(chunk), Recvs(chunk));
  }

  function Least(a: nat, b: nat): nat {
    if a < b then a else b
  }

  lemma {:induction false} SliceOfDrop<T>(s: seq<T>, f: nat, a: nat, b: nat)
    requires f <= a <= b <= |s|
    ensures s[f..][a - f..b - f] == s[a..b]
  {
  }

  lemma {:induction false} GroupStandsFor(s: seq<Point>, f: nat, k: nat, from: nat)
    requires f > 0 && IsMultiple(from, f, k) && from < |s|
    ensures k < |Groups(s, f)| && StandsFor(Groups(s, f)[k], s[from..Least(from + f, |s|)])
    decreases k
  {
    hide Merge, StandsFor;
    if k == 0 {
      var chunk := s[0..Least(f, |s|)];
      MergeStandsFor(chunk);
      assert chunk == if |s| <= f then s else s[..f];
    } else {
      hide IsMultiple;
      MultipleStep(from, f, k);
      FirstGroup(s, f);
      hide Groups;
      GroupStandsFor(s[f..], f, k - 1, from - f);
      assert Least(from, |s| - f) == Least(from + f, |s|) - f;
      SliceOfDrop(s, f, from, Least(from + f, |s|));
    }
  }

  /** Point `k` of a downsampled series stands for the points from `k` times the factor on. */
  lemma {:induction false} DownsampledPoint(s: seq<Point>, factor: nat, k: nat)
    requires factor > 1 && k * factor < |s|
    ensures k < |Downsample(s, factor)|
    ensures StandsFor(Downsample(s, factor)[k], s[k * factor..Least(k * factor + factor, |s|)])
  {
    hide Groups, StandsFor;
    MultipleIs(k * factor, factor, k);
    GroupStandsFor(s, factor, k, k * factor);
  }

  /** What a bucket's point says. */
  predicate ShowsBucket(p: Point, b: Bucket) {
    && p.t == b.id && p.sent == b.sent && p.recv == b.recv && p.min == b.min && p.max == b.max
    && IsMean(p.avg, b.sum, b.recv) && IsPercent(p.lossPct, b.sent - b.recv, b.sent)
  }

  lemma {:induction false} PointShowsBucket(b: Bucket)
    ensures ShowsBucket(PointOf(b), b)
  {
    hide LossPct, IsPercent, Mean;
    LossIsPercent(b.sent, b.recv);
    if b.recv > 0 {
      MeanTimes(b.sum, b.recv);
    }
  }

  /** The buckets that are not older than the cutoff. */
  function Recent(bs: seq<Bucket>, cutoff: real): seq<Bucket> {
    Filter(bs, (b: Bucket) => b.id as real >= cutoff)
  }

  lemma {:induction false} RecentAppend(bs: seq<Bucket>, b: Bucket, cutoff: real)
    ensures Recent(bs + [b], cutoff) == Recent(bs, cutoff) + if b.id as real >= cutoff then [b] else []
  {
    var p := (b: Bucket) => b.id as real >= cutoff;
    FilterAppend(bs, [b], p);
    FilterStep(b, [], p);
    assert [b] + [] == [b];
  }

  /** A chart has one point for each recent bucket, in order, with the bucket's own figures. */
  lemma {:induction false} SeriesShowsRecent(bs: seq<Bucket>, cutoff: real)
    ensures var s, kept := SeriesOf(bs, cutoff), Recent(bs, cutoff);
            && |s| == |kept| && (forall i | 0 <= i < |s| :: ShowsBucket(s[i], kept[i]))
            && Sents(s) == Sent(kept) && Recvs(s) == Received(kept)
  {
    hide PointOf, ShowsBucket, Recent;
    if bs == [] {
      assert Recent(bs, cutoff) == [] by { NoRecent(cutoff); }
    } else {
      var front, b := bs[..|bs| - 1], bs[|bs| - 1];
      assert bs == front + [b];
      SeriesShowsRecent(front, cutoff);
      RecentAppend(front, b, cutoff);
      PointShowsBucket(b);
      TotalsStep(SeriesOf(front, cutoff), Recent(front, cutoff), b);
      hide Sents, Recvs, Sent, Received;
      assert SeriesOf(front, cutoff) + [] == SeriesOf(front, cutoff);
      assert Recent(front, cutoff) + [] == Recent(front, cutoff);
    }
  }

  lemma {:induction false} NoRecent(cutoff: real)
    ensures Recent([], cutoff) == []
  {
  }

  lemma {:induction false} TotalsStep(s: seq<Point>, kept: seq<Bucket>, b: Bucket)
    requires Sents(s) == Sent(kept) && Recvs(s) == Received(kept)
    ensures Sents(s + [PointOf(b)]) == Sent(kept + [b]) && Recvs(s + [PointOf(b)]) == Received(kept + [b])
  {
    hide PointOf, MinOf, MaxOf;
    var p := PointOf(b);
    PointShowsBucket(b);
    FiguresAppend(s, [p]);
    assert [p][1..] == [] && (kept + [b])[..|kept|] == kept;
  }

  predicate IsOutageAt(s: seq<Point>, i: nat) {
    i < |s| && s[i].recv == 0 && s[i].sent > 0
  }

  /** The minutes in which something was sent and nothing came back. */
  function OutageMinutes(s: seq<Point>): set<nat> {
    set i: nat | i < |s| && IsOutageAt(s, i)
  }

  lemma {:induction false} OutagesStep(front: seq<Point>, p: Point)
    ensures |OutageMinutes(front + [p])| == |OutageMinutes(front)| + if IsOutage(p) then 1 else 0
  {
    var all, n, before := front + [p], |front|, OutageMinutes(front);
    assert forall i | 0 <= i < n :: all[i] == front[i];
    forall i: nat ensures i in OutageMinutes(all) <==> i in before || (i == n && IsOutage(p)) {
    }
    assert OutageMinutes(all) == if IsOutage(p) then before + {n} else before;
  }

  lemma {:induction false} OutagesAre(s: seq<Point>)
    ensures |Filter(s, IsOutage)| == |OutageMinutes(s)|
  {
    if s == [] {
      assert OutageMinutes(s) == {};
    } else {
      hide OutageMinutes, IsOutage;
      var front, p := s[..|s| - 1], s[|s| - 1];
      assert s == front + [p];
      OutagesAre(front);
      OutagesStep(front, p);
      FilterAppend(front, [p], IsOutage);
      FilterStep(p, [], IsOutage);
      assert [p] + [] == [p];
    }
  }

  /** Every figure of a summary, from the points it summarizes. */
  lemma {:induction false} SummaryFigures(s: seq<Point>, factor: int)
    requires Recvs(s) <= Sents(s)
    ensures var d := DaySummary(s, factor);
            && d.sent == Sents(s) && d.recv == Recvs(s) && d.min == MinOf(s) && d.max == MaxOf(s)
            && IsMean(d.avg, AvgSum(s), AvgCount(s))
            && IsPercent(d.lossPct, d.sent - d.recv, d.sent) && IsPercent(d.availability, d.recv, d.sent)
            && d.window == |s| && d.outage == |OutageMinutes(s)| && d.series == Downsample(s, factor)
  {
    hide Avgs, AvgSum, AvgCount, MeanOf, Sents, Recvs, MinOf, MaxOf, LossPct, IsMean, Filter, OutageMinutes, Downsample;
    SeriesMean(s);
    LossIsPercent(Sents(s), Recvs(s));
    OutagesAre(s);
    if Sents(s) > 0 {
      ShareTimes(100.0 * Recvs(s) as real, Sents(s) as real);
    }
  }

  /** Without a cutoff, and while nothing was evicted, a summary counts every sample that was ever stored. */
  lemma {:induction false} SummaryCountsSamples(samples: seq<Sample>, width: nat, cutoff: real, factor: int)
    requires width > 0 && Recent(Runs(samples, width), cutoff) == Runs(samples, width)
    ensures var d := DaySummary(SeriesOf(Runs(samples, width), cutoff), factor);
            d.sent == |samples| && d.recv == |Values(samples)|
  {
    hide Runs, SeriesOf, Recent, Sent, Received, Sents, Recvs, Values, MeanOf, Avgs, MinOf, MaxOf, LossPct, Filter,
         Downsample;
    SeriesShowsRecent(Runs(samples, width), cutoff);
    RunsConserve(samples, width);
  }

  // ------------------------------------------------------------------ jitter

  function Gap(a: real, b: real): (r: real)
    ensures r >= 0.0
  {
    if a >= b then a - b else b - a
  }

  /** The differences between neighbours. */
  function Gaps(ok: seq<real>): (r: seq<real>)
    ensures |r| == if ok == [] then 0 else |ok| - 1
    ensures forall i | 0 <= i < |r| :: r[i] == Gap(ok[i + 1], ok[i])
  {
    if |ok| < 2 then [] else Gaps(ok[..|ok| - 1]) + [Gap(ok[|ok| - 1], ok[|ok| - 2])]
  }

  function Jitter(ok: seq<real>): Option<real> {
    MeanOf(Gaps(ok))
  }

  /** The mean step between answers is there from two answers on, and never exceeds the spread. */
  lemma {:induction false} JitterWithinSpread(ok: seq<real>, min: Option<real>, max: Option<real>)
    requires IsLeast(min, ok) && IsGreatest(max, ok)
    ensures Jitter(ok).Some? <==> |ok| > 1
    ensures Jitter(ok).Some? ==> 0.0 <= Jitter(ok).value <= max.value - min.value
  {
    hide MeanOf;
    var gaps := Gaps(ok);
    MeanOfNone(gaps);
    if |ok| > 1 {
      forall i | 0 <= i < |gaps| ensures 0.0 <= gaps[i] <= max.value - min.value {
        assert min.value <= ok[i] <= max.value && min.value <= ok[i + 1] <= max.value;
      }
      MeanOfBetween(gaps, 0.0, max.value - min.value);
    }
  }

  /** The sum of the absolute steps between neighbours. */
  function StepSum(ok: seq<real>): real {
    if |ok| < 2 then 0.0
    else
      var step := ok[|ok| - 1] - ok[|ok| - 2];
      StepSum(ok[..|ok| - 1]) + if step < 0.0 then -step else step
  }

  lemma {:induction false} GapsSum(ok: seq<real>)
    ensures Sum(Gaps(ok)) == StepSum(ok)
  {
    if |ok| >= 2 {
      var front := ok[..|ok| - 1];
      GapsSum(front);
      assert Gaps(ok)[..|Gaps(front)|] == Gaps(front);
    }
  }

  /** Jitter is the mean absolute step, of which there is one less than there are answers. */
  lemma {:induction false} JitterIsMeanStep(ok: seq<real>)
    ensures IsMean(Jitter(ok), StepSum(ok), if ok == [] then 0 else |ok| - 1)
  {
    hide Sum, StepSum, MeanOf, IsMean;
    GapsSum(ok);
    MeanOfIs(Gaps(ok));
  }
}
