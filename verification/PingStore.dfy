/** Streaming aggregation of ping samples into a bounded list of time buckets. */
module PingStore {
  import opened Common

  datatype Sample = Sample(time: real, rtt: Option<real>)

  datatype Bucket = Bucket(id: int, sent: nat, recv: nat, sum: real, min: Option<real>, max: Option<real>)

  /** The start of the window that contains `time`. */
  function BucketId(time: real, width: nat): int
    requires width > 0
  {
    (time / width as real).Floor * width
  }

  /** The window starts at a multiple of the width, holds the time, and is one width long. */
  lemma {:induction false} WindowHoldsTime(time: real, width: nat) returns (n: int)
    requires width > 0
    ensures var id := BucketId(time, width); id == n * width && id as real <= time < (id + width) as real
  {
    var w := width as real;
    var q := time / w;
    n := q.Floor;
    QuotientTimes(time, w);
    ProductsFollow(n as real, q, w);
    StrictProductsFollow(q, n as real + 1.0, w);
    RealProduct(n, width);
    OneMore(n as real, w);
  }

  lemma {:induction false} QuotientTimes(x: real, w: real)
    requires w > 0.0
    ensures x / w * w == x
  {
  }

  lemma {:induction false} ProductsFollow(a: real, b: real, w: real)
    requires a <= b && w > 0.0
    ensures a * w <= b * w
  {
  }

  lemma {:induction false} StrictProductsFollow(a: real, b: real, w: real)
    requires a < b && w > 0.0
    ensures a * w < b * w
  {
  }

  lemma {:induction false} OneMore(a: real, w: real)
    ensures (a + 1.0) * w == a * w + w
  {
  }

  lemma {:induction false} RealProduct(n: int, width: nat)
    ensures n as real * width as real == (n * width) as real
  {
  }

  function Fresh(id: int): Bucket {
    Bucket(id, 0, 0, 0.0, None, None)
  }

  function OptMin(a: Option<real>, b: Option<real>): Option<real> {
    if a.None? then b else if b.None? then a else if b.value < a.value then b else a
  }

  function OptMax(a: Option<real>, b: Option<real>): Option<real> {
    if a.None? then b else if b.None? then a else if b.value > a.value then b else a
  }

  function Fold(b: Bucket, rtt: Option<real>): Bucket {
    if rtt.None? then b.(sent := b.sent + 1)
    else b.(sent := b.sent + 1, recv := b.recv + 1, sum := b.sum + rtt.value,
            min := OptMin(b.min, rtt), max := OptMax(b.max, rtt))
  }

  // ------------------------------------------------------------------ all buckets there ever were

  /** One bucket per maximal stretch of samples in the same window, unbounded. */
  function Runs(samples: seq<Sample>, width: nat): (r: seq<Bucket>)
    requires width > 0
    ensures r == [] <==> samples == []
    ensures samples != [] ==> r[|r| - 1].id == BucketId(samples[|samples| - 1].time, width)
  {
    if samples == [] then [] else
    var before, x := Runs(samples[..|samples| - 1], width), samples[|samples| - 1];
    var id := BucketId(x.time, width);
    if before != [] && before[|before| - 1].id == id
    then before[..|before| - 1] + [Fold(before[|before| - 1], x.rtt)]
    else before + [Fold(Fresh(id), x.rtt)]
  }

  // ------------------------------------------------------------------ the store

  datatype Kind = Default | Big | Wifi

  /** The current bucket is the last one there ever was, and the bounded list holds the `limit` before it. */
  ghost predicate IsNewest(buckets: seq<Bucket>, cur: Option<Bucket>, all: seq<Bucket>, limit: nat) {
    if all == [] then cur == None && buckets == []
    else cur == Some(all[|all| - 1]) && buckets == Tail(all[..|all| - 1], limit)
  }

  class Store {
    const width: nat
    const limit: nat
    var buckets: map<Kind, seq<Bucket>>
    var cur: map<Kind, Option<Bucket>>
    ghost var samples: map<Kind, seq<Sample>>

    ghost predicate Valid()
      reads this
    {
      width > 0 && forall k: Kind ::
        k in buckets && k in cur && k in samples && IsNewest(buckets[k], cur[k], Runs(samples[k], width), limit)
    }

    constructor (width: nat, limit: nat)
      requires width > 0
      ensures Valid() && this.width == width && this.limit == limit
      ensures forall k: Kind :: samples[k] == []
    {
      this.width, this.limit := width, limit;
      buckets := map[Default := [], Big := [], Wifi := []];
      cur := map[Default := None, Big := None, Wifi := None];
      samples := map[Default := [], Big := [], Wifi := []];
      new;
      forall k: Kind
        ensures k in samples && k in cur && k in buckets && samples[k] == [] && cur[k] == None && buckets[k] == []
      {
        assert k == Default || k == Big || k == Wifi;
      }
      assert Runs([], width) == [];
    }

    /** Fold one sample into the current bucket of a kind; the other kinds are not touched. */
    method AddToBucket(kind: Kind, time: real, rtt: Option<real>)
      requires Valid()
      modifies this`buckets, this`cur, this`samples
      ensures Valid() && samples == old(samples)[kind := old(samples)[kind] + [Sample(time, rtt)]]
    {
      hide Runs, BucketId, Fold, Tail, IsNewest;
      StaysNewest(buckets[kind], cur[kind], samples[kind], Sample(time, rtt), width, limit);
      var id := BucketId(time, width);
      var b := cur[kind];
      if b.None? || b.value.id != id {
        if b.Some? {
          buckets := buckets[kind := Tail(buckets[kind] + [b.value], limit)];
        }
        b := Some(Fresh(id));
      }
      cur := cur[kind := Some(Fold(b.value, rtt))];
      samples := samples[kind := samples[kind] + [Sample(time, rtt)]];
      assert IsNewest(buckets[kind], cur[kind], Runs(samples[kind], width), limit);
    }
  }

  lemma {:induction false} StaysNewest(
      bs: seq<Bucket>, c: Option<Bucket>, samples: seq<Sample>, x: Sample, width: nat, limit: nat)
    requires width > 0 && IsNewest(bs, c, Runs(samples, width), limit)
    ensures var id := BucketId(x.time, width);
            var same := c.Some? && c.value.id == id;
            var bs' := if c.None? || same then bs else Tail(bs + [c.value], limit);
            var c' := Fold(if same then c.value else Fresh(id), x.rtt);
            IsNewest(bs', Some(c'), Runs(samples + [x], width), limit)
  {
    hide Runs, BucketId, Fold, Tail, IsNewest;
    RunsStep(samples, x, width);
    var all, id := Runs(samples, width), BucketId(x.time, width);
    NewestIs(bs, c, all, limit);
    if c.Some? && c.value.id == id {
      NewestFolded(bs, all, Fold(c.value, x.rtt), limit);
    } else {
      NewestOpened(bs, c, all, Fold(Fresh(id), x.rtt), limit);
    }
  }

  lemma {:induction false} NewestIs(bs: seq<Bucket>, c: Option<Bucket>, all: seq<Bucket>, limit: nat)
    requires IsNewest(bs, c, all, limit)
    ensures if all == [] then c == None && bs == [] else c == Some(all[|all| - 1])
  {
    hide Tail;
  }

  lemma {:induction false} NewestFolded(bs: seq<Bucket>, all: seq<Bucket>, b: Bucket, limit: nat)
    requires all != [] && IsNewest(bs, Some(all[|all| - 1]), all, limit)
    ensures IsNewest(bs, Some(b), all[..|all| - 1] + [b], limit)
  {
    hide Tail;
    var more := all[..|all| - 1] + [b];
    assert more[..|more| - 1] == all[..|all| - 1];
  }

  lemma {:induction false} NewestOpened(bs: seq<Bucket>, c: Option<Bucket>, all: seq<Bucket>, b: Bucket, limit: nat)
    requires IsNewest(bs, c, all, limit)
    ensures IsNewest(if c.None? then bs else Tail(bs + [c.value], limit), Some(b), all + [b], limit)
  {
    hide Tail;
    assert (all + [b])[..|all|] == all;
    if all == [] {
      EmptyTail(limit);
    } else {
      TailOfLast(all, limit);
    }
  }

  lemma {:induction false} TailOfLast(all: seq<Bucket>, limit: nat)
    requires all != []
    ensures Tail(Tail(all[..|all| - 1], limit) + [all[|all| - 1]], limit) == Tail(all, limit)
  {
    hide Tail;
    TailOfAppend(all[..|all| - 1], [all[|all| - 1]], limit);
    assert all[..|all| - 1] + [all[|all| - 1]] == all;
  }

  lemma {:induction false} EmptyTail(n: nat)
    ensures Tail<Bucket>([], n) == []
  {
  }

  lemma {:induction false} RunsStep(samples: seq<Sample>, x: Sample, width: nat)
    requires width > 0
    ensures var before, all, id := Runs(samples, width), Runs(samples + [x], width), BucketId(x.time, width);
            if before != [] && before[|before| - 1].id == id
            then all == before[..|before| - 1] + [Fold(before[|before| - 1], x.rtt)]
                 && all[..|all| - 1] == before[..|before| - 1]
            else all == before + [Fold(Fresh(id), x.rtt)] && all[..|all| - 1] == before
  {
  }

  /** Retained buckets and the current one are the last `limit + 1` there ever were. */
  lemma {:induction false} RetainedAreNewest(all: seq<Bucket>, limit: nat)
    requires all != []
    ensures Tail(all[..|all| - 1], limit) + [all[|all| - 1]] == Tail(all, limit + 1)
  {
  }

  // ------------------------------------------------------------------ conservation, at any timestamps

  function Sent(bs: seq<Bucket>): nat {
    if bs == [] then 0 else Sent(bs[..|bs| - 1]) + bs[|bs| - 1].sent
  }

  function Received(bs: seq<Bucket>): nat {
    if bs == [] then 0 else Received(bs[..|bs| - 1]) + bs[|bs| - 1].recv
  }

  /** The round-trip times of the answered samples. */
  function Values(samples: seq<Sample>): (r: seq<real>)
    ensures |r| <= |samples|
  {
    if samples == [] then [] else
    var x := samples[|samples| - 1];
    Values(samples[..|samples| - 1]) + if x.rtt.Some? then [x.rtt.value] else []
  }

  lemma {:induction false} SentAppend(a: seq<Bucket>, b: seq<Bucket>)
    ensures Sent(a + b) == Sent(a) + Sent(b) && Received(a + b) == Received(a) + Received(b)
    decreases |b|
  {
    if b == [] {
      assert a + b == a;
    } else {
      assert (a + b)[..|a + b| - 1] == a + b[..|b| - 1];
      SentAppend(a, b[..|b| - 1]);
    }
  }

  /** Every sample is counted in exactly one bucket, every answered one also as received. */
  lemma {:induction false} RunsConserve(samples: seq<Sample>, width: nat)
    requires width > 0
    ensures Sent(Runs(samples, width)) == |samples| && Received(Runs(samples, width)) == |Values(samples)|
  {
    hide BucketId, Sent, Received, Runs, Values, Fold;
    if samples == [] {
      NoBuckets(width);
    } else {
      var front, x := samples[..|samples| - 1], samples[|samples| - 1];
      assert samples == front + [x];
      RunsConserve(front, width);
      RunsStep(front, x, width);
      ConserveStep(Runs(front, width), BucketId(x.time, width), x);
      ValuesLast(front, x);
    }
  }

  lemma {:induction false} ValuesLast(samples: seq<Sample>, x: Sample)
    ensures Values(samples + [x]) == Values(samples) + if x.rtt.Some? then [x.rtt.value] else []
  {
  }

  lemma {:induction false} ConserveStep(before: seq<Bucket>, id: int, x: Sample)
    ensures var same := before != [] && before[|before| - 1].id == id;
            var all := if same then before[..|before| - 1] + [Fold(before[|before| - 1], x.rtt)]
                       else before + [Fold(Fresh(id), x.rtt)];
            Sent(all) == Sent(before) + 1 && Received(all) == Received(before) + if x.rtt.Some? then 1 else 0
  {
  }

  lemma {:induction false} NoBuckets(width: nat)
    requires width > 0
    ensures Runs([], width) == [] && Values([]) == [] && Sent([]) == 0 && Received([]) == 0
  {
  }

  /** Retained, current and evicted buckets together account for every sample. */
  lemma {:induction false} NothingIsLost(samples: seq<Sample>, width: nat, limit: nat)
    requires width > 0
    ensures var all := Runs(samples, width);
            var kept := Tail(all, limit + 1);
            var evicted := all[..|all| - |kept|];
            Sent(evicted) + Sent(kept) == |samples| && Received(evicted) + Received(kept) == |Values(samples)|
  {
    hide Runs, Sent, Received, Values;
    var all := Runs(samples, width);
    var kept := Tail(all, limit + 1);
    RunsConserve(samples, width);
    SentAppend(all[..|all| - |kept|], kept);
    assert all == all[..|all| - |kept|] + kept;
  }

  // ------------------------------------------------------------------ group-by, when time does not run backwards

  function Sum(values: seq<real>): real {
    if values == [] then 0.0 else Sum(values[..|values| - 1]) + values[|values| - 1]
  }

  predicate IsLeast(m: Option<real>, values: seq<real>) {
    && (m.None? <==> values == [])
    && (m.Some? ==> m.value in values && forall i | 0 <= i < |values| :: m.value <= values[i])
  }

  predicate IsGreatest(m: Option<real>, values: seq<real>) {
    && (m.None? <==> values == [])
    && (m.Some? ==> m.value in values && forall i | 0 <= i < |values| :: m.value >= values[i])
  }

  /** The bucket that summarizes exactly these samples. */
  predicate Describes(b: Bucket, samples: seq<Sample>) {
    var values := Values(samples);
    && b.sent == |samples| && b.recv == |values| && b.sum == Sum(values)
    && IsLeast(b.min, values) && IsGreatest(b.max, values)
  }

  /** The samples of one window, in order. */
  function InWindow(samples: seq<Sample>, id: int, width: nat): (r: seq<Sample>)
    requires width > 0
  {
    if samples == [] then [] else
    var x := samples[|samples| - 1];
    InWindow(samples[..|samples| - 1], id, width) + if BucketId(x.time, width) == id then [x] else []
  }

  predicate Chronological(samples: seq<Sample>) {
    forall i | 0 < i < |samples| :: samples[i - 1].time <= samples[i].time
  }

  predicate Increasing(bs: seq<Bucket>) {
    forall i, j | 0 <= i < j < |bs| :: bs[i].id < bs[j].id
  }

  lemma {:induction false} IdsAreMonotone(s: real, t: real, width: nat)
    requires width > 0 && s <= t
    ensures BucketId(s, width) <= BucketId(t, width)
  {
    var w := width as real;
    assert s / w <= t / w;
    assert (s / w).Floor <= (t / w).Floor;
  }

  lemma {:induction false} FoldDescribes(b: Bucket, samples: seq<Sample>, x: Sample)
    requires Describes(b, samples)
    ensures Describes(Fold(b, x.rtt), samples + [x])
  {
    var values := Values(samples);
    ValuesLast(samples, x);
    if x.rtt.Some? {
      var more := values + [x.rtt.value];
      assert more[..|values|] == values && more[|values|] == x.rtt.value;
      assert forall v | v in values :: v in more;
    } else {
      assert values + [] == values;
    }
  }

  lemma {:induction false} FreshDescribes(id: int)
    ensures Describes(Fresh(id), [])
  {
  }

  /** No sample of an earlier window than the last bucket's next one: everything in front is older. */
  lemma {:induction false} NothingInWindow(samples: seq<Sample>, id: int, width: nat)
    requires width > 0 && forall i | 0 <= i < |samples| :: BucketId(samples[i].time, width) != id
    ensures InWindow(samples, id, width) == []
  {
    hide BucketId;
    if samples != [] {
      NothingInWindow(samples[..|samples| - 1], id, width);
    }
  }

  lemma {:induction false} OlderIds(samples: seq<Sample>, width: nat, i: nat)
    requires width > 0 && Chronological(samples) && i < |samples|
    ensures BucketId(samples[i].time, width) <= BucketId(samples[|samples| - 1].time, width)
    decreases |samples|
  {
    hide BucketId;
    if i < |samples| - 1 {
      var front := samples[..|samples| - 1];
      OlderIds(front, width, i);
      IdsAreMonotone(front[|front| - 1].time, samples[|samples| - 1].time, width);
    }
  }

  /** One bucket per window that has samples, in time order, each summarizing exactly that window's samples. */
  ghost predicate GroupsBy(bs: seq<Bucket>, samples: seq<Sample>, width: nat)
    requires width > 0
  {
    && Increasing(bs)
    && (forall k | 0 <= k < |bs| :: Describes(bs[k], InWindow(samples, bs[k].id, width)))
    && (forall i | 0 <= i < |samples| :: HasId(bs, BucketId(samples[i].time, width)))
    && (forall k | 0 <= k < |bs| :: InWindow(samples, bs[k].id, width) != [])
  }

  ghost predicate HasId(bs: seq<Bucket>, id: int) {
    exists k :: 0 <= k < |bs| && bs[k].id == id
  }

  lemma {:induction false} InWindowStep(samples: seq<Sample>, x: Sample, id: int, width: nat)
    requires width > 0
    ensures InWindow(samples + [x], id, width)
         == InWindow(samples, id, width) + if BucketId(x.time, width) == id then [x] else []
  {
  }

  /** A sample of a new, later window. */
  lemma {:induction false} GroupsNew(bs: seq<Bucket>, samples: seq<Sample>, x: Sample, width: nat)
    requires width > 0 && GroupsBy(bs, samples, width)
    requires forall i | 0 <= i < |samples| :: BucketId(samples[i].time, width) < BucketId(x.time, width)
    requires bs != [] ==> bs[|bs| - 1].id < BucketId(x.time, width)
    ensures GroupsBy(bs + [Fold(Fresh(BucketId(x.time, width)), x.rtt)], samples + [x], width)
  {
    hide BucketId, Describes, InWindow, Fold;
    var id := BucketId(x.time, width);
    var b := Fold(Fresh(id), x.rtt);
    FoldKeepsId(Fresh(id), x.rtt);
    var all, more := bs + [b], samples + [x];
    NothingInWindow(samples, id, width);
    FreshDescribes(id);
    FoldDescribes(Fresh(id), [], x);
    assert [] + [x] == [x];
    forall k | 0 <= k < |all|
      ensures Describes(all[k], InWindow(more, all[k].id, width)) && InWindow(more, all[k].id, width) != []
    {
      InWindowStep(samples, x, all[k].id, width);
      if k < |bs| {
        assert bs[k].id <= bs[|bs| - 1].id;
        assert InWindow(samples, bs[k].id, width) + [] == InWindow(samples, bs[k].id, width);
      }
    }
    KeepsIds(bs, all, samples, x, width);
  }

  lemma {:induction false} FoldKeepsId(b: Bucket, rtt: Option<real>)
    ensures Fold(b, rtt).id == b.id
  {
  }

  lemma {:induction false} KeepsIds(bs: seq<Bucket>, all: seq<Bucket>, samples: seq<Sample>, x: Sample, width: nat)
    requires width > 0 && |bs| <= |all| && (forall k | 0 <= k < |bs| :: all[k].id == bs[k].id)
    requires forall i | 0 <= i < |samples| :: HasId(bs, BucketId(samples[i].time, width))
    requires all != [] && all[|all| - 1].id == BucketId(x.time, width)
    ensures forall i | 0 <= i <= |samples| :: HasId(all, BucketId((samples + [x])[i].time, width))
  {
  }

  /** A sample of the last bucket's window. */
  lemma {:induction false} GroupsLast(bs: seq<Bucket>, samples: seq<Sample>, x: Sample, width: nat)
    requires width > 0 && GroupsBy(bs, samples, width) && bs != [] && bs[|bs| - 1].id == BucketId(x.time, width)
    ensures GroupsBy(bs[..|bs| - 1] + [Fold(bs[|bs| - 1], x.rtt)], samples + [x], width)
  {
    hide BucketId, Describes, InWindow, Fold;
    var n := |bs| - 1;
    var b := Fold(bs[n], x.rtt);
    FoldKeepsId(bs[n], x.rtt);
    var all, more := bs[..n] + [b], samples + [x];
    FoldDescribes(bs[n], InWindow(samples, bs[n].id, width), x);
    forall k | 0 <= k < |all|
      ensures Describes(all[k], InWindow(more, all[k].id, width)) && InWindow(more, all[k].id, width) != []
    {
      InWindowStep(samples, x, all[k].id, width);
      if k < n {
        assert all[k] == bs[k] && bs[k].id < bs[n].id;
        assert InWindow(samples, bs[k].id, width) + [] == InWindow(samples, bs[k].id, width);
      }
    }
    KeepsIds(bs, all, samples, x, width);
  }

  /**
    * Streaming aggregation is a group-by: when time does not run backwards, the buckets are exactly the
    * windows with samples, in strictly increasing order, each with its own samples' figures.
    */
  lemma {:induction false} StreamingIsGroupBy(samples: seq<Sample>, width: nat)
    requires width > 0 && Chronological(samples)
    ensures GroupsBy(Runs(samples, width), samples, width)
  {
    hide BucketId, GroupsBy, Fold, InWindow;
    if samples == [] {
      NoGroups(width);
    } else {
      var front, x := samples[..|samples| - 1], samples[|samples| - 1];
      assert samples == front + [x];
      StreamingIsGroupBy(front, width);
      RunsStep(front, x, width);
      var bs, id := Runs(front, width), BucketId(x.time, width);
      if bs != [] && bs[|bs| - 1].id == id {
        GroupsLast(bs, front, x, width);
      } else {
        if front != [] {
          IdsAreMonotone(front[|front| - 1].time, x.time, width);
        }
        forall i | 0 <= i < |front| ensures BucketId(front[i].time, width) < id {
          OlderIds(front, width, i);
        }
        hide Runs;
        GroupsNew(bs, front, x, width);
      }
    }
  }

  lemma {:induction false} NoGroups(width: nat)
    requires width > 0
    ensures GroupsBy(Runs([], width), [], width)
  {
  }

  // ------------------------------------------------------------------ at any timestamps

  /** A bucket that summarizes some samples. */
  ghost predicate Honest(b: Bucket) {
    exists c: seq<Sample> :: Describes(b, c)
  }

  lemma {:induction false} FoldIsHonest(b: Bucket, x: Sample)
    requires Honest(b)
    ensures Honest(Fold(b, x.rtt)) && Honest(Fresh(b.id))
  {
    hide Describes, Fold, Fresh;
    var c: seq<Sample> :| Describes(b, c);
    FoldDescribes(b, c, x);
    FreshDescribes(b.id);
  }

  /** Even when time jumps, every bucket summarizes samples. */
  lemma {:induction false} RunsAreHonest(samples: seq<Sample>, width: nat)
    requires width > 0
    ensures forall k | 0 <= k < |Runs(samples, width)| :: Honest(Runs(samples, width)[k])
  {
    hide BucketId, Honest, Fold, Fresh;
    if samples != [] {
      var front, x := samples[..|samples| - 1], samples[|samples| - 1];
      assert samples == front + [x];
      RunsAreHonest(front, width);
      RunsStep(front, x, width);
      var before := Runs(front, width);
      FreshIsHonest(BucketId(x.time, width), x);
      if before != [] {
        FoldIsHonest(before[|before| - 1], x);
      }
      hide Runs;
    }
  }

  lemma {:induction false} FreshIsHonest(id: int, x: Sample)
    ensures Honest(Fold(Fresh(id), x.rtt))
  {
    hide Describes, Fold, Fresh;
    FreshDescribes(id);
    FoldDescribes(Fresh(id), [], x);
  }
}
