/** The tiered latency histogram, its double buffering, and the P99 read from it. */
module LatencyHistogram {
  import opened Options

  // ------------------------------------------------------------------- buckets

  datatype Tier = Tier(start: nat, width: nat, count: nat, base: nat)

  const TIERS: seq<Tier> := [Tier(0, 10, 100, 0), Tier(1000, 50, 80, 100), Tier(5000, 250, 60, 180), Tier(20000, 1000, 80, 240)]
  const BUCKETS: nat := 320
  const MAX_US: nat := 100000

  /** Index of the highest tier that starts at or below `us`. */
  function TierOf(us: nat): (t: nat)
    ensures t < |TIERS| && TIERS[t].start <= us
    ensures t + 1 < |TIERS| ==> us < TIERS[t + 1].start
  {
    if us >= TIERS[3].start then 3 else if us >= TIERS[2].start then 2 else if us >= TIERS[1].start then 1 else 0
  }

  /** Index of the tier that holds bucket `b`. */
  function TierOfBucket(b: nat): (t: nat)
    ensures t < |TIERS| && TIERS[t].base <= b
  {
    if b >= TIERS[3].base then 3 else if b >= TIERS[2].base then 2 else if b >= TIERS[1].base then 1 else 0
  }

  /** Bucket of a latency; -1 beyond the tracked range. */
  function Bucket(latencyUs: int): (b: int)
    ensures -1 <= b < BUCKETS
  {
    var us := if latencyUs < 0 then 0 else latencyUs;
    var tier := TIERS[TierOf(us)];
    var offset := (us - tier.start) / tier.width;
    if offset >= tier.count then -1 else tier.base + offset
  }

  function LowerBound(b: nat): nat
  {
    var tier := TIERS[TierOfBucket(b)];
    tier.start + (b - tier.base) * tier.width
  }

  function UpperBound(b: nat): nat
  {
    var tier := TIERS[TierOfBucket(b)];
    tier.start + (b - tier.base + 1) * tier.width
  }

  function MidpointUs(b: nat): real
  {
    var tier := TIERS[TierOfBucket(b)];
    tier.start as real + ((b - tier.base) as real + 0.5) * (tier.width as real)
  }

  /** A latency lies in its bucket, and only in that one; it has none exactly
      when it is beyond the range. */
  lemma BucketHolds(latencyUs: nat, b: nat)
    requires b < BUCKETS
    ensures Bucket(latencyUs) == b <==> LowerBound(b) <= latencyUs < UpperBound(b)
    ensures Bucket(latencyUs) == -1 <==> latencyUs >= MAX_US
  {
  }

  /** Buckets follow each other without gap or overlap, and the midpoint is inside. */
  lemma BucketsTile(b: nat)
    requires b < BUCKETS
    ensures LowerBound(0) == 0 && UpperBound(BUCKETS - 1) == MAX_US
    ensures b + 1 < BUCKETS ==> UpperBound(b) == LowerBound(b + 1)
    ensures 2.0 * MidpointUs(b) == (LowerBound(b) + UpperBound(b)) as real
  {
  }

  /** Position of a latency in the scan order of the P99: overflow is the top. */
  function Level(latencyUs: int): (i: nat)
    ensures i <= BUCKETS
  {
    if Bucket(latencyUs) == -1 then BUCKETS else Bucket(latencyUs)
  }

  lemma LevelMonotone(x: int, y: int)
    requires x <= y
    ensures Level(x) <= Level(y)
  {
  }

  // ------------------------------------------------------------ order statistics

  /** `s` with `x` put in its place; `s` is in descending order. */
  function Inserted(x: int, s: seq<int>): (r: seq<int>)
    ensures |r| == |s| + 1
  {
    if s == [] || s[0] <= x then [x] + s else [s[0]] + Inserted(x, s[1..])
  }

  /** The samples from largest to smallest. */
  function Descending(s: seq<int>): (r: seq<int>)
    ensures |r| == |s|
  {
    if s == [] then [] else Inserted(s[|s| - 1], Descending(s[..|s| - 1]))
  }

  ghost predicate IsDescending(s: seq<int>)
  {
    forall i, j :: 0 <= i < j < |s| ==> s[i] >= s[j]
  }

  lemma {:induction false} InsertedElements(x: int, s: seq<int>)
    ensures multiset(Inserted(x, s)) == multiset(s) + multiset{x}
  {
    if s != [] && s[0] > x {
      InsertedElements(x, s[1..]);
      assert s == [s[0]] + s[1..];
    }
  }

  lemma {:induction false} InsertedIsDescending(x: int, s: seq<int>)
    requires IsDescending(s)
    ensures IsDescending(Inserted(x, s))
    ensures s != [] ==> forall i :: 0 <= i < |Inserted(x, s)| ==> Inserted(x, s)[i] <= if s[0] <= x then x else s[0]
  {
    if s != [] && s[0] > x {
      InsertedIsDescending(x, s[1..]);
    }
  }

  /** `Descending` sorts. */
  lemma {:induction false} DescendingSorts(s: seq<int>)
    ensures IsDescending(Descending(s)) && multiset(Descending(s)) == multiset(s)
  {
    if s != [] {
      var n := |s| - 1;
      DescendingSorts(s[..n]);
      InsertedIsDescending(s[n], Descending(s[..n]));
      InsertedElements(s[n], Descending(s[..n]));
      assert s == s[..n] + [s[n]];
    }
  }

  /** How many samples lie at level `l` or above. */
  function CountFrom(s: seq<int>, l: nat): (n: nat)
    ensures n <= |s|
  {
    if s == [] then 0
    else CountFrom(s[..|s| - 1], l) + if Level(s[|s| - 1]) >= l then 1 else 0
  }

  lemma {:induction false} CountFromInserted(x: int, s: seq<int>, l: nat)
    ensures CountFrom(Inserted(x, s), l) == CountFrom(s, l) + if Level(x) >= l then 1 else 0
  {
    if s == [] || s[0] <= x {
      CountFromPrepend(x, s, l);
    } else {
      CountFromInserted(x, s[1..], l);
      CountFromPrepend(s[0], s[1..], l);
      CountFromPrepend(s[0], Inserted(x, s[1..]), l);
      assert s == [s[0]] + s[1..];
    }
  }

  lemma {:induction false} CountFromPrepend(x: int, s: seq<int>, l: nat)
    ensures CountFrom([x] + s, l) == CountFrom(s, l) + if Level(x) >= l then 1 else 0
  {
    var r := [x] + s;
    if s == [] {
      assert r[..|r| - 1] == [];
    } else {
      assert r[..|r| - 1] == [x] + s[..|s| - 1];
      CountFromPrepend(x, s[..|s| - 1], l);
    }
  }

  lemma {:induction false} CountFromDescending(s: seq<int>, l: nat)
    ensures CountFrom(Descending(s), l) == CountFrom(s, l)
  {
    if s != [] {
      CountFromDescending(s[..|s| - 1], l);
      CountFromInserted(s[|s| - 1], Descending(s[..|s| - 1]), l);
    }
  }

  /** In descending order, exactly the samples before a point are at level `l` or above. */
  lemma {:induction false} CountFromSplit(s: seq<int>, l: nat, k: nat)
    requires IsDescending(s) && k < |s|
    ensures CountFrom(s, l) > k <==> Level(s[k]) >= l
  {
    var n := |s| - 1;
    if k == n {
      CountFromFull(s[..n], l);
      if Level(s[n]) >= l {
        forall i | 0 <= i < n
          ensures Level(s[i]) >= l
        {
          LevelMonotone(s[n], s[i]);
        }
      }
    } else {
      CountFromSplit(s[..n], l, k);
      LevelMonotone(s[n], s[k]);
      if Level(s[k]) < l {
        assert CountFrom(s[..n], l) <= k;
      }
    }
  }

  lemma {:induction false} CountFromFull(s: seq<int>, l: nat)
    ensures CountFrom(s, l) == |s| <==> forall i :: 0 <= i < |s| ==> Level(s[i]) >= l
  {
    if s != [] {
      CountFromFull(s[..|s| - 1], l);
    }
  }

  lemma {:induction false} CountFromAntitone(s: seq<int>, l: nat, h: nat)
    requires l <= h
    ensures CountFrom(s, h) <= CountFrom(s, l)
  {
    if s != [] {
      CountFromAntitone(s[..|s| - 1], l, h);
    }
  }

  /** How many samples fall in level `l`. */
  function CountAt(s: seq<int>, l: nat): (n: nat)
  {
    if s == [] then 0
    else CountAt(s[..|s| - 1], l) + if Level(s[|s| - 1]) == l then 1 else 0
  }

  lemma {:induction false} CountFromStep(s: seq<int>, l: nat)
    ensures CountFrom(s, l) == CountFrom(s, l + 1) + CountAt(s, l)
  {
    if s != [] {
      CountFromStep(s[..|s| - 1], l);
    }
  }

  lemma {:induction false} CountFromTop(s: seq<int>)
    ensures CountFrom(s, BUCKETS + 1) == 0 && CountFrom(s, 0) == |s|
  {
    if s != [] {
      CountFromTop(s[..|s| - 1]);
    }
  }

  // ------------------------------------------------------------------------ P99

  /** How many samples from the top the percentile lies: one in a hundred, or
      one in twenty (rounded up) when there are fewer than a hundred. */
  function Target(total: nat): (k: nat)
    ensures 0 < total ==> 1 <= k <= total
  {
    if total >= 100 then total / 100 else (total + 19) / 20
  }

  /** What is reported, in milliseconds, for a sample at a level. */
  function Report(level: nat): real
  {
    if level >= BUCKETS then MAX_US as real * 2.0 / 1000.0 else MidpointUs(level) / 1000.0
  }

  /** The P99 of a set of samples: what is reported for the sample that is
      `Target` places from the top. */
  function P99Of(s: seq<int>): Option<real>
  {
    if s == [] then None else Some(Report(Reported(s)))
  }

  /** The level of that sample. */
  function Reported(s: seq<int>): (l: nat)
    requires s != []
    ensures l <= BUCKETS
  {
    Level(Descending(s)[Target(|s|) - 1])
  }

  /** The level at which the scan from the top stops is that of the sample
      `k` places from the top. */
  lemma ScanStops(s: seq<int>, k: nat, l: nat)
    requires 1 <= k <= |s|
    requires CountFrom(s, l) >= k > CountFrom(s, l + 1)
    ensures l == Level(Descending(s)[k - 1])
  {
    DescendingSorts(s);
    CountFromDescending(s, l);
    CountFromDescending(s, l + 1);
    CountFromSplit(Descending(s), l, k - 1);
    CountFromSplit(Descending(s), l + 1, k - 1);
  }

  lemma TargetIs(total: nat, n: nat)
    requires 0 < total
    ensures n >= Target(total) <==> if total >= 100 then total < 100 * (n + 1) else total <= 20 * n
  {
  }

  /** By counting samples: the reported level is the highest that one sample in a
      hundred, rounded down, reaches; with fewer than a hundred samples, one in twenty,
      rounded up. */
  lemma P99Exactly(s: seq<int>, l: nat)
    requires s != [] && l <= BUCKETS
    ensures Reported(s) == l <==>
      if |s| >= 100 then 100 * (CountFrom(s, l + 1) + 1) <= |s| < 100 * (CountFrom(s, l) + 1)
      else 20 * CountFrom(s, l + 1) < |s| <= 20 * CountFrom(s, l)
  {
    var k := Target(|s|);
    DescendingSorts(s);
    CountFromDescending(s, l);
    CountFromDescending(s, l + 1);
    CountFromSplit(Descending(s), l, k - 1);
    CountFromSplit(Descending(s), l + 1, k - 1);
    TargetIs(|s|, CountFrom(s, l));
    TargetIs(|s|, CountFrom(s, l + 1));
    hide Target, Descending, CountFrom, Level;
  }

  /** What is reported for it: the middle of its bucket, or 200 ms for a sample
      beyond the range, more than for any sample within. */
  lemma ReportedValue(s: seq<int>)
    requires s != []
    ensures var (l, v) := (Reported(s), P99Of(s));
      v.Some? && if l == BUCKETS then v.value == 200.0
      else LowerBound(l) as real < 1000.0 * v.value < UpperBound(l) as real && 2000.0 * v.value == (LowerBound(l) + UpperBound(l)) as real && v.value < 100.0
  {
    var l := Reported(s);
    hide Reported, Descending, Target;
    if l < BUCKETS {
      BucketsTile(l);
      assert UpperBound(l) <= MAX_US;
    }
  }

  // ------------------------------------------------------------------ the objects

  class Histogram {
    const buckets: array<nat>
    var overflow: nat
    var totalCount: nat
    ghost var Samples: seq<int>

    ghost predicate Valid()
      reads this, buckets
    {
      && buckets.Length == BUCKETS
      && (forall b :: 0 <= b < BUCKETS ==> buckets[b] == CountAt(Samples, b))
      && overflow == CountAt(Samples, BUCKETS)
      && totalCount == |Samples|
    }

    constructor ()
      ensures Valid() && Samples == [] && fresh(buckets)
    {
      buckets := new nat[BUCKETS](_ => 0);
      overflow, totalCount, Samples := 0, 0, [];
    }

    method Reset()
      requires buckets.Length == BUCKETS
      modifies this, buckets
      ensures Valid() && Samples == []
    {
      for i := 0 to BUCKETS
        invariant forall b :: 0 <= b < i ==> buckets[b] == 0
      {
        buckets[i] := 0;
      }
      overflow, totalCount, Samples := 0, 0, [];
    }

    method Record(latencyUs: int)
      requires Valid()
      modifies this, buckets
      ensures Valid() && Samples == old(Samples) + [latencyUs]
    {
      var bucket := Bucket(latencyUs);
      if bucket < 0 {
        overflow := overflow + 1;
      } else {
        buckets[bucket] := buckets[bucket] + 1;
      }
      totalCount := totalCount + 1;
      Samples := Samples + [latencyUs];
      assert Samples[..|Samples| - 1] == old(Samples);
    }

    /** Scans from the top until the target is reached. */
    method P99() returns (p: Option<real>)
      requires Valid()
      ensures p == P99Of(Samples)
    {
      if totalCount == 0 {
        return None;
      }
      var target := Target(totalCount);
      CountFromTop(Samples);
      CountFromStep(Samples, BUCKETS);
      var count := overflow;
      if count >= target {
        ScanStops(Samples, target, BUCKETS);
        return Some(MAX_US as real * 2.0 / 1000.0);
      }
      var i: int := BUCKETS - 1;
      while i >= 0
        invariant -1 <= i < BUCKETS
        invariant count == CountFrom(Samples, i + 1) < target
      {
        CountFromStep(Samples, i);
        count := count + buckets[i];
        if count >= target {
          ScanStops(Samples, target, i);
          return Some(MidpointUs(i) / 1000.0);
        }
        i := i - 1;
      }
      assert false;
    }
  }

  /** Two histograms: one is recorded into, the other was read at the last swap. */
  class HistogramPair {
    const first: Histogram
    const second: Histogram
    var activeIndex: nat
    var pendingReset: Option<nat>
    ghost var Recorded: seq<int>   // samples since the last swap

    ghost function At(i: nat): Histogram
    {
      if i == 0 then first else second
    }

    ghost predicate Valid()
      reads this, first, second, first.buckets, second.buckets
    {
      && first != second && first.buckets != second.buckets
      && first.Valid() && second.Valid()
      && activeIndex < 2
      && At(activeIndex).Samples == Recorded
      && (pendingReset.Some? ==> pendingReset.value == 1 - activeIndex)
      && (pendingReset.None? ==> At(1 - activeIndex).Samples == [])
    }

    constructor ()
      ensures Valid() && Recorded == []
      ensures fresh(first) && fresh(second) && fresh(first.buckets) && fresh(second.buckets)
    {
      first := new Histogram();
      second := new Histogram();
      activeIndex, pendingReset, Recorded := 0, None, [];
    }

    method Active() returns (h: Histogram)
      requires Valid()
      ensures h == At(activeIndex)
    {
      h := if activeIndex == 0 then first else second;
    }

    method Record(latencyUs: int)
      requires Valid()
      modifies this`Recorded, first, second, first.buckets, second.buckets
      ensures Valid() && Recorded == old(Recorded) + [latencyUs]
    {
      var h := Active();
      h.Record(latencyUs);
      Recorded := Recorded + [latencyUs];
    }

    /** Clears the histogram read at the last swap, if it has not been yet. */
    method ResetPending()
      requires Valid()
      modifies this`pendingReset, first, second, first.buckets, second.buckets
      ensures Valid() && pendingReset == None && activeIndex == old(activeIndex)
    {
      if pendingReset.Some? {
        var h := if pendingReset.value == 0 then first else second;
        h.Reset();
        pendingReset := None;
      }
    }

    /** The swap of a tick: returns the number of samples recorded since the
        previous swap and their P99, and starts an empty period. */
    method SwapAndRead() returns (count: nat, p99: Option<real>)
      requires Valid()
      modifies this, first, second, first.buckets, second.buckets
      ensures Valid() && Recorded == []
      ensures count == |old(Recorded)| && p99 == P99Of(old(Recorded))
    {
      ResetPending();
      var h := Active();
      ghost var oldIndex := activeIndex;
      activeIndex := 1 - activeIndex;
      count := h.totalCount;
      p99 := h.P99();
      pendingReset := Some(1 - activeIndex);
      Recorded := [];
    }

    /** The swap that drops the samples of pass-through when control engages. */
    method SwapAndDrop()
      requires Valid()
      modifies this, first, second, first.buckets, second.buckets
      ensures Valid() && Recorded == []
    {
      ResetPending();
      activeIndex := 1 - activeIndex;
      pendingReset := Some(1 - activeIndex);
      Recorded := [];
    }
  }
}
