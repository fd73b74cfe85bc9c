/**
  * The sliding-window aggregator (`EmotionWindow`): a buffer of timestamped
  * emotion snapshots that forgets every snapshot older than `windowMs`
  * milliseconds before the current clock reading, and averages what is left.
  * The clock (`Date.now()`) is the explicit parameter `now`.
  */
module Window {
  import opened EmotionScores

  /** An emotion snapshot as a producer hands it over; its timestamp may be missing. */
  datatype Snapshot = Snapshot(emotions: Scores, valence: Option<real>, arousal: Option<real>, timestamp: Option<int>)

  /** A snapshot as the window stores it: the timestamp is always set. */
  datatype Sample = Sample(emotions: Scores, valence: Option<real>, arousal: Option<real>, timestamp: int)

  /** The averaged snapshot returned by `getAggregate`; it has no timestamp. */
  datatype Aggregate = Aggregate(emotions: Scores, valence: Option<real>, arousal: Option<real>)

  /** The "no signal" aggregate of an empty window. */
  const NoSignal := Aggregate([], None, None)

  const DefaultWindowMs := 4000

  /** `{ ...sample, timestamp: sample.timestamp ?? now }` */
  function Stamp(s: Snapshot, now: int): Sample
  {
    Sample(s.emotions, s.valence, s.arousal, s.timestamp.GetOr(now))
  }

  /** The samples of `ss`, in order, whose timestamp is at least `cutoff`. */
  function Retain(ss: seq<Sample>, cutoff: int): (r: seq<Sample>)
    ensures forall x :: x in r <==> x in ss && x.timestamp >= cutoff
    ensures |r| <= |ss|
  {
    if ss == [] then []
    else (if ss[0].timestamp >= cutoff then [ss[0]] else []) + Retain(ss[1..], cutoff)
  }

  /** Filtering distributes over concatenation, so it keeps the order of the kept samples. */
  lemma {:induction false} RetainConcat(a: seq<Sample>, b: seq<Sample>, cutoff: int)
    ensures Retain(a + b, cutoff) == Retain(a, cutoff) + Retain(b, cutoff)
  {
    if a == [] {
      assert a + b == b;
    } else {
      assert (a + b)[0] == a[0];
      assert (a + b)[1..] == a[1..] + b;
      RetainConcat(a[1..], b, cutoff);
    }
  }

  /** Trimming at a cutoff and then at a later one is the same as trimming once at the later one. */
  lemma {:induction false} RetainLater(ss: seq<Sample>, c1: int, c2: int)
    requires c1 <= c2
    ensures Retain(Retain(ss, c1), c2) == Retain(ss, c2)
  {
    if ss != [] {
      RetainLater(ss[1..], c1, c2);
      RetainConcat(if ss[0].timestamp >= c1 then [ss[0]] else [], Retain(ss[1..], c1), c2);
    }
  }

  /** A sample stamped before the cutoff is gone as soon as it is added. */
  lemma StaleSampleDropped(ss: seq<Sample>, x: Sample, cutoff: int)
    requires x.timestamp < cutoff
    ensures Retain(ss + [x], cutoff) == Retain(ss, cutoff)
  {
    RetainConcat(ss, [x], cutoff);
  }

  /** A sample is kept while `now - windowMs` has not passed its timestamp. */
  lemma WindowBoundary()
    ensures Retain([Sample([], None, None, 0)], 3999 - DefaultWindowMs) == [Sample([], None, None, 0)]
    ensures Retain([Sample([], None, None, 0)], 4000 - DefaultWindowMs) == [Sample([], None, None, 0)]
    ensures Retain([Sample([], None, None, 0)], 4001 - DefaultWindowMs) == []
  {
  }

  /** Every emotion key of every sample, sample after sample. */
  function AllKeys(ss: seq<Sample>): seq<string>
  {
    if ss == [] then [] else AllKeys(ss[..|ss| - 1]) + Keys(ss[|ss| - 1].emotions)
  }

  /** The sum of key `k` over the window; a sample without `k` contributes 0. */
  function Total(ss: seq<Sample>, k: string): real
  {
    if ss == [] then 0.0 else Total(ss[..|ss| - 1], k) + ScoreOf(ss[|ss| - 1].emotions, k)
  }

  datatype Axis = ValenceAxis | ArousalAxis

  function Reading(s: Sample, ax: Axis): Option<real>
  {
    match ax
    case ValenceAxis => s.valence
    case ArousalAxis => s.arousal
  }

  /** The aggregate's `valence` or `arousal`. */
  function AggregateReadingOf(a: Aggregate, ax: Axis): Option<real>
  {
    match ax
    case ValenceAxis => a.valence
    case ArousalAxis => a.arousal
  }

  /** The values of `ax` supplied by the samples, in order. */
  function Supplied(ss: seq<Sample>, ax: Axis): seq<real>
  {
    if ss == [] then []
    else
      var last := Reading(ss[|ss| - 1], ax);
      Supplied(ss[..|ss| - 1], ax) + (if last.Some? then [last.value] else [])
  }

  function Sum(xs: seq<real>): real
  {
    if xs == [] then 0.0 else Sum(xs[..|xs| - 1]) + xs[|xs| - 1]
  }

  /** The mean of `xs`, absent for no values. */
  function Mean(xs: seq<real>): Option<real>
  {
    if |xs| == 0 then None else Some(Sum(xs) / |xs| as real)
  }

  /**
    * The aggregate of a window: every key seen in it, in order of first
    * appearance, averaged over ALL samples (a missing key counts as 0);
    * valence and arousal averaged over the samples that supplied them.
    */
  function AggregateOf(ss: seq<Sample>): Aggregate
  {
    if |ss| == 0 then NoSignal
    else
      var ks := Dedup(AllKeys(ss));
      Aggregate(seq(|ks|, i requires 0 <= i < |ks| => (ks[i], Total(ss, ks[i]) / |ss| as real)),
                Mean(Supplied(ss, ValenceAxis)), Mean(Supplied(ss, ArousalAxis)))
  }

  lemma AllKeysSnoc(ss: seq<Sample>, s: Sample)
    ensures AllKeys(ss + [s]) == AllKeys(ss) + Keys(s.emotions)
    ensures forall k :: Total(ss + [s], k) == Total(ss, k) + ScoreOf(s.emotions, k)
    ensures forall ax :: Supplied(ss + [s], ax) == Supplied(ss, ax) + (if Reading(s, ax).Some? then [Reading(s, ax).value] else [])
  {
    assert (ss + [s])[..|ss|] == ss;
  }

  lemma SumSnoc(xs: seq<real>, x: real)
    ensures Sum(xs + [x]) == Sum(xs) + x
  {
    assert (xs + [x])[..|xs|] == xs;
  }

  lemma PrefixStep(ss: seq<Sample>, i: nat)
    requires i < |ss|
    ensures AllKeys(ss[..i + 1]) == AllKeys(ss[..i]) + Keys(ss[i].emotions)
    ensures forall k :: Total(ss[..i + 1], k) == Total(ss[..i], k) + ScoreOf(ss[i].emotions, k)
  {
    assert ss[..i + 1] == ss[..i] + [ss[i]];
    AllKeysSnoc(ss[..i], ss[i]);
  }

  lemma ReadingStep(ss: seq<Sample>, i: nat, ax: Axis, sum: real, count: int)
    requires i < |ss|
    requires ReadSoFar(ss[..i], ax, sum, count)
    ensures var r := Reading(ss[i], ax);
            ReadSoFar(ss[..i + 1], ax, if r.Some? then sum + r.value else sum, if r.Some? then count + 1 else count)
  {
    assert ss[..i + 1] == ss[..i] + [ss[i]];
    AllKeysSnoc(ss[..i], ss[i]);
    var r := Reading(ss[i], ax);
    if r.Some? {
      assert Supplied(ss[..i + 1], ax) == Supplied(ss[..i], ax) + [r.value];
      SumSnoc(Supplied(ss[..i], ax), r.value);
    } else {
      assert Supplied(ss[..i + 1], ax) == Supplied(ss[..i], ax);
    }
  }

  /** `r` is `totals` with the scores of `e` added, and has the keys of `seen` and then of `e`. */
  ghost predicate Added(r: Scores, totals: Scores, seen: seq<string>, e: Scores)
  {
    && Keys(r) == Dedup(seen + Keys(e))
    && forall k :: Get(r, k).GetOr(0.0) == Get(totals, k).GetOr(0.0) + ScoreOf(e, k)
  }

  lemma AddScoresStep(r: Scores, totals: Scores, e: Scores, seen: seq<string>, j: nat)
    requires j < |e|
    requires Added(r, totals, seen, e[..j])
    ensures Added(Put(r, e[j].0, Get(r, e[j].0).GetOr(0.0) + e[j].1), totals, seen, e[..j + 1])
  {
    AddScoresKeys(r, e, seen, j);
    AddScoresValues(r, totals, e, j);
  }

  lemma AddScoresValues(r: Scores, totals: Scores, e: Scores, j: nat)
    requires j < |e|
    requires forall k :: Get(r, k).GetOr(0.0) == Get(totals, k).GetOr(0.0) + ScoreOf(e[..j], k)
    ensures var r' := Put(r, e[j].0, Get(r, e[j].0).GetOr(0.0) + e[j].1);
            forall k :: Get(r', k).GetOr(0.0) == Get(totals, k).GetOr(0.0) + ScoreOf(e[..j + 1], k)
  {
    var r' := Put(r, e[j].0, Get(r, e[j].0).GetOr(0.0) + e[j].1);
    assert e[..j + 1] == e[..j] + [e[j]];
    forall k ensures Get(r', k).GetOr(0.0) == Get(totals, k).GetOr(0.0) + ScoreOf(e[..j + 1], k) {
      ScoreOfSnoc(e[..j], e[j], k);
    }
  }

  lemma AddScoresKeys(r: Scores, e: Scores, seen: seq<string>, j: nat)
    requires j < |e|
    requires Keys(r) == Dedup(seen + Keys(e[..j]))
    ensures Keys(Put(r, e[j].0, Get(r, e[j].0).GetOr(0.0) + e[j].1)) == Dedup(seen + Keys(e[..j + 1]))
  {
    assert e[..j + 1] == e[..j] + [e[j]];
    KeysSnoc(e[..j], e[j]);
    assert seen + Keys(e[..j + 1]) == (seen + Keys(e[..j])) + [e[j].0];
    DedupSnoc(seen + Keys(e[..j]), e[j].0);
  }

  /**
    * The inner loop of `getAggregate`: `totals[key] = (totals[key] ?? 0) + value`
    * for every entry of one sample. `seen` is the ghost list of keys met so far.
    */
  method AddScores(totals: Scores, e: Scores, ghost seen: seq<string>) returns (r: Scores)
    requires Keys(totals) == Dedup(seen)
    ensures Keys(r) == Dedup(seen + Keys(e))
    ensures forall k :: Get(r, k).GetOr(0.0) == Get(totals, k).GetOr(0.0) + ScoreOf(e, k)
  {
    r := totals;
    var j := 0;
    assert seen + Keys(e[..0]) == seen;
    while j < |e|
      invariant 0 <= j <= |e|
      invariant Added(r, totals, seen, e[..j])
    {
      var (key, value) := e[j];
      AddScoresStep(r, totals, e, seen, j);
      r := Put(r, key, Get(r, key).GetOr(0.0) + value);
      j := j + 1;
    }
    assert e[..|e|] == e;
  }

  /** The second loop of `getAggregate`: `averaged[key] = value / count` for every entry of `totals`. */
  method DivideAll(totals: Scores, count: nat) returns (averaged: Scores)
    requires UniqueKeys(totals) && count > 0
    ensures averaged == seq(|totals|, n requires 0 <= n < |totals| => (totals[n].0, totals[n].1 / count as real))
  {
    averaged := [];
    var t := 0;
    while t < |totals|
      invariant 0 <= t <= |totals|
      invariant averaged == seq(t, n requires 0 <= n < t => (totals[n].0, totals[n].1 / count as real))
    {
      assert Keys(averaged) == Keys(totals)[..t];
      assert totals[t].0 !in Keys(averaged) by {
        assert Keys(totals)[t] == totals[t].0;
      }
      averaged := Put(averaged, totals[t].0, totals[t].1 / count as real);
      t := t + 1;
    }
  }

  /** `totals` holds, once per key seen in `ss`, the total of that key. */
  ghost predicate Tallied(ss: seq<Sample>, totals: Scores)
  {
    Keys(totals) == Dedup(AllKeys(ss)) && forall k :: Get(totals, k).GetOr(0.0) == Total(ss, k)
  }

  /** `sum` and `count` are the sum and the number of the values of `ax` supplied by `ss`. */
  ghost predicate ReadSoFar(ss: seq<Sample>, ax: Axis, sum: real, count: int)
  {
    sum == Sum(Supplied(ss, ax)) && count == |Supplied(ss, ax)|
  }

  lemma TallyStep(ss: seq<Sample>, i: nat, totals: Scores, r: Scores)
    requires i < |ss|
    requires Tallied(ss[..i], totals)
    requires Keys(r) == Dedup(AllKeys(ss[..i]) + Keys(ss[i].emotions))
    requires forall k :: Get(r, k).GetOr(0.0) == Get(totals, k).GetOr(0.0) + ScoreOf(ss[i].emotions, k)
    ensures Tallied(ss[..i + 1], r)
  {
    PrefixStep(ss, i);
  }

  /** Entry `n` of the totals is the `n`-th key seen with its total. */
  lemma TotalsAt(ss: seq<Sample>, totals: Scores, n: nat)
    requires Tallied(ss, totals)
    requires n < |totals|
    ensures totals[n] == (Dedup(AllKeys(ss))[n], Total(ss, Dedup(AllKeys(ss))[n]))
  {
    assert Keys(totals)[n] == totals[n].0;
    GetAt(totals, n);
  }

  lemma AveragedIsAggregate(ss: seq<Sample>, totals: Scores, averaged: Scores)
    requires |ss| > 0
    requires Tallied(ss, totals)
    requires averaged == seq(|totals|, n requires 0 <= n < |totals| => (totals[n].0, totals[n].1 / |ss| as real))
    ensures averaged == AggregateOf(ss).emotions
  {
    forall n: nat | n < |totals| {
      TotalsAt(ss, totals, n);
    }
  }

  /** The loops of `getAggregate` over the (already trimmed) samples. */
  method Average(ss: seq<Sample>) returns (agg: Aggregate)
    ensures agg == AggregateOf(ss)
  {
    if |ss| == 0 {
      return NoSignal;
    }
    var totals: Scores := [];
    var valenceSum, arousalSum := 0.0, 0.0;
    var valenceCount, arousalCount := 0, 0;
    var i := 0;
    while i < |ss|
      invariant 0 <= i <= |ss|
      invariant Tallied(ss[..i], totals)
      invariant ReadSoFar(ss[..i], ValenceAxis, valenceSum, valenceCount)
      invariant ReadSoFar(ss[..i], ArousalAxis, arousalSum, arousalCount)
    {
      var sample := ss[i];
      var next := AddScores(totals, sample.emotions, AllKeys(ss[..i]));
      TallyStep(ss, i, totals, next);
      totals := next;
      ReadingStep(ss, i, ValenceAxis, valenceSum, valenceCount);
      ReadingStep(ss, i, ArousalAxis, arousalSum, arousalCount);
      if sample.valence.Some? {
        valenceSum := valenceSum + sample.valence.value;
        valenceCount := valenceCount + 1;
      }
      if sample.arousal.Some? {
        arousalSum := arousalSum + sample.arousal.value;
        arousalCount := arousalCount + 1;
      }
      i := i + 1;
    }
    assert ss[..|ss|] == ss;

    var averaged := DivideAll(totals, |ss|);
    AveragedIsAggregate(ss, totals, averaged);
    agg := Aggregate(averaged,
                     if valenceCount > 0 then Some(valenceSum / valenceCount as real) else None,
                     if arousalCount > 0 then Some(arousalSum / arousalCount as real) else None);
  }

  /** The keys of the aggregate are exactly the keys seen in the window, each once. */
  lemma AggregateKeys(ss: seq<Sample>)
    ensures UniqueKeys(AggregateOf(ss).emotions)
    ensures forall k :: k in Keys(AggregateOf(ss).emotions) <==>
                          exists i :: 0 <= i < |ss| && k in Keys(ss[i].emotions)
  {
    var agg := AggregateOf(ss);
    if |ss| > 0 {
      assert Keys(agg.emotions) == Dedup(AllKeys(ss));
    }
    forall k ensures k in AllKeys(ss) <==> exists i :: 0 <= i < |ss| && k in Keys(ss[i].emotions) {
      AllKeysMembers(ss, k);
    }
  }

  lemma {:induction false} AllKeysMembers(ss: seq<Sample>, k: string)
    ensures k in AllKeys(ss) <==> exists i :: 0 <= i < |ss| && k in Keys(ss[i].emotions)
  {
    if ss != [] {
      var init := ss[..|ss| - 1];
      AllKeysMembers(init, k);
      assert forall i :: 0 <= i < |init| ==> init[i] == ss[i];
    }
  }

  /** The sum of key `k` over the window, reading each sample's record with a missing key as 0. */
  function SumOfScores(ss: seq<Sample>, k: string): real
  {
    if ss == [] then 0.0 else SumOfScores(ss[..|ss| - 1], k) + Get(ss[|ss| - 1].emotions, k).GetOr(0.0)
  }

  lemma {:induction false} TotalIsSumOfScores(ss: seq<Sample>, k: string)
    requires forall i :: 0 <= i < |ss| ==> UniqueKeys(ss[i].emotions)
    ensures Total(ss, k) == SumOfScores(ss, k)
  {
    if ss != [] {
      TotalIsSumOfScores(ss[..|ss| - 1], k);
      ScoreOfRecord(ss[|ss| - 1].emotions, k);
    }
  }

  /**
    * Each aggregate value is the key's sum over the window divided by the
    * number of samples, a missing key counting as 0; a key no sample has is
    * not in the aggregate.
    */
  lemma AggregateScores(ss: seq<Sample>, k: string)
    requires forall i :: 0 <= i < |ss| ==> UniqueKeys(ss[i].emotions)
    ensures (exists i :: 0 <= i < |ss| && k in Keys(ss[i].emotions)) ==>
              Get(AggregateOf(ss).emotions, k) == Some(SumOfScores(ss, k) / |ss| as real)
    ensures (forall i :: 0 <= i < |ss| ==> k !in Keys(ss[i].emotions)) ==>
              Get(AggregateOf(ss).emotions, k) == None
  {
    AggregateKeys(ss);
    var em := AggregateOf(ss).emotions;
    InKeys(em, k);
    if k in Keys(em) {
      var n := IndexOf(em, k);
      TotalIsSumOfScores(ss, k);
      assert em[n].0 == k;
    }
  }

  lemma {:induction false} SuppliedEmpty(ss: seq<Sample>, ax: Axis)
    ensures Supplied(ss, ax) == [] <==> forall i :: 0 <= i < |ss| ==> Reading(ss[i], ax).None?
  {
    if ss != [] {
      var init := ss[..|ss| - 1];
      SuppliedEmpty(init, ax);
      assert forall i :: 0 <= i < |init| ==> init[i] == ss[i];
    }
  }

  /**
    * The aggregate valence (and arousal) is absent exactly when no sample in
    * the window supplied one, and otherwise is the mean of the supplied values.
    */
  lemma AggregateReading(ss: seq<Sample>, ax: Axis)
    ensures var r := AggregateReadingOf(AggregateOf(ss), ax);
            && (r.None? <==> forall i :: 0 <= i < |ss| ==> Reading(ss[i], ax).None?)
            && (r.Some? ==> r.value == Sum(Supplied(ss, ax)) / |Supplied(ss, ax)| as real)
  {
    SuppliedEmpty(ss, ax);
  }

  /** `{joy: 1}` and `{sad: 1}` average to `{joy: 0.5, sad: 0.5}`. */
  lemma ZeroFillExample()
    ensures AggregateOf([Sample([("joy", 1.0)], None, None, 0), Sample([("sad", 1.0)], None, None, 0)]).emotions
            == [("joy", 0.5), ("sad", 0.5)]
  {
    var ss := [Sample([("joy", 1.0)], None, None, 0), Sample([("sad", 1.0)], None, None, 0)];
    assert ss[..1] == [ss[0]];
    assert ss[..1][..0] == [];
    assert Keys(ss[0].emotions) == ["joy"];
    assert Keys(ss[1].emotions) == ["sad"];
    assert AllKeys(ss) == ["joy", "sad"];
    assert Dedup(["joy", "sad"]) == ["joy", "sad"] by {
      assert ["joy", "sad"][..1] == ["joy"];
      assert ["joy"][..0] == [];
    }
    assert ScoreOf([("joy", 1.0)], "joy") == 1.0 by {
      assert [("joy", 1.0)][..0] == [];
    }
    assert ScoreOf([("sad", 1.0)], "joy") == 0.0 by {
      assert [("sad", 1.0)][..0] == [];
    }
    assert ScoreOf([("joy", 1.0)], "sad") == 0.0 by {
      assert [("joy", 1.0)][..0] == [];
    }
    assert ScoreOf([("sad", 1.0)], "sad") == 1.0 by {
      assert [("sad", 1.0)][..0] == [];
    }
    assert Total(ss, "joy") == 1.0;
    assert Total(ss, "sad") == 1.0;
  }

  /** One sample with valence 0.5 and one without average to valence 0.5, not 0.25. */
  lemma PartialValenceExample()
    ensures AggregateOf([Sample([], Some(0.5), None, 0), Sample([], None, None, 0)]).valence == Some(0.5)
  {
    var ss := [Sample([], Some(0.5), None, 0), Sample([], None, None, 0)];
    assert ss[..1] == [ss[0]];
    assert ss[..1][..0] == [];
    assert Supplied(ss, ValenceAxis) == [0.5];
    assert Sum([0.5]) == 0.5 by {
      assert [0.5][..0] == [];
    }
  }

  /**
    * The aggregator. After every operation the buffer holds exactly the
    * earlier samples, in order, stamped no earlier than `now - windowMs`.
    */
  class EmotionWindow {
    var samples: seq<Sample>
    const windowMs: int

    constructor (windowMs: int := DefaultWindowMs)
      ensures this.windowMs == windowMs && samples == []
    {
      this.windowMs := windowMs;
      samples := [];
    }

    /** Appends the sample, stamped with `now` when it has no timestamp, then trims. */
    method Add(sample: Snapshot, now: int)
      modifies this
      ensures samples == Retain(old(samples) + [Stamp(sample, now)], now - windowMs)
      ensures forall s :: s in samples ==> s.timestamp >= now - windowMs
    {
      samples := samples + [Stamp(sample, now)];
      Trim(now);
    }

    /** Trims, then averages what is left. */
    method GetAggregate(now: int) returns (agg: Aggregate)
      modifies this
      ensures samples == Retain(old(samples), now - windowMs)
      ensures agg == AggregateOf(samples)
      ensures old(samples) == [] ==> agg == NoSignal
    {
      Trim(now);
      agg := Average(samples);
    }

    /** Drops the samples stamped before `now - windowMs`. */
    method Trim(now: int)
      modifies this
      ensures samples == Retain(old(samples), now - windowMs)
    {
      var cutoff := now - windowMs;
      samples := Retain(samples, cutoff);
    }
  }
}
