/** What the median and the deviation band mean: how much of the evidence lies on either side. */
module AttributionBands {
  import opened Common
  import opened Text
  import opened Permutations
  import opened Modes
  import opened Attribution
  import opened AttributionProperties

  function AtMost(t: real): real -> bool { (x: real) => x <= t }

  lemma {:induction false} SortedSplits(t: seq<real>, m: real)
    requires Sorted(t) && t != []
    requires m == if |t| % 2 == 1 then t[|t| / 2] else (t[|t| / 2 - 1] + t[|t| / 2]) / 2.0
    ensures 2 * Count(AtMost(m), t) >= |t| && 2 * Count(AtLeast(m), t) >= |t|
  {
    var h := |t| / 2;
    if |t| % 2 == 1 {
      CountSlice(AtMost(m), t, 0, h + 1);
      CountSlice(AtLeast(m), t, h, |t|);
    } else {
      assert t[h - 1] <= m <= t[h];
      CountSlice(AtMost(m), t, 0, h);
      CountSlice(AtLeast(m), t, h, |t|);
    }
  }

  /** At least half of the values are on each side of the median. */
  lemma {:induction false} MedianSplits(s: seq<real>)
    requires s != []
    ensures 2 * Count(AtMost(Median(s)), s) >= |s| && 2 * Count(AtLeast(Median(s)), s) >= |s|
  {
    SortSorts(s);
    SortedSplits(Sort(s), Median(s));
    CountPermutes(AtMost(Median(s)), Sort(s), s);
    CountPermutes(AtLeast(Median(s)), Sort(s), s);
  }

  // ---- bands ----

  lemma {:induction false} FifthsOfScale(d: real, scale: real)
    requires scale >= 1.0 && d >= 0.0
    ensures d / scale / 5.0 <= 0.2 <==> d <= scale
    ensures d / scale / 5.0 >= 0.5 <==> d >= 2.5 * scale
    ensures d / scale / 5.0 >= 1.0 <==> d >= 5.0 * scale
  {
    var q := d / scale;
    assert q * scale == d;
    assert q <= 1.0 <==> d <= scale;
    assert q >= 2.5 <==> d >= 2.5 * scale;
    assert q >= 5.0 <==> d >= 5.0 * scale;
  }

  /** A metric is reported from two and a half scales off the center, and counts in full from five. */
  lemma {:induction false} MetricIsFlagged(actual: Option<real>, band: Band, tag: string)
    ensures var part := MetricPart(actual, band, tag);
            var scale := Max(band.scale, 1.0);
            && (part.flagged <==> actual.None? || Abs(actual.value - band.center) >= 2.5 * scale)
            && (part.score == 1.0 <==> actual.None? || Abs(actual.value - band.center) >= 5.0 * scale)
  {
    if actual.Some? {
      FifthsOfScale(Abs(actual.value - band.center), Max(band.scale, 1.0));
    }
  }

  /** Values the band takes to be ordinary: at most a fifth of a full component. */
  function Ordinary(band: Band): real -> bool {
    (x: real) => MetricPart(Some(x), band, "").score <= 0.2
  }

  lemma {:induction false} NearIsOrdinary(x: real, band: Band)
    requires band.scale >= 1.0
    ensures Ordinary(band)(x) <==> Abs(x - band.center) <= band.scale
  {
    FifthsOfScale(Abs(x - band.center), band.scale);
  }

  /** At least half of the values a band is built from are ordinary under it. */
  lemma {:induction false} BandHoldsHalf(values: seq<real>)
    requires values != []
    ensures 2 * Count(Ordinary(BandOf(values)), values) >= |values|
  {
    var band := BandOf(values);
    var far := Distance(band.center);
    var mad := Median(FilterMap(far, values));
    forall i | 0 <= i < |values| ensures far(values[i]).Some? && (AtMost(mad)(far(values[i]).value) ==> Ordinary(band)(values[i])) {
      NearIsOrdinary(values[i], band);
    }
    CountImages(far, AtMost(mad), Ordinary(band), values);
    MedianSplits(FilterMap(far, values));
  }

  // ---- a profiled position ----

  function Keys<T>(table: seq<Named<T>>): (names: seq<string>)
    ensures |names| == |table| && forall i :: 0 <= i < |names| ==> names[i] == table[i].key
  {
    seq(|table|, i requires 0 <= i < |table| => table[i].key)
  }

  /**
   * A profiled position lists exactly the metric and attribute names some reference reports there, each
   * once and in order; every band takes at least half of its values to be ordinary, and every attribute
   * has a mode.
   */
  lemma {:induction false} ProfileCoversColumn(steps: seq<Step>)
    ensures var p := ProfileOf(steps);
            && Ascending(Keys(p.metrics)) && Ascending(Keys(p.attributes))
            && (forall n :: n in Keys(p.metrics) <==> exists i :: 0 <= i < |steps| && n in steps[i].metrics)
            && (forall n :: n in Keys(p.attributes) <==> exists i :: 0 <= i < |steps| && n in steps[i].attributes)
    ensures forall k :: 0 <= k < |ProfileOf(steps).metrics| ==> BandFits(steps, ProfileOf(steps).metrics[k])
    ensures forall k :: 0 <= k < |ProfileOf(steps).attributes| ==> ProfileOf(steps).attributes[k].value.Some?
  {
    var p, metrics, attributes := ProfileOf(steps), SortedNames(MetricNames(steps)), SortedNames(AttributeNames(steps));
    assert Keys(p.metrics) == metrics && Keys(p.attributes) == attributes;
    forall n ensures n in metrics <==> exists i :: 0 <= i < |steps| && n in steps[i].metrics {
      MetricNamesMember(steps, n);
    }
    forall n ensures n in attributes <==> exists i :: 0 <= i < |steps| && n in steps[i].attributes {
      AttributeNamesMember(steps, n);
    }
    forall k | 0 <= k < |p.metrics| ensures BandFits(steps, p.metrics[k]) {
      assert metrics[k] in metrics;
      MetricPresent(steps, metrics[k]);
      BandHoldsHalf(FilterMap(ReadMetric(metrics[k]), steps));
    }
    forall k | 0 <= k < |p.attributes| ensures p.attributes[k].value.Some? {
      assert attributes[k] in attributes;
      AttributePresent(steps, attributes[k]);
    }
  }

  /** At least half of the reported values are ordinary under the band. */
  predicate BandFits(steps: seq<Step>, entry: Named<Band>) {
    var values := FilterMap(ReadMetric(entry.key), steps);
    values != [] && 2 * Count(Ordinary(entry.value), values) >= |values|
  }

  lemma {:induction false} AttributePresent(steps: seq<Step>, n: string)
    requires n in AttributeNames(steps)
    ensures ModeOf(steps, Attribute(n)).Some?
  {
    AttributeNamesMember(steps, n);
    var i :| 0 <= i < |steps| && n in steps[i].attributes;
    FilterMapMember(Read(Attribute(n)), steps, steps[i].attributes[n]);
    assert Read(Attribute(n))(steps[i]) == Some(steps[i].attributes[n]);
    ModeIsMostFrequent(FilterMap(Read(Attribute(n)), steps));
  }
}
