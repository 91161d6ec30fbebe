/** The scoring figures themselves: what a step's score adds up to, and what a verdict is made of. */
module AttributionScores {
  import opened Common
  import opened Text
  import opened TextLaws
  import opened Permutations
  import opened Modes
  import opened Attribution
  import opened AttributionProperties
  import opened AttributionBands

  // ---- what a step's score adds up to ----

  function FieldsOff(step: Step, p: ProfileStep): nat {
    (if p.kind == Some(step.kind) then 0 else 1) + (if p.name == Some(step.name) then 0 else 1)
    + (if p.status == Some(step.status) then 0 else 1)
  }

  /** The step does not have this attribute with this value. */
  function AttributeOff(step: Step): Named<Option<Value>> -> bool {
    (e: Named<Option<Value>>) => e.value != if e.key in step.attributes then Some(step.attributes[e.key]) else None
  }

  function Scale(e: Named<Band>): real {
    if e.value.scale > 1.0 then e.value.scale else 1.0
  }

  function Away(step: Step, e: Named<Band>): real
    requires e.key in step.metrics
  {
    var d := step.metrics[e.key] - e.value.center;
    if d >= 0.0 then d else -d
  }

  /** A fifth of a component per scale off the center, a whole one for a missing metric or from five scales. */
  function MetricShare(step: Step, e: Named<Band>): real {
    if e.key !in step.metrics then 1.0
    else
      var share := Away(step, e) / Scale(e) / 5.0;
      if share < 1.0 then share else 1.0
  }

  function MetricSum(step: Step, table: seq<Named<Band>>): real {
    if table == [] then 0.0 else MetricSum(step, table[..|table| - 1]) + MetricShare(step, table[|table| - 1])
  }

  lemma {:induction false} TotalAppend(a: seq<Part>, b: seq<Part>)
    ensures Total(a + b) == Total(a) + Total(b)
  {
    if b == [] {
      assert a + b == a;
    } else {
      var init := b[..|b| - 1];
      assert (a + b)[..|a + b| - 1] == a + init;
      TotalAppend(a, init);
    }
  }

  lemma {:induction false} FieldsTotal(step: Step, p: ProfileStep)
    ensures Total(FieldParts(step, p)) == FieldsOff(step, p) as real
  {
    var parts := FieldParts(step, p);
    assert parts[..2] == [parts[0], parts[1]] && parts[..2][..1] == [parts[0]] && [parts[0]][..0] == [];
    assert Total(parts) == Total(parts[..2]) + parts[2].score;
    assert Total(parts[..2]) == Total(parts[..2][..1]) + parts[1].score;
    assert Total([parts[0]]) == Total([parts[0]][..0]) + parts[0].score;
  }

  lemma {:induction false} AttributesTotal(step: Step, table: seq<Named<Option<Value>>>)
    ensures Total(AttributeParts(step, table)) == Count(AttributeOff(step), table) as real
  {
    if table != [] {
      var init, last := table[..|table| - 1], table[|table| - 1];
      AttributesTotal(step, init);
      assert table == init + [last];
      CountAppend(AttributeOff(step), init, [last]);
      assert AttributeParts(step, table) == AttributeParts(step, init) + [AttributePart(step, last)];
      LastTotal(AttributeParts(step, init), AttributePart(step, last));
    }
  }

  lemma {:induction false} LastTotal(parts: seq<Part>, last: Part)
    ensures Total(parts + [last]) == Total(parts) + last.score
  {
    assert (parts + [last])[..|parts|] == parts;
  }

  lemma {:induction false} ShareOfPart(step: Step, e: Named<Band>)
    ensures MetricPartOf(step, e).score == MetricShare(step, e)
  {
  }

  lemma {:induction false} MetricsTotal(step: Step, table: seq<Named<Band>>)
    ensures Total(MetricParts(step, table)) == MetricSum(step, table)
  {
    if table != [] {
      var init, last := table[..|table| - 1], table[|table| - 1];
      MetricsTotal(step, init);
      assert MetricParts(step, table) == MetricParts(step, init) + [MetricPartOf(step, last)];
      LastTotal(MetricParts(step, init), MetricPartOf(step, last));
      ShareOfPart(step, last);
    }
  }

  lemma {:induction false} PartsTotal(step: Step, p: ProfileStep)
    ensures |Parts(step, p)| == 3 + |p.attributes| + |p.metrics|
    ensures Total(Parts(step, p))
         == FieldsOff(step, p) as real + Count(AttributeOff(step), p.attributes) as real + MetricSum(step, p.metrics)
  {
    var fields, attributes, metrics := FieldParts(step, p), AttributeParts(step, p.attributes), MetricParts(step, p.metrics);
    TotalAppend(fields + attributes, metrics);
    TotalAppend(fields, attributes);
    FieldsTotal(step, p);
    AttributesTotal(step, p.attributes);
    MetricsTotal(step, p.metrics);
  }

  lemma {:induction false} AverageTimes(total: real, n: real)
    requires n > 0.0
    ensures total / n * n == total
  {
  }

  lemma {:induction false} ScoreTimesCount(step: Step, p: ProfileStep, n: real)
    requires n == |Parts(step, p)| as real && n > 0.0
    ensures StepScore(step, p).0 * n == Total(Parts(step, p))
  {
    AverageTimes(Total(Parts(step, p)), n);
  }

  /** The score is the average: times the number of components it is their sum. */
  lemma {:induction false} ScoreSums(step: Step, p: ProfileStep)
    ensures StepScore(step, p).0 * (3 + |p.attributes| + |p.metrics|) as real
         == FieldsOff(step, p) as real + Count(AttributeOff(step), p.attributes) as real + MetricSum(step, p.metrics)
  {
    PartsTotal(step, p);
    ScoreTimesCount(step, p, (3 + |p.attributes| + |p.metrics|) as real);
  }

  // ---- when a step scores 1 ----

  predicate AllFull(parts: seq<Part>) {
    forall i :: 0 <= i < |parts| ==> parts[i].score == 1.0
  }

  lemma {:induction false} FullTotal(parts: seq<Part>)
    requires PartsInUnit(parts)
    ensures Total(parts) == |parts| as real <==> AllFull(parts)
  {
    if parts != [] {
      var init := parts[..|parts| - 1];
      FullTotal(init);
      TotalBounds(init);
    }
  }

  lemma {:induction false} FullConcat(a: seq<Part>, b: seq<Part>)
    ensures AllFull(a + b) <==> AllFull(a) && AllFull(b)
  {
    var all := a + b;
    if AllFull(all) {
      forall i | 0 <= i < |a| ensures a[i].score == 1.0 { assert all[i] == a[i]; }
      forall i | 0 <= i < |b| ensures b[i].score == 1.0 { assert all[|a| + i] == b[i]; }
    }
  }

  lemma {:induction false} FullQuotient(total: real, n: real)
    requires n > 0.0
    ensures total / n == 1.0 <==> total == n
  {
    assert total / n * n == total;
  }

  predicate FarOff(step: Step, e: Named<Band>) {
    e.key !in step.metrics || Away(step, e) >= 5.0 * Scale(e)
  }

  lemma {:induction false} FullMetric(step: Step, e: Named<Band>)
    ensures MetricPartOf(step, e).score == 1.0 <==> FarOff(step, e)
  {
    MetricIsFlagged(ReadMetric(e.key)(step), e.value, e.key);
  }

  lemma {:induction false} FullParts(step: Step, p: ProfileStep)
    ensures AllFull(FieldParts(step, p)) <==> p.kind != Some(step.kind) && p.name != Some(step.name) && p.status != Some(step.status)
    ensures AllFull(AttributeParts(step, p.attributes))
       <==> forall i :: 0 <= i < |p.attributes| ==> AttributeOff(step)(p.attributes[i])
    ensures AllFull(MetricParts(step, p.metrics)) <==> forall i :: 0 <= i < |p.metrics| ==> FarOff(step, p.metrics[i])
  {
    var fields, attributes, metrics := FieldParts(step, p), AttributeParts(step, p.attributes), MetricParts(step, p.metrics);
    assert AllFull(fields) <==> fields[0].score == 1.0 && fields[1].score == 1.0 && fields[2].score == 1.0;
    forall i | 0 <= i < |attributes| ensures attributes[i].score == 1.0 <==> AttributeOff(step)(p.attributes[i]) {
      assert attributes[i] == AttributePart(step, p.attributes[i]);
    }
    forall i | 0 <= i < |metrics| ensures metrics[i].score == 1.0 <==> FarOff(step, p.metrics[i]) {
      assert metrics[i] == MetricPartOf(step, p.metrics[i]);
      FullMetric(step, p.metrics[i]);
    }
  }

  /** A step scores 1 exactly when every field and attribute differs and every metric is missing or five scales off. */
  lemma {:induction false} FullScore(step: Step, p: ProfileStep)
    ensures StepScore(step, p).0 == 1.0 <==>
      && p.kind != Some(step.kind) && p.name != Some(step.name) && p.status != Some(step.status)
      && (forall i :: 0 <= i < |p.attributes| ==> AttributeOff(step)(p.attributes[i]))
      && (forall i :: 0 <= i < |p.metrics| ==> FarOff(step, p.metrics[i]))
  {
    var fields, attributes, metrics := FieldParts(step, p), AttributeParts(step, p.attributes), MetricParts(step, p.metrics);
    AllPartsInUnit(step, p);
    FullTotal(Parts(step, p));
    FullConcat(fields + attributes, metrics);
    FullConcat(fields, attributes);
    FullParts(step, p);
    FullQuotient(Total(Parts(step, p)), |Parts(step, p)| as real);
  }

  // ---- what is reported ----

  function AttributeTag(step: Step): Named<Option<Value>> -> Option<string> {
    (e: Named<Option<Value>>) => if AttributeOff(step)(e) then Some(e.key) else None
  }

  function MetricTag(step: Step): Named<Band> -> Option<string> {
    (e: Named<Band>) => if e.key !in step.metrics || Away(step, e) >= 2.5 * Scale(e) then Some(e.key) else None
  }

  /** The names a step deviates in, fields first, then attributes and metrics in the profile's order. */
  function Deviations(step: Step, p: ProfileStep): seq<string> {
    (if p.kind == Some(step.kind) then [] else ["kind"]) + (if p.name == Some(step.name) then [] else ["name"])
    + (if p.status == Some(step.status) then [] else ["status"])
    + FilterMap(AttributeTag(step), p.attributes) + FilterMap(MetricTag(step), p.metrics)
  }

  lemma {:induction false} LabelsAppend(a: seq<Part>, b: seq<Part>)
    ensures Labels(a + b) == Labels(a) + Labels(b)
  {
    if b == [] {
      assert a + b == a;
    } else {
      var init, last := b[..|b| - 1], b[|b| - 1];
      assert b == init + [last] && a + b == (a + init) + [last];
      LabelsAppend(a, init);
      LastLabel(a + init, last);
      LastLabel(init, last);
    }
  }

  lemma {:induction false} LastLabel(parts: seq<Part>, last: Part)
    ensures Labels(parts + [last]) == Labels(parts) + if last.flagged then [last.tag] else []
  {
    assert (parts + [last])[..|parts|] == parts;
  }

  lemma {:induction false} AttributeFlag(step: Step, e: Named<Option<Value>>)
    ensures One(AttributeTag(step), e) == if AttributePart(step, e).flagged then [AttributePart(step, e).tag] else []
  {
    var actual: Option<Value> := if e.key in step.attributes then Some(step.attributes[e.key]) else None;
    assert Read(Attribute(e.key))(step) == actual;
    assert AttributeTag(step)(e) == if AttributeOff(step)(e) then Some(e.key) else None;
    assert AttributeOff(step)(e) <==> e.value != actual;
  }

  lemma {:induction false} AttributeLabels(step: Step, table: seq<Named<Option<Value>>>)
    ensures Labels(AttributeParts(step, table)) == FilterMap(AttributeTag(step), table)
  {
    if table != [] {
      var n := |table| - 1;
      AttributeLabels(step, table[..n]);
      FilterMapNext(AttributeTag(step), table, n);
      assert table[..n + 1] == table;
      assert AttributeParts(step, table) == AttributeParts(step, table[..n]) + [AttributePart(step, table[n])];
      LastLabel(AttributeParts(step, table[..n]), AttributePart(step, table[n]));
      AttributeFlag(step, table[n]);
    }
  }

  lemma {:induction false} MetricFlag(step: Step, e: Named<Band>)
    ensures One(MetricTag(step), e) == if MetricPartOf(step, e).flagged then [MetricPartOf(step, e).tag] else []
  {
    MetricIsFlagged(ReadMetric(e.key)(step), e.value, e.key);
  }

  lemma {:induction false} MetricLabels(step: Step, table: seq<Named<Band>>)
    ensures Labels(MetricParts(step, table)) == FilterMap(MetricTag(step), table)
  {
    if table != [] {
      var n := |table| - 1;
      MetricLabels(step, table[..n]);
      FilterMapNext(MetricTag(step), table, n);
      assert table[..n + 1] == table;
      assert MetricParts(step, table) == MetricParts(step, table[..n]) + [MetricPartOf(step, table[n])];
      LastLabel(MetricParts(step, table[..n]), MetricPartOf(step, table[n]));
      MetricFlag(step, table[n]);
    }
  }

  lemma {:induction false} MismatchLabel(actual: Value, expected: Option<Value>, tag: string)
    ensures Labels([MismatchPart(Some(actual), expected, tag)]) == if expected == Some(actual) then [] else [tag]
  {
    var part := MismatchPart(Some(actual), expected, tag);
    LastLabel([], part);
    assert [] + [part] == [part];
  }

  lemma {:induction false} FieldLabels(step: Step, p: ProfileStep)
    ensures Labels(FieldParts(step, p))
         == (if p.kind == Some(step.kind) then [] else ["kind"]) + (if p.name == Some(step.name) then [] else ["name"])
            + (if p.status == Some(step.status) then [] else ["status"])
  {
    var a := [MismatchPart(Some(step.kind), p.kind, "kind")];
    var b := [MismatchPart(Some(step.name), p.name, "name")];
    var c := [MismatchPart(Some(step.status), p.status, "status")];
    assert FieldParts(step, p) == a + b + c;
    LabelsAppend(a + b, c);
    LabelsAppend(a, b);
    MismatchLabel(step.kind, p.kind, "kind");
    MismatchLabel(step.name, p.name, "name");
    MismatchLabel(step.status, p.status, "status");
  }

  /** The reason joins the names of all deviations, and says "within_profile" when there is nothing to join. */
  lemma {:induction false} ReasonLists(step: Step, p: ProfileStep)
    ensures StepScore(step, p).1
         == if Join(",", Deviations(step, p)) == "" then "within_profile" else Join(",", Deviations(step, p))
  {
    var fields, attributes, metrics := FieldParts(step, p), AttributeParts(step, p.attributes), MetricParts(step, p.metrics);
    LabelsAppend(fields + attributes, metrics);
    LabelsAppend(fields, attributes);
    FieldLabels(step, p);
    AttributeLabels(step, p.attributes);
    MetricLabels(step, p.metrics);
  }

  // ---- medians and bands ----

  /** The middle value of any sorted arrangement, or the mean of the two middle ones. */
  lemma {:induction false} MedianIsMiddle(s: seq<real>, t: seq<real>)
    requires Permutes(s, t) && Sorted(t) && s != []
    ensures |t| == |s|
    ensures Median(s) == if |t| % 2 == 1 then t[|t| / 2] else (t[|t| / 2 - 1] + t[|t| / 2]) / 2.0
  {
    SameMembers(s, t);
    SortSorts(s);
    SortedIsUnique(Sort(s), t);
  }

  function Apart(x: real, center: real): real {
    if x >= center then x - center else center - x
  }

  lemma {:induction false} Distances(center: real, values: seq<real>)
    ensures |FilterMap(Distance(center), values)| == |values|
    ensures forall i :: 0 <= i < |values| ==> FilterMap(Distance(center), values)[i] == Apart(values[i], center)
  {
    if values != [] {
      var rest := FilterMap(Distance(center), values[1..]);
      Distances(center, values[1..]);
      var first := Distance(center)(values[0]);
      assert first.Some? && first.value == Abs(values[0] - center);
      assert Abs(values[0] - center) == Apart(values[0], center);
      assert FilterMap(Distance(center), values) == One(Distance(center), values[0]) + rest;
      assert forall i :: 1 <= i < |values| ==> values[i] == values[1..][i - 1];
    }
  }

  /**
   * A band is centered at the median, and its scale is the least number that is at least the median distance
   * from it, at least a tenth of the center and at least 1.
   */
  lemma {:induction false} BandIsLeast(values: seq<real>, distances: seq<real>, least: real)
    requires |distances| == |values|
    requires forall i :: 0 <= i < |values| ==>
               distances[i] == Apart(values[i], Median(values))
    ensures BandOf(values).center == Median(values)
    ensures BandOf(values).scale <= least <==>
              Median(distances) <= least && Median(values) <= 10.0 * least && -Median(values) <= 10.0 * least && 1.0 <= least
  {
    Distances(Median(values), values);
    assert distances == FilterMap(Distance(Median(values)), values);
  }

  // ---- columns, references and rows ----

  function At(i: nat, s: Step): Run -> bool {
    (r: Run) => i < |r| && r[i] == s
  }

  function Reaches(i: nat): Run -> bool {
    (r: Run) => i < |r|
  }

  /** A column holds one step for each reference that reaches the position, that reference's own. */
  lemma {:induction false} ColumnCounts(refs: seq<Run>, i: nat, s: Step)
    ensures |Column(refs, i)| == Count(Reaches(i), refs)
    ensures multiset(Column(refs, i))[s] == Count(At(i, s), refs)
  {
    if refs != [] {
      var rest := Column(refs[1..], i);
      ColumnCounts(refs[1..], i, s);
      assert Column(refs, i) == One(StepAt(i), refs[0]) + rest;
    }
  }

  /** The references used: the non-empty ones, cut to 64 steps. */
  lemma {:induction false} NormalizeKeeps(references: seq<Run>, r: Run)
    ensures r in Normalize(references) <==>
      exists k :: 0 <= k < |references| && references[k] != []
                  && r == if |references[k]| > 64 then references[k][..64] else references[k]
  {
    FilterMapMember(Truncate, references, r);
    forall k | 0 <= k < |references|
      ensures Truncate(references[k]) == Some(r)
         <==> references[k] != [] && r == if |references[k]| > 64 then references[k][..64] else references[k]
    {
    }
  }

  function NonEmptyRun(): Run -> bool {
    (r: Run) => r != []
  }

  lemma {:induction false} NormalizeCounts(references: seq<Run>)
    ensures |Normalize(references)| == Count(NonEmptyRun(), references)
  {
    if references != [] {
      NormalizeCounts(references[1..]);
    }
  }

  /** The published row of a position. */
  lemma {:induction false} RowSays(run: Run, p: Profile, i: nat)
    requires i < |run| || i < |p|
    ensures |Rows(run, p)| == if |run| >= |p| then |run| else |p|
    ensures var row := Rows(run, p)[i];
            && row.position == i
            && (i >= |run| ==> row.step.None? && row.score == 1.0 && row.reason == "missing_step")
            && (i >= |p| ==> row.step == Some(run[i]) && row.score == 1.0 && row.reason == "unexpected_step")
            && (i < |run| && i < |p| ==>
                  && row.step == Some(run[i]) && row.reason == StepScore(run[i], p[i]).1
                  && -0.0000005 <= row.score - StepScore(run[i], p[i]).0 <= 0.0000005)
  {
    RoundInUnit(1.0);
    if i < |run| && i < |p| {
      SixDecimals(StepScore(run[i], p[i]).0);
    }
  }

  lemma {:induction false} SixDecimals(x: real)
    ensures -0.0000005 <= Round6(x) - x <= 0.0000005
  {
    RoundsToNearest(x * 1000000.0);
  }

  // ---- the threshold and the verdict ----

  /** The threshold is 0.35 or the score of one of the references. */
  lemma {:induction false} ThresholdIsAttained(refs: seq<Run>, alpha: real)
    ensures var t := Threshold(refs, alpha);
            && t >= 0.35
            && (t == 0.35 || exists k :: 0 <= k < |refs| && Overall(refs[k], BuildProfile(refs)) == t)
  {
    var p, scores := BuildProfile(refs), Calibration(refs);
    SortSorts(scores);
    if Threshold(refs, alpha) != 0.35 && Sort(scores) != [] {
      var t := Quantile(Sort(scores), 1.0 - alpha);
      assert t in Sort(scores);
      SameMembers(Sort(scores), scores);
      FilterMapMember(ScoreAgainst(p), refs, t);
    }
  }

  /** The verdict: unscored with too few references; otherwise suspicious exactly above the threshold. */
  lemma {:induction false} VerdictSays(run: Run, references: seq<Run>, config: Config, verified: bool)
    ensures var refs, v := Normalize(references), Judge(run, references, config, verified);
            if |refs| < config.minSuccesses then
              v == Verdict(if verified then "warming_up" else "failed_unscored", None, None, [], None, false)
            else
              var p, score, t := BuildProfile(refs), Overall(run, BuildProfile(refs)), Threshold(refs, config.alpha);
              && v.score == Some(score) && v.threshold == Some(t) && v.rows == Rows(run, p)
              && (v.suspicious <==> score > t)
              && v.state == (if score > t then "suspicious" else if verified then "normal" else "failed")
  {
  }
}
