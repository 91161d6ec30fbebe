/** What the anomaly monitor promises about scores, thresholds, order and majorities. */
module AttributionProperties {
  import opened Common
  import opened Text
  import opened Permutations
  import opened Modes
  import opened Attribution

  // ---- bounds ----

  predicate InUnit(x: real) {
    0.0 <= x <= 1.0
  }

  predicate PartsInUnit(parts: seq<Part>) {
    forall i :: 0 <= i < |parts| ==> InUnit(parts[i].score)
  }

  lemma {:induction false} MetricPartInUnit(actual: Option<real>, expected: Band, tag: string)
    ensures InUnit(MetricPart(actual, expected, tag).score)
  {
    if actual.Some? {
      var a, b := Abs(actual.value - expected.center), Max(expected.scale, 1.0);
      assert a / b >= 0.0;
    }
  }

  lemma {:induction false} AllPartsInUnit(step: Step, p: ProfileStep)
    ensures PartsInUnit(Parts(step, p))
  {
    var metrics := MetricParts(step, p.metrics);
    forall i | 0 <= i < |metrics| ensures InUnit(metrics[i].score) {
      MetricPartInUnit(ReadMetric(p.metrics[i].key)(step), p.metrics[i].value, p.metrics[i].key);
    }
  }

  lemma {:induction false} TotalBounds(parts: seq<Part>)
    requires PartsInUnit(parts)
    ensures 0.0 <= Total(parts) <= |parts| as real
    ensures Total(parts) == 0.0 <==> forall i :: 0 <= i < |parts| ==> parts[i].score == 0.0
  {
    if parts != [] {
      TotalBounds(parts[..|parts| - 1]);
    }
  }

  lemma {:induction false} AverageInUnit(total: real, n: real)
    requires n > 0.0 && 0.0 <= total <= n
    ensures InUnit(total / n) && (total / n == 0.0 <==> total == 0.0)
  {
  }

  lemma {:induction false} StepScoreInUnit(step: Step, p: ProfileStep)
    ensures InUnit(StepScore(step, p).0)
    ensures StepScore(step, p).0 == 0.0 <==> Total(Parts(step, p)) == 0.0
  {
    AllPartsInUnit(step, p);
    TotalBounds(Parts(step, p));
    AverageInUnit(Total(Parts(step, p)), |Parts(step, p)| as real);
  }

  lemma {:induction false} RoundInUnit(x: real)
    requires InUnit(x)
    ensures InUnit(Round6(x)) && Round6(0.0) == 0.0 && Round6(1.0) == 1.0
  {
    var y := x * 1000000.0;
    assert 0 <= RoundHalfEven(y) <= 1000000;
  }

  lemma {:induction false} RowInUnit(run: Run, p: Profile, i: nat)
    requires i < |run| || i < |p|
    ensures InUnit(RowAt(run, p, i).score)
    ensures i >= |run| || i >= |p| ==> RowAt(run, p, i).score == 1.0
  {
    RoundInUnit(1.0);
    if i < |run| && i < |p| {
      StepScoreInUnit(run[i], p[i]);
      RoundInUnit(StepScore(run[i], p[i]).0);
    }
  }

  lemma {:induction false} HighestIsMax(rows: seq<Row>)
    ensures forall i :: 0 <= i < |rows| ==> rows[i].score <= Highest(rows)
    ensures rows != [] ==> exists i :: 0 <= i < |rows| && rows[i].score == Highest(rows)
  {
    if |rows| == 1 {
      assert rows[0].score == Highest(rows);
    } else if |rows| > 1 {
      var init := rows[..|rows| - 1];
      HighestIsMax(init);
      var i :| 0 <= i < |init| && init[i].score == Highest(init);
      assert rows[i].score == Highest(init);
      assert rows[|rows| - 1].score <= Highest(rows);
    }
  }

  /** The suspected step is a row of the report, attains the overall score, and is the first to do so. */
  lemma {:induction false} SuspectedAttains(rows: seq<Row>)
    requires rows != []
    ensures Suspected(rows).Some?
    ensures exists i :: 0 <= i < |rows| && Suspected(rows) == Some(rows[i]) && rows[i].score == Highest(rows)
                        && forall j :: 0 <= j < i ==> rows[j].score < Highest(rows)
  {
    var n := |rows| - 1;
    if n == 0 {
      assert Suspected(rows) == Some(rows[0]);
    } else {
      var init := rows[..n];
      SuspectedAttains(init);
      HighestIsMax(init);
      var i :| 0 <= i < n && Suspected(init) == Some(init[i]) && init[i].score == Highest(init)
               && forall j :: 0 <= j < i ==> init[j].score < Highest(init);
      if init[i].score >= rows[n].score {
        assert Suspected(rows) == Some(rows[i]);
        assert forall j :: 0 <= j < i ==> rows[j] == init[j];
      } else {
        assert Suspected(rows) == Some(rows[n]);
        assert forall j :: 0 <= j < n ==> rows[j] == init[j];
      }
    }
  }

  /** Every score lies in [0, 1]; a run that is not as long as the profile scores exactly 1. */
  lemma {:induction false} ScoresAreBounded(run: Run, p: Profile)
    ensures forall i :: 0 <= i < |Rows(run, p)| ==> InUnit(Rows(run, p)[i].score)
    ensures InUnit(Overall(run, p))
    ensures |run| != |p| ==> Overall(run, p) == 1.0
  {
    var rows := Rows(run, p);
    forall i | 0 <= i < |rows| ensures InUnit(rows[i].score) {
      RowInUnit(run, p, i);
    }
    HighestIsMax(rows);
    if |run| != |p| {
      var last := |rows| - 1;
      RowInUnit(run, p, last);
      assert rows[last].score == 1.0;
    }
  }

  /** The verdict as published: bounded scores, a threshold above the floor, a witness for the score. */
  lemma {:induction false} JudgementIsBounded(run: Run, references: seq<Run>, config: Config, verified: bool)
    requires |Normalize(references)| >= config.minSuccesses
    ensures var v := Judge(run, references, config, verified);
            && v.score.Some? && InUnit(v.score.value)
            && v.threshold.Some? && v.threshold.value >= THRESHOLD_FLOOR
            && (v.suspicious <==> v.score.value > v.threshold.value)
            && (|run| != Width(Normalize(references)) ==> v.score.value == 1.0)
            && (v.rows != [] ==> v.suspected.Some? && v.suspected.value in v.rows && v.suspected.value.score == v.score.value)
  {
    var p := BuildProfile(Normalize(references));
    ScoresAreBounded(run, p);
    if Rows(run, p) != [] {
      SuspectedAttains(Rows(run, p));
    }
  }

  // ---- calibration ----

  function GreaterThan(t: real): real -> bool { (x: real) => x > t }
  function AtLeast(t: real): real -> bool { (x: real) => x >= t }
  function ScoresAbove(p: Profile, t: real): Run -> bool { (r: Run) => Overall(r, p) > t }
  function ScoresAtLeast(p: Profile, t: real): Run -> bool { (r: Run) => Overall(r, p) >= t }

  /** References that the threshold built from them would call suspicious. */
  function Outliers(refs: seq<Run>, alpha: real): nat {
    Count(ScoresAbove(BuildProfile(refs), Threshold(refs, alpha)), refs)
  }

  /** References that reach the threshold built from them. */
  function Reaching(refs: seq<Run>, alpha: real): nat {
    Count(ScoresAtLeast(BuildProfile(refs), Threshold(refs, alpha)), refs)
  }

  lemma {:induction false} SortedAbove(c: seq<real>, k: nat, t: real)
    requires Sorted(c) && k < |c| && t >= c[k]
    ensures Count(GreaterThan(t), c) <= |c| - 1 - k
  {
    var low, high := c[..k + 1], c[k + 1..];
    assert c == low + high;
    CountAppend(GreaterThan(t), low, high);
    CountNone(GreaterThan(t), low);
  }

  lemma {:induction false} SortedReaching(c: seq<real>, k: nat, t: real)
    requires Sorted(c) && k < |c| && t <= c[k]
    ensures Count(AtLeast(t), c) >= |c| - k
  {
    CountSlice(AtLeast(t), c, k, |c|);
  }

  /** At most n - 1 - k values exceed the k-th smallest, and at least n - k reach it. */
  lemma {:induction false} CountsAtRank(scores: seq<real>, k: nat, t: real)
    requires k < |scores| == |Sort(scores)|
    ensures t >= Sort(scores)[k] ==> Count(GreaterThan(t), scores) <= |scores| - 1 - k
    ensures t <= Sort(scores)[k] ==> Count(AtLeast(t), scores) >= |scores| - k
  {
    SortSorts(scores);
    CountPermutes(GreaterThan(t), Sort(scores), scores);
    CountPermutes(AtLeast(t), Sort(scores), scores);
    if t >= Sort(scores)[k] {
      SortedAbove(Sort(scores), k, t);
    }
    if t <= Sort(scores)[k] {
      SortedReaching(Sort(scores), k, t);
    }
  }

  lemma {:induction false} ReferencesAtRank(refs: seq<Run>, p: Profile, scores: seq<real>, k: nat, t: real)
    requires scores == FilterMap(ScoreAgainst(p), refs) && k < |refs| == |Sort(scores)|
    ensures t >= Sort(scores)[k] ==> Count(ScoresAbove(p, t), refs) <= |refs| - 1 - k
    ensures t <= Sort(scores)[k] ==> Count(ScoresAtLeast(p, t), refs) >= |refs| - k
  {
    CountImages(ScoreAgainst(p), GreaterThan(t), ScoresAbove(p, t), refs);
    CountImages(ScoreAgainst(p), AtLeast(t), ScoresAtLeast(p, t), refs);
    CountsAtRank(scores, k, t);
  }

  lemma {:induction false} CalibrationLength(refs: seq<Run>, p: Profile)
    ensures |FilterMap(ScoreAgainst(p), refs)| == |refs|
  {
    if refs != [] {
      CalibrationLength(refs[1..], p);
    }
  }

  lemma {:induction false} Scaled(alpha: real, m: real)
    requires InUnit(alpha) && m > 0.0
    ensures 0.0 <= alpha * m <= m && (alpha < 1.0 ==> alpha * m < m)
  {
    assert (1.0 - alpha) * m == m - alpha * m;
    assert (1.0 - alpha) * m >= 0.0;
  }

  lemma {:induction false} QuantileIndex(n: nat, alpha: real)
    requires n > 0 && InUnit(alpha)
    ensures n - 1 - QuantileAt(n, 1.0 - alpha) <= (alpha * (n as real)).Floor
    ensures alpha < 1.0 ==> n - 1 - QuantileAt(n, 1.0 - alpha) == (alpha * (n as real)).Floor
  {
    var x, m := alpha * (n as real), n as real;
    assert (1.0 - alpha) * m == m - x;
    Scaled(alpha, m);
    assert Ceil(m - x) == n - x.Floor by {
      assert -(m - x) == x - m;
      assert (x - m).Floor == x.Floor - n;
    }
  }

  lemma {:induction false} QuantileOfSorted(scores: seq<real>, probability: real, n: nat)
    requires |scores| == n > 0
    ensures |Sort(scores)| == n && Quantile(Sort(scores), probability) == Sort(scores)[QuantileAt(n, probability)]
  {
    SortSorts(scores);
  }

  lemma {:induction false} ThresholdRank(refs: seq<Run>, alpha: real, n: nat)
    requires |refs| == n > 0
    ensures Outliers(refs, alpha) <= n - 1 - QuantileAt(n, 1.0 - alpha)
    ensures Threshold(refs, alpha) > THRESHOLD_FLOOR ==> Reaching(refs, alpha) >= n - QuantileAt(n, 1.0 - alpha)
  {
    CalibrationLength(refs, BuildProfile(refs));
    QuantileOfSorted(Calibration(refs), 1.0 - alpha, n);
    ReferencesAtRank(refs, BuildProfile(refs), Calibration(refs), QuantileAt(n, 1.0 - alpha), Threshold(refs, alpha));
  }

  lemma {:induction false} NothingBelowOne(count: nat, x: real)
    requires count <= x.Floor
    ensures x < 1.0 ==> count == 0
  {
  }

  /** Calibration: of n references at most floor(alpha * n) score above the threshold built from them. */
  lemma {:induction false} CalibrationBound(refs: seq<Run>, alpha: real, n: nat)
    requires |refs| == n > 0 && InUnit(alpha)
    ensures Outliers(refs, alpha) <= (alpha * (n as real)).Floor
    ensures alpha * (n as real) < 1.0 ==> Outliers(refs, alpha) == 0
  {
    ThresholdRank(refs, alpha, n);
    QuantileIndex(n, alpha);
    NothingBelowOne(Outliers(refs, alpha), alpha * (n as real));
  }

  /** The calibration is tight: a threshold above the floor is reached by more than floor(alpha * n) references. */
  lemma {:induction false} CalibrationIsTight(refs: seq<Run>, alpha: real, n: nat)
    requires |refs| == n > 0 && 0.0 <= alpha < 1.0
    ensures Threshold(refs, alpha) > THRESHOLD_FLOOR ==> Reaching(refs, alpha) >= (alpha * (n as real)).Floor + 1
  {
    ThresholdRank(refs, alpha, n);
    QuantileIndex(n, alpha);
  }

  // ---- majority ----

  /** Equal renderings mean equal values. */
  predicate Coherent(values: seq<Value>) {
    forall v, w :: v in values && w in values && Show(v) == Show(w) ==> v == w
  }

  predicate Majority(steps: seq<Step>, m: Step) {
    2 * multiset(steps)[m] > |steps|
  }

  /** The first value of the column that renders like `m`'s own is `m`'s own. */
  predicate LeadsField(steps: seq<Step>, m: Step, field: Field) {
    Read(field)(m).Some? ==>
      FirstShowing(FilterMap(Read(field), steps), Show(Read(field)(m).value)) == Read(field)(m)
  }

  /** `m` has every name the column uses, and no differently typed twin precedes its values. */
  ghost predicate Representative(steps: seq<Step>, m: Step) {
    && MetricNames(steps) <= m.metrics.Keys && AttributeNames(steps) <= m.attributes.Keys
    && forall field: Field :: LeadsField(steps, m, field)
  }

  lemma {:induction false} MajorityField(steps: seq<Step>, m: Step, field: Field)
    requires Majority(steps, m) && Read(field)(m).Some?
    ensures ModeOf(steps, field) == Read(field)(m) <==> LeadsField(steps, m, field)
  {
    var v := Read(field)(m).value;
    CountThrough(Read(field), steps, m, v);
    MajorityIsMode(FilterMap(Read(field), steps), v);
  }

  /** Every reference that reaches the position reports the same metrics and attributes. */
  predicate SameNames(steps: seq<Step>, m: Step) {
    forall s :: s in steps ==> s.metrics.Keys == m.metrics.Keys && s.attributes.Keys == m.attributes.Keys
  }

  /** With the same names everywhere and typed values, the majority step represents its position. */
  lemma {:induction false} UniformColumnIsRepresented(steps: seq<Step>, m: Step)
    requires Majority(steps, m) && SameNames(steps, m)
    requires forall field: Field :: Coherent(FilterMap(Read(field), steps))
    ensures Representative(steps, m)
  {
    forall n | n in MetricNames(steps) ensures n in m.metrics.Keys {
      MetricNamesMember(steps, n);
    }
    forall n | n in AttributeNames(steps) ensures n in m.attributes.Keys {
      AttributeNamesMember(steps, n);
    }
    assert m in multiset(steps);
    var i :| 0 <= i < |steps| && steps[i] == m;
    forall field: Field | Read(field)(m).Some? ensures LeadsField(steps, m, field) {
      var values, v := FilterMap(Read(field), steps), Read(field)(m).value;
      assert Read(field)(steps[i]) == Some(v);
      FilterMapMember(Read(field), steps, v);
      FirstShowingFinds(values, Show(v));
      assert Coherent(values);
    }
  }

  lemma {:induction false} CenteredPart(v: real, scale: real, n: string)
    ensures MetricPart(Some(v), Band(v, scale), n) == Part(0.0, false, n)
  {
    assert Abs(v - v) == 0.0;
  }

  lemma {:induction false} MajorityMetric(steps: seq<Step>, m: Step, n: string)
    requires Majority(steps, m) && n in m.metrics
    ensures MetricPartOf(m, BandEntry(steps, n)) == Part(0.0, false, n)
  {
    var values := FilterMap(ReadMetric(n), steps);
    CountThrough(ReadMetric(n), steps, m, m.metrics[n]);
    MajorityIsMedian(values, m.metrics[n]);
    CenteredPart(m.metrics[n], BandOf(values).scale, n);
  }

  lemma {:induction false} ZeroPartsHaveNoReason(parts: seq<Part>)
    requires forall i :: 0 <= i < |parts| ==> !parts[i].flagged
    ensures Labels(parts) == []
  {
    if parts != [] {
      ZeroPartsHaveNoReason(parts[..|parts| - 1]);
    }
  }

  lemma {:induction false} AttributePartZero(steps: seq<Step>, m: Step, n: string)
    requires Majority(steps, m) && n in AttributeNames(steps)
    ensures AttributePart(m, ModeEntry(steps, n)).score == 0.0 <==> n in m.attributes && LeadsField(steps, m, Attribute(n))
    ensures AttributePart(m, ModeEntry(steps, n)).score == 0.0 ==> !AttributePart(m, ModeEntry(steps, n)).flagged
  {
    if n in m.attributes {
      MajorityField(steps, m, Attribute(n));
    } else {
      AttributeNamesMember(steps, n);
      var i :| 0 <= i < |steps| && n in steps[i].attributes;
      FilterMapMember(Read(Attribute(n)), steps, steps[i].attributes[n]);
      assert Read(Attribute(n))(steps[i]) == Some(steps[i].attributes[n]);
      ModeIsMostFrequent(FilterMap(Read(Attribute(n)), steps));
    }
  }

  lemma {:induction false} MetricPartZero(steps: seq<Step>, m: Step, n: string)
    requires Majority(steps, m) && n in MetricNames(steps)
    ensures MetricPartOf(m, BandEntry(steps, n)).score == 0.0 <==> n in m.metrics
    ensures MetricPartOf(m, BandEntry(steps, n)).score == 0.0 ==> !MetricPartOf(m, BandEntry(steps, n)).flagged
  {
    if n in m.metrics {
      MajorityMetric(steps, m, n);
    }
  }

  predicate NoScore(parts: seq<Part>) {
    forall i :: 0 <= i < |parts| ==> parts[i].score == 0.0
  }

  predicate NoFlag(parts: seq<Part>) {
    forall i :: 0 <= i < |parts| ==> !parts[i].flagged
  }

  lemma {:induction false} FieldPartsZero(steps: seq<Step>, m: Step, p: ProfileStep)
    requires Majority(steps, m)
    requires p.kind == ModeOf(steps, Kind) && p.name == ModeOf(steps, Name) && p.status == ModeOf(steps, StatusField)
    ensures NoScore(FieldParts(m, p))
       <==> LeadsField(steps, m, Kind) && LeadsField(steps, m, Name) && LeadsField(steps, m, StatusField)
    ensures NoScore(FieldParts(m, p)) ==> NoFlag(FieldParts(m, p))
  {
    MajorityField(steps, m, Kind);
    MajorityField(steps, m, Name);
    MajorityField(steps, m, StatusField);
    ThreeParts(Some(m.kind), p.kind, Some(m.name), p.name, Some(m.status), p.status);
  }

  lemma {:induction false} ThreeParts(a: Option<Value>, a': Option<Value>, b: Option<Value>, b': Option<Value>,
                                      c: Option<Value>, c': Option<Value>)
    ensures var parts := [MismatchPart(a, a', "kind"), MismatchPart(b, b', "name"), MismatchPart(c, c', "status")];
            (NoScore(parts) <==> a' == a && b' == b && c' == c) && (NoScore(parts) ==> NoFlag(parts))
  {
    var parts := [MismatchPart(a, a', "kind"), MismatchPart(b, b', "name"), MismatchPart(c, c', "status")];
    assert NoScore(parts) <==> parts[0].score == 0.0 && parts[1].score == 0.0 && parts[2].score == 0.0;
  }

  /** Parts listed under sorted names are all zero exactly when every name fits. */
  lemma {:induction false} NamedPartsZero(parts: seq<Part>, names: set<string>, fitting: set<string>)
    requires |parts| == |SortedNames(names)|
    requires forall i :: 0 <= i < |parts| ==> (parts[i].score == 0.0 <==> SortedNames(names)[i] in fitting)
    ensures NoScore(parts) <==> names <= fitting
  {
    var sorted := SortedNames(names);
    if NoScore(parts) {
      forall n | n in names ensures n in fitting {
        assert n in sorted;
        var i :| 0 <= i < |sorted| && sorted[i] == n;
        assert parts[i].score == 0.0;
      }
    }
    assert forall i :: 0 <= i < |sorted| ==> sorted[i] in names;
  }

  predicate AttributeFits(steps: seq<Step>, m: Step, n: string) {
    n in m.attributes && LeadsField(steps, m, Attribute(n))
  }

  function FittingAttributes(steps: seq<Step>, m: Step): set<string> {
    set n | n in AttributeNames(steps) && AttributeFits(steps, m, n)
  }

  lemma {:induction false} AttributePartsZero(steps: seq<Step>, m: Step)
    requires Majority(steps, m)
    ensures var parts := AttributeParts(m, AttributeTable(steps));
            && (NoScore(parts) <==> AttributeNames(steps) <= FittingAttributes(steps, m))
            && (NoScore(parts) ==> NoFlag(parts))
  {
    var names := SortedNames(AttributeNames(steps));
    var parts := AttributeParts(m, AttributeTable(steps));
    forall i | 0 <= i < |parts|
      ensures parts[i].score == 0.0 <==> names[i] in FittingAttributes(steps, m)
      ensures parts[i].score == 0.0 ==> !parts[i].flagged
    {
      assert names[i] in names;
      assert parts[i] == AttributePart(m, ModeEntry(steps, names[i]));
      AttributePartZero(steps, m, names[i]);
    }
    NamedPartsZero(parts, AttributeNames(steps), FittingAttributes(steps, m));
  }

  lemma {:induction false} MetricPartsZero(steps: seq<Step>, m: Step)
    requires Majority(steps, m)
    ensures var parts := MetricParts(m, MetricTable(steps));
            (NoScore(parts) <==> MetricNames(steps) <= m.metrics.Keys) && (NoScore(parts) ==> NoFlag(parts))
  {
    var names := SortedNames(MetricNames(steps));
    var parts := MetricParts(m, MetricTable(steps));
    forall i | 0 <= i < |parts|
      ensures parts[i].score == 0.0 <==> names[i] in m.metrics.Keys
      ensures parts[i].score == 0.0 ==> !parts[i].flagged
    {
      assert names[i] in names;
      assert parts[i] == MetricPartOf(m, BandEntry(steps, names[i]));
      MetricPartZero(steps, m, names[i]);
    }
    NamedPartsZero(parts, MetricNames(steps), m.metrics.Keys);
  }

  /** Attributes outside the column are never compared. */
  lemma {:induction false} UnusedAttributesLead(steps: seq<Step>, m: Step)
    requires Majority(steps, m)
    ensures forall n :: n in m.attributes ==> n in AttributeNames(steps)
  {
    assert m in multiset(steps);
    var i :| 0 <= i < |steps| && steps[i] == m;
    forall n | n in m.attributes ensures n in AttributeNames(steps) {
      AttributeNamesMember(steps, n);
    }
  }

  predicate FieldsLead(steps: seq<Step>, m: Step) {
    LeadsField(steps, m, Kind) && LeadsField(steps, m, Name) && LeadsField(steps, m, StatusField)
  }

  lemma {:induction false} RepresentativeFits(steps: seq<Step>, m: Step)
    requires Representative(steps, m)
    ensures FieldsLead(steps, m) && AttributeNames(steps) <= FittingAttributes(steps, m)
  {
    forall n | n in AttributeNames(steps) ensures n in FittingAttributes(steps, m) {
      assert LeadsField(steps, m, Attribute(n));
    }
  }

  lemma {:induction false} FittingRepresents(steps: seq<Step>, m: Step)
    requires Majority(steps, m) && MetricNames(steps) <= m.metrics.Keys
    requires FieldsLead(steps, m) && AttributeNames(steps) <= FittingAttributes(steps, m)
    ensures Representative(steps, m)
  {
    UnusedAttributesLead(steps, m);
    forall n | n in AttributeNames(steps) ensures n in m.attributes.Keys {
      assert n in FittingAttributes(steps, m);
    }
    forall field: Field ensures LeadsField(steps, m, field) {
      if field.Attribute? && field.key in m.attributes {
        assert field.key in FittingAttributes(steps, m);
      }
    }
  }

  lemma {:induction false} RepresentativeFields(steps: seq<Step>, m: Step)
    requires Majority(steps, m)
    ensures Representative(steps, m) <==>
      && MetricNames(steps) <= m.metrics.Keys && FieldsLead(steps, m)
      && AttributeNames(steps) <= FittingAttributes(steps, m)
  {
    if Representative(steps, m) {
      RepresentativeFits(steps, m);
    }
    if MetricNames(steps) <= m.metrics.Keys && FieldsLead(steps, m) && AttributeNames(steps) <= FittingAttributes(steps, m) {
      FittingRepresents(steps, m);
    }
  }

  /** A step shared by a strict majority of its column scores 0 exactly when it represents the column. */
  lemma {:induction false} MajorityStepScore(steps: seq<Step>, m: Step)
    requires Majority(steps, m)
    ensures StepScore(m, ProfileOf(steps)).0 == 0.0 <==> Representative(steps, m)
    ensures Representative(steps, m) ==> StepScore(m, ProfileOf(steps)).1 == "within_profile"
  {
    var p := ProfileOf(steps);
    var fields, attributes, metrics := FieldParts(m, p), AttributeParts(m, p.attributes), MetricParts(m, p.metrics);
    FieldPartsZero(steps, m, p);
    AttributePartsZero(steps, m);
    MetricPartsZero(steps, m);
    RepresentativeFields(steps, m);
    StepScoreInUnit(m, p);
    AllPartsInUnit(m, p);
    TotalBounds(Parts(m, p));
    ConcatParts(fields, attributes, metrics);
    if Representative(steps, m) {
      ZeroPartsHaveNoReason(Parts(m, p));
    }
  }

  lemma {:induction false} ConcatParts(a: seq<Part>, b: seq<Part>, c: seq<Part>)
    ensures NoScore(a + b + c) <==> NoScore(a) && NoScore(b) && NoScore(c)
    ensures NoFlag(a) && NoFlag(b) && NoFlag(c) ==> NoFlag(a + b + c)
  {
    var all := a + b + c;
    if NoScore(all) {
      forall i | 0 <= i < |a| ensures a[i].score == 0.0 { assert all[i] == a[i]; }
      forall i | 0 <= i < |b| ensures b[i].score == 0.0 { assert all[|a| + i] == b[i]; }
      forall i | 0 <= i < |c| ensures c[i].score == 0.0 { assert all[|a| + |b| + i] == c[i]; }
    }
  }

  /**
   * Majority robustness: if each step of the run is the majority step of its position and represents it, the run
   * scores 0 with reason "within_profile" everywhere, whatever the minority contains, and is not suspicious.
   */
  lemma {:induction false} MajorityRunScoresZero(run: Run, references: seq<Run>, config: Config, verified: bool)
    requires var refs := Normalize(references);
             && |refs| >= config.minSuccesses && |run| == Width(refs)
             && forall i :: 0 <= i < |run| ==> Majority(Column(refs, i), run[i]) && Representative(Column(refs, i), run[i])
    ensures var v := Judge(run, references, config, verified);
            && v.score == Some(0.0) && !v.suspicious
            && forall i :: 0 <= i < |v.rows| ==> v.rows[i].score == 0.0 && v.rows[i].reason == "within_profile"
  {
    var refs := Normalize(references);
    var p := BuildProfile(refs);
    var rows := Rows(run, p);
    RoundInUnit(0.0);
    forall i | 0 <= i < |rows| ensures rows[i].score == 0.0 && rows[i].reason == "within_profile" {
      assert p[i] == ProfileOf(Column(refs, i));
      MajorityStepScore(Column(refs, i), run[i]);
    }
    HighestIsMax(rows);
  }
}
