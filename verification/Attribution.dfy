/**
 * Structured anomaly scoring of cascade runs against the profile of earlier successes.
 *
 * Floats are reals; `Round6` is Python's `round(x, 6)` on them.
 */
module Attribution {
  import opened Common
  import opened Text
  import opened Permutations
  import opened Modes

  datatype Step = Step(
    kind: Value, name: Value, status: Value, metrics: map<string, real>, attributes: map<string, Value>)

  type Run = seq<Step>

  /** Per-metric center and scale. */
  datatype Band = Band(center: real, scale: real)

  /** One entry of a dictionary, which Python keeps in insertion order. */
  datatype Named<+T> = Named(key: string, value: T)

  datatype ProfileStep = ProfileStep(
    kind: Option<Value>, name: Option<Value>, status: Option<Value>,
    metrics: seq<Named<Band>>, attributes: seq<Named<Option<Value>>>)

  type Profile = seq<ProfileStep>

  // ---- reading columns ----

  datatype Field = Kind | Name | StatusField | Attribute(key: string)

  function Read(field: Field): Step -> Option<Value> {
    (s: Step) =>
      match field
      case Kind => Some(s.kind)
      case Name => Some(s.name)
      case StatusField => Some(s.status)
      case Attribute(key) => if key in s.attributes then Some(s.attributes[key]) else None
  }

  function ReadMetric(key: string): Step -> Option<real> {
    (s: Step) => if key in s.metrics then Some(s.metrics[key]) else None
  }

  function StepAt(i: nat): Run -> Option<Step> {
    (r: Run) => if i < |r| then Some(r[i]) else None
  }

  /** The steps of all references that reach position `i`. */
  function Column(refs: seq<Run>, i: nat): seq<Step> {
    FilterMap(StepAt(i), refs)
  }

  // ---- names in sorted order ----

  predicate IsLeast(m: string, s: set<string>) {
    m in s && forall x :: x in s ==> Le(m, x)
  }

  lemma {:induction false} LeastExists(s: set<string>)
    requires s != {}
    ensures exists m :: IsLeast(m, s)
  {
    var x :| x in s;
    CompareEqual(x, x);
    if s == {x} {
      assert IsLeast(x, s);
    } else {
      var rest := s - {x};
      assert rest != {};
      LeastExists(rest);
      var m :| IsLeast(m, rest);
      CompareFlip(x, m);
      if Le(x, m) {
        forall y | y in s ensures Le(x, y) {
          if y != x {
            LeTransitive(x, m, y);
          }
        }
        assert IsLeast(x, s);
      } else {
        assert IsLeast(m, s);
      }
    }
  }

  lemma {:induction false} LeastIsUnique(s: set<string>)
    ensures forall m, m' :: IsLeast(m, s) && IsLeast(m', s) ==> m == m'
  {
    forall m, m' | IsLeast(m, s) && IsLeast(m', s) ensures m == m' {
      CompareFlip(m, m');
      CompareEqual(m, m');
    }
  }

  predicate Ascending(names: seq<string>) {
    forall i, j :: 0 <= i < j < |names| ==> Le(names[i], names[j]) && names[i] != names[j]
  }

  lemma {:induction false} LeastFirst(m: string, rest: seq<string>, names: set<string>)
    requires IsLeast(m, names) && Ascending(rest) && forall x :: x in rest <==> x in names - {m}
    ensures Ascending([m] + rest)
  {
    forall j | 0 <= j < |rest| ensures Le(m, rest[j]) && m != rest[j] {
      assert rest[j] in rest;
    }
  }

  /** sorted(names) */
  function SortedNames(names: set<string>): (r: seq<string>)
    ensures forall x :: x in r <==> x in names
    ensures |r| == |names| && Ascending(r)
  {
    if names == {} then [] else
      LeastExists(names);
      LeastIsUnique(names);
      var m :| IsLeast(m, names);
      var rest := SortedNames(names - {m});
      LeastFirst(m, rest, names);
      [m] + rest
  }

  // ---- profile ----

  function Abs(x: real): real {
    if x < 0.0 then -x else x
  }

  function Max(x: real, y: real): real {
    if x >= y then x else y
  }

  function Min(x: real, y: real): real {
    if x <= y then x else y
  }

  function Distance(center: real): real -> Option<real> {
    (x: real) => Some(Abs(x - center))
  }

  /** Median and median absolute deviation, the latter at least a tenth of the center and at least 1. */
  function BandOf(values: seq<real>): Band {
    var center := Median(values);
    Band(center, Max(Max(Median(FilterMap(Distance(center), values)), Abs(center) * 0.1), 1.0))
  }

  function MetricNames(steps: seq<Step>): set<string> {
    if steps == [] then {} else steps[0].metrics.Keys + MetricNames(steps[1..])
  }

  function AttributeNames(steps: seq<Step>): set<string> {
    if steps == [] then {} else steps[0].attributes.Keys + AttributeNames(steps[1..])
  }

  lemma {:induction false} MetricNamesMember(steps: seq<Step>, n: string)
    ensures n in MetricNames(steps) <==> exists i :: 0 <= i < |steps| && n in steps[i].metrics
  {
    if steps != [] {
      MetricNamesMember(steps[1..], n);
      if i :| 0 <= i < |steps| && n in steps[i].metrics {
        assert i > 0 ==> steps[1..][i - 1] == steps[i];
      }
      if j :| 0 <= j < |steps[1..]| && n in steps[1..][j].metrics {
        assert steps[j + 1] == steps[1..][j];
      }
    }
  }

  lemma {:induction false} AttributeNamesMember(steps: seq<Step>, n: string)
    ensures n in AttributeNames(steps) <==> exists i :: 0 <= i < |steps| && n in steps[i].attributes
  {
    if steps != [] {
      AttributeNamesMember(steps[1..], n);
      if i :| 0 <= i < |steps| && n in steps[i].attributes {
        assert i > 0 ==> steps[1..][i - 1] == steps[i];
      }
      if j :| 0 <= j < |steps[1..]| && n in steps[1..][j].attributes {
        assert steps[j + 1] == steps[1..][j];
      }
    }
  }

  function ModeOf(steps: seq<Step>, field: Field): Option<Value> {
    Mode(FilterMap(Read(field), steps))
  }

  function BandEntry(steps: seq<Step>, n: string): Named<Band> {
    Named(n, BandOf(FilterMap(ReadMetric(n), steps)))
  }

  /** Bands in the order of the sorted metric names. */
  function MetricTable(steps: seq<Step>): seq<Named<Band>> {
    BandEntries(steps, SortedNames(MetricNames(steps)))
  }

  function BandEntries(steps: seq<Step>, names: seq<string>): (r: seq<Named<Band>>)
    ensures |r| == |names|
  {
    seq(|names|, i requires 0 <= i < |names| => BandEntry(steps, names[i]))
  }

  function ModeEntry(steps: seq<Step>, n: string): Named<Option<Value>> {
    Named(n, ModeOf(steps, Attribute(n)))
  }

  function AttributeTable(steps: seq<Step>): seq<Named<Option<Value>>> {
    ModeEntries(steps, SortedNames(AttributeNames(steps)))
  }

  function ModeEntries(steps: seq<Step>, names: seq<string>): (r: seq<Named<Option<Value>>>)
    ensures |r| == |names|
  {
    seq(|names|, i requires 0 <= i < |names| => ModeEntry(steps, names[i]))
  }

  /** `_profile_step`; its metrics are built by the loop of `BuildMetrics`. */
  function ProfileOf(steps: seq<Step>): ProfileStep {
    ProfileStep(ModeOf(steps, Kind), ModeOf(steps, Name), ModeOf(steps, StatusField),
                MetricTable(steps), AttributeTable(steps))
  }

  predicate Reported(steps: seq<Step>, n: string) {
    FilterMap(ReadMetric(n), steps) != []
  }

  method BuildMetrics(steps: seq<Step>) returns (metrics: seq<Named<Band>>)
    ensures metrics == MetricTable(steps)
  {
    var names := SortedNames(MetricNames(steps));
    forall k | 0 <= k < |names| ensures Reported(steps, names[k]) {
      assert names[k] in names;
      MetricPresent(steps, names[k]);
    }
    metrics := BuildBands(steps, names);
  }

  /** The loop over the names; a name without values would be skipped, but none is. */
  method BuildBands(steps: seq<Step>, names: seq<string>) returns (metrics: seq<Named<Band>>)
    requires forall k :: 0 <= k < |names| ==> Reported(steps, names[k])
    ensures metrics == BandEntries(steps, names)
  {
    metrics := [];
    for k := 0 to |names|
      invariant metrics == BandEntries(steps, names[..k])
    {
      var entry := BandEntry(steps, names[k]);
      if Reported(steps, names[k]) {
        metrics := metrics + [entry];
      }
      BandEntriesSnoc(steps, names, k);
    }
    assert names[..|names|] == names;
  }

  lemma {:induction false} BandEntriesSnoc(steps: seq<Step>, names: seq<string>, k: nat)
    requires k < |names|
    ensures BandEntries(steps, names[..k + 1]) == BandEntries(steps, names[..k]) + [BandEntry(steps, names[k])]
  {
    assert names[..k + 1] == names[..k] + [names[k]];
  }

  lemma {:induction false} MetricPresent(steps: seq<Step>, n: string)
    requires n in MetricNames(steps)
    ensures Reported(steps, n)
  {
    MetricNamesMember(steps, n);
    var i :| 0 <= i < |steps| && n in steps[i].metrics;
    FilterMapMember(ReadMetric(n), steps, steps[i].metrics[n]);
    assert ReadMetric(n)(steps[i]) == Some(steps[i].metrics[n]);
  }

  function Width(refs: seq<Run>): nat {
    if refs == [] then 0 else
      var rest := Width(refs[1..]);
      if |refs[0]| > rest then |refs[0]| else rest
  }

  function BuildProfile(refs: seq<Run>): (p: Profile)
    ensures |p| == Width(refs)
  {
    seq(Width(refs), i requires 0 <= i < Width(refs) => ProfileOf(Column(refs, i)))
  }

  // ---- scoring one step ----

  /** One component of a step's score and the name it is reported under. */
  datatype Part = Part(score: real, flagged: bool, tag: string)

  function MismatchPart(actual: Option<Value>, expected: Option<Value>, tag: string): Part {
    Part(if actual != expected then 1.0 else 0.0, actual != expected, tag)
  }

  function MetricPart(actual: Option<real>, expected: Band, tag: string): Part {
    if actual.None? then Part(1.0, true, tag) else
      var deviation := Min(Abs(actual.value - expected.center) / Max(expected.scale, 1.0) / 5.0, 1.0);
      Part(deviation, deviation >= 0.5, tag)
  }

  function FieldParts(step: Step, p: ProfileStep): seq<Part> {
    [MismatchPart(Some(step.kind), p.kind, "kind"), MismatchPart(Some(step.name), p.name, "name"),
     MismatchPart(Some(step.status), p.status, "status")]
  }

  function AttributePart(step: Step, e: Named<Option<Value>>): Part {
    MismatchPart(Read(Attribute(e.key))(step), e.value, e.key)
  }

  function MetricPartOf(step: Step, e: Named<Band>): Part {
    MetricPart(ReadMetric(e.key)(step), e.value, e.key)
  }

  function AttributeParts(step: Step, table: seq<Named<Option<Value>>>): seq<Part> {
    seq(|table|, i requires 0 <= i < |table| => AttributePart(step, table[i]))
  }

  function MetricParts(step: Step, table: seq<Named<Band>>): seq<Part> {
    seq(|table|, i requires 0 <= i < |table| => MetricPartOf(step, table[i]))
  }

  function Parts(step: Step, p: ProfileStep): seq<Part> {
    FieldParts(step, p) + AttributeParts(step, p.attributes) + MetricParts(step, p.metrics)
  }

  function Total(parts: seq<Part>): real {
    if parts == [] then 0.0 else Total(parts[..|parts| - 1]) + parts[|parts| - 1].score
  }

  function Labels(parts: seq<Part>): seq<string> {
    if parts == [] then [] else
      var last := parts[|parts| - 1];
      Labels(parts[..|parts| - 1]) + if last.flagged then [last.tag] else []
  }

  function Reason(labels: seq<string>): string {
    if Join(",", labels) == "" then "within_profile" else Join(",", labels)
  }

  /** Average component and reason of one step. */
  function StepScore(step: Step, p: ProfileStep): (real, string) {
    var parts := Parts(step, p);
    (Total(parts) / (|parts| as real), Reason(Labels(parts)))
  }

  method ScoreAttributes(step: Step, table: seq<Named<Option<Value>>>) returns (parts: seq<Part>)
    ensures parts == AttributeParts(step, table)
  {
    parts := [];
    for k := 0 to |table|
      invariant parts == AttributeParts(step, table[..k])
    {
      parts := parts + [AttributePart(step, table[k])];
    }
    assert table[..|table|] == table;
  }

  method ScoreMetrics(step: Step, table: seq<Named<Band>>) returns (parts: seq<Part>)
    ensures parts == MetricParts(step, table)
  {
    parts := [];
    for k := 0 to |table|
      invariant parts == MetricParts(step, table[..k])
    {
      parts := parts + [MetricPartOf(step, table[k])];
    }
    assert table[..|table|] == table;
  }

  method SumParts(parts: seq<Part>) returns (sum: real, tags: seq<string>)
    ensures sum == Total(parts) && tags == Labels(parts)
  {
    sum, tags := 0.0, [];
    for k := 0 to |parts|
      invariant sum == Total(parts[..k]) && tags == Labels(parts[..k])
    {
      assert parts[..k + 1][..k] == parts[..k];
      sum := sum + parts[k].score;
      if parts[k].flagged {
        tags := tags + [parts[k].tag];
      }
    }
    assert parts[..|parts|] == parts;
  }

  /** `_score_step` */
  method ScoreStep(step: Step, p: ProfileStep) returns (score: real, reason: string)
    ensures (score, reason) == StepScore(step, p)
  {
    var attributes := ScoreAttributes(step, p.attributes);
    var metrics := ScoreMetrics(step, p.metrics);
    var parts := FieldParts(step, p) + attributes + metrics;
    var sum, tags := SumParts(parts);
    return sum / (|parts| as real), Reason(tags);
  }

  // ---- scoring a run ----

  function Round6(x: real): real {
    RoundHalfEven(x * 1000000.0) as real / 1000000.0
  }

  datatype Row = Row(position: nat, step: Option<Step>, score: real, reason: string)

  function RowAt(run: Run, p: Profile, i: nat): Row
    requires i < |run| || i < |p|
  {
    if i >= |run| then Row(i, None, Round6(1.0), "missing_step")
    else if i >= |p| then Row(i, Some(run[i]), Round6(1.0), "unexpected_step")
    else Row(i, Some(run[i]), Round6(StepScore(run[i], p[i]).0), StepScore(run[i], p[i]).1)
  }

  function Longer(n: nat, m: nat): nat {
    if n >= m then n else m
  }

  function Rows(run: Run, p: Profile): (r: seq<Row>)
    ensures |r| == Longer(|run|, |p|)
  {
    seq(Longer(|run|, |p|), i requires 0 <= i < Longer(|run|, |p|) => RowAt(run, p, i))
  }

  /** max(..., default=0.0) */
  function Highest(rows: seq<Row>): real {
    if rows == [] then 0.0
    else if |rows| == 1 then rows[0].score
    else Max(Highest(rows[..|rows| - 1]), rows[|rows| - 1].score)
  }

  function Overall(run: Run, p: Profile): real {
    Highest(Rows(run, p))
  }

  method AppendRow(run: Run, p: Profile, rows: seq<Row>) returns (rows': seq<Row>)
    requires |rows| < Longer(|run|, |p|) && rows == Rows(run, p)[..|rows|]
    ensures rows' == Rows(run, p)[..|rows| + 1]
  {
    var i := |rows|;
    var row;
    if i >= |run| {
      row := Row(i, None, Round6(1.0), "missing_step");
    } else if i >= |p| {
      row := Row(i, Some(run[i]), Round6(1.0), "unexpected_step");
    } else {
      var score, reason := ScoreStep(run[i], p[i]);
      row := Row(i, Some(run[i]), Round6(score), reason);
    }
    assert row == RowAt(run, p, i);
    rows' := rows + [row];
  }

  /** `_score_representation` */
  method ScoreRepresentation(run: Run, p: Profile) returns (overall: real, rows: seq<Row>)
    ensures rows == Rows(run, p) && overall == Overall(run, p)
  {
    rows := [];
    for i := 0 to Longer(|run|, |p|)
      invariant |rows| == i && rows == Rows(run, p)[..i]
    {
      rows := AppendRow(run, p, rows);
    }
    overall := Highest(rows);
  }

  // ---- threshold and verdict ----

  function Ceil(x: real): int {
    -((-x).Floor)
  }

  function Clamp(i: int, n: nat): nat
    requires n > 0
  {
    if i < 0 then 0 else if i > n - 1 then n - 1 else i
  }

  function QuantileAt(n: nat, probability: real): nat
    requires n > 0
  {
    Clamp(Ceil(probability * (n as real)) - 1, n)
  }

  function Quantile(values: seq<real>, probability: real): real {
    if values == [] then 0.0 else values[QuantileAt(|values|, probability)]
  }

  const THRESHOLD_FLOOR := 0.35
  const MAX_STEPS: nat := 64

  function ScoreAgainst(p: Profile): Run -> Option<real> {
    (r: Run) => Some(Overall(r, p))
  }

  /** The scores of the references under the profile built from them. */
  function Calibration(refs: seq<Run>): seq<real> {
    FilterMap(ScoreAgainst(BuildProfile(refs)), refs)
  }

  function Threshold(refs: seq<Run>, alpha: real): real {
    Max(THRESHOLD_FLOOR, Quantile(Sort(Calibration(refs)), 1.0 - alpha))
  }

  function Truncate(r: Run): Option<Run> {
    if r == [] then None else Some(if |r| > MAX_STEPS then r[..MAX_STEPS] else r)
  }

  /** Empty references are dropped, long ones cut to 64 steps. */
  function Normalize(refs: seq<Run>): seq<Run> {
    FilterMap(Truncate, refs)
  }

  datatype Config = Config(minSuccesses: nat, alpha: real)

  datatype Verdict = Verdict(
    state: string, score: Option<real>, threshold: Option<real>, rows: seq<Row>, suspected: Option<Row>, suspicious: bool)

  /** max(rows, key=score): the first row with the highest score. */
  function Suspected(rows: seq<Row>): Option<Row> {
    if rows == [] then None else
      var before := Suspected(rows[..|rows| - 1]);
      var last := rows[|rows| - 1];
      if before.Some? && before.value.score >= last.score then before else Some(last)
  }

  function StateOf(verified: bool, enough: bool, suspicious: bool): string {
    if suspicious then "suspicious"
    else if !verified then (if enough then "failed" else "failed_unscored")
    else (if enough then "normal" else "warming_up")
  }

  /** `_score_attribution` */
  function Judge(run: Run, references: seq<Run>, config: Config, verified: bool): Verdict {
    var refs := Normalize(references);
    if |refs| < config.minSuccesses then
      Verdict(StateOf(verified, false, false), None, None, [], None, false)
    else
      var p := BuildProfile(refs);
      var score, threshold := Overall(run, p), Threshold(refs, config.alpha);
      Verdict(StateOf(verified, true, score > threshold), Some(score), Some(threshold),
              Rows(run, p), Suspected(Rows(run, p)), score > threshold)
  }
}
