/** Exactly when the order of the references matters to the profile; settled references give one verdict. */
module AttributionOrder {
  import opened Common
  import opened Permutations
  import opened Modes
  import opened Attribution
  import opened AttributionProperties

  /** Of the values that print like the most frequent text, no two differ. */
  predicate Decided(values: seq<Value>) {
    values == [] || forall v, w :: v in values && w in values && Show(v) == Show(w) == Selected(values) ==> v == w
  }

  /** Every field of every position is decided. */
  ghost predicate Settled(refs: seq<Run>) {
    forall i: nat, field: Field :: Decided(FilterMap(Read(field), Column(refs, i)))
  }

  lemma {:induction false} DecidedIsOrderFree(values: seq<Value>)
    ensures Decided(values) <==> OrderFree(values)
  {
    if values == [] {
      forall b | Permutes(values, b) ensures Mode(b) == Mode(values) {
        SameMembers(values, b);
      }
    } else {
      ModeOrderCondition(values);
    }
  }

  lemma {:induction false} ModePermutes(a: seq<Step>, b: seq<Step>, field: Field)
    requires Permutes(a, b) && Decided(FilterMap(Read(field), a))
    ensures ModeOf(a, field) == ModeOf(b, field)
  {
    DecidedIsOrderFree(FilterMap(Read(field), a));
    FilterMapPermutes(Read(field), a, b);
  }

  lemma {:induction false} BandPermutes(a: seq<real>, b: seq<real>)
    requires Permutes(a, b)
    ensures BandOf(a) == BandOf(b)
  {
    MedianPermutes(a, b);
    FilterMapPermutes(Distance(Median(a)), a, b);
    MedianPermutes(FilterMap(Distance(Median(a)), a), FilterMap(Distance(Median(a)), b));
  }

  lemma {:induction false} NamesPermute(a: seq<Step>, b: seq<Step>)
    requires Permutes(a, b)
    ensures MetricNames(a) == MetricNames(b) && AttributeNames(a) == AttributeNames(b)
  {
    SameMembers(a, b);
    forall n ensures n in MetricNames(a) <==> n in MetricNames(b) {
      MetricNamesMember(a, n);
      MetricNamesMember(b, n);
      assert (exists i :: 0 <= i < |a| && n in a[i].metrics) <==> exists s :: s in a && n in s.metrics;
      assert (exists i :: 0 <= i < |b| && n in b[i].metrics) <==> exists s :: s in b && n in s.metrics;
    }
    forall n ensures n in AttributeNames(a) <==> n in AttributeNames(b) {
      AttributeNamesMember(a, n);
      AttributeNamesMember(b, n);
      assert (exists i :: 0 <= i < |a| && n in a[i].attributes) <==> exists s :: s in a && n in s.attributes;
      assert (exists i :: 0 <= i < |b| && n in b[i].attributes) <==> exists s :: s in b && n in s.attributes;
    }
  }

  lemma {:induction false} ProfileStepPermutes(a: seq<Step>, b: seq<Step>)
    requires Permutes(a, b) && forall field: Field :: Decided(FilterMap(Read(field), a))
    ensures ProfileOf(a) == ProfileOf(b)
  {
    ModePermutes(a, b, Kind);
    ModePermutes(a, b, Name);
    ModePermutes(a, b, StatusField);
    NamesPermute(a, b);
    forall n ensures BandEntry(a, n) == BandEntry(b, n) {
      FilterMapPermutes(ReadMetric(n), a, b);
      BandPermutes(FilterMap(ReadMetric(n), a), FilterMap(ReadMetric(n), b));
    }
    forall n ensures ModeEntry(a, n) == ModeEntry(b, n) {
      ModePermutes(a, b, Attribute(n));
    }
    assert MetricTable(a) == MetricTable(b);
    assert AttributeTable(a) == AttributeTable(b);
  }

  lemma {:induction false} WidthIsMax(refs: seq<Run>)
    ensures forall r :: r in refs ==> |r| <= Width(refs)
    ensures refs != [] ==> exists r :: r in refs && |r| == Width(refs)
  {
    if refs != [] {
      WidthIsMax(refs[1..]);
      assert refs[0] in refs;
    }
  }

  lemma {:induction false} ProfilePermutes(a: seq<Run>, b: seq<Run>)
    requires Permutes(a, b) && Settled(a)
    ensures BuildProfile(a) == BuildProfile(b)
  {
    SameMembers(a, b);
    WidthIsMax(a);
    WidthIsMax(b);
    assert Width(a) == Width(b);
    forall i: nat | i < Width(a) ensures BuildProfile(a)[i] == BuildProfile(b)[i] {
      FilterMapPermutes(StepAt(i), a, b);
      ProfileStepPermutes(Column(a, i), Column(b, i));
    }
  }

  lemma {:induction false} ThresholdPermutes(a: seq<Run>, b: seq<Run>, alpha: real)
    requires Permutes(a, b) && Settled(a)
    ensures Threshold(a, alpha) == Threshold(b, alpha)
  {
    ProfilePermutes(a, b);
    FilterMapPermutes(ScoreAgainst(BuildProfile(a)), a, b);
    SortPermutes(Calibration(a), Calibration(b));
  }

  /** The whole verdict is unchanged by any permutation of settled references. */
  lemma {:induction false} VerdictIgnoresOrder(run: Run, a: seq<Run>, b: seq<Run>, config: Config, verified: bool)
    requires Permutes(a, b) && Settled(Normalize(a))
    ensures Judge(run, a, config, verified) == Judge(run, b, config, verified)
  {
    FilterMapPermutes(Truncate, a, b);
    SameMembers(Normalize(a), Normalize(b));
    ProfilePermutes(Normalize(a), Normalize(b));
    ThresholdPermutes(Normalize(a), Normalize(b), config.alpha);
  }

  // ---- the converse: an undecided field can be turned either way ----

  lemma {:induction false} TableTells(a: seq<Step>, b: seq<Step>, n: string)
    requires AttributeTable(a) == AttributeTable(b)
    ensures n in AttributeNames(a) ==> n in AttributeNames(b) && ModeOf(a, Attribute(n)) == ModeOf(b, Attribute(n))
  {
    var names, others := SortedNames(AttributeNames(a)), SortedNames(AttributeNames(b));
    if n in AttributeNames(a) {
      assert n in names;
      var k :| 0 <= k < |names| && names[k] == n;
      assert AttributeTable(a)[k] == ModeEntry(a, n) && AttributeTable(b)[k] == ModeEntry(b, others[k]);
      assert others[k] in others;
    }
  }

  lemma {:induction false} NoReport(steps: seq<Step>, n: string)
    requires n !in AttributeNames(steps)
    ensures FilterMap(Read(Attribute(n)), steps) == []
  {
    var values := FilterMap(Read(Attribute(n)), steps);
    if values != [] {
      FilterMapMember(Read(Attribute(n)), steps, values[0]);
      AttributeNamesMember(steps, n);
    }
  }

  /** Equal profiles of a position have equal modes in every field. */
  lemma {:induction false} ProfileTells(a: seq<Step>, b: seq<Step>, field: Field)
    requires ProfileOf(a) == ProfileOf(b)
    ensures ModeOf(a, field) == ModeOf(b, field)
  {
    if field.Attribute? {
      TableTells(a, b, field.key);
      TableTells(b, a, field.key);
      if field.key !in AttributeNames(a) {
        NoReport(a, field.key);
        NoReport(b, field.key);
      }
    }
  }

  lemma {:induction false} LeaderIsMode(values: seq<Value>, led: seq<Value>, v: Value)
    requires values != [] && Permutes(values, led) && led != [] && led[0] == v && Show(v) == Selected(values)
    ensures Mode(led) == Some(v)
  {
    SelectedPermutes(values, led);
  }

  /** The reference that contributes `v` to a field of a position. */
  lemma {:induction false} Contributor(refs: seq<Run>, i: nat, field: Field, v: Value) returns (k: nat)
    requires v in FilterMap(Read(field), Column(refs, i))
    ensures k < |refs| && i < |refs[k]| && Read(field)(refs[k][i]) == Some(v)
  {
    var column := Column(refs, i);
    FilterMapMember(Read(field), column, v);
    var j :| 0 <= j < |column| && Read(field)(column[j]) == Some(v);
    assert column[j] in column;
    FilterMapMember(StepAt(i), refs, column[j]);
    k :| 0 <= k < |refs| && StepAt(i)(refs[k]) == Some(column[j]);
  }

  lemma {:induction false} FirstOfColumn(refs: seq<Run>, i: nat, field: Field, v: Value)
    requires refs != [] && i < |refs[0]| && Read(field)(refs[0][i]) == Some(v)
    ensures FilterMap(Read(field), Column(refs, i)) != [] && FilterMap(Read(field), Column(refs, i))[0] == v
  {
    assert StepAt(i)(refs[0]) == Some(refs[0][i]);
    assert Column(refs, i) == [refs[0][i]] + FilterMap(StepAt(i), refs[1..]);
    var column := Column(refs, i);
    assert One(Read(field), column[0]) == [v];
  }

  /** Moving a contributor of `v` to the front makes `v` the mode. */
  lemma {:induction false} LeadWith(refs: seq<Run>, i: nat, field: Field, v: Value) returns (b: seq<Run>)
    requires v in FilterMap(Read(field), Column(refs, i)) && Show(v) == Selected(FilterMap(Read(field), Column(refs, i)))
    ensures Permutes(refs, b) && ModeOf(Column(b, i), field) == Some(v)
  {
    var k := Contributor(refs, i, field, v);
    b := [refs[k]] + Drop(refs, k);
    DropMultiset(refs, k);
    FirstOfColumn(b, i, field, v);
    FilterMapPermutes(StepAt(i), refs, b);
    FilterMapPermutes(Read(field), Column(refs, i), Column(b, i));
    LeaderIsMode(FilterMap(Read(field), Column(refs, i)), FilterMap(Read(field), Column(b, i)), v);
  }

  ghost predicate ProfileOrderFree(refs: seq<Run>) {
    forall b :: Permutes(refs, b) ==> BuildProfile(b) == BuildProfile(refs)
  }

  lemma {:induction false} WithinWidth(refs: seq<Run>, i: nat, field: Field, v: Value)
    requires v in FilterMap(Read(field), Column(refs, i))
    ensures i < Width(refs)
  {
    var k := Contributor(refs, i, field, v);
    WidthIsMax(refs);
    assert refs[k] in refs;
  }

  lemma {:induction false} SameModes(refs: seq<Run>, b: seq<Run>, i: nat, field: Field)
    requires BuildProfile(b) == BuildProfile(refs) && i < Width(refs)
    ensures ModeOf(Column(b, i), field) == ModeOf(Column(refs, i), field)
  {
    assert |BuildProfile(b)| == |BuildProfile(refs)|;
    assert BuildProfile(b)[i] == BuildProfile(refs)[i];
    ProfileTells(Column(b, i), Column(refs, i), field);
  }

  lemma {:induction false} UndecidedTurns(refs: seq<Run>, i: nat, field: Field)
    ensures ProfileOrderFree(refs) ==> Decided(FilterMap(Read(field), Column(refs, i)))
  {
    var values := FilterMap(Read(field), Column(refs, i));
    if ProfileOrderFree(refs) && values != [] {
      forall v, w | v in values && w in values && Show(v) == Show(w) == Selected(values) ensures v == w {
        WithinWidth(refs, i, field, v);
        var a := LeadWith(refs, i, field, v);
        var b := LeadWith(refs, i, field, w);
        SameModes(refs, a, i, field);
        SameModes(refs, b, i, field);
      }
    }
  }

  /** The profile is the same for every order of the references exactly when every field of every position is decided. */
  lemma {:induction false} ProfileOrderCondition(refs: seq<Run>)
    ensures ProfileOrderFree(refs) <==> Settled(refs)
  {
    if Settled(refs) {
      forall b | Permutes(refs, b) ensures BuildProfile(b) == BuildProfile(refs) {
        ProfilePermutes(refs, b);
      }
    }
    if ProfileOrderFree(refs) {
      forall i: nat, field: Field ensures Decided(FilterMap(Read(field), Column(refs, i))) {
        UndecidedTurns(refs, i, field);
      }
    }
  }

  /** In particular references are settled when equal texts mean equal values. */
  lemma {:induction false} TypedIsSettled(refs: seq<Run>)
    requires forall i: nat, field: Field :: Coherent(FilterMap(Read(field), Column(refs, i)))
    ensures Settled(refs)
  {
  }
}
