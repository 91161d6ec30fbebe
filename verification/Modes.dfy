/** The tie-broken mode: the most frequent rendering, the smallest string among ties, its first original. */
module Modes {
  import opened Common
  import opened Text
  import opened Permutations

  /** The attribute values steps carry; `Show` is Python's `str`. */
  datatype Value = Words(text: string) | Flag(on: bool)

  function Show(v: Value): string {
    match v
    case Words(text) => text
    case Flag(on) => if on then "True" else "False"
  }

  function Shown(values: seq<Value>): (r: seq<string>)
    ensures |r| == |values| && forall i :: 0 <= i < |r| ==> r[i] == Show(values[i])
  {
    seq(|values|, i requires 0 <= i < |values| => Show(values[i]))
  }

  /** `(-count, text)` in Python's tuple order. */
  predicate Ahead(a: string, b: string, counts: multiset<string>) {
    counts[a] > counts[b] || (counts[a] == counts[b] && Le(a, b))
  }

  /** min(texts, key=(-count, text)) */
  function Foremost(texts: seq<string>, counts: multiset<string>): string
    requires texts != []
  {
    if |texts| == 1 then texts[0] else
      var rest := Foremost(texts[1..], counts);
      if Ahead(texts[0], rest, counts) then texts[0] else rest
  }

  function FirstShowing(values: seq<Value>, text: string): Option<Value> {
    if values == [] then None
    else if Show(values[0]) == text then Some(values[0])
    else FirstShowing(values[1..], text)
  }

  function Selected(values: seq<Value>): string
    requires values != []
  {
    Foremost(Shown(values), multiset(Shown(values)))
  }

  /** `_mode` on the values that are present. */
  function Mode(values: seq<Value>): Option<Value> {
    if values == [] then None else FirstShowing(values, Selected(values))
  }

  // ---- what the mode means ----

  lemma {:induction false} AheadTransitive(a: string, b: string, c: string, counts: multiset<string>)
    requires Ahead(a, b, counts) && Ahead(b, c, counts)
    ensures Ahead(a, c, counts)
  {
    if counts[a] == counts[b] == counts[c] {
      LeTransitive(a, b, c);
    }
  }

  lemma {:induction false} AheadTotal(a: string, b: string, counts: multiset<string>)
    ensures Ahead(a, b, counts) || Ahead(b, a, counts)
    ensures Ahead(a, a, counts)
    ensures Ahead(a, b, counts) && Ahead(b, a, counts) ==> a == b
  {
    CompareFlip(a, b);
    CompareEqual(a, b);
    CompareEqual(a, a);
  }

  predicate IsForemost(w: string, texts: seq<string>, counts: multiset<string>) {
    w in texts && forall t :: t in texts ==> Ahead(w, t, counts)
  }

  lemma {:induction false} ForemostIsForemost(texts: seq<string>, counts: multiset<string>)
    requires texts != []
    ensures IsForemost(Foremost(texts, counts), texts, counts)
  {
    var w := Foremost(texts, counts);
    if |texts| == 1 {
      AheadTotal(w, w, counts);
    } else {
      ForemostIsForemost(texts[1..], counts);
      var rest := Foremost(texts[1..], counts);
      AheadTotal(texts[0], rest, counts);
      forall t | t in texts ensures Ahead(w, t, counts) {
        if t == texts[0] {
          AheadTotal(t, t, counts);
        } else {
          assert t in texts[1..];
          if w == texts[0] {
            AheadTransitive(w, rest, t, counts);
          }
        }
      }
    }
  }

  lemma {:induction false} ForemostIsUnique(v: string, w: string, texts: seq<string>, counts: multiset<string>)
    requires IsForemost(v, texts, counts) && IsForemost(w, texts, counts)
    ensures v == w
  {
    AheadTotal(v, w, counts);
  }

  lemma {:induction false} FirstShowingFinds(values: seq<Value>, text: string)
    ensures var r := FirstShowing(values, text);
            if r.Some? then r.value in values && Show(r.value) == text
            else forall v :: v in values ==> Show(v) != text
  {
    if values != [] && Show(values[0]) != text {
      FirstShowingFinds(values[1..], text);
    }
  }

  /** The mode is one of the values, and its rendering comes before every other by count, then by text. */
  lemma {:induction false} ModeIsMostFrequent(values: seq<Value>)
    requires values != []
    ensures Mode(values).Some? && Mode(values).value in values
    ensures Show(Mode(values).value) == Selected(values)
    ensures IsForemost(Selected(values), Shown(values), multiset(Shown(values)))
  {
    ForemostIsForemost(Shown(values), multiset(Shown(values)));
    FirstShowingFinds(values, Selected(values));
    var i :| 0 <= i < |values| && Shown(values)[i] == Selected(values);
    assert values[i] in values;
  }

  // ---- majority ----

  lemma {:induction false} ShownAppend(a: seq<Value>, b: seq<Value>)
    ensures Shown(a + b) == Shown(a) + Shown(b)
  {
  }

  lemma {:induction false} ShownCount(values: seq<Value>, v: Value)
    ensures multiset(Shown(values))[Show(v)] >= multiset(values)[v]
  {
    if values != [] {
      ShownCount(values[1..], v);
      assert values == [values[0]] + values[1..];
      ShownAppend([values[0]], values[1..]);
    }
  }

  lemma {:induction false} TwoCounts(m: multiset<string>, a: string, b: string)
    requires a != b
    ensures m[a] + m[b] <= |m|
  {
    var both := multiset{}[a := m[a]][b := m[b]];
    assert m == both + (m - both);
  }

  /** Values that render like `v` are `v`. */
  predicate Unambiguous(values: seq<Value>, v: Value) {
    forall w :: w in values && Show(w) == Show(v) ==> w == v
  }

  /** A strict majority decides the rendering; the original is whichever value shows it first. */
  lemma {:induction false} MajorityIsMode(values: seq<Value>, v: Value)
    requires 2 * multiset(values)[v] > |values|
    ensures Mode(values) == FirstShowing(values, Show(v))
    ensures Unambiguous(values, v) ==> Mode(values) == Some(v)
  {
    var counts := multiset(Shown(values));
    assert v in multiset(values);
    ModeIsMostFrequent(values);
    ShownCount(values, v);
    var i :| 0 <= i < |values| && values[i] == v;
    assert Shown(values)[i] == Show(v);
    assert Ahead(Selected(values), Show(v), counts) && |counts| == |values|;
    if Selected(values) != Show(v) {
      TwoCounts(counts, Selected(values), Show(v));
    }
  }

  /** No value's text occurs more often than the mode's, and none that occurs as often comes before it. */
  lemma {:induction false} ModeBeats(values: seq<Value>, w: Value)
    requires w in values
    ensures Mode(values).Some? && Mode(values).value in values
    ensures var counts, best, text := multiset(Shown(values)), Show(Mode(values).value), Show(w);
            counts[best] > counts[text] || (counts[best] == counts[text] && Compare(best, text) <= 0)
  {
    ModeIsMostFrequent(values);
    var i :| 0 <= i < |values| && values[i] == w;
    assert Shown(values)[i] == Show(w);
    assert Show(w) in Shown(values);
  }

  /** What Python prints for a value. */
  lemma {:induction false} Prints(text: string)
    ensures Show(Words(text)) == text && Show(Flag(true)) == "True" && Show(Flag(false)) == "False"
  {
  }

  // ---- order independence, and exactly when it holds ----

  lemma {:induction false} ShownDrop(b: seq<Value>, i: nat)
    requires i < |b|
    ensures multiset(Shown(b)) == multiset{Show(b[i])} + multiset(Shown(Drop(b, i)))
  {
    DropMultiset(Shown(b), i);
    assert Drop(Shown(b), i) == Shown(Drop(b, i));
  }

  lemma {:induction false} ShownPermutes(a: seq<Value>, b: seq<Value>)
    requires Permutes(a, b)
    ensures Permutes(Shown(a), Shown(b))
    decreases |a|
  {
    SameMembers(a, b);
    if a != [] {
      assert a[0] in b;
      var i :| 0 <= i < |b| && b[i] == a[0];
      DropBoth(a, b, i);
      ShownPermutes(a[1..], Drop(b, i));
      ShownDrop(a, 0);
      assert Drop(a, 0) == a[1..];
      ShownDrop(b, i);
    }
  }

  lemma {:induction false} SelectedPermutes(a: seq<Value>, b: seq<Value>)
    requires a != [] && Permutes(a, b)
    ensures b != [] && Selected(a) == Selected(b)
  {
    SameMembers(a, b);
    ShownPermutes(a, b);
    SameMembers(Shown(a), Shown(b));
    ForemostIsForemost(Shown(a), multiset(Shown(a)));
    ForemostIsForemost(Shown(b), multiset(Shown(b)));
    ForemostIsUnique(Selected(a), Selected(b), Shown(a), multiset(Shown(a)));
  }

  ghost predicate OrderFree(values: seq<Value>) {
    forall b :: Permutes(values, b) ==> Mode(b) == Mode(values)
  }

  /** The mode ignores the order of the values exactly when one value alone has the selected rendering. */
  lemma {:induction false} ModeOrderCondition(values: seq<Value>)
    requires values != []
    ensures OrderFree(values) <==> forall v, w :: v in values && w in values && Show(v) == Show(w) == Selected(values) ==> v == w
  {
    ModeIsMostFrequent(values);
    if forall v, w :: v in values && w in values && Show(v) == Show(w) == Selected(values) ==> v == w {
      forall b | Permutes(values, b) ensures Mode(b) == Mode(values) {
        SameMembers(values, b);
        SelectedPermutes(values, b);
        ModeIsMostFrequent(b);
      }
    } else {
      var v, w :| v in values && w in values && Show(v) == Show(w) == Selected(values) && v != w;
      AnyOriginalCanLead(values, v);
      AnyOriginalCanLead(values, w);
    }
  }

  lemma {:induction false} AnyOriginalCanLead(values: seq<Value>, v: Value)
    requires v in values && Show(v) == Selected(values)
    ensures exists b :: Permutes(values, b) && Mode(b) == Some(v)
  {
    var i :| 0 <= i < |values| && values[i] == v;
    var b := [v] + Drop(values, i);
    DropMultiset(values, i);
    SelectedPermutes(values, b);
    assert Permutes(values, b) && Mode(b) == Some(v);
  }
}
