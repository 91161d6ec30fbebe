/** What the fleet ranking promises: the best candidates, in an order the input order cannot change. */
module FleetRanking {
  import opened Common
  import opened Text
  import opened Permutations
  import opened Fleet

  // ---- the ranking order ----

  lemma {:induction false} PrecedesTotal(c: Candidate, d: Candidate)
    ensures Precedes(c, d) || Precedes(d, c)
    ensures Precedes(c, d) && Precedes(d, c) ==> Tied(c, d)
  {
    CompareFlip(c.key, d.key);
    CompareEqual(c.key, d.key);
  }

  lemma {:induction false} PrecedesTransitive(a: Candidate, b: Candidate, c: Candidate)
    requires Precedes(a, b) && Precedes(b, c)
    ensures Precedes(a, c)
  {
    if a.score == b.score == c.score {
      LeTransitive(a.key, b.key, c.key);
    }
  }

  predicate Tied(c: Candidate, d: Candidate) {
    c.score == d.score && c.key == d.key
  }

  predicate InOrder(s: seq<Candidate>) {
    forall i, j :: 0 <= i < j < |s| ==> Precedes(s[i], s[j])
  }

  /** The subsequence tied with `c`. */
  function TiedWith(c: Candidate, s: seq<Candidate>): seq<Candidate> {
    if s == [] then [] else (if Tied(c, s[0]) then [s[0]] else []) + TiedWith(c, s[1..])
  }

  lemma {:induction false} PlaceMultiset(c: Candidate, s: seq<Candidate>)
    ensures multiset(Place(c, s)) == multiset{c} + multiset(s)
  {
    if s != [] && !Precedes(c, s[0]) {
      PlaceMultiset(c, s[1..]);
      assert s == [s[0]] + s[1..];
    }
  }

  lemma {:induction false} PlaceInOrder(c: Candidate, s: seq<Candidate>)
    requires InOrder(s)
    ensures InOrder(Place(c, s))
  {
    if s == [] {
    } else if Precedes(c, s[0]) {
      forall j | 0 <= j < |s| ensures Precedes(c, s[j]) {
        if j > 0 {
          PrecedesTransitive(c, s[0], s[j]);
        }
      }
    } else {
      var t := Place(c, s[1..]);
      PlaceInOrder(c, s[1..]);
      PlaceMultiset(c, s[1..]);
      PrecedesTotal(c, s[0]);
      forall k | 0 <= k < |t| ensures Precedes(s[0], t[k]) {
        assert t[k] in multiset(t);
        assert t[k] == c || t[k] in s[1..];
      }
    }
  }

  lemma {:induction false} PlaceStable(c: Candidate, s: seq<Candidate>, d: Candidate)
    requires InOrder(s)
    ensures TiedWith(d, Place(c, s)) == TiedWith(d, [c] + s)
  {
    assert ([c] + s)[1..] == s;
    if s != [] && !Precedes(c, s[0]) {
      PlaceStable(c, s[1..], d);
      assert ([c] + s[1..])[1..] == s[1..];
      PrecedesTotal(c, c);
      assert !(Tied(d, c) && Tied(d, s[0]));
    }
  }

  /** The ranking rearranges the candidates into (-score, key) order and keeps ties as they came. */
  lemma {:induction false} RankedIsStableSort(s: seq<Candidate>, d: Candidate)
    ensures Permutes(Ranked(s), s) && InOrder(Ranked(s)) && TiedWith(d, Ranked(s)) == TiedWith(d, s)
  {
    if s != [] {
      var rest := Ranked(s[1..]);
      RankedIsStableSort(s[1..], d);
      PlaceMultiset(s[0], rest);
      PlaceInOrder(s[0], rest);
      PlaceStable(s[0], rest, d);
      assert s == [s[0]] + s[1..];
      assert ([s[0]] + rest)[1..] == rest;
    }
  }

  /** What is returned and what is omitted split the candidates, and nothing omitted ranks ahead. */
  lemma {:induction false} TopIsBest(s: seq<Candidate>, limit: nat) returns (omitted: seq<Candidate>)
    ensures Permutes(Top(s, limit) + omitted, s)
    ensures |Top(s, limit)| == if limit < |s| then limit else |s|
    ensures forall c, d :: c in Top(s, limit) && d in omitted ==>
              c.score > d.score || (c.score == d.score && Compare(c.key, d.key) <= 0)
    ensures forall i, j :: 0 <= i < j < |Top(s, limit)| ==>
              var c, d := Top(s, limit)[i], Top(s, limit)[j];
              c.score > d.score || (c.score == d.score && Compare(c.key, d.key) <= 0)
  {
    var ranked := Ranked(s);
    if s != [] {
      RankedIsStableSort(s, s[0]);
    }
    SameMembers(ranked, s);
    omitted := ranked[|Top(s, limit)|..];
    assert ranked == Top(s, limit) + omitted;
  }

  lemma {:induction false} SmallerLimitIsPrefix(s: seq<Candidate>, small: nat, large: nat)
    requires small <= large
    ensures Top(s, small) <= Top(s, large)
    ensures Top(s, small) == Top(Top(s, large), small)
  {
    var t := Top(s, large);
    RankedInOrder(s);
    assert InOrder(t);
    RankedOfOrdered(t);
  }

  lemma {:induction false} RankedInOrder(s: seq<Candidate>)
    ensures Permutes(Ranked(s), s) && InOrder(Ranked(s))
  {
    if s != [] {
      RankedIsStableSort(s, s[0]);
    }
  }

  lemma {:induction false} RankedOfOrdered(s: seq<Candidate>)
    requires InOrder(s)
    ensures Ranked(s) == s
  {
    if s != [] {
      RankedOfOrdered(s[1..]);
      assert |s| > 1 ==> Precedes(s[0], s[1..][0]);
      assert s == [s[0]] + s[1..];
    }
  }

  // ---- input order ----

  ghost predicate OrderFree(s: seq<Candidate>) {
    forall t, limit: nat :: Permutes(s, t) ==> Top(t, limit) == Top(s, limit)
  }

  predicate TiesAreEqual(s: seq<Candidate>) {
    forall c, d :: c in s && d in s && Tied(c, d) ==> c == d
  }

  lemma {:induction false} FirstPrecedes(s: seq<Candidate>, c: Candidate)
    requires InOrder(s) && c in s
    ensures Precedes(s[0], c)
  {
    PrecedesTotal(c, c);
  }

  /** Two ordered arrangements start with tied candidates. */
  lemma {:induction false} HeadsTie(a: seq<Candidate>, b: seq<Candidate>)
    requires InOrder(a) && InOrder(b) && Permutes(a, b) && a != []
    ensures b != [] && Tied(a[0], b[0]) && b[0] in a
  {
    SameMembers(a, b);
    assert a[0] in b && b[0] in a;
    FirstPrecedes(a, b[0]);
    FirstPrecedes(b, a[0]);
    PrecedesTotal(a[0], b[0]);
  }

  lemma {:induction false} TailsPermute(a: seq<Candidate>, b: seq<Candidate>)
    requires Permutes(a, b) && a != [] && b != [] && a[0] == b[0]
    ensures Permutes(a[1..], b[1..])
  {
    DropBoth(a, b, 0);
    assert Drop(b, 0) == b[1..];
  }

  lemma {:induction false} TailInOrder(s: seq<Candidate>)
    requires InOrder(s) && s != []
    ensures InOrder(s[1..])
  {
  }

  lemma {:induction false} OrderedIsUnique(a: seq<Candidate>, b: seq<Candidate>)
    requires InOrder(a) && InOrder(b) && Permutes(a, b) && TiesAreEqual(a)
    ensures a == b
    decreases |a|
  {
    if a == [] {
      SameMembers(a, b);
    } else {
      HeadsTie(a, b);
      TailsPermute(a, b);
      TailInOrder(a);
      TailInOrder(b);
      TailTiesAreEqual(a);
      OrderedIsUnique(a[1..], b[1..]);
      assert a == [a[0]] + a[1..] && b == [b[0]] + b[1..];
    }
  }

  lemma {:induction false} TailTiesAreEqual(s: seq<Candidate>)
    requires TiesAreEqual(s) && s != []
    ensures TiesAreEqual(s[1..])
  {
    assert forall c :: c in s[1..] ==> c in s;
  }

  /** Every result is independent of the candidates' order exactly when tied candidates are equal. */
  lemma {:induction false} RankingOrderCondition(s: seq<Candidate>)
    ensures OrderFree(s) <==> TiesAreEqual(s)
  {
    if TiesAreEqual(s) {
      forall t, limit: nat | Permutes(s, t) ensures Top(t, limit) == Top(s, limit) {
        SameRanking(s, t);
      }
    } else {
      var c, d :| c in s && d in s && Tied(c, d) && c != d;
      var a := LeadTied(s, c);
      var b := LeadTied(s, d);
      RankedIsStableSort(a, c);
      RankedIsStableSort(b, c);
      assert TiedWith(c, a)[0] == c && TiedWith(c, b)[0] == d;
      var n := |s|;
      SameMembers(a, s);
      SameMembers(b, s);
      SameMembers(Ranked(a), a);
      SameMembers(Ranked(b), b);
      assert Top(a, n) != Top(b, n);
    }
  }

  lemma {:induction false} SameRanking(s: seq<Candidate>, t: seq<Candidate>)
    requires Permutes(s, t) && TiesAreEqual(s)
    ensures Ranked(t) == Ranked(s)
  {
    RankedInOrder(s);
    RankedInOrder(t);
    SameMembers(Ranked(s), s);
    OrderedIsUnique(Ranked(s), Ranked(t));
  }

  /** An arrangement in which `c` comes first. */
  lemma {:induction false} LeadTied(s: seq<Candidate>, c: Candidate) returns (t: seq<Candidate>)
    requires c in s
    ensures Permutes(s, t) && t != [] && t[0] == c
  {
    var i :| 0 <= i < |s| && s[i] == c;
    t := [c] + Drop(s, i);
    DropMultiset(s, i);
  }

  // ---- ties decide everything the order leaves open ----

  lemma {:induction false} TiedAppend(x: Candidate, a: seq<Candidate>, b: seq<Candidate>)
    ensures TiedWith(x, a + b) == TiedWith(x, a) + TiedWith(x, b)
  {
    if a == [] {
      assert a + b == b;
    } else {
      assert (a + b)[1..] == a[1..] + b;
      TiedAppend(x, a[1..], b);
    }
  }

  lemma {:induction false} TiedHead(x: Candidate, s: seq<Candidate>)
    requires s != [] && Tied(x, s[0])
    ensures TiedWith(x, s) == [s[0]] + TiedWith(x, s[1..])
  {
  }

  ghost predicate SameTies(a: seq<Candidate>, b: seq<Candidate>) {
    forall x :: TiedWith(x, a) == TiedWith(x, b)
  }

  lemma {:induction false} SameHead(a: seq<Candidate>, b: seq<Candidate>)
    requires InOrder(a) && InOrder(b) && Permutes(a, b) && a != [] && TiedWith(a[0], a) == TiedWith(a[0], b)
    ensures b != [] && a[0] == b[0]
  {
    HeadsTie(a, b);
    TiedHead(a[0], a);
    TiedHead(a[0], b);
    assert TiedWith(a[0], a)[0] == a[0] && TiedWith(a[0], b)[0] == b[0];
  }

  lemma {:induction false} TailsTie(a: seq<Candidate>, b: seq<Candidate>)
    requires a != [] && b != [] && a[0] == b[0] && SameTies(a, b)
    ensures SameTies(a[1..], b[1..])
  {
    forall x ensures TiedWith(x, a[1..]) == TiedWith(x, b[1..]) {
      TailTies(x, a, b);
    }
  }

  /** Two ordered arrangements with the same tied runs are equal. */
  lemma {:induction false} OrderedByTies(a: seq<Candidate>, b: seq<Candidate>)
    requires InOrder(a) && InOrder(b) && Permutes(a, b) && SameTies(a, b)
    ensures a == b
    decreases |a|
  {
    if a == [] {
      SameMembers(a, b);
    } else {
      SameHead(a, b);
      TailsTie(a, b);
      TailsPermute(a, b);
      TailInOrder(a);
      TailInOrder(b);
      OrderedByTies(a[1..], b[1..]);
      assert a == [a[0]] + a[1..] && b == [b[0]] + b[1..];
    }
  }

  lemma {:induction false} TailTies(x: Candidate, a: seq<Candidate>, b: seq<Candidate>)
    requires a != [] && b != [] && a[0] == b[0] && TiedWith(x, a) == TiedWith(x, b)
    ensures TiedWith(x, a[1..]) == TiedWith(x, b[1..])
  {
    if Tied(x, a[0]) {
      assert TiedWith(x, a[1..]) == TiedWith(x, a)[1..];
      assert TiedWith(x, b[1..]) == TiedWith(x, b)[1..];
    } else {
      assert TiedWith(x, a[1..]) == TiedWith(x, a);
      assert TiedWith(x, b[1..]) == TiedWith(x, b);
    }
  }

  /** Rearranged candidates rank alike if and only if each tied run kept its order. */
  lemma {:induction false} RankedByTies(s: seq<Candidate>, t: seq<Candidate>)
    requires Permutes(s, t)
    ensures Ranked(s) == Ranked(t) <==> SameTies(s, t)
  {
    forall x ensures TiedWith(x, Ranked(s)) == TiedWith(x, s) && TiedWith(x, Ranked(t)) == TiedWith(x, t) {
      RankedIsStableSort(s, x);
      RankedIsStableSort(t, x);
    }
    if SameTies(s, t) {
      RankedInOrder(s);
      RankedInOrder(t);
      OrderedByTies(Ranked(s), Ranked(t));
    } else {
      var x :| TiedWith(x, s) != TiedWith(x, t);
      assert TiedWith(x, Ranked(s)) != TiedWith(x, Ranked(t));
    }
  }
}
