/** From products to ranking: which candidates are only watched, and when the order of the products matters. */
module FleetProducts {
  import opened Common
  import opened Text
  import opened Permutations
  import opened Fleet
  import opened FleetRanking

  // ---- from items to candidates ----

  lemma {:induction false} CandidatesDrop(policy: Policy, b: seq<Item>, i: nat)
    requires i < |b|
    ensures multiset(Candidates(policy, b)) == multiset(Raised(policy, b[i])) + multiset(Candidates(policy, Drop(b, i)))
  {
    assert b == b[..i] + ([b[i]] + b[i + 1..]);
    CandidatesAppend(policy, b[..i], [b[i]] + b[i + 1..]);
    assert ([b[i]] + b[i + 1..])[1..] == b[i + 1..];
    CandidatesAppend(policy, b[..i], b[i + 1..]);
  }

  lemma {:induction false} CandidatesPermute(policy: Policy, a: seq<Item>, b: seq<Item>)
    requires Permutes(a, b)
    ensures Permutes(Candidates(policy, a), Candidates(policy, b))
    decreases |a|
  {
    SameMembers(a, b);
    if a != [] {
      assert a[0] in b;
      var i :| 0 <= i < |b| && b[i] == a[0];
      DropBoth(a, b, i);
      CandidatesPermute(policy, a[1..], Drop(b, i));
      CandidatesDrop(policy, b, i);
    }
  }

  lemma {:induction false} CandidateMember(policy: Policy, items: seq<Item>, c: Candidate)
    ensures c in Candidates(policy, items) <==> exists i :: 0 <= i < |items| && c in Raised(policy, items[i])
  {
    if items != [] {
      CandidateMember(policy, items[1..], c);
      if i :| 0 <= i < |items| && c in Raised(policy, items[i]) {
        assert i > 0 ==> items[1..][i - 1] == items[i];
      }
      if j :| 0 <= j < |items[1..]| && c in Raised(policy, items[1..][j]) {
        assert items[j + 1] == items[1..][j];
      }
    }
  }

  /** Where a raised candidate comes from: one row of the batches, or one of the item's other kinds. */
  ghost predicate FromRow(policy: Policy, item: Item, c: Candidate) {
    exists i :: 0 <= i < |Rows(item)| && RowCandidate(policy, item, Rows(item)[i]) == Some(c)
  }

  lemma {:induction false} RaisedMember(policy: Policy, item: Item, c: Candidate)
    requires c in Raised(policy, item)
    ensures FromRow(policy, item, c) || KindCandidate(policy, item, c.kind) == Some(c)
    ensures !Blank(item.sku)
  {
    var f, g := ByRow(policy, item), ByKind(policy, item);
    if c in FilterMap(f, Rows(item)) {
      FilterMapMember(f, Rows(item), c);
      var i :| 0 <= i < |Rows(item)| && f(Rows(item)[i]) == Some(c);
      assert RowCandidate(policy, item, Rows(item)[i]) == Some(c);
    } else {
      FilterMapMember(g, ITEM_KINDS, c);
      var i :| 0 <= i < |ITEM_KINDS| && g(ITEM_KINDS[i]) == Some(c);
      assert KindCandidate(policy, item, ITEM_KINDS[i]) == Some(c);
    }
  }

  // ---- monitoring only ----

  /** Kinds outside the batches that score below the review score. */
  predicate WatchedKind(item: Item, kind: Kind) {
    || kind == MissingBatchExpiry
    || (kind == LowStock && item.onHand != 0 && item.reorderPoint - item.onHand < 15)
    || (kind == SlowMover && item.onHand < -50)
  }

  /** Rows that do: only with a stock far below zero. */
  predicate WatchedRow(item: Item, row: Row) {
    var days, units := RowDays(item, row), RowUnits(item, row);
    if days < 0 then units < -5000 else 800 * (item.expiryReviewDays - days) + Min(units, 1000) < -2000
  }

  lemma {:induction false} RowMonitoring(policy: Policy, item: Item, row: Row, c: Candidate)
    ensures RowCandidate(policy, item, row) == Some(c) ==>
              (c.monitoringOnly <==> WatchedRow(item, row)) && (c.kind == ExpiredLot || c.kind == ExpiryRisk)
  {
  }

  lemma {:induction false} KindMonitoring(policy: Policy, item: Item, c: Candidate)
    ensures KindCandidate(policy, item, c.kind) == Some(c) ==> (c.monitoringOnly <==> WatchedKind(item, c.kind))
  {
    if KindCandidate(policy, item, c.kind) == Some(c) {
      var score := ItemScore(item, c.kind).value;
      assert c.monitoringOnly <==> score < 50.0;
    }
  }

  predicate Watched(policy: Policy, item: Item, c: Candidate) {
    || WatchedKind(item, c.kind)
    || exists i :: 0 <= i < |Rows(item)| && RowCandidate(policy, item, Rows(item)[i]) == Some(c) && WatchedRow(item, Rows(item)[i])
  }

  /** Exactly which raised candidates are only watched, whatever the stock figures are. */
  lemma {:induction false} MonitoringOnly(policy: Policy, item: Item, c: Candidate)
    ensures c in Raised(policy, item) ==> (c.monitoringOnly <==> Watched(policy, item, c))
  {
    if c in Raised(policy, item) {
      RaisedMember(policy, item, c);
      forall i | 0 <= i < |Rows(item)| && RowCandidate(policy, item, Rows(item)[i]) == Some(c)
        ensures c.monitoringOnly <==> WatchedRow(item, Rows(item)[i])
        ensures c.kind == ExpiredLot || c.kind == ExpiryRisk
      {
        RowMonitoring(policy, item, Rows(item)[i], c);
      }
      if !FromRow(policy, item, c) {
        KindMonitoring(policy, item, c);
      }
    }
  }

  predicate StockIsCounted(item: Item) {
    item.onHand >= 0 && forall r :: r in item.batches && r.Batch? ==> r.onHand >= 0
  }

  predicate WatchedByReading(c: Candidate) {
    || c.kind == MissingBatchExpiry
    || (c.kind == LowStock && c.exposureUnits > 0 && c.evidence.reorderPoint - c.exposureUnits < 15)
  }

  lemma {:induction false} CountedItem(policy: Policy, item: Item, c: Candidate)
    requires StockIsCounted(item)
    ensures c in Raised(policy, item) ==> (c.monitoringOnly <==> WatchedByReading(c))
  {
    if c in Raised(policy, item) {
      MonitoringOnly(policy, item, c);
      RaisedMember(policy, item, c);
      RowsRaiseNoItemKind(policy, item, c);
      forall i | 0 <= i < |Rows(item)|
        ensures !WatchedRow(item, Rows(item)[i]) || RowCandidate(policy, item, Rows(item)[i]) == None
      {
        assert Rows(item)[i].Batch? ==> Rows(item)[i] in item.batches;
        assert RowUnits(item, Rows(item)[i]) >= 0;
      }
    }
  }

  /** With counted stock the reading needs nothing but the candidate itself. */
  lemma {:induction false} CountedStockMonitoring(policy: Policy, items: seq<Item>)
    requires forall item :: item in items ==> StockIsCounted(item)
    ensures forall c :: c in Candidates(policy, items) ==> (c.monitoringOnly <==> WatchedByReading(c))
  {
    forall c | c in Candidates(policy, items) ensures c.monitoringOnly <==> WatchedByReading(c) {
      CandidateMember(policy, items, c);
      var k :| 0 <= k < |items| && c in Raised(policy, items[k]);
      assert items[k] in items;
      CountedItem(policy, items[k], c);
    }
  }

  // ---- keys ----

  function IdentityOf(policy: Policy, c: Candidate): Identity {
    Identity(policy.tenant, c.domain, c.kind, c.sku, c.lot, policy.version, policy.window)
  }

  /** The digests of these candidates' identities do not collide. */
  predicate NoCollision(policy: Policy, s: seq<Candidate>) {
    forall c, d :: c in s && d in s && policy.hash(IdentityOf(policy, c)) == policy.hash(IdentityOf(policy, d)) ==>
      IdentityOf(policy, c) == IdentityOf(policy, d)
  }

  predicate KeysNameCandidates(s: seq<Candidate>) {
    forall c, d :: c in s && d in s && c.key == d.key ==> c == d
  }

  /** Within an item a lot is listed once, or repeated word for word. */
  predicate LotsAgree(item: Item) {
    forall r, q :: r in Rows(item) && q in Rows(item) && !r.Malformed? && !q.Malformed? && RowLot(r) == RowLot(q) ==> r == q
  }

  /** A product is listed once per data domain, or repeated word for word. */
  predicate ProductsAgree(items: seq<Item>) {
    forall a, b :: a in items && b in items && !Blank(a.sku) && a.sku == b.sku && Domain(a) == Domain(b) ==> a == b
  }

  lemma {:induction false} KeyNamesOrigin(policy: Policy, item: Item, c: Candidate)
    requires c in Raised(policy, item)
    ensures c.key == policy.hash(IdentityOf(policy, c)) && c.domain == Domain(item) && c.sku == item.sku && !Blank(c.sku)
  {
    RaisedMember(policy, item, c);
  }

  lemma {:induction false} SameKeySameItem(policy: Policy, item: Item, c: Candidate, d: Candidate)
    requires c in Raised(policy, item) && d in Raised(policy, item)
    requires c.kind == d.kind && c.lot == d.lot && LotsAgree(item)
    ensures c == d
  {
    RaisedMember(policy, item, c);
    RaisedMember(policy, item, d);
    RowsRaiseNoItemKind(policy, item, c);
    RowsRaiseNoItemKind(policy, item, d);
    if FromRow(policy, item, c) && FromRow(policy, item, d) {
      var i :| 0 <= i < |Rows(item)| && RowCandidate(policy, item, Rows(item)[i]) == Some(c);
      var j :| 0 <= j < |Rows(item)| && RowCandidate(policy, item, Rows(item)[j]) == Some(d);
      RowNames(policy, item, Rows(item)[i], c);
      RowNames(policy, item, Rows(item)[j], d);
      assert Rows(item)[i] == Rows(item)[j];
    }
  }

  lemma {:induction false} RowsRaiseNoItemKind(policy: Policy, item: Item, c: Candidate)
    ensures FromRow(policy, item, c) ==> KindCandidate(policy, item, c.kind) == None
  {
    if FromRow(policy, item, c) {
      var i :| 0 <= i < |Rows(item)| && RowCandidate(policy, item, Rows(item)[i]) == Some(c);
      RowNames(policy, item, Rows(item)[i], c);
    }
  }

  lemma {:induction false} RowNames(policy: Policy, item: Item, row: Row, c: Candidate)
    requires RowCandidate(policy, item, row) == Some(c)
    ensures !row.Malformed? && RowLot(row) == c.lot && KindCandidate(policy, item, c.kind) == None
  {
  }

  lemma {:induction false} KeyIsDigest(policy: Policy, items: seq<Item>, c: Candidate)
    ensures c in Candidates(policy, items) ==> c.key == policy.hash(IdentityOf(policy, c))
  {
    if c in Candidates(policy, items) {
      CandidateMember(policy, items, c);
      var i :| 0 <= i < |items| && c in Raised(policy, items[i]);
      KeyNamesOrigin(policy, items[i], c);
    }
  }

  /** Candidates with the same identity are the same candidate. */
  predicate IdentitiesName(policy: Policy, s: seq<Candidate>) {
    forall c, d :: c in s && d in s && IdentityOf(policy, c) == IdentityOf(policy, d) ==> c == d
  }

  lemma {:induction false} SameIdentity(policy: Policy, items: seq<Item>, a: Item, b: Item, c: Candidate, d: Candidate)
    requires ProductsAgree(items) && a in items && b in items && LotsAgree(a)
    ensures c in Raised(policy, a) && d in Raised(policy, b) && IdentityOf(policy, c) == IdentityOf(policy, d) ==> c == d
  {
    if c in Raised(policy, a) && d in Raised(policy, b) && IdentityOf(policy, c) == IdentityOf(policy, d) {
      KeyNamesOrigin(policy, a, c);
      KeyNamesOrigin(policy, b, d);
      assert a == b;
      SameKeySameItem(policy, a, c, d);
    }
  }

  /** One listing per (sku, domain) and one row per lot make identities name candidates. */
  lemma {:induction false} ListedOnceNames(policy: Policy, items: seq<Item>)
    requires ProductsAgree(items) && forall item :: item in items ==> LotsAgree(item)
    ensures IdentitiesName(policy, Candidates(policy, items))
  {
    var s := Candidates(policy, items);
    forall c, d | c in s && d in s && IdentityOf(policy, c) == IdentityOf(policy, d) ensures c == d {
      CandidateMember(policy, items, c);
      CandidateMember(policy, items, d);
      var i :| 0 <= i < |items| && c in Raised(policy, items[i]);
      var j :| 0 <= j < |items| && d in Raised(policy, items[j]);
      assert items[i] in items && items[j] in items;
      SameIdentity(policy, items, items[i], items[j], c, d);
    }
  }

  lemma {:induction false} KeysByIdentity(policy: Policy, s: seq<Candidate>)
    requires forall c :: c in s ==> c.key == policy.hash(IdentityOf(policy, c))
    ensures KeysNameCandidates(s) <==> NoCollision(policy, s) && IdentitiesName(policy, s)
  {
  }

  /**
   * For every list of products, a key names one candidate exactly when the digests of the listed identities do
   * not collide and no two different candidates share an identity.
   */
  lemma {:induction false} KeysAreUnique(policy: Policy, items: seq<Item>)
    ensures KeysNameCandidates(Candidates(policy, items))
       <==> NoCollision(policy, Candidates(policy, items)) && IdentitiesName(policy, Candidates(policy, items))
  {
    forall c | c in Candidates(policy, items) ensures c.key == policy.hash(IdentityOf(policy, c)) {
      KeyIsDigest(policy, items, c);
    }
    KeysByIdentity(policy, Candidates(policy, items));
  }

  // ---- the order of the products ----

  ghost predicate ProductOrderFree(policy: Policy, items: seq<Item>) {
    forall other, limit: nat :: Permutes(items, other) ==> Top(Candidates(policy, other), limit) == Top(Candidates(policy, items), limit)
  }

  predicate Commute<T(==)>(a: seq<T>, b: seq<T>) {
    a + b == b + a
  }

  /** Any two products can be swapped without disturbing a run of tied candidates. */
  ghost predicate ProductsCommute(policy: Policy, items: seq<Item>) {
    forall a, b, x :: a in items && b in items ==> Commute(TiedWith(x, Raised(policy, a)), TiedWith(x, Raised(policy, b)))
  }

  lemma {:induction false} TiedCandidates(policy: Policy, x: Candidate, a: seq<Item>, b: seq<Item>)
    ensures TiedWith(x, Candidates(policy, a + b)) == TiedWith(x, Candidates(policy, a)) + TiedWith(x, Candidates(policy, b))
  {
    CandidatesAppend(policy, a, b);
    TiedAppend(x, Candidates(policy, a), Candidates(policy, b));
  }

  lemma {:induction false} TiedOne(policy: Policy, x: Candidate, item: Item)
    ensures TiedWith(x, Candidates(policy, [item])) == TiedWith(x, Raised(policy, item))
  {
    assert Candidates(policy, [item]) == Raised(policy, item) + Candidates(policy, []) == Raised(policy, item);
  }

  lemma {:induction false} TiedMiddle(policy: Policy, x: Candidate, pre: seq<Item>, item: Item, post: seq<Item>)
    ensures TiedWith(x, Candidates(policy, pre + ([item] + post)))
         == TiedWith(x, Candidates(policy, pre)) + (TiedWith(x, Raised(policy, item)) + TiedWith(x, Candidates(policy, post)))
  {
    TiedCandidates(policy, x, pre, [item] + post);
    TiedCandidates(policy, x, [item], post);
    TiedOne(policy, x, item);
  }

  lemma {:induction false} CommuteTwice<T>(t: seq<T>, a: seq<T>, b: seq<T>)
    requires Commute(t, a) && Commute(t, b)
    ensures Commute(t, a + b)
  {
    assert t + (a + b) == (t + a) + b == a + (t + b) == (a + b) + t;
  }

  lemma {:induction false} CommuteThrough(policy: Policy, x: Candidate, item: Item, others: seq<Item>)
    requires forall o :: o in others ==> Commute(TiedWith(x, Raised(policy, item)), TiedWith(x, Raised(policy, o)))
    ensures Commute(TiedWith(x, Raised(policy, item)), TiedWith(x, Candidates(policy, others)))
  {
    if others != [] {
      CommuteThrough(policy, x, item, others[1..]);
      TiedAppend(x, Raised(policy, others[0]), Candidates(policy, others[1..]));
      CommuteTwice(TiedWith(x, Raised(policy, item)), TiedWith(x, Raised(policy, others[0])), TiedWith(x, Candidates(policy, others[1..])));
    }
  }

  lemma {:induction false} Swap<T>(t: seq<T>, p: seq<T>, q: seq<T>)
    requires Commute(t, p)
    ensures p + (t + q) == t + (p + q)
  {
    assert p + (t + q) == (p + t) + q == t + (p + q);
  }

  /** A product that commutes with those before it can be moved to the front. */
  lemma {:induction false} MoveOverPrefix(policy: Policy, x: Candidate, pre: seq<Item>, item: Item, post: seq<Item>)
    requires Commute(TiedWith(x, Raised(policy, item)), TiedWith(x, Candidates(policy, pre)))
    ensures TiedWith(x, Candidates(policy, pre + ([item] + post)))
         == TiedWith(x, Raised(policy, item)) + TiedWith(x, Candidates(policy, pre + post))
  {
    TiedMiddle(policy, x, pre, item, post);
    TiedCandidates(policy, x, pre, post);
    Swap(TiedWith(x, Raised(policy, item)), TiedWith(x, Candidates(policy, pre)), TiedWith(x, Candidates(policy, post)));
  }

  lemma {:induction false} CommuteBefore(policy: Policy, x: Candidate, items: seq<Item>, item: Item, pre: seq<Item>)
    requires ProductsCommute(policy, items) && item in items && forall o :: o in pre ==> o in items
    ensures Commute(TiedWith(x, Raised(policy, item)), TiedWith(x, Candidates(policy, pre)))
  {
    forall o | o in pre ensures Commute(TiedWith(x, Raised(policy, item)), TiedWith(x, Raised(policy, o))) {
    }
    CommuteThrough(policy, x, item, pre);
  }

  lemma {:induction false} CommutingTail(policy: Policy, items: seq<Item>)
    requires ProductsCommute(policy, items) && items != []
    ensures ProductsCommute(policy, items[1..])
  {
    assert forall o :: o in items[1..] ==> o in items;
  }

  /** The place of the first product of `a` in its rearrangement `b`. */
  lemma {:induction false} FindFirst(a: seq<Item>, b: seq<Item>) returns (pre: seq<Item>, post: seq<Item>)
    requires Permutes(a, b) && a != []
    ensures b == pre + ([a[0]] + post) && Permutes(a[1..], pre + post)
    ensures forall o :: o in pre ==> o in a
  {
    SameMembers(a, b);
    assert a[0] in b;
    var i :| 0 <= i < |b| && b[i] == a[0];
    DropBoth(a, b, i);
    pre, post := b[..i], b[i + 1..];
  }

  lemma {:induction false} CommutingProductsTie(policy: Policy, x: Candidate, a: seq<Item>, b: seq<Item>)
    requires Permutes(a, b) && ProductsCommute(policy, a)
    ensures TiedWith(x, Candidates(policy, a)) == TiedWith(x, Candidates(policy, b))
    decreases |a|
  {
    if a == [] {
      SameMembers(a, b);
    } else {
      var pre, post := FindFirst(a, b);
      CommuteBefore(policy, x, a, a[0], pre);
      MoveOverPrefix(policy, x, pre, a[0], post);
      CommutingTail(policy, a);
      CommutingProductsTie(policy, x, a[1..], pre + post);
      TiedAppend(x, Raised(policy, a[0]), Candidates(policy, a[1..]));
    }
  }

  lemma {:induction false} TakeOut(items: seq<Item>, a: Item) returns (rest: seq<Item>)
    requires a in items
    ensures multiset(items) == multiset{a} + multiset(rest)
  {
    var i :| 0 <= i < |items| && items[i] == a;
    rest := Drop(items, i);
    DropMultiset(items, i);
  }

  /** The arrangement that starts with these two products. */
  lemma {:induction false} LeadPair(items: seq<Item>, a: Item, b: Item) returns (rest: seq<Item>)
    requires a in items && b in items && a != b
    ensures Permutes(items, [a, b] + rest) && Permutes(items, [b, a] + rest)
  {
    var others := TakeOut(items, a);
    assert b in multiset(items);
    assert b in multiset(others);
    rest := TakeOut(others, b);
    PairFirst(a, b, rest);
    PairFirst(b, a, rest);
  }

  lemma {:induction false} PairFirst(a: Item, b: Item, rest: seq<Item>)
    ensures multiset([a, b] + rest) == multiset{a} + (multiset{b} + multiset(rest))
  {
  }

  lemma {:induction false} TiedPair(policy: Policy, x: Candidate, a: Item, b: Item, rest: seq<Item>)
    ensures TiedWith(x, Candidates(policy, [a, b] + rest))
         == TiedWith(x, Raised(policy, a)) + TiedWith(x, Raised(policy, b)) + TiedWith(x, Candidates(policy, rest))
  {
    assert [a, b] + rest == [a] + ([b] + rest);
    TiedCandidates(policy, x, [a], [b] + rest);
    TiedCandidates(policy, x, [b], rest);
    TiedOne(policy, x, a);
    TiedOne(policy, x, b);
  }

  lemma {:induction false} TiesTell(s: seq<Candidate>, t: seq<Candidate>, x: Candidate)
    requires Permutes(s, t) && TiedWith(x, s) != TiedWith(x, t)
    ensures Ranked(s) != Ranked(t)
  {
    RankedIsStableSort(s, x);
    RankedIsStableSort(t, x);
  }

  lemma {:induction false} SwapDisturbs(policy: Policy, items: seq<Item>, a: Item, b: Item, x: Candidate)
    returns (u: seq<Item>, v: seq<Item>)
    requires a in items && b in items && !Commute(TiedWith(x, Raised(policy, a)), TiedWith(x, Raised(policy, b)))
    ensures Permutes(items, u) && Permutes(items, v)
    ensures TiedWith(x, Candidates(policy, u)) != TiedWith(x, Candidates(policy, v))
  {
    var rest := LeadPair(items, a, b);
    u, v := [a, b] + rest, [b, a] + rest;
    TiedPair(policy, x, a, b, rest);
    TiedPair(policy, x, b, a, rest);
    SamePrefix(TiedWith(x, Raised(policy, a)), TiedWith(x, Raised(policy, b)), TiedWith(x, Candidates(policy, rest)));
  }

  lemma {:induction false} SamePrefix<T>(a: seq<T>, b: seq<T>, r: seq<T>)
    ensures a + b + r == b + a + r ==> Commute(a, b)
  {
    if a + b + r == b + a + r {
      assert a + b == (a + b + r)[..|a| + |b|] && b + a == (b + a + r)[..|a| + |b|];
    }
  }

  lemma {:induction false} TopOfAll(s: seq<Candidate>)
    ensures Top(s, |s|) == Ranked(s)
  {
    RankedInOrder(s);
    SameMembers(Ranked(s), s);
  }

  /**
   * The result is the same for every order of the products and every limit exactly when any two products
   * can be swapped without disturbing a run of tied candidates.
   */
  lemma {:induction false} ProductOrderCondition(policy: Policy, items: seq<Item>)
    ensures ProductOrderFree(policy, items) <==> ProductsCommute(policy, items)
  {
    if ProductsCommute(policy, items) {
      forall other, limit: nat | Permutes(items, other)
        ensures Top(Candidates(policy, other), limit) == Top(Candidates(policy, items), limit)
      {
        CandidatesPermute(policy, items, other);
        forall x ensures TiedWith(x, Candidates(policy, items)) == TiedWith(x, Candidates(policy, other)) {
          CommutingProductsTie(policy, x, items, other);
        }
        RankedByTies(Candidates(policy, items), Candidates(policy, other));
      }
    }
    DisturbedOrder(policy, items);
  }

  lemma {:induction false} TopTells(base: seq<Candidate>, s: seq<Candidate>, t: seq<Candidate>, x: Candidate)
    requires Permutes(base, s) && Permutes(base, t) && TiedWith(x, s) != TiedWith(x, t)
    ensures Top(s, |base|) != Top(base, |base|) || Top(t, |base|) != Top(base, |base|)
  {
    SameMembers(base, s);
    SameMembers(base, t);
    TopOfAll(s);
    TopOfAll(t);
    TiesTell(s, t, x);
  }

  lemma {:induction false} DisturbedOrder(policy: Policy, items: seq<Item>)
    ensures ProductOrderFree(policy, items) ==> ProductsCommute(policy, items)
  {
    if !ProductsCommute(policy, items) {
      var a, b, x :| a in items && b in items && !Commute(TiedWith(x, Raised(policy, a)), TiedWith(x, Raised(policy, b)));
      var u, v := SwapDisturbs(policy, items, a, b, x);
      CandidatesPermute(policy, items, u);
      CandidatesPermute(policy, items, v);
      TopTells(Candidates(policy, items), Candidates(policy, u), Candidates(policy, v), x);
    }
  }

  /** In particular no order matters when every key names one candidate. */
  lemma {:induction false} DistinctKeysCommute(policy: Policy, items: seq<Item>)
    requires KeysNameCandidates(Candidates(policy, items))
    ensures ProductOrderFree(policy, items)
  {
    forall other, limit: nat | Permutes(items, other)
      ensures Top(Candidates(policy, other), limit) == Top(Candidates(policy, items), limit)
    {
      CandidatesPermute(policy, items, other);
      SameRanking(Candidates(policy, items), Candidates(policy, other));
    }
  }
}
