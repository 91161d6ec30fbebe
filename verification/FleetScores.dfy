/** The figures on the raised candidates, written out, and the order they put products in. */
module FleetScores {
  import opened Common
  import opened Text
  import opened TextLaws
  import opened Permutations
  import opened Fleet
  import opened FleetRanking
  import opened FleetProducts

  // ---- rounding ----

  /** A score with two decimals is stored as it is. */
  lemma {:induction false} TwoDecimals(x: real, n: int)
    requires x * 100.0 == n as real
    ensures Round2(x) == x
  {
  }

  /** `u` is `x`, brought into [0, 1] and to the nearest thousandth. */
  predicate Thousandth(u: real, x: real) {
    var clamped := if x < 0.0 then 0.0 else if x > 1.0 then 1.0 else x;
    0.0 <= u <= 1.0 && -0.0005 <= u - clamped <= 0.0005 && (u * 1000.0).Floor as real == u * 1000.0
  }

  lemma {:induction false} RoundsWithin(y: real, top: int)
    requires 0.0 <= y <= top as real
    ensures 0 <= RoundHalfEven(y) <= top
  {
  }

  lemma {:induction false} ThousandthRead(n: int, y: real)
    requires 0 <= n <= 1000 && -0.5 <= y - n as real <= 0.5
    ensures 0.0 <= n as real / 1000.0 <= 1.0 && -0.0005 <= n as real / 1000.0 - y / 1000.0 <= 0.0005
    ensures (n as real / 1000.0 * 1000.0).Floor as real == n as real / 1000.0 * 1000.0
  {
    assert n as real / 1000.0 * 1000.0 == n as real;
  }

  lemma {:induction false} RoundsInUnit(x: real)
    requires 0.0 <= x <= 1.0
    ensures Thousandth(Round3(x), x)
  {
    var y := x * 1000.0;
    RoundsToNearest(y);
    RoundsWithin(y, 1000);
    ThousandthRead(RoundHalfEven(y), y);
  }

  lemma {:induction false} ClampedThousandth(x: real)
    ensures Thousandth(Round3(Clamp(x)), x)
  {
    RoundsInUnit(Clamp(x));
  }

  // ---- demand ----

  lemma {:induction false} TotalAppend(a: seq<real>, b: seq<real>)
    ensures Total(a + b) == Total(a) + Total(b)
  {
    if a == [] {
      assert a + b == b;
    } else {
      assert (a + b)[1..] == a[1..] + b;
      TotalAppend(a[1..], b);
    }
  }

  lemma {:induction false} Quotient(total: real, n: real, stock: real)
    requires n > 0.0
    ensures total / n <= 1.0 <==> total <= n
    ensures total / n > 0.0 <==> total > 0.0
    ensures total > 0.0 ==> stock / (total / n) == stock * n / total
    ensures total > 0.0 ==> (stock / (total / n) >= 30.0 <==> stock * n >= 30.0 * total)
  {
    var a := total / n;
    assert a * n == total;
    if total > 0.0 {
      var q := stock / a;
      assert q * a == stock;
      assert q * total == q * a * n == stock * n;
    }
  }

  /** Over the recent days at most one unit a day is slow; otherwise at least thirty days of supply are too much. */
  lemma {:induction false} DemandRaises(item: Item, n: real)
    requires n == |item.recentDailyUnits| as real
    ensures var sold, over := Total(item.recentDailyUnits), item.onHand > item.reorderPoint;
            && (Raises(item, SlowMover) <==> n > 0.0 && sold <= n && over)
            && (Raises(item, Overstock) <==> n > 0.0 && sold > n && item.onHand as real * n >= 30.0 * sold && over)
  {
    if n > 0.0 {
      Quotient(Total(item.recentDailyUnits), n, item.onHand as real);
    }
  }

  // ---- rows ----

  /** The parts of a candidate that do not depend on why it was raised. */
  predicate Describes(policy: Policy, item: Item, c: Candidate, lot: Option<string>, units: int, days: int) {
    && c.domain == (if item.domain == "" then "world_simulation" else item.domain)
    && c.sku == item.sku && c.lot == lot
    && c.key == policy.hash(Identity(policy.tenant, c.domain, c.kind, item.sku, lot, policy.version, policy.window))
    && c.exposureUnits == (if units > 0 then units else 0)
    && c.evidence.details == item.details && c.evidence.daysToExpiry == days && c.evidence.reorderPoint == item.reorderPoint
    && c.evidence.openUnits == (if c.kind == LowStock && item.openUnits > 0 then item.openUnits else 0)
    && c.evidence.openEta == (if c.kind == LowStock then item.openEta else None)
  }

  function Volume(units: int): real {
    (if units < 1000 then units else 1000) as real / 100.0
  }

  /** What a row with this expiry, stock and lot raises. */
  predicate RowSays(policy: Policy, item: Item, found: Option<Candidate>, days: int, units: int, lot: Option<string>) {
    var review := item.expiryReviewDays;
    if days < 0 then
      && found.Some? && Describes(policy, item, found.value, lot, units, days)
      && found.value.kind == ExpiredLot && found.value.evidence.demand.None?
      && found.value.score == 100.0 + Volume(units) && found.value.urgency == 1.0
      && (found.value.monitoringOnly <==> found.value.score < 50.0)
    else if days <= review then
      && found.Some? && Describes(policy, item, found.value, lot, units, days)
      && found.value.kind == ExpiryRisk && found.value.evidence.demand.None?
      && found.value.score == 70.0 + 8.0 * (review - days) as real + Volume(units)
      && Thousandth(found.value.urgency, (review - days + 1) as real / (review + 1) as real)
      && (found.value.monitoringOnly <==> found.value.score < 50.0)
    else found.None?
  }

  lemma {:induction false} NewDescribes(policy: Policy, item: Item, kind: Kind, lot: Option<string>, score: real, units: int, days: int)
    ensures var c := NewCandidate(policy, item, kind, lot, score, units, days);
            && Describes(policy, item, c, lot, units, days) && c.kind == kind
            && (c.monitoringOnly <==> score < 50.0) && c.score == Round2(score)
            && Thousandth(c.urgency, Urgency(item, kind, days))
            && c.evidence.demand == EvidenceFor(item, kind, days).demand
  {
    ClampedThousandth(Urgency(item, kind, days));
  }

  lemma {:induction false} ThousandthOf(u: real, x: real, n: int)
    requires Thousandth(u, x) && 0.0 <= x <= 1.0 && x * 1000.0 == n as real
    ensures u == x
  {
    var m := (u * 1000.0).Floor;
    assert -0.5 <= (m - n) as real <= 0.5;
  }

  lemma {:induction false} ExpiredRow(policy: Policy, item: Item, days: int, units: int, lot: Option<string>)
    requires days < 0
    ensures RowSays(policy, item, Some(NewCandidate(policy, item, ExpiredLot, lot, 100.0 + Min(units, 1000) as real / 100.0, units, days)),
                    days, units, lot)
  {
    var score := 100.0 + Min(units, 1000) as real / 100.0;
    NewDescribes(policy, item, ExpiredLot, lot, score, units, days);
    TwoDecimals(score, 10000 + Min(units, 1000));
    ThousandthOf(NewCandidate(policy, item, ExpiredLot, lot, score, units, days).urgency, 1.0, 1000);
  }

  lemma {:induction false} DueRow(policy: Policy, item: Item, days: int, units: int, lot: Option<string>)
    requires 0 <= days <= item.expiryReviewDays
    ensures var score := 70.0 + ((item.expiryReviewDays - days) * 8) as real + Min(units, 1000) as real / 100.0;
            RowSays(policy, item, Some(NewCandidate(policy, item, ExpiryRisk, lot, score, units, days)), days, units, lot)
  {
    var score := 70.0 + ((item.expiryReviewDays - days) * 8) as real + Min(units, 1000) as real / 100.0;
    NewDescribes(policy, item, ExpiryRisk, lot, score, units, days);
    TwoDecimals(score, 7000 + (item.expiryReviewDays - days) * 800 + Min(units, 1000));
  }

  lemma {:induction false} DatedRow(policy: Policy, item: Item, row: Row)
    requires !row.Malformed?
    ensures RowSays(policy, item, RowCandidate(policy, item, row), RowDays(item, row), RowUnits(item, row), RowLot(row))
  {
    var days, units, lot := RowDays(item, row), RowUnits(item, row), RowLot(row);
    if days < 0 {
      ExpiredRow(policy, item, days, units, lot);
    } else if days <= item.expiryReviewDays {
      DueRow(policy, item, days, units, lot);
    }
  }

  /** Every row: a malformed one raises nothing, an absent one reads the product's own stock, a batch its own. */
  lemma {:induction false} RowFigures(policy: Policy, item: Item, row: Row)
    ensures match row
            case Malformed => RowCandidate(policy, item, row) == None
            case Absent => RowSays(policy, item, RowCandidate(policy, item, row), item.daysToExpiry, item.onHand, None)
            case Batch(days, units, lot) => RowSays(policy, item, RowCandidate(policy, item, row), days, units, lot)
  {
    if !row.Malformed? {
      DatedRow(policy, item, row);
    }
  }

  // ---- the other kinds ----

  function Gap(item: Item): int {
    if item.reorderPoint > item.onHand then item.reorderPoint - item.onHand else 0
  }

  /** How many days the stock lasts at the recent rate of sale. */
  function Supply(item: Item): real {
    var sold := Total(item.recentDailyUnits);
    if sold > 0.0 then item.onHand as real * |item.recentDailyUnits| as real / sold else 0.0
  }

  /** An overstock of so many days of supply. */
  predicate OverstockSays(c: Candidate, supply: real) {
    && supply >= 30.0 && c.urgency == 0.3
    && c.score == Round2(50.0 + (if supply < 100.0 then supply else 100.0) / 5.0)
    && c.evidence.demand == Some(Round1(supply))
  }

  /** Score, urgency and quoted demand of each kind outside the batches. */
  predicate KindSays(item: Item, c: Candidate) {
    var sold, n := Total(item.recentDailyUnits), |item.recentDailyUnits| as real;
    match c.kind
    case RecallHold => c.score == 95.0 && c.urgency == 1.0
    case ColdChainRisk => c.score == 78.0 && c.urgency == 0.85
    case SupplierDelay => c.score == 72.0 && c.urgency == 0.8
    case DeliveryMismatch => c.score == 68.0 && c.urgency == 0.7
    case PriceAnomaly => c.score == 64.0 && c.urgency == 0.6
    case IdentityConflict => c.score == 60.0 && c.urgency == 0.6
    case MissingBatchExpiry => c.score == 45.0 && c.urgency == 0.45
    case LowStock =>
      && c.score == 35.0 + (if Gap(item) < 100 then Gap(item) else 100) as real + (if item.onHand == 0 then 15.0 else 0.0)
      && Thousandth(c.urgency, (Gap(item) + 1) as real / (if item.reorderPoint > 1 then item.reorderPoint else 1) as real)
    case SlowMover =>
      && c.score == 55.0 + (if item.onHand < 100 then item.onHand else 100) as real / 10.0 && c.urgency == 0.35
      && n > 0.0 && c.evidence.demand == Some(Round2(sold / n))
    case Overstock =>
      n > 0.0 && sold > 0.0 && OverstockSays(c, Supply(item))
    case _ => false
  }

  lemma {:induction false} FixedUrgency(u: real, x: real, n: int)
    ensures Thousandth(u, x) && 0.0 <= x <= 1.0 && x * 1000.0 == n as real ==> u == x
  {
    if Thousandth(u, x) && 0.0 <= x <= 1.0 && x * 1000.0 == n as real {
      ThousandthOf(u, x, n);
    }
  }

  predicate FlagKind(kind: Kind) {
    kind in {RecallHold, ColdChainRisk, SupplierDelay, DeliveryMismatch, PriceAnomaly, IdentityConflict, MissingBatchExpiry}
  }

  /** Hundredths of the score and thousandths of the urgency of the kinds that do not depend on stock. */
  function FixedScore(kind: Kind): int {
    match kind
    case RecallHold => 9500 case ColdChainRisk => 7800 case SupplierDelay => 7200 case DeliveryMismatch => 6800
    case PriceAnomaly => 6400 case IdentityConflict => 6000 case _ => 4500
  }

  function FixedUrgencyOf(kind: Kind): int {
    match kind
    case RecallHold => 1000 case ColdChainRisk => 850 case SupplierDelay => 800 case DeliveryMismatch => 700
    case PriceAnomaly => 600 case IdentityConflict => 600 case _ => 450
  }

  lemma {:induction false} FlagSays(policy: Policy, item: Item, kind: Kind)
    requires FlagKind(kind) && ItemScore(item, kind).Some?
    ensures KindSays(item, NewCandidate(policy, item, kind, None, ItemScore(item, kind).value, item.onHand, item.daysToExpiry))
  {
    var score := ItemScore(item, kind).value;
    NewDescribes(policy, item, kind, None, score, item.onHand, item.daysToExpiry);
    TwoDecimals(score, FixedScore(kind));
    var c := NewCandidate(policy, item, kind, None, score, item.onHand, item.daysToExpiry);
    ThousandthOf(c.urgency, Urgency(item, kind, item.daysToExpiry), FixedUrgencyOf(kind));
  }

  lemma {:induction false} LowStockSays(policy: Policy, item: Item)
    requires ItemScore(item, LowStock).Some?
    ensures KindSays(item, NewCandidate(policy, item, LowStock, None, ItemScore(item, LowStock).value, item.onHand, item.daysToExpiry))
  {
    var score := ItemScore(item, LowStock).value;
    NewDescribes(policy, item, LowStock, None, score, item.onHand, item.daysToExpiry);
    TwoDecimals(score, 3500 + 100 * Min(Max(item.reorderPoint - item.onHand, 0), 100) + if item.onHand == 0 then 1500 else 0);
  }

  lemma {:induction false} SlowMoverSays(policy: Policy, item: Item)
    requires ItemScore(item, SlowMover).Some?
    ensures KindSays(item, NewCandidate(policy, item, SlowMover, None, ItemScore(item, SlowMover).value, item.onHand, item.daysToExpiry))
  {
    var score := ItemScore(item, SlowMover).value;
    NewDescribes(policy, item, SlowMover, None, score, item.onHand, item.daysToExpiry);
    TwoDecimals(score, 5500 + 10 * Min(item.onHand, 100));
    var c := NewCandidate(policy, item, SlowMover, None, score, item.onHand, item.daysToExpiry);
    ThousandthOf(c.urgency, 0.35, 350);
  }

  lemma {:induction false} OverstockSupply(item: Item)
    requires ItemScore(item, Overstock).Some?
    ensures var sold, n, supply := Total(item.recentDailyUnits), |item.recentDailyUnits| as real, DaysOfSupply(item);
            && n > 0.0 && sold > 0.0 && supply == Supply(item) && supply >= 30.0
            && ItemScore(item, Overstock) == Some(50.0 + (if supply < 100.0 then supply else 100.0) / 5.0)
  {
    Quotient(Total(item.recentDailyUnits), |item.recentDailyUnits| as real, item.onHand as real);
  }

  lemma {:induction false} OverstockFigures(policy: Policy, item: Item, score: real)
    requires ItemScore(item, Overstock) == Some(score)
    ensures OverstockSays(NewCandidate(policy, item, Overstock, None, score, item.onHand, item.daysToExpiry), DaysOfSupply(item))
  {
    var c := NewCandidate(policy, item, Overstock, None, score, item.onHand, item.daysToExpiry);
    NewDescribes(policy, item, Overstock, None, score, item.onHand, item.daysToExpiry);
    OverstockSupply(item);
    ThousandthOf(c.urgency, 0.3, 300);
  }

  lemma {:induction false} KindFigures(policy: Policy, item: Item, kind: Kind)
    ensures var c := KindCandidate(policy, item, kind);
            c.Some? ==> c.value.kind == kind && KindSays(item, c.value)
                        && Describes(policy, item, c.value, None, item.onHand, item.daysToExpiry)
  {
    if ItemScore(item, kind).Some? {
      NewDescribes(policy, item, kind, None, ItemScore(item, kind).value, item.onHand, item.daysToExpiry);
      match kind
      case LowStock => LowStockSays(policy, item);
      case SlowMover => SlowMoverSays(policy, item);
      case Overstock =>
        OverstockSupply(item);
        OverstockFigures(policy, item, ItemScore(item, kind).value);
      case _ => FlagSays(policy, item, kind);
    }
  }

  // ---- over all raised candidates ----

  /** The candidate comes from this row, read as a batch or as the product itself. */
  predicate SaidByRow(policy: Policy, item: Item, c: Candidate, row: Row) {
    match row
    case Malformed => false
    case Absent => RowSays(policy, item, Some(c), item.daysToExpiry, item.onHand, None)
    case Batch(days, units, lot) => RowSays(policy, item, Some(c), days, units, lot)
  }

  /** Every candidate of a product carries the figures of one of its rows or of its kind. */
  lemma {:induction false} RaisedFigures(policy: Policy, item: Item, c: Candidate)
    ensures c in Raised(policy, item) ==>
              var rows := if item.batches == [] then [Absent] else item.batches;
              || (exists i :: 0 <= i < |rows| && SaidByRow(policy, item, c, rows[i]))
              || (KindSays(item, c) && Describes(policy, item, c, None, item.onHand, item.daysToExpiry))
  {
    if c in Raised(policy, item) {
      RaisedMember(policy, item, c);
      if FromRow(policy, item, c) {
        var i :| 0 <= i < |Rows(item)| && RowCandidate(policy, item, Rows(item)[i]) == Some(c);
        RowFigures(policy, item, Rows(item)[i]);
        assert SaidByRow(policy, item, c, Rows(item)[i]);
      } else {
        KindFigures(policy, item, c.kind);
      }
    }
  }

  lemma {:induction false} RowKinds(policy: Policy, item: Item, c: Candidate, row: Row)
    requires SaidByRow(policy, item, c, row)
    ensures c.kind == ExpiredLot || c.kind == ExpiryRisk
  {
  }

  /** The range of scores of each kind, with counted stock. */
  predicate InRange(c: Candidate) {
    match c.kind
    case ExpiredLot => 100.0 <= c.score <= 110.0
    case ExpiryRisk => 70.0 <= c.score
    case RecallHold => c.score == 95.0
    case ColdChainRisk => c.score == 78.0
    case SupplierDelay => c.score == 72.0
    case DeliveryMismatch => c.score == 68.0
    case PriceAnomaly => c.score == 64.0
    case IdentityConflict => c.score == 60.0
    case SlowMover => 55.0 <= c.score <= 65.0
    case Overstock => 56.0 <= c.score <= 70.0
    case MissingBatchExpiry => c.score == 45.0
    case LowStock => 35.0 <= c.score <= 150.0
  }

  lemma {:induction false} OverstockRange(supply: real)
    requires supply >= 30.0
    ensures 56.0 <= Round2(50.0 + (if supply < 100.0 then supply else 100.0) / 5.0) <= 70.0
  {
    var y := (50.0 + (if supply < 100.0 then supply else 100.0) / 5.0) * 100.0;
    RoundsToNearest(y);
    assert 5600 <= RoundHalfEven(y) <= 7000;
  }

  lemma {:induction false} OverstockInRange(c: Candidate, supply: real)
    requires OverstockSays(c, supply)
    ensures 56.0 <= c.score <= 70.0
  {
    OverstockRange(supply);
  }

  lemma {:induction false} KindInRange(item: Item, c: Candidate)
    requires KindSays(item, c) && item.onHand >= 0
    ensures InRange(c)
  {
    if c.kind == Overstock {
      OverstockInRange(c, Supply(item));
    }
  }

  lemma {:induction false} RowInRange(policy: Policy, item: Item, c: Candidate, row: Row)
    requires SaidByRow(policy, item, c, row) && item.onHand >= 0 && (row.Batch? ==> row.onHand >= 0)
    ensures InRange(c)
  {
  }

  lemma {:induction false} ScoreRanges(policy: Policy, items: seq<Item>, c: Candidate)
    requires forall item :: item in items ==> StockIsCounted(item)
    ensures c in Candidates(policy, items) ==> InRange(c)
  {
    if c in Candidates(policy, items) {
      CandidateMember(policy, items, c);
      var k :| 0 <= k < |items| && c in Raised(policy, items[k]);
      var item := items[k];
      assert item in items;
      RaisedFigures(policy, item, c);
      var rows := if item.batches == [] then [Absent] else item.batches;
      if i :| 0 <= i < |rows| && SaidByRow(policy, item, c, rows[i]) {
        assert rows[i].Batch? ==> rows[i] in item.batches;
        RowInRange(policy, item, c, rows[i]);
      } else {
        KindInRange(item, c);
      }
    }
  }

  /** From the gravest flag to the least. */
  function Gravity(kind: Kind): nat {
    match kind
    case RecallHold => 7 case ColdChainRisk => 6 case SupplierDelay => 5 case DeliveryMismatch => 4
    case PriceAnomaly => 3 case IdentityConflict => 2 case MissingBatchExpiry => 1
    case _ => 0
  }

  predicate FixedFigures(c: Candidate) {
    c.score == FixedScore(c.kind) as real / 100.0 && c.urgency == FixedUrgencyOf(c.kind) as real / 1000.0
  }

  lemma {:induction false} FlagFigures(policy: Policy, items: seq<Item>, c: Candidate)
    requires Gravity(c.kind) > 0 && c in Candidates(policy, items)
    ensures FixedFigures(c)
  {
    CandidateMember(policy, items, c);
    var k :| 0 <= k < |items| && c in Raised(policy, items[k]);
    var item := items[k];
    RaisedFigures(policy, item, c);
    var rows := if item.batches == [] then [Absent] else item.batches;
    forall i | 0 <= i < |rows| ensures !SaidByRow(policy, item, c, rows[i]) {
      if SaidByRow(policy, item, c, rows[i]) {
        RowKinds(policy, item, c, rows[i]);
      }
    }
    SaysFixed(item, c);
  }

  lemma {:induction false} SaysFixed(item: Item, c: Candidate)
    requires Gravity(c.kind) > 0 && KindSays(item, c)
    ensures FixedFigures(c)
  {
  }

  lemma {:induction false} GravityOrders(a: Kind, b: Kind)
    requires Gravity(a) > Gravity(b) > 0
    ensures FixedScore(a) > FixedScore(b) && FixedUrgencyOf(a) >= FixedUrgencyOf(b)
  {
  }

  /** Between any two flags of any products the graver one ranks ahead, whatever the stock. */
  lemma {:induction false} GraverRanksAhead(policy: Policy, items: seq<Item>, c: Candidate, d: Candidate)
    requires Gravity(c.kind) > Gravity(d.kind) > 0
    ensures c in Candidates(policy, items) && d in Candidates(policy, items) ==> c.score > d.score && c.urgency >= d.urgency
  {
    if c in Candidates(policy, items) && d in Candidates(policy, items) {
      FlagFigures(policy, items, c);
      FlagFigures(policy, items, d);
      GravityOrders(c.kind, d.kind);
    }
  }

  // ---- rows of one product ----

  /**
   * Of two rows of a product with equal stock the one that expires sooner never ranks behind, exactly unless it
   * has expired and the other is due at least four days before the end of the review window.
   */
  lemma {:induction false} SoonerRanksAhead(
    policy: Policy, item: Item, c: Candidate, d: Candidate, soon: int, late: int, units: int, lot: Option<string>, lot': Option<string>)
    requires soon <= late && RowSays(policy, item, Some(c), soon, units, lot) && RowSays(policy, item, Some(d), late, units, lot')
    ensures c.score >= d.score <==> !(soon < 0 <= late && item.expiryReviewDays - late >= 4)
    ensures 0 <= soon < late ==> c.score > d.score
  {
  }

  // ---- low stock ----

  /** Low stock rises with the gap up to 100 units, and by 15 when nothing is left. */
  lemma {:induction false} LowStockRises(a: Item, b: Item, c: Candidate, d: Candidate)
    requires KindSays(a, c) && KindSays(b, d) && c.kind == LowStock && d.kind == LowStock
    ensures Gap(a) <= Gap(b) && (a.onHand == 0 ==> b.onHand == 0) ==> c.score <= d.score
    ensures Gap(a) < Gap(b) && Gap(a) < 100 && (a.onHand == 0 <==> b.onHand == 0) ==> c.score < d.score
    ensures Gap(a) == Gap(b) && a.onHand != 0 && b.onHand == 0 ==> d.score == c.score + 15.0
  {
  }

  // ---- nothing is missing ----

  /** What a row or a kind raises is among the product's candidates, unless its sku is blank. */
  lemma {:induction false} RaisedIsComplete(policy: Policy, item: Item, row: Row, kind: Kind)
    ensures !Blank(item.sku) && row in Rows(item) && RowCandidate(policy, item, row).Some? ==>
              RowCandidate(policy, item, row).value in Raised(policy, item)
    ensures !Blank(item.sku) && kind in ITEM_KINDS && KindCandidate(policy, item, kind).Some? ==>
              KindCandidate(policy, item, kind).value in Raised(policy, item)
  {
    if !Blank(item.sku) && row in Rows(item) && RowCandidate(policy, item, row).Some? {
      MappedMember(ByRow(policy, item), Rows(item), row);
    }
    if !Blank(item.sku) && kind in ITEM_KINDS && KindCandidate(policy, item, kind).Some? {
      MappedMember(ByKind(policy, item), ITEM_KINDS, kind);
    }
  }

  lemma {:induction false} MappedMember<T>(f: T -> Option<Candidate>, s: seq<T>, x: T)
    requires x in s && f(x).Some?
    ensures f(x).value in FilterMap(f, s)
  {
    FilterMapMember(f, s, f(x).value);
    var i :| 0 <= i < |s| && s[i] == x;
    assert f(s[i]) == Some(f(x).value);
  }
}
