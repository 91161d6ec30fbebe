/** Fleet candidates: what each product row raises, and the ranking that is returned. */
module Fleet {
  import opened Common
  import opened Text
  import opened Permutations

  datatype Kind =
    | ExpiredLot | ExpiryRisk | LowStock | SupplierDelay | SlowMover | Overstock | MissingBatchExpiry
    | ColdChainRisk | DeliveryMismatch | PriceAnomaly | RecallHold | IdentityConflict

  /** An element of `batches`; None and an empty dict both read the item's own fields. */
  datatype Row = Malformed | Absent | Batch(days: int, onHand: int, lot: Option<string>)

  /** `details` stands for the name, category, supplier and policy; `openUnits` and `openEta` for its open order. */
  datatype Item = Item(
    sku: string,
    details: string,
    openUnits: int,
    openEta: Option<string>,
    domain: string,
    expiryReviewDays: int,
    batches: seq<Row>,
    daysToExpiry: int,
    onHand: int,
    reorderPoint: int,
    lowStock: bool,
    supplierRecentDelay: bool,
    recentDailyUnits: seq<real>,
    hasBatchEvidence: bool,
    signals: set<Kind>)

  /** What the candidate key digests. */
  datatype Identity = Identity(
    tenant: string, domain: string, kind: Kind, sku: string, lot: Option<string>, policyVersion: string, window: int)

  datatype Candidate = Candidate(
    key: string,
    domain: string,
    kind: Kind,
    sku: string,
    lot: Option<string>,
    score: real,
    exposureUnits: nat,
    monitoringOnly: bool,
    urgency: real,
    evidence: Evidence)

  /** `demand` is the figure quoted in the signal text of a slow mover or an overstock. */
  datatype Evidence = Evidence(
    details: string,
    daysToExpiry: int,
    reorderPoint: int,
    openUnits: nat,
    openEta: Option<string>,
    demand: Option<real>)

  /** The arguments shared by every candidate of one call; `hash` is the digest of an identity. */
  datatype Policy = Policy(tenant: string, version: string, window: int, hash: Identity -> string)

  const MAX_CANDIDATES := 500
  const DEFAULT_DOMAIN := "world_simulation"

  function Min(a: int, b: int): int { if a < b then a else b }
  function Max(a: int, b: int): int { if a < b then b else a }

  /** round(x, 2) and its neighbours. */
  function Round1(x: real): real { RoundHalfEven(x * 10.0) as real / 10.0 }
  function Round2(x: real): real { RoundHalfEven(x * 100.0) as real / 100.0 }
  function Round3(x: real): real { RoundHalfEven(x * 1000.0) as real / 1000.0 }

  function Domain(item: Item): string {
    if item.domain == "" then DEFAULT_DOMAIN else item.domain
  }

  function NewCandidate(policy: Policy, item: Item, kind: Kind, lot: Option<string>, score: real, units: int, days: int): Candidate {
    Candidate(
      policy.hash(Identity(policy.tenant, Domain(item), kind, item.sku, lot, policy.version, policy.window)),
      Domain(item), kind, item.sku, lot, Round2(score), Max(units, 0), score < 50.0,
      Round3(Clamp(Urgency(item, kind, days))), EvidenceFor(item, kind, days))
  }

  function Clamp(x: real): real {
    if x < 0.0 then 0.0 else if x > 1.0 then 1.0 else x
  }

  function Urgency(item: Item, kind: Kind, days: int): real {
    match kind
    case ExpiryRisk =>
      var review := item.expiryReviewDays;
      if review == -1 then 1.0 else (review - days + 1) as real / (review + 1) as real
    case LowStock => (Max(item.reorderPoint - item.onHand, 0) + 1) as real / Max(item.reorderPoint, 1) as real
    case SupplierDelay => 0.8
    case SlowMover => 0.35
    case Overstock => 0.3
    case MissingBatchExpiry => 0.45
    case ColdChainRisk => 0.85
    case DeliveryMismatch => 0.7
    case PriceAnomaly => 0.6
    case IdentityConflict => 0.6
    case _ => 1.0
  }

  /** Open orders are looked up for low stock only. */
  function EvidenceFor(item: Item, kind: Kind, days: int): Evidence {
    Evidence(
      item.details, days, item.reorderPoint,
      if kind == LowStock then Max(item.openUnits, 0) else 0,
      if kind == LowStock then item.openEta else None,
      match kind
      case SlowMover => Some(Round2(AverageDaily(item)))
      case Overstock => Some(Round1(DaysOfSupply(item)))
      case _ => None)
  }

  // ---- what an item raises, row by row and kind by kind ----

  function Rows(item: Item): seq<Row> {
    if item.batches == [] then [Absent] else item.batches
  }

  function RowDays(item: Item, row: Row): int { if row.Batch? then row.days else item.daysToExpiry }
  function RowUnits(item: Item, row: Row): int { if row.Batch? then row.onHand else item.onHand }
  function RowLot(row: Row): Option<string> { if row.Batch? then row.lot else None }

  function RowCandidate(policy: Policy, item: Item, row: Row): Option<Candidate> {
    var days, units := RowDays(item, row), RowUnits(item, row);
    var volume := Min(units, 1000) as real / 100.0;
    if row.Malformed? then None
    else if days < 0 then Some(NewCandidate(policy, item, ExpiredLot, RowLot(row), 100.0 + volume, units, days))
    else if days <= item.expiryReviewDays then
      var score := 70.0 + ((item.expiryReviewDays - days) * 8) as real + volume;
      Some(NewCandidate(policy, item, ExpiryRisk, RowLot(row), score, units, days))
    else None
  }

  function Total(s: seq<real>): real {
    if s == [] then 0.0 else s[0] + Total(s[1..])
  }

  function AverageDaily(item: Item): real {
    if item.recentDailyUnits == [] then 0.0 else Total(item.recentDailyUnits) / |item.recentDailyUnits| as real
  }

  predicate SlowMoving(item: Item) {
    item.recentDailyUnits != [] && AverageDaily(item) <= 1.0 && item.onHand > item.reorderPoint
  }

  function DaysOfSupply(item: Item): real {
    if AverageDaily(item) > 0.0 then item.onHand as real / AverageDaily(item) else 0.0
  }

  predicate Overstocked(item: Item) {
    item.recentDailyUnits != [] && AverageDaily(item) > 0.0 && DaysOfSupply(item) >= 30.0 && item.onHand > item.reorderPoint
  }

  /** The score of the one candidate of this kind that an item raises outside its batches, if it does. */
  function ItemScore(item: Item, kind: Kind): Option<real> {
    match kind
    case ExpiredLot => None
    case ExpiryRisk => None
    case LowStock =>
      if !item.lowStock then None
      else
        var gap := Max(item.reorderPoint - item.onHand, 0);
        Some(35.0 + Min(gap, 100) as real + if item.onHand == 0 then 15.0 else 0.0)
    case SupplierDelay => if item.supplierRecentDelay then Some(72.0) else None
    case SlowMover => if SlowMoving(item) then Some(55.0 + Min(item.onHand, 100) as real / 10.0) else None
    case Overstock =>
      if SlowMoving(item) || !Overstocked(item) then None
      else
        var supply := DaysOfSupply(item);
        Some(50.0 + (if supply < 100.0 then supply else 100.0) / 5.0)
    case MissingBatchExpiry => if item.hasBatchEvidence then None else Some(45.0)
    case _ => if kind in item.signals then Some(SignalScore(kind)) else None
  }

  function SignalScore(kind: Kind): real {
    match kind
    case ColdChainRisk => 78.0
    case DeliveryMismatch => 68.0
    case PriceAnomaly => 64.0
    case RecallHold => 95.0
    case _ => 60.0
  }

  /** In the order in which an item's candidates are appended. */
  const ITEM_KINDS :=
    [LowStock, SupplierDelay, SlowMover, Overstock, MissingBatchExpiry]
    + [ColdChainRisk, DeliveryMismatch, PriceAnomaly, RecallHold, IdentityConflict]

  function KindCandidate(policy: Policy, item: Item, kind: Kind): Option<Candidate> {
    match ItemScore(item, kind)
    case None => None
    case Some(score) => Some(NewCandidate(policy, item, kind, None, score, item.onHand, item.daysToExpiry))
  }

  function ByRow(policy: Policy, item: Item): Row -> Option<Candidate> {
    row => RowCandidate(policy, item, row)
  }

  function ByKind(policy: Policy, item: Item): Kind -> Option<Candidate> {
    kind => KindCandidate(policy, item, kind)
  }

  predicate Blank(s: string) {
    Strip(s) == ""
  }

  function Raised(policy: Policy, item: Item): seq<Candidate> {
    if Blank(item.sku) then []
    else BatchRaised(policy, item) + OtherCandidates(policy, item)
  }

  function BatchRaised(policy: Policy, item: Item): seq<Candidate> {
    FilterMap(ByRow(policy, item), Rows(item))
  }

  function OtherCandidates(policy: Policy, item: Item): seq<Candidate> {
    FilterMap(ByKind(policy, item), ITEM_KINDS)
  }

  function Candidates(policy: Policy, items: seq<Item>): seq<Candidate> {
    if items == [] then [] else Raised(policy, items[0]) + Candidates(policy, items[1..])
  }

  // ---- ranking ----

  /** `(-score, key)` in Python's tuple order. */
  predicate Precedes(c: Candidate, d: Candidate) {
    c.score > d.score || (c.score == d.score && Le(c.key, d.key))
  }

  function Place(c: Candidate, ranked: seq<Candidate>): seq<Candidate> {
    if ranked == [] || Precedes(c, ranked[0]) then [c] + ranked else [ranked[0]] + Place(c, ranked[1..])
  }

  /** The stable sort. */
  function Ranked(s: seq<Candidate>): seq<Candidate> {
    if s == [] then [] else Place(s[0], Ranked(s[1..]))
  }

  function Top(s: seq<Candidate>, limit: nat): seq<Candidate> {
    var ranked := Ranked(s);
    if limit < |ranked| then ranked[..limit] else ranked
  }

  // ---- the program ----

  /** Appends, in order, what `f` makes of each source. */
  method Collect<T>(f: T -> Option<Candidate>, sources: seq<T>, before: seq<Candidate>) returns (found: seq<Candidate>)
    ensures found == before + FilterMap(f, sources)
  {
    found := before;
    for i := 0 to |sources|
      invariant found == before + FilterMap(f, sources[..i])
    {
      FilterMapNext(f, sources, i);
      var one := f(sources[i]);
      if one.Some? {
        found := found + [one.value];
      }
    }
    assert sources[..|sources|] == sources;
  }

  predicate RowDue(item: Item, row: Row) {
    !row.Malformed? && RowDays(item, row) <= Max(item.expiryReviewDays, -1)
  }

  /** The rows that account for the candidates of this kind. */
  function Accounts(item: Item, kind: Kind): Row -> bool {
    (row: Row) => RowDue(item, row) && kind == if RowDays(item, row) < 0 then ExpiredLot else ExpiryRisk
  }

  /** When an item raises a kind outside its batches. */
  predicate Raises(item: Item, kind: Kind) {
    match kind
    case ExpiredLot => false
    case ExpiryRisk => false
    case LowStock => item.lowStock
    case SupplierDelay => item.supplierRecentDelay
    case SlowMover => SlowMoving(item)
    case Overstock => Overstocked(item) && AverageDaily(item) > 1.0
    case MissingBatchExpiry => !item.hasBatchEvidence
    case _ => kind in item.signals
  }

  /** One per due row, and every other kind at most once. */
  function Expected(item: Item, kind: Kind): nat {
    Count(Accounts(item, kind), Rows(item)) + if Raises(item, kind) then 1 else 0
  }

  function OfKind(kind: Kind): Candidate -> bool {
    (c: Candidate) => c.kind == kind
  }

  lemma {:induction false} RowRaises(policy: Policy, item: Item, row: Row, kind: Kind)
    ensures Accounts(item, kind)(row) <==> ByRow(policy, item)(row).Some? && ByRow(policy, item)(row).value.kind == kind
  {
  }

  lemma {:induction false} KindRaises(policy: Policy, item: Item, kind: Kind)
    ensures ByKind(policy, item)(kind).Some? <==> Raises(item, kind)
    ensures Raises(item, kind) ==> ByKind(policy, item)(kind).value.kind == kind
  {
  }

  lemma {:induction false} RowCounts(policy: Policy, item: Item, kind: Kind, rows: seq<Row>)
    ensures Count(OfKind(kind), FilterMap(ByRow(policy, item), rows)) == Count(Accounts(item, kind), rows)
  {
    forall i | 0 <= i < |rows|
      ensures Accounts(item, kind)(rows[i])
         <==> ByRow(policy, item)(rows[i]).Some? && OfKind(kind)(ByRow(policy, item)(rows[i]).value)
    {
      RowRaises(policy, item, rows[i], kind);
    }
    CountFilterMap(ByRow(policy, item), OfKind(kind), Accounts(item, kind), rows);
  }

  function Chosen(item: Item, kind: Kind): Kind -> bool {
    (k: Kind) => k == kind && Raises(item, k)
  }

  predicate Listed(kind: Kind, kinds: seq<Kind>) {
    exists i :: 0 <= i < |kinds| && kinds[i] == kind
  }

  predicate ListedOnce(kinds: seq<Kind>) {
    forall i, j :: 0 <= i < j < |kinds| ==> kinds[i] != kinds[j]
  }

  lemma {:induction false} ChosenCounts(policy: Policy, item: Item, kind: Kind, kinds: seq<Kind>)
    ensures Count(OfKind(kind), FilterMap(ByKind(policy, item), kinds)) == Count(Chosen(item, kind), kinds)
  {
    forall i | 0 <= i < |kinds|
      ensures Chosen(item, kind)(kinds[i])
         <==> ByKind(policy, item)(kinds[i]).Some? && OfKind(kind)(ByKind(policy, item)(kinds[i]).value)
    {
      KindRaises(policy, item, kinds[i]);
    }
    CountFilterMap(ByKind(policy, item), OfKind(kind), Chosen(item, kind), kinds);
  }

  lemma {:induction false} ChosenOnce(item: Item, kind: Kind, kinds: seq<Kind>)
    requires ListedOnce(kinds)
    ensures Count(Chosen(item, kind), kinds) == if Listed(kind, kinds) && Raises(item, kind) then 1 else 0
  {
    if Listed(kind, kinds) {
      var i :| 0 <= i < |kinds| && kinds[i] == kind;
      CountOnly(Chosen(item, kind), kinds, i);
    } else {
      CountNone(Chosen(item, kind), kinds);
    }
  }

  lemma {:induction false} ItemKindsAreListed(item: Item, kind: Kind)
    ensures ListedOnce(ITEM_KINDS)
    ensures Raises(item, kind) ==> Listed(kind, ITEM_KINDS)
  {
    assert ITEM_KINDS[0] == LowStock && ITEM_KINDS[1] == SupplierDelay && ITEM_KINDS[2] == SlowMover;
    assert ITEM_KINDS[3] == Overstock && ITEM_KINDS[4] == MissingBatchExpiry && ITEM_KINDS[5] == ColdChainRisk;
    assert ITEM_KINDS[6] == DeliveryMismatch && ITEM_KINDS[7] == PriceAnomaly && ITEM_KINDS[8] == RecallHold;
    assert ITEM_KINDS[9] == IdentityConflict;
  }

  lemma {:induction false} OtherCounts(policy: Policy, item: Item, kind: Kind)
    ensures Count(OfKind(kind), OtherCandidates(policy, item)) == if Raises(item, kind) then 1 else 0
  {
    ItemKindsAreListed(item, kind);
    ChosenCounts(policy, item, kind, ITEM_KINDS);
    ChosenOnce(item, kind, ITEM_KINDS);
  }

  /** How many candidates of each kind an item raises; it is never both a slow mover and overstocked. */
  lemma {:induction false} KindCounts(policy: Policy, item: Item, kind: Kind)
    ensures Count(OfKind(kind), Raised(policy, item)) == if Blank(item.sku) then 0 else Expected(item, kind)
    ensures !(Raises(item, SlowMover) && Raises(item, Overstock))
  {
    if !Blank(item.sku) {
      CountAppend(OfKind(kind), BatchRaised(policy, item), OtherCandidates(policy, item));
      RowCounts(policy, item, kind, Rows(item));
      OtherCounts(policy, item, kind);
    }
  }

  predicate KindsCounted(item: Item, found: seq<Candidate>) {
    forall kind :: Count(OfKind(kind), found) == if Blank(item.sku) then 0 else Expected(item, kind)
  }

  lemma {:induction false} RaisedIsCounted(policy: Policy, item: Item)
    ensures KindsCounted(item, Raised(policy, item))
  {
    forall kind ensures Count(OfKind(kind), Raised(policy, item)) == if Blank(item.sku) then 0 else Expected(item, kind) {
      KindCounts(policy, item, kind);
    }
  }

  method CollectBatches(policy: Policy, item: Item) returns (found: seq<Candidate>)
    ensures found == BatchRaised(policy, item)
  {
    found := Collect(ByRow(policy, item), Rows(item), []);
  }

  method CollectOthers(policy: Policy, item: Item, before: seq<Candidate>) returns (found: seq<Candidate>)
    ensures found == before + OtherCandidates(policy, item)
  {
    found := Collect(ByKind(policy, item), ITEM_KINDS, before);
  }

  /** The two appending passes over a product. */
  method RaiseAll(policy: Policy, item: Item) returns (found: seq<Candidate>)
    ensures found == Raised(policy, item)
  {
    if Blank(item.sku) {
      return [];
    }
    found := CollectBatches(policy, item);
    found := CollectOthers(policy, item, found);
  }

  method ItemCandidates(policy: Policy, item: Item) returns (found: seq<Candidate>)
    ensures found == Raised(policy, item)
    ensures KindsCounted(item, found)
  {
    found := RaiseAll(policy, item);
    RaisedIsCounted(policy, item);
  }

  lemma {:induction false} Associates<T>(a: seq<T>, b: seq<T>, c: seq<T>)
    ensures a + (b + c) == a + b + c
  {
  }

  lemma {:induction false} CandidatesAppend(policy: Policy, a: seq<Item>, b: seq<Item>)
    ensures Candidates(policy, a + b) == Candidates(policy, a) + Candidates(policy, b)
  {
    if a == [] {
      assert a + b == b;
    } else {
      assert (a + b)[1..] == a[1..] + b && (a + b)[0] == a[0];
      CandidatesAppend(policy, a[1..], b);
      Associates(Raised(policy, a[0]), Candidates(policy, a[1..]), Candidates(policy, b));
    }
  }

  lemma {:induction false} CandidatesNext(policy: Policy, items: seq<Item>, i: nat)
    requires i < |items|
    ensures Candidates(policy, items[..i + 1]) == Candidates(policy, items[..i]) + Raised(policy, items[i])
  {
    assert items[..i + 1] == items[..i] + [items[i]];
    CandidatesAppend(policy, items[..i], [items[i]]);
    assert Candidates(policy, [items[i]]) == Raised(policy, items[i]) + Candidates(policy, []);
  }

  datatype Error = TenantRequired | PolicyVersionRequired | NegativeWindow | LimitOutOfRange
  datatype Outcome = Refused(error: Error) | Returned(candidates: seq<Candidate>)

  method GenerateFleetCandidates(policy: Policy, items: seq<Item>, limit: int) returns (outcome: Outcome)
    ensures outcome.Returned? <==> Strip(policy.tenant) != "" && Strip(policy.version) != "" && policy.window >= 0 && 1 <= limit <= 500
    ensures outcome.Returned? ==> outcome.candidates == Top(Candidates(policy, items), limit)
    ensures outcome.Refused? ==>
              match outcome.error
              case TenantRequired => Blank(policy.tenant)
              case PolicyVersionRequired => !Blank(policy.tenant) && Blank(policy.version)
              case NegativeWindow => !Blank(policy.tenant) && !Blank(policy.version) && policy.window < 0
              case LimitOutOfRange =>
                !Blank(policy.tenant) && !Blank(policy.version) && policy.window >= 0 && !(0 < limit <= MAX_CANDIDATES)
  {
    if Blank(policy.tenant) { return Refused(TenantRequired); }
    if Blank(policy.version) { return Refused(PolicyVersionRequired); }
    if policy.window < 0 { return Refused(NegativeWindow); }
    if limit <= 0 || limit > MAX_CANDIDATES { return Refused(LimitOutOfRange); }
    var candidates: seq<Candidate> := [];
    var i := 0;
    while i < |items|
      invariant 0 <= i <= |items|
      invariant candidates == Candidates(policy, items[..i])
    {
      CandidatesNext(policy, items, i);
      var found := ItemCandidates(policy, items[i]);
      candidates := candidates + found;
      i := i + 1;
    }
    assert items[..i] == items;
    outcome := Returned(Top(candidates, limit));
  }
}
