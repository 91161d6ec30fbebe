/**
 * Human-in-the-loop decisions: the record, and what one uninterrupted call of the store does to it.
 *
 * `Merge`, `Reviewed` and `Annotate` compute the payload a call stores; `UpsertSpec` and
 * `TransitionSpec` are the whole calls as the lock-protected store performs them. The
 * interleaved Postgres store is in module `DecisionProtocol`.
 */
module Decisions {
  import opened Common

  /** `Other` is any status string beside the three the approval loop names; "" is an absent status. */
  datatype Status = Pending | Approved | Rejected | Other(text: string)

  predicate Terminal(s: Status) {
    s.Approved? || s.Rejected?
  }

  datatype Verdict = Approve | Reject

  function VerdictStatus(v: Verdict): Status {
    if v.Approve? then Approved else Rejected
  }

  datatype Review = Review(reviewer: string, status: Status, reviewedAt: string)

  /** The sink's idempotency key; the third component, the decision id, is fixed in the model. */
  datatype TaskKey = TaskKey(tenant: string, domain: string)

  /** `tenant` is "" when no tenant is stamped; `notes` holds the remaining annotations. */
  datatype Decision = Decision(
    status: Status, review: Option<Review>, tenant: string, domain: string,
    writeBack: Option<TaskKey>, notes: map<string, string>)

  /** What a cascade hands to `upsert`: absent keys leave the stored value in place. */
  datatype Offer = Offer(
    status: Option<Status>, review: Option<Option<Review>>, tenant: Option<string>,
    domain: Option<string>, notes: map<string, string>)

  const DEFAULT_DOMAIN := "world_simulation"

  function OrElse<T>(x: Option<T>, default: T): T {
    if x.Some? then x.value else default
  }

  function Merge(existing: Option<Decision>, offer: Offer): Decision {
    var base := OrElse(existing, Decision(Other(""), None, "", DEFAULT_DOMAIN, None, map[]));
    Decision(OrElse(offer.status, base.status), OrElse(offer.review, base.review),
             OrElse(offer.tenant, base.tenant), OrElse(offer.domain, base.domain),
             base.writeBack, base.notes + offer.notes)
  }

  function Reviewed(d: Decision, v: Verdict, reviewer: string, at: string): Decision {
    d.(status := VerdictStatus(v), review := Some(Review(reviewer, VerdictStatus(v), at)))
  }

  /** Fields that name no part of the record but annotations. */
  function Notes(notes: map<string, string>): Offer {
    Offer(None, None, None, None, notes)
  }

  /** `annotate` overwrites whatever it names, the status and the review included. */
  function Annotate(d: Decision, fields: Offer, writeBack: Option<TaskKey>): Decision {
    Decision(OrElse(fields.status, d.status), OrElse(fields.review, d.review), OrElse(fields.tenant, d.tenant),
             OrElse(fields.domain, d.domain), if writeBack.Some? then writeBack else d.writeBack, d.notes + fields.notes)
  }

  function UpsertSpec(current: Option<Decision>, offer: Offer): Decision {
    if current.Some? && Terminal(current.value.status) then current.value else Merge(current, offer)
  }

  /** Both the new row and the value `_transition` returns. */
  function TransitionSpec(current: Option<Decision>, v: Verdict, reviewer: string, at: string): Option<Decision> {
    if current.None? || Terminal(current.value.status) then current
    else Some(Reviewed(current.value, v, reviewer, at))
  }

  datatype Outcome<+T> = Ok(value: T) | MissingId

  /** The process-local store: one dictionary, every call under one lock. */
  class InMemoryDecisionStore {
    var decisions: map<string, Decision>

    constructor ()
      ensures decisions == map[]
    {
      decisions := map[];
    }

    function Lookup(id: string): Option<Decision>
      reads this
    {
      if id in decisions then Some(decisions[id]) else None
    }

    method Upsert(id: string, offer: Offer) returns (r: Outcome<Decision>)
      modifies this
      ensures id == "" ==> r == MissingId && decisions == old(decisions)
      ensures id != "" ==>
        && r == Ok(UpsertSpec(old(Lookup(id)), offer))
        && decisions == old(decisions)[id := r.value]
    {
      if id == "" {
        return MissingId;
      }
      if id in decisions && Terminal(decisions[id].status) {
        assert decisions == decisions[id := decisions[id]];
        return Ok(decisions[id]);
      }
      var record := Merge(Lookup(id), offer);
      decisions := decisions[id := record];
      return Ok(record);
    }

    method AnnotateRecord(id: string, fields: Offer, writeBack: Option<TaskKey>)
      returns (r: Option<Decision>)
      modifies this
      ensures old(Lookup(id)).None? ==> r == None && decisions == old(decisions)
      ensures old(Lookup(id)).Some? ==>
        && r == Some(Annotate(old(Lookup(id)).value, fields, writeBack))
        && decisions == old(decisions)[id := r.value]
    {
      if id !in decisions {
        return None;
      }
      var updated := Annotate(decisions[id], fields, writeBack);
      decisions := decisions[id := updated];
      return Some(updated);
    }

    method Transition(id: string, v: Verdict, reviewer: string, now: string) returns (r: Option<Decision>)
      modifies this
      ensures r == TransitionSpec(old(Lookup(id)), v, reviewer, now)
      ensures decisions == if r.Some? then old(decisions)[id := r.value] else old(decisions)
    {
      if id !in decisions {
        return None;
      }
      if Terminal(decisions[id].status) {
        assert decisions == decisions[id := decisions[id]];
        return Some(decisions[id]);
      }
      var updated := Reviewed(decisions[id], v, reviewer, now);
      decisions := decisions[id := updated];
      return Some(updated);
    }
  }

  /** The part of a decision the approval loop promises to protect. */
  datatype Verdicted = Verdicted(status: Status, review: Option<Review>)

  function Project(d: Option<Decision>): Option<Verdicted> {
    if d.None? then None else Some(Verdicted(d.value.status, d.value.review))
  }

  datatype Call = UpsertCall(offer: Offer) | ReviewCall(v: Verdict, reviewer: string, at: string)
                | AnnotateCall(fields: Offer, writeBack: Option<TaskKey>)

  function CallSpec(d: Option<Decision>, c: Call): Option<Decision> {
    match c
    case UpsertCall(offer) => Some(UpsertSpec(d, offer))
    case ReviewCall(v, reviewer, at) => TransitionSpec(d, v, reviewer, at)
    case AnnotateCall(fields, wb) => if d.None? then None else Some(Annotate(d.value, fields, wb))
  }

  function CallsSpec(d: Option<Decision>, calls: seq<Call>): Option<Decision>
    decreases |calls|
  {
    if calls == [] then d else CallsSpec(CallSpec(d, calls[0]), calls[1..])
  }

  /** The call names no other verdict: only an annotation could. */
  predicate KeepsVerdict(c: Call, d: Decision) {
    c.AnnotateCall? ==> OrElse(c.fields.status, d.status) == d.status && OrElse(c.fields.review, d.review) == d.review
  }

  /** A call changes the verdict of a terminal record exactly when it is an annotation that names another one. */
  lemma {:induction false} TerminalCall(d: Option<Decision>, c: Call)
    requires d.Some? && Terminal(d.value.status)
    ensures Project(CallSpec(d, c)) == Project(d) <==> KeepsVerdict(c, d.value)
  {
  }

  lemma {:induction false} TerminalCallsKeepVerdict(d: Option<Decision>, calls: seq<Call>)
    requires d.Some? && Terminal(d.value.status)
    requires forall i :: 0 <= i < |calls| ==> KeepsVerdict(calls[i], d.value)
    ensures Project(CallsSpec(d, calls)) == Project(d)
    decreases |calls|
  {
    if calls != [] {
      assert KeepsVerdict(calls[0], d.value);
      TerminalCallsKeepVerdict(CallSpec(d, calls[0]), calls[1..]);
    }
  }

  /** Repeat clicks are harmless: after the first review, no calls but an annotation of another verdict change it. */
  lemma {:induction false} FirstReviewIsFinal(
    d: Option<Decision>, v: Verdict, reviewer: string, at: string, calls: seq<Call>)
    requires d.Some?
    requires forall i :: 0 <= i < |calls| ==> KeepsVerdict(calls[i], TransitionSpec(d, v, reviewer, at).value)
    ensures Project(CallsSpec(CallSpec(d, ReviewCall(v, reviewer, at)), calls))
         == Project(TransitionSpec(d, v, reviewer, at))
    ensures Terminal(TransitionSpec(d, v, reviewer, at).value.status)
  {
    TerminalCallsKeepVerdict(TransitionSpec(d, v, reviewer, at), calls);
  }

  /** The call writes annotation `key`. */
  predicate Writes(c: Call, key: string) {
    (c.UpsertCall? && key in c.offer.notes) || (c.AnnotateCall? && key in c.fields.notes)
  }

  /** Under the lock an annotation stays until a later call writes the same key. */
  lemma {:induction false} NotesSurvive(d: Option<Decision>, calls: seq<Call>, key: string)
    requires d.Some? && key in d.value.notes
    requires forall i :: 0 <= i < |calls| ==> !Writes(calls[i], key)
    ensures CallsSpec(d, calls).Some? && key in CallsSpec(d, calls).value.notes
    ensures CallsSpec(d, calls).value.notes[key] == d.value.notes[key]
    decreases |calls|
  {
    if calls != [] {
      assert !Writes(calls[0], key);
      NotesSurvive(CallSpec(d, calls[0]), calls[1..], key);
    }
  }

  // ---- what a call stores, field by field ----

  /** An upsert stores each field its offer names and each annotation it carries, and keeps the others. */
  lemma {:induction false} UpsertStores(d: Decision, offer: Offer, key: string)
    ensures var u := UpsertSpec(Some(d), offer);
            if d.status in {Approved, Rejected} then u == d
            else
              && u.status == (if offer.status.Some? then offer.status.value else d.status)
              && u.review == (if offer.review.Some? then offer.review.value else d.review)
              && u.tenant == (if offer.tenant.Some? then offer.tenant.value else d.tenant)
              && u.domain == (if offer.domain.Some? then offer.domain.value else d.domain)
              && u.writeBack == d.writeBack
              && (key in u.notes <==> key in offer.notes || key in d.notes)
              && (key in u.notes ==> u.notes[key] == if key in offer.notes then offer.notes[key] else d.notes[key])
  {
  }

  /** The first upsert of an id starts from no status, no review, no tenant and the simulated world. */
  lemma {:induction false} FirstUpsertStores(offer: Offer)
    ensures var u := UpsertSpec(None, offer);
            && u.status == (if offer.status.Some? then offer.status.value else Other(""))
            && u.review == (if offer.review.Some? then offer.review.value else None)
            && u.tenant == (if offer.tenant.Some? then offer.tenant.value else "")
            && u.domain == (if offer.domain.Some? then offer.domain.value else "world_simulation")
            && u.writeBack.None? && u.notes == offer.notes
  {
  }

  /** An annotation stores each field it names and keeps the others, whatever the status is. */
  lemma {:induction false} AnnotationStores(d: Decision, fields: Offer, task: Option<TaskKey>, key: string)
    ensures var u := Annotate(d, fields, task);
            && u.status == (if fields.status.Some? then fields.status.value else d.status)
            && u.review == (if fields.review.Some? then fields.review.value else d.review)
            && u.tenant == (if fields.tenant.Some? then fields.tenant.value else d.tenant)
            && u.domain == (if fields.domain.Some? then fields.domain.value else d.domain)
            && u.writeBack == (if task.Some? then task else d.writeBack)
            && (key in u.notes <==> key in fields.notes || key in d.notes)
            && (key in u.notes ==> u.notes[key] == if key in fields.notes then fields.notes[key] else d.notes[key])
  {
  }

  /** A review of a decision that has no verdict stores its own, with reviewer and time, and nothing else. */
  lemma {:induction false} ReviewStores(d: Decision, v: Verdict, reviewer: string, at: string)
    ensures var status := if v.Approve? then Approved else Rejected;
            && TransitionSpec(Some(d), v, reviewer, at)
               == Some(if d.status in {Approved, Rejected} then d
                       else Decision(status, Some(Review(reviewer, status, at)), d.tenant, d.domain, d.writeBack, d.notes))
    ensures TransitionSpec(None, v, reviewer, at) == None
  {
  }
}
