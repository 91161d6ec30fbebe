/**
 * Fleet candidates: one current record per candidate and an append-only history of its transitions.
 *
 * `Next` is one store call on one candidate, the part both backends share; `InMemoryCandidateStore`
 * performs it on dictionaries, and `Exec` runs a whole sequence of calls from empty.
 */
module Candidates {
  import opened Common
  import opened Text
  import opened Timestamps

  datatype Status = New | Monitoring | Suppressed | Pending | Approved | Rejected | Resolved

  predicate Terminal(s: Status) {
    s.Approved? || s.Rejected? || s.Resolved?
  }

  /** The scoring facts one observation carries. */
  datatype Facts = Facts(monitoringOnly: bool, score: real, urgency: real, exposureUnits: int)

  datatype Record = Record(
    status: Status, facts: Facts, suppressionReason: Option<string>, suppressedUntil: Option<string>,
    decisionId: Option<string>, firstSeen: string, lastSeen: string, updatedAt: string)

  datatype Reason = Observed | StatusChanged | SuppressedBy | LinkedDecision

  /** A history entry before it is given its sequence number. */
  datatype Body = Body(reason: Reason, status: Status, facts: Facts, decisionId: Option<string>)

  datatype Entry = Entry(sequence: nat, body: Body)

  datatype Op =
    | Observe(facts: Facts, now: ValidInstant)
    | Suppress(reason: string, until: ValidInstant, now: ValidInstant)
    | Link(decisionId: string, now: ValidInstant)

  // ---- one call on one candidate ----

  function Fresh(facts: Facts): Status {
    if facts.monitoringOnly then Monitoring else New
  }

  function BaseRecord(facts: Facts, timestamp: string): Record {
    Record(Fresh(facts), facts, None, None, None, timestamp, timestamp, timestamp)
  }

  predicate Expired(r: Record, timestamp: string) {
    r.status.Suppressed? && r.suppressedUntil.Some? && r.suppressedUntil.value != "" && Le(r.suppressedUntil.value, timestamp)
  }

  function MergeObservation(existing: Record, facts: Facts, timestamp: string): Record {
    var lifted := Expired(existing, timestamp);
    Record(if lifted then Fresh(facts) else existing.status, facts,
           if lifted then None else existing.suppressionReason,
           if lifted then None else existing.suppressedUntil,
           existing.decisionId, existing.firstSeen, timestamp, timestamp)
  }

  predicate Linked(r: Record) {
    r.decisionId.Some? && r.decisionId.value != ""
  }

  /** A call with its instants rendered, as the store handles them. */
  datatype TextOp =
    | ObserveAt(facts: Facts, timestamp: string)
    | SuppressUntil(reason: string, until: string, timestamp: string)
    | LinkAt(decisionId: string, timestamp: string)

  function Rendered(op: Op): TextOp {
    match op
    case Observe(facts, now) => ObserveAt(facts, Render(now))
    case Suppress(reason, until, now) => SuppressUntil(reason, Render(until), Render(now))
    case Link(decisionId, now) => LinkAt(decisionId, Render(now))
  }

  /** The record after the call, and the reason to log if the call is a transition. */
  function NextText(record: Option<Record>, op: TextOp): (Option<Record>, Option<Reason>) {
    match op
    case ObserveAt(facts, timestamp) =>
      if record.None? then (Some(BaseRecord(facts, timestamp)), Some(Observed))
      else
        var merged := MergeObservation(record.value, facts, timestamp);
        (Some(merged), if merged.status == record.value.status then None else Some(StatusChanged))
    case SuppressUntil(reason, until, timestamp) =>
      if Strip(reason) == "" || record.None? || Terminal(record.value.status) || Linked(record.value) then (record, None)
      else
        (Some(record.value.(status := Suppressed, suppressionReason := Some(Strip(reason)),
                            suppressedUntil := Some(until), updatedAt := timestamp)),
         Some(SuppressedBy))
    case LinkAt(decisionId, timestamp) =>
      if Strip(decisionId) == "" || record.None? || Terminal(record.value.status) || Linked(record.value) then (record, None)
      else
        (Some(record.value.(decisionId := Some(decisionId), status := Pending, suppressionReason := None,
                            suppressedUntil := None, updatedAt := timestamp)),
         Some(LinkedDecision))
  }

  function Next(record: Option<Record>, op: Op): (Option<Record>, Option<Reason>) {
    NextText(record, Rendered(op))
  }

  function BodyOf(r: Record, reason: Reason): Body {
    Body(reason, r.status, r.facts, r.decisionId)
  }

  // ---- the in-memory store ----

  type Key = (string, string)

  class InMemoryCandidateHistory {
    var entries: map<Key, seq<Entry>>

    constructor ()
      ensures entries == map[]
    {
      entries := map[];
    }

    function Of(key: Key): seq<Entry>
      reads this
    {
      if key in entries then entries[key] else []
    }

    method Append(key: Key, record: Record, reason: Reason) returns (entry: Entry)
      modifies this
      ensures entry == Entry(|old(Of(key))| + 1, BodyOf(record, reason))
      ensures entries == old(entries)[key := old(Of(key)) + [entry]]
    {
      var existing := Of(key);
      entry := Entry(|existing| + 1, BodyOf(record, reason));
      entries := entries[key := existing + [entry]];
    }
  }

  datatype Outcome = BadArgument | Missing | Current(record: Record)

  class InMemoryCandidateStore {
    var records: map<Key, Record>
    const log: InMemoryCandidateHistory

    constructor ()
      ensures records == map[] && fresh(log) && log.entries == map[]
    {
      records := map[];
      log := new InMemoryCandidateHistory();
    }

    function Lookup(key: Key): Option<Record>
      reads this
    {
      if key in records then Some(records[key]) else None
    }

    /** The call did exactly `Next` to this candidate and its history, and nothing to any other. */
    twostate predicate Performed(key: Key, op: Op)
      reads this, log
    {
      var (record, reason) := Next(old(Lookup(key)), op);
      && Lookup(key) == record
      && records - {key} == old(records) - {key}
      && log.Of(key) == old(log.Of(key)) +
           (if record.Some? && reason.Some? then [Entry(|old(log.Of(key))| + 1, BodyOf(record.value, reason.value))] else [])
      && log.entries - {key} == old(log.entries) - {key}
    }

    method Upsert(key: Key, facts: Facts, now: ValidInstant) returns (r: Record)
      modifies this, log
      ensures Performed(key, Observe(facts, now)) && Lookup(key) == Some(r)
    {
      var timestamp := Render(now);
      r := BaseRecord(facts, timestamp);
      var reason: Option<Reason> := Some(Observed);
      if key in records {
        var existing := records[key];
        r := MergeObservation(existing, facts, timestamp);
        reason := if existing.status == r.status then None else Some(StatusChanged);
      }
      records := records[key := r];
      if reason.Some? {
        var _ := log.Append(key, r, reason.value);
      }
    }

    method SuppressCandidate(key: Key, reason: string, until: ValidInstant, now: ValidInstant) returns (r: Outcome)
      modifies this, log
      ensures Performed(key, Suppress(reason, until, now))
      ensures r == if Strip(reason) == "" then BadArgument else if Lookup(key).None? then Missing else Current(Lookup(key).value)
    {
      if Strip(reason) == "" {
        return BadArgument;
      }
      if key !in records {
        return Missing;
      }
      var record := records[key];
      if Terminal(record.status) || Linked(record) {
        return Current(record);
      }
      var updated := record.(status := Suppressed, suppressionReason := Some(Strip(reason)),
                             suppressedUntil := Some(Render(until)), updatedAt := Render(now));
      records := records[key := updated];
      var _ := log.Append(key, updated, SuppressedBy);
      return Current(updated);
    }

    method LinkDecision(key: Key, decisionId: string, now: ValidInstant) returns (r: Outcome)
      modifies this, log
      ensures Performed(key, Link(decisionId, now))
      ensures r == if Strip(decisionId) == "" then BadArgument else if Lookup(key).None? then Missing else Current(Lookup(key).value)
    {
      if Strip(decisionId) == "" {
        return BadArgument;
      }
      if key !in records {
        return Missing;
      }
      var record := records[key];
      if Terminal(record.status) {
        return Current(record);
      }
      if Linked(record) && record.decisionId.value != decisionId {
        return Current(record);
      }
      if record.decisionId == Some(decisionId) {
        assert Linked(record);
        return Current(record);
      }
      var updated := record.(decisionId := Some(decisionId), status := Pending, suppressionReason := None,
                             suppressedUntil := None, updatedAt := Render(now));
      records := records[key := updated];
      var _ := log.Append(key, updated, LinkedDecision);
      return Current(updated);
    }
  }

  // ---- runs ----

  datatype Candidate = Candidate(record: Option<Record>, history: seq<Entry>)

  /** The history entries a call adds, before numbering. */
  function NewBodies(next: (Option<Record>, Option<Reason>)): seq<Body> {
    if next.0.Some? && next.1.Some? then [BodyOf(next.0.value, next.1.value)] else []
  }

  function Log(c: Candidate, next: (Option<Record>, Option<Reason>)): Candidate {
    Candidate(next.0,
              if next.0.Some? && next.1.Some?
              then c.history + [Entry(|c.history| + 1, BodyOf(next.0.value, next.1.value))] else c.history)
  }

  function Apply(c: Candidate, op: Op): Candidate {
    Log(c, Next(c.record, op))
  }

  const EMPTY := Candidate(None, [])

  function Exec(ops: seq<Op>): Candidate {
    if ops == [] then EMPTY else Apply(Exec(ops[..|ops| - 1]), ops[|ops| - 1])
  }
}
