/**
 * What one call stores on a candidate, field by field, and what a record remembers over a whole run.
 */
module CandidateCalls {
  import opened Common
  import opened Text
  import opened Timestamps
  import opened Candidates
  import opened CandidateLifecycle

  predicate Open(r: Record) {
    r.status !in {Approved, Rejected, Resolved} && (r.decisionId == None || r.decisionId == Some(""))
  }

  // ---- one call ----

  /** The first observation creates the record and is logged. */
  lemma {:induction false} FirstObservation(facts: Facts, now: ValidInstant)
    ensures var (r, reason) := Next(None, Observe(facts, now));
            && reason == Some(Observed)
            && r == Some(Record(if facts.monitoringOnly then Monitoring else New, facts, None, None, None,
                                Render(now), Render(now), Render(now)))
  {
  }

  /** A later one renews the facts and the times; it ends a suppression that has run out and nothing else. */
  lemma {:induction false} LaterObservation(r: Record, facts: Facts, now: ValidInstant)
    ensures var (r', reason) := Next(Some(r), Observe(facts, now));
            var ends := r.status.Suppressed? && r.suppressedUntil.Some? && r.suppressedUntil.value != ""
                        && Compare(r.suppressedUntil.value, Render(now)) <= 0;
            && r'.Some?
            && r'.value.facts == facts && r'.value.firstSeen == r.firstSeen && r'.value.decisionId == r.decisionId
            && r'.value.lastSeen == Render(now) && r'.value.updatedAt == Render(now)
            && (if ends then
                  && r'.value.status == (if facts.monitoringOnly then Monitoring else New)
                  && r'.value.suppressionReason.None? && r'.value.suppressedUntil.None? && reason == Some(StatusChanged)
                else
                  && r'.value.status == r.status && r'.value.suppressionReason == r.suppressionReason
                  && r'.value.suppressedUntil == r.suppressedUntil && reason == None)
  {
  }

  /** A suppression stores its own expiry, not the current time, and the stripped reason. */
  lemma {:induction false} SuppressionStores(r: Record, reason: string, until: ValidInstant, now: ValidInstant)
    ensures Next(Some(r), Suppress(reason, until, now))
         == if Open(r) && Strip(reason) != "" then
              (Some(Record(Suppressed, r.facts, Some(Strip(reason)), Some(Render(until)), r.decisionId,
                           r.firstSeen, r.lastSeen, Render(now))),
               Some(SuppressedBy))
            else (Some(r), None)
  {
  }

  /** A link stores the id as given, clears any suppression and makes the record pending. */
  lemma {:induction false} LinkStores(r: Record, id: string, now: ValidInstant)
    ensures Next(Some(r), Link(id, now))
         == if Open(r) && Strip(id) != "" then
              (Some(Record(Pending, r.facts, None, None, Some(id), r.firstSeen, r.lastSeen, Render(now))),
               Some(LinkedDecision))
            else (Some(r), None)
  {
  }

  /** An unknown candidate stays unknown. */
  lemma {:induction false} UnknownStays(op: Op)
    ensures !op.Observe? ==> Next(None, op) == (None, None)
  {
  }

  // ---- a suppression over a run ----

  lemma {:induction false} ExecContinues(ops: seq<Op>, more: seq<Op>)
    ensures Exec(ops + more).record == Continue(Exec(ops).record, more)
    decreases |more|
  {
    if more == [] {
      assert ops + more == ops;
    } else {
      assert ops + more == (ops + [more[0]]) + more[1..];
      ExecContinues(ops + [more[0]], more[1..]);
      OneMore(ops, more[0]);
    }
  }

  /** Before the suppression: any run that has produced an open candidate. */
  predicate Suppressible(ops: seq<Op>) {
    Exec(ops).record.Some? && Open(Exec(ops).record.value)
  }

  lemma {:induction false} OpensWindow(ops: seq<Op>, reason: string, until: ValidInstant, now: ValidInstant)
    requires Suppressible(ops) && Strip(reason) != ""
    ensures var r := Exec(ops + [Suppress(reason, until, now)]).record;
            r.Some? && InWindow(r.value, until) && r.value.suppressionReason == Some(Strip(reason))
  {
    RunsKeepLifecycle(ops);
    OneMore(ops, Suppress(reason, until, now));
    SuppressionStores(Exec(ops).record.value, reason, until, now);
  }

  /**
   * In any run, after a suppression until `until`, calls that cannot end it leave the candidate suppressed
   * with that reason and that expiry, and the first observation at or after `until` lifts it.
   */
  lemma {:induction false} SuppressionLasts(
    ops: seq<Op>, reason: string, until: ValidInstant, now: ValidInstant, quiet: seq<Op>, facts: Facts, later: ValidInstant)
    requires Suppressible(ops) && Strip(reason) != ""
    requires forall i :: 0 <= i < |quiet| ==> Quiet(quiet[i], until)
    requires Micros(until) <= Micros(later)
    ensures var r := Exec(ops + [Suppress(reason, until, now)] + quiet).record;
            && r.Some? && r.value.status == Suppressed
            && r.value.suppressionReason == Some(Strip(reason)) && r.value.suppressedUntil == Some(Render(until))
    ensures var r := Exec(ops + [Suppress(reason, until, now)] + quiet + [Observe(facts, later)]).record;
            && r.Some? && r.value.status == (if facts.monitoringOnly then Monitoring else New)
            && r.value.suppressionReason.None? && r.value.suppressedUntil.None?
  {
    var suppressed := ops + [Suppress(reason, until, now)];
    OpensWindow(ops, reason, until, now);
    ExecContinues(suppressed, quiet);
    SuppressionHolds(Exec(suppressed).record.value, until, quiet);
    OneMore(suppressed + quiet, Observe(facts, later));
    WindowStep(Exec(suppressed + quiet).record.value, until, Observe(facts, later));
  }

  // ---- memory ----

  /** The observations of a run, in order. */
  function Observations(ops: seq<Op>): seq<Op> {
    if ops == [] then []
    else Observations(ops[..|ops| - 1]) + if ops[|ops| - 1].Observe? then [ops[|ops| - 1]] else []
  }

  predicate AllObserve(seen: seq<Op>) {
    forall i :: 0 <= i < |seen| ==> seen[i].Observe?
  }

  predicate Remembers(r: Option<Record>, seen: seq<Op>) {
    && AllObserve(seen)
    && (r.Some? <==> seen != [])
    && (r.Some? && seen != [] && seen[0].Observe? && seen[|seen| - 1].Observe? ==>
          && r.value.firstSeen == Render(seen[0].now)
          && r.value.lastSeen == Render(seen[|seen| - 1].now) && r.value.facts == seen[|seen| - 1].facts)
  }

  lemma {:induction false} ObservationRemembered(r: Option<Record>, seen: seq<Op>, op: Op)
    requires Remembers(r, seen) && op.Observe?
    ensures Remembers(Next(r, op).0, seen + [op])
  {
    FirstObservation(op.facts, op.now);
    if r.Some? {
      LaterObservation(r.value, op.facts, op.now);
    }
  }

  /** Suppressions and links leave the memory alone. */
  lemma {:induction false} MemoryUntouched(r: Option<Record>, op: Op)
    requires !op.Observe?
    ensures var r' := Next(r, op).0;
            && (r'.Some? <==> r.Some?)
            && (r.Some? && r'.Some? ==>
                  r'.value.firstSeen == r.value.firstSeen && r'.value.lastSeen == r.value.lastSeen && r'.value.facts == r.value.facts)
  {
    if r.None? {
      UnknownStays(op);
    } else if op.Suppress? {
      SuppressionStores(r.value, op.reason, op.until, op.now);
    } else {
      LinkStores(r.value, op.decisionId, op.now);
    }
  }

  lemma {:induction false} SameMemory(r: Option<Record>, r': Option<Record>, seen: seq<Op>)
    requires Remembers(r, seen) && (r'.Some? <==> r.Some?)
    requires r.Some? && r'.Some? ==>
               r'.value.firstSeen == r.value.firstSeen && r'.value.lastSeen == r.value.lastSeen && r'.value.facts == r.value.facts
    ensures Remembers(r', seen)
  {
  }

  lemma {:induction false} CallRemembers(r: Option<Record>, seen: seq<Op>, op: Op)
    requires Remembers(r, seen)
    ensures Remembers(Next(r, op).0, if op.Observe? then seen + [op] else seen)
  {
    if op.Observe? {
      ObservationRemembered(r, seen, op);
    } else {
      MemoryUntouched(r, op);
      SameMemory(r, Next(r, op).0, seen);
    }
  }

  lemma {:induction false} LastCall(ops: seq<Op>)
    requires ops != []
    ensures Exec(ops).record == Next(Exec(ops[..|ops| - 1]).record, ops[|ops| - 1]).0
    ensures var init, op := Observations(ops[..|ops| - 1]), ops[|ops| - 1];
            Observations(ops) == if op.Observe? then init + [op] else init
  {
  }

  /**
   * Over every run a candidate exists once it has been observed, carries the facts and the time of its last
   * observation, and the time of its first.
   */
  lemma {:induction false} RecordRemembers(ops: seq<Op>)
    ensures Remembers(Exec(ops).record, Observations(ops))
  {
    if ops != [] {
      RecordRemembers(ops[..|ops| - 1]);
      CallRemembers(Exec(ops[..|ops| - 1]).record, Observations(ops[..|ops| - 1]), ops[|ops| - 1]);
      LastCall(ops);
    }
  }
}
