/** What every run of the candidate store keeps: the lifecycle, the suppression window and the history. */
module CandidateLifecycle {
  import opened Common
  import opened Text
  import opened Timestamps
  import opened Candidates

  // ---- lifecycle ----

  predicate LifecycleOk(r: Record) {
    && !Terminal(r.status)
    && (r.status.Pending? <==> r.decisionId.Some?)
    && (r.status.Suppressed? <==> r.suppressionReason.Some?)
    && (r.status.Suppressed? <==> r.suppressedUntil.Some?)
    && (r.decisionId.Some? ==> Strip(r.decisionId.value) != "")
    && (r.suppressionReason.Some? ==> r.suppressionReason.value != "")
  }

  predicate LifecycleOkOpt(r: Option<Record>) {
    r.Some? ==> LifecycleOk(r.value)
  }

  lemma {:induction false} CallKeepsLifecycle(r: Option<Record>, op: TextOp)
    requires LifecycleOkOpt(r)
    ensures LifecycleOkOpt(NextText(r, op).0)
  {
  }

  /** Over every run from empty: pending exactly when linked, suppressed exactly with a reason and an expiry. */
  lemma {:induction false} RunsKeepLifecycle(ops: seq<Op>)
    ensures LifecycleOkOpt(Exec(ops).record)
  {
    if ops != [] {
      var prefix := ops[..|ops| - 1];
      RunsKeepLifecycle(prefix);
      CallKeepsLifecycle(Exec(prefix).record, Rendered(ops[|ops| - 1]));
    }
  }

  /** The calls of a run from a given record on. */
  function Continue(r: Option<Record>, ops: seq<Op>): Option<Record>
    decreases |ops|
  {
    if ops == [] then r else Continue(Next(r, ops[0]).0, ops[1..])
  }

  /** The link is written once: later observations, suppressions and links all leave it and the status alone. */
  lemma {:induction false} LinkIsWriteOnce(r: Record, ops: seq<Op>)
    requires LifecycleOk(r) && r.decisionId.Some?
    ensures Continue(Some(r), ops).Some?
         && Continue(Some(r), ops).value.decisionId == r.decisionId
         && Continue(Some(r), ops).value.status == Pending
    decreases |ops|
  {
    if ops != [] {
      LinkIsWriteOnce(Next(Some(r), ops[0]).0.value, ops[1..]);
    }
  }

  /** A record that is terminal, however it became so, is never reopened. */
  lemma {:induction false} TerminalIsNeverReopened(r: Record, ops: seq<Op>)
    requires Terminal(r.status)
    ensures Continue(Some(r), ops).Some? && Continue(Some(r), ops).value.status == r.status
    decreases |ops|
  {
    if ops != [] {
      TerminalIsNeverReopened(Next(Some(r), ops[0]).0.value, ops[1..]);
    }
  }

  // ---- the suppression window ----

  predicate InWindow(r: Record, until: ValidInstant) {
    r.status.Suppressed? && r.suppressedUntil == Some(Render(until)) && r.decisionId.None?
  }

  /** Calls that cannot end a suppression until `until`: earlier observations and refused arguments. */
  predicate Quiet(op: Op, until: ValidInstant) {
    match op
    case Observe(_, now) => Micros(now) < Micros(until)
    case Suppress(reason, _, _) => Strip(reason) == ""
    case Link(decisionId, _) => Strip(decisionId) == ""
  }

  lemma {:induction false} RenderIsNotEmpty(i: ValidInstant)
    ensures Render(i) != ""
  {
    assert |Digits(4, i.year)| == 4;
  }

  /** Within the window one call changes the status, reason or expiry exactly when it is not quiet. */
  lemma {:induction false} WindowStep(r: Record, until: ValidInstant, op: Op)
    requires InWindow(r, until)
    ensures var r' := Next(Some(r), op).0;
            && r'.Some?
            && (Quiet(op, until) ==> InWindow(r'.value, until) && r'.value.suppressionReason == r.suppressionReason
                                     && Next(Some(r), op).1.None?)
            && (!Quiet(op, until) ==> Next(Some(r), op).1.Some?)
            && (op.Observe? && !Quiet(op, until) ==>
                  r'.value.status == Fresh(op.facts) && r'.value.suppressionReason.None? && r'.value.suppressedUntil.None?)
  {
    RenderIsNotEmpty(until);
    if op.Observe? {
      ExpiryTestIsChronological(until, op.now);
    }
  }

  /** After a suppression until `until` only a link, a new suppression or an observation at or after it ends it. */
  lemma {:induction false} SuppressionHolds(r: Record, until: ValidInstant, ops: seq<Op>)
    requires InWindow(r, until) && forall i :: 0 <= i < |ops| ==> Quiet(ops[i], until)
    ensures Continue(Some(r), ops).Some? && InWindow(Continue(Some(r), ops).value, until)
         && Continue(Some(r), ops).value.suppressionReason == r.suppressionReason
    decreases |ops|
  {
    if ops != [] {
      WindowStep(r, until, ops[0]);
      SuppressionHolds(Next(Some(r), ops[0]).0.value, until, ops[1..]);
    }
  }

  // ---- history ----

  /** What an entry of each reason says: a fresh status follows the facts, a link names a decision. */
  predicate BodyOk(b: Body) {
    match b.reason
    case SuppressedBy => b.status.Suppressed? && b.decisionId.None?
    case LinkedDecision => b.status.Pending? && b.decisionId.Some? && Strip(b.decisionId.value) != ""
    case _ => b.status == Fresh(b.facts) && b.decisionId.None?
  }

  /** The edges of the lifecycle as the history shows them; any entry may carry new facts. */
  predicate Edge(a: Body, b: Body) {
    && a.status != Pending
    && b.reason != Observed
    && (b.reason.StatusChanged? ==> a.status.Suppressed?)
  }

  predicate IsPath(bodies: seq<Body>) {
    && (forall i :: 0 <= i < |bodies| ==> BodyOk(bodies[i]))
    && (bodies != [] ==> bodies[0].reason.Observed?)
    && (forall i :: 1 <= i < |bodies| ==> Edge(bodies[i - 1], bodies[i]))
  }

  function Bodies(history: seq<Entry>): seq<Body> {
    seq(|history|, i requires 0 <= i < |history| => history[i].body)
  }

  lemma {:induction false} LogAddsBodies(c: Candidate, next: (Option<Record>, Option<Reason>))
    ensures Bodies(Log(c, next).history) == Bodies(c.history) + NewBodies(next)
  {
  }

  predicate HistoryOk(c: Candidate) {
    && (c.record.Some? <==> c.history != [])
    && (forall i :: 0 <= i < |c.history| ==> c.history[i].sequence == i + 1)
    && IsPath(Bodies(c.history))
    && (c.record.Some? ==>
          var last := c.history[|c.history| - 1].body;
          LifecycleOk(c.record.value) && last.status == c.record.value.status && last.decisionId == c.record.value.decisionId)
  }

  /** A logged call takes an edge; an unlogged one leaves the status and the link alone. */
  lemma {:induction false} CallTakesEdge(r: Option<Record>, op: TextOp)
    requires LifecycleOkOpt(r)
    ensures var (r', reason) := NextText(r, op);
            && LifecycleOkOpt(r') && (r.Some? ==> r'.Some?)
            && (reason.None? ==> r'.Some? == r.Some?)
            && (reason.None? && r.Some? ==> r'.value.status == r.value.status && r'.value.decisionId == r.value.decisionId)
            && (reason.Some? ==> r'.Some? && BodyOk(BodyOf(r'.value, reason.value)))
            && (reason.Some? && r.None? ==> reason.value.Observed?)
            && (reason.Some? && r.Some? ==> forall b: Body :: b.status == r.value.status ==> Edge(b, BodyOf(r'.value, reason.value)))
  {
  }

  lemma {:induction false} LongerPath(bodies: seq<Body>, b: Body)
    requires IsPath(bodies) && BodyOk(b)
    requires if bodies == [] then b.reason.Observed? else Edge(bodies[|bodies| - 1], b)
    ensures IsPath(bodies + [b])
  {
  }

  lemma {:induction false} LogKeepsHistory(c: Candidate, op: TextOp)
    requires HistoryOk(c)
    ensures HistoryOk(Log(c, NextText(c.record, op)))
  {
    CallTakesEdge(c.record, op);
    var next := NextText(c.record, op);
    LogAddsBodies(c, next);
    if next.1.Some? {
      LongerPath(Bodies(c.history), BodyOf(next.0.value, next.1.value));
    }
  }

  lemma {:induction false} ApplyKeepsHistory(c: Candidate, op: Op)
    requires HistoryOk(c)
    ensures HistoryOk(Apply(c, op))
  {
    LogKeepsHistory(c, Rendered(op));
  }

  /** Over every run from empty the log is gap-free, follows the lifecycle and ends in the current record. */
  lemma {:induction false} HistoryFollowsLifecycle(ops: seq<Op>)
    ensures HistoryOk(Exec(ops))
  {
    if ops != [] {
      HistoryFollowsLifecycle(ops[..|ops| - 1]);
      ApplyKeepsHistory(Exec(ops[..|ops| - 1]), ops[|ops| - 1]);
    }
  }

  /** At most one link, nothing after it, and two equal statuses in a row only by suppressing again. */
  lemma {:induction false} PathShape(bodies: seq<Body>, i: nat, j: nat)
    requires IsPath(bodies) && i < j < |bodies|
    ensures bodies[i].reason != LinkedDecision
    ensures j == i + 1 && bodies[i].status == bodies[j].status ==>
              bodies[j].reason == SuppressedBy && bodies[i].status == Suppressed
    ensures bodies[j].reason != Observed
  {
    assert Edge(bodies[i], bodies[i + 1]);
    assert Edge(bodies[j - 1], bodies[j]);
    if i == 0 {
    } else {
      assert Edge(bodies[i - 1], bodies[i]);
    }
  }

  // ---- every path is the history of some run ----

  /** The record after entry `b`, when suppressions run until the text `late`. */
  predicate Reached(r: Option<Record>, b: Body, late: string) {
    && r.Some? && LifecycleOk(r.value) && r.value.status == b.status && r.value.decisionId == b.decisionId
    && (b.status.Suppressed? ==> r.value.suppressedUntil == Some(late))
  }

  /** An observation before the expiry brings the facts, a second call the suppression or the link. */
  function SecondCall(b: Body, late: string): TextOp {
    if b.reason.LinkedDecision? then LinkAt(OrElseEmpty(b.decisionId), late) else SuppressUntil("r", late, late)
  }

  function OrElseEmpty(text: Option<string>): string {
    if text.Some? then text.value else ""
  }

  predicate OneCall(b: Body) {
    b.reason.Observed? || b.reason.StatusChanged?
  }

  lemma {:induction false} FirstEntry(b: Body, late: string)
    requires BodyOk(b) && b.reason.Observed?
    ensures var next := NextText(None, ObserveAt(b.facts, late));
            NewBodies(next) == [b] && Reached(next.0, b, late)
  {
  }

  lemma {:induction false} LiftingEntry(r: Option<Record>, a: Body, b: Body, late: string)
    requires Reached(r, a, late) && BodyOk(b) && Edge(a, b) && b.reason.StatusChanged? && late != ""
    ensures var next := NextText(r, ObserveAt(b.facts, late));
            NewBodies(next) == [b] && Reached(next.0, b, late)
  {
    CompareEqual(late, late);
  }

  lemma {:induction false} SilentObservation(r: Option<Record>, a: Body, facts: Facts, early: string, late: string)
    requires Reached(r, a, late) && !Le(late, early)
    ensures var next := NextText(r, ObserveAt(facts, early));
            NewBodies(next) == [] && Reached(next.0, a, late) && next.0.value.facts == facts
  {
  }

  lemma {:induction false} SecondEntry(r: Option<Record>, a: Body, b: Body, late: string)
    requires Reached(r, a, late) && BodyOk(b) && Edge(a, b) && !OneCall(b) && r.value.facts == b.facts
    ensures var next := NextText(r, SecondCall(b, late));
            NewBodies(next) == [b] && Reached(next.0, b, late)
  {
    assert Strip("r") == "r";
  }

  lemma {:induction false} OneMore(ops: seq<Op>, op: Op)
    ensures var next := Next(Exec(ops).record, op);
            && Exec(ops + [op]).record == next.0
            && Bodies(Exec(ops + [op]).history) == Bodies(Exec(ops).history) + NewBodies(next)
  {
    assert (ops + [op])[..|ops|] == ops;
    LogAddsBodies(Exec(ops), Next(Exec(ops).record, op));
  }

  function SecondOp(b: Body, late: ValidInstant): Op {
    if b.reason.LinkedDecision? then Link(OrElseEmpty(b.decisionId), late) else Suppress("r", late, late)
  }

  /** Two calls that log exactly `b`. */
  lemma {:induction false} TwoCalls(ops: seq<Op>, a: Body, b: Body, early: ValidInstant, late: ValidInstant) returns (ops': seq<Op>)
    requires Micros(early) < Micros(late)
    requires Reached(Exec(ops).record, a, Render(late)) && BodyOk(b) && Edge(a, b) && !OneCall(b)
    ensures Reached(Exec(ops').record, b, Render(late))
    ensures Bodies(Exec(ops').history) == Bodies(Exec(ops).history) + [b]
  {
    ExpiryTestIsChronological(late, early);
    OneMore(ops, Observe(b.facts, early));
    SilentObservation(Exec(ops).record, a, b.facts, Render(early), Render(late));
    var mid := ops + [Observe(b.facts, early)];
    OneMore(mid, SecondOp(b, late));
    SecondEntry(Exec(mid).record, a, b, Render(late));
    assert Rendered(SecondOp(b, late)) == SecondCall(b, Render(late));
    ops' := mid + [SecondOp(b, late)];
  }

  lemma {:induction false} LiftingCall(ops: seq<Op>, a: Body, b: Body, late: ValidInstant) returns (ops': seq<Op>)
    requires Reached(Exec(ops).record, a, Render(late)) && BodyOk(b) && Edge(a, b) && OneCall(b)
    ensures Reached(Exec(ops').record, b, Render(late))
    ensures Bodies(Exec(ops').history) == Bodies(Exec(ops).history) + [b]
  {
    RenderIsNotEmpty(late);
    OneMore(ops, Observe(b.facts, late));
    LiftingEntry(Exec(ops).record, a, b, Render(late));
    ops' := ops + [Observe(b.facts, late)];
  }

  lemma {:induction false} NextEntry(ops: seq<Op>, a: Body, b: Body, early: ValidInstant, late: ValidInstant) returns (ops': seq<Op>)
    requires Micros(early) < Micros(late)
    requires Reached(Exec(ops).record, a, Render(late)) && BodyOk(b) && Edge(a, b)
    ensures Reached(Exec(ops').record, b, Render(late))
    ensures Bodies(Exec(ops').history) == Bodies(Exec(ops).history) + [b]
  {
    if OneCall(b) {
      ops' := LiftingCall(ops, a, b, late);
    } else {
      ops' := TwoCalls(ops, a, b, early, late);
    }
  }

  lemma {:induction false} FirstCall(b: Body, late: ValidInstant) returns (ops: seq<Op>)
    requires BodyOk(b) && b.reason.Observed?
    ensures Reached(Exec(ops).record, b, Render(late)) && Bodies(Exec(ops).history) == [b]
  {
    OneMore([], Observe(b.facts, late));
    FirstEntry(b, Render(late));
    ops := [] + [Observe(b.facts, late)];
  }

  lemma {:induction false} ShorterPath(bodies: seq<Body>)
    requires IsPath(bodies) && bodies != []
    ensures IsPath(bodies[..|bodies| - 1])
  {
    var init := bodies[..|bodies| - 1];
    forall i | 1 <= i < |init| ensures Edge(init[i - 1], init[i]) {
      assert Edge(bodies[i - 1], bodies[i]);
    }
  }

  lemma {:induction false} LastEdge(bodies: seq<Body>)
    requires IsPath(bodies) && |bodies| > 1
    ensures BodyOk(bodies[|bodies| - 1]) && Edge(bodies[|bodies| - 2], bodies[|bodies| - 1])
    ensures bodies == bodies[..|bodies| - 1] + [bodies[|bodies| - 1]]
  {
    var i := |bodies| - 1;
    assert Edge(bodies[i - 1], bodies[i]);
  }

  lemma {:induction false} PathStep(bodies: seq<Body>, shorter: seq<Op>, early: ValidInstant, late: ValidInstant) returns (ops: seq<Op>)
    requires IsPath(bodies) && |bodies| > 1 && Micros(early) < Micros(late)
    requires Bodies(Exec(shorter).history) == bodies[..|bodies| - 1]
    requires Reached(Exec(shorter).record, bodies[|bodies| - 2], Render(late))
    ensures Bodies(Exec(ops).history) == bodies && Reached(Exec(ops).record, bodies[|bodies| - 1], Render(late))
  {
    LastEdge(bodies);
    ops := NextEntry(shorter, bodies[|bodies| - 2], bodies[|bodies| - 1], early, late);
  }

  /** Every path, its facts and decision ids included, is the history of a run from empty. */
  lemma {:induction false} EveryPathIsAHistory(bodies: seq<Body>, early: ValidInstant, late: ValidInstant) returns (ops: seq<Op>)
    requires IsPath(bodies) && Micros(early) < Micros(late)
    ensures Bodies(Exec(ops).history) == bodies
    ensures bodies != [] ==> Reached(Exec(ops).record, bodies[|bodies| - 1], Render(late))
  {
    if bodies == [] {
      ops := [];
    } else if |bodies| == 1 {
      ops := FirstCall(bodies[0], late);
    } else {
      ShorterPath(bodies);
      ops := EveryPathIsAHistory(bodies[..|bodies| - 1], early, late);
      ops := PathStep(bodies, ops, early, late);
    }
  }

  /** The histories that runs from empty leave are exactly the paths of the lifecycle graph. */
  lemma {:induction false} HistoriesArePaths(bodies: seq<Body>)
    ensures (exists ops :: Bodies(Exec(ops).history) == bodies) <==> IsPath(bodies)
  {
    if ops :| Bodies(Exec(ops).history) == bodies {
      HistoryFollowsLifecycle(ops);
    }
    if IsPath(bodies) {
      var early := Instant(1, 1, 1, 0, 0, 0, 0);
      var ops := EveryPathIsAHistory(bodies, early, early.(micro := 1));
    }
  }
}
