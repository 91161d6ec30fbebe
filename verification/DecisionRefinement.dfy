/**
 * The interleaved Postgres store refines the lock-protected in-memory store on (status, review).
 *
 * Every upsert and every review takes effect at one of its own steps; `Calls` lists those effects
 * in order as calls of the in-memory store.
 */
module DecisionRefinement {
  import opened Common
  import opened Decisions
  import opened DecisionProtocol
  import opened DecisionSafety

  datatype Tagged = Tagged(pid: nat, call: Call)

  /** An upsert that names the status and review it wrote. */
  function PutCall(record: Decision): Call {
    UpsertCall(Offer(Some(record.status), Some(record.review), None, None, map[]))
  }

  /** The in-memory call, if any, that takes effect when a request takes its next step. */
  function EffectOf(row: Option<Row>, p: Proc, now: string): Option<Call> {
    if p.pc.UpsertWrite? then Some(PutCall(p.pc.record))
    else if p.pc.TransitionRead? && p.req.ReviewRequest? && (row.None? || Terminal(row.value.payload.status))
    then Some(ReviewCall(p.req.v, p.req.reviewer, now))
    else if p.pc.TransitionUpdate? && p.req.ReviewRequest? && p.pc.updated.review.Some?
    then Some(ReviewCall(p.req.v, p.req.reviewer, p.pc.updated.review.value.reviewedAt))
    else None
  }

  function CallOf(s: State, e: Event): Option<Call> {
    if e.Step? && e.pid in s.procs then EffectOf(s.row, s.procs[e.pid], e.now) else None
  }

  function Calls(events: seq<Event>): seq<Tagged> {
    if events == [] then [] else
      var prefix, e := events[..|events| - 1], events[|events| - 1];
      var c := CallOf(Exec(prefix), e);
      if c.Some? then Calls(prefix) + [Tagged(e.pid, c.value)] else Calls(prefix)
  }

  /** The in-memory store after these calls, from empty. */
  function Atomic(calls: seq<Tagged>): Option<Decision> {
    if calls == [] then None
    else CallSpec(Atomic(calls[..|calls| - 1]), calls[|calls| - 1].call)
  }

  predicate OnlyCall(calls: seq<Tagged>, pid: nat, i: nat) {
    i < |calls| && calls[i].pid == pid && forall j :: 0 <= j < |calls| && calls[j].pid == pid ==> j == i
  }

  predicate NoCall(calls: seq<Tagged>, pid: nat) {
    forall j :: 0 <= j < |calls| ==> calls[j].pid != pid
  }

  /** Call `i` is the request's one effect, and it fixed the verdict the request reports. */
  predicate TookEffectAt(row: Option<Row>, calls: seq<Tagged>, pid: nat, p: Proc, i: nat)
    requires p.req.ReviewRequest?
  {
    && OnlyCall(calls, pid, i)
    && calls[i].call.ReviewCall? && calls[i].call.v == p.req.v && calls[i].call.reviewer == p.req.reviewer
    && var d := Atomic(calls[..i + 1]);
       if d.None? then p.pc == Done(None)
       else Terminal(d.value.status) && Project(d) == Project(Payload(row)) && p.pc != Done(None)
  }

  /** Before its effect, or refused by the ownership guard and so without one. */
  predicate Waiting(p: Proc) {
    p.pc.GuardRead? || p.pc.Refused? || p.pc.TransitionRead? || p.pc.TransitionUpdate?
  }

  ghost predicate Tracked(row: Option<Row>, calls: seq<Tagged>, pid: nat, p: Proc) {
    p.req.ReviewRequest? ==>
      if Waiting(p) then NoCall(calls, pid) else exists i :: TookEffectAt(row, calls, pid, p, i)
  }

  ghost predicate Simulates(s: State, calls: seq<Tagged>) {
    && Project(Payload(s.row)) == Project(Atomic(calls))
    && (forall pid :: pid in s.procs ==> Tracked(s.row, calls, pid, s.procs[pid]))
    && (forall j :: 0 <= j < |calls| ==> calls[j].pid in s.procs)
  }

  /** The verdict of a call that names both fields depends only on the verdict before it. */
  lemma {:induction false} CallRespectsProject(d: Option<Decision>, d': Option<Decision>, c: Call)
    requires Project(d) == Project(d')
    requires c.ReviewCall? || (c.UpsertCall? && c.offer.status.Some? && c.offer.review.Some?)
    ensures Project(CallSpec(d, c)) == Project(CallSpec(d', c))
  {
  }

  lemma {:induction false} AtomicSnoc(calls: seq<Tagged>, t: Tagged)
    ensures Atomic(calls + [t]) == CallSpec(Atomic(calls), t.call)
  {
    assert (calls + [t])[..|calls|] == calls;
  }

  function Emit(calls: seq<Tagged>, s: State, e: Event): seq<Tagged> {
    var c := CallOf(s, e);
    if c.Some? then calls + [Tagged(e.pid, c.value)] else calls
  }

  lemma {:induction false} AdvanceVerdict(row: Option<Row>, tasks: map<TaskKey, Option<Receipt>>, p: Proc, now: string)
    requires RowOk(row, tasks) && ProcOk(row, tasks, p)
    ensures var row' := Advance(row, tasks, p, now).0;
            var c := EffectOf(row, p, now);
            Project(Payload(row')) == Project(if c.Some? then CallSpec(Payload(row), c.value) else Payload(row))
  {
  }

  lemma {:induction false} VerdictFollows(s: State, e: Event, calls: seq<Tagged>)
    requires Inv(s) && Offers(e, LIFECYCLE) && Project(Payload(s.row)) == Project(Atomic(calls))
    ensures Project(Payload(Apply(s, e).row)) == Project(Atomic(Emit(calls, s, e)))
  {
    if e.Step? && e.pid in s.procs {
      AdvanceVerdict(s.row, s.tasks, s.procs[e.pid], e.now);
      var c := CallOf(s, e);
      if c.Some? {
        AtomicSnoc(calls, Tagged(e.pid, c.value));
        CallRespectsProject(Payload(s.row), Atomic(calls), c.value);
      }
    }
  }

  /** How the program counter of a review moves around its effect. */
  lemma {:induction false} ReviewProgress(row: Option<Row>, tasks: map<TaskKey, Option<Receipt>>, p: Proc, now: string)
    requires RowOk(row, tasks) && ProcOk(row, tasks, p) && p.req.ReviewRequest?
    ensures var (row', _, pc') := Advance(row, tasks, p, now);
            var p' := p.(pc := pc');
            if EffectOf(row, p, now).Some? then
              Waiting(p) && !Waiting(p') && if row'.None? then pc' == Done(None) else TerminalRow(row') && pc' != Done(None)
            else if Waiting(p) then Waiting(p')
            else !Waiting(p') && (row.None? || p.pc == Done(None) || pc' != Done(None)) && (p.pc.Done? ==> pc' == p.pc)
  {
  }

  /** A request that takes no step keeps its recorded effect. */
  lemma {:induction false} BystanderTracked(s: State, e: Event, calls: seq<Tagged>, pid: nat)
    requires Inv(s) && Offers(e, LIFECYCLE) && pid in s.procs && e.pid != pid
    requires Tracked(s.row, calls, pid, s.procs[pid])
    ensures Tracked(Apply(s, e).row, Emit(calls, s, e), pid, s.procs[pid])
  {
    var p := s.procs[pid];
    if p.req.ReviewRequest? && !Waiting(p) {
      var i :| TookEffectAt(s.row, calls, pid, p, i);
      ApplySafe(s, e);
      assert Emit(calls, s, e)[..i + 1] == calls[..i + 1];
      assert TookEffectAt(Apply(s, e).row, Emit(calls, s, e), pid, p, i);
    }
  }

  lemma {:induction false} ActorTracked(row: Option<Row>, tasks: map<TaskKey, Option<Receipt>>, p: Proc, now: string,
                     calls: seq<Tagged>, calls': seq<Tagged>, pid: nat)
    requires RowOk(row, tasks) && ProcOk(row, tasks, p)
    requires Tracked(row, calls, pid, p)
    requires calls' == if EffectOf(row, p, now).Some? then calls + [Tagged(pid, EffectOf(row, p, now).value)] else calls
    requires Project(Payload(Advance(row, tasks, p, now).0)) == Project(Atomic(calls'))
    ensures var (row', _, pc') := Advance(row, tasks, p, now);
            Tracked(row', calls', pid, p.(pc := pc'))
  {
    if p.req.ReviewRequest? {
      var (row', _, pc') := Advance(row, tasks, p, now);
      var p' := p.(pc := pc');
      AdvanceSafe(row, tasks, p, now);
      ReviewProgress(row, tasks, p, now);
      if EffectOf(row, p, now).Some? {
        assert calls'[..|calls| + 1] == calls';
        assert TookEffectAt(row', calls', pid, p', |calls|);
      } else if !Waiting(p) {
        var i :| TookEffectAt(row, calls, pid, p, i);
        assert TookEffectAt(row', calls', pid, p', i);
      }
    }
  }

  /** A request that has just begun has had no effect. */
  lemma {:induction false} NewcomerTracked(s: State, e: Event, calls: seq<Tagged>)
    requires e.Begin? && e.pid !in s.procs && forall j :: 0 <= j < |calls| ==> calls[j].pid in s.procs
    ensures Tracked(s.row, calls, e.pid, Proc(e.req, StartPc(e.req)))
  {
  }

  lemma {:induction false} EachTracked(s: State, e: Event, calls: seq<Tagged>, pid: nat)
    requires Inv(s) && Offers(e, LIFECYCLE) && Simulates(s, calls) && pid in Apply(s, e).procs
    requires Project(Payload(Apply(s, e).row)) == Project(Atomic(Emit(calls, s, e)))
    ensures Tracked(Apply(s, e).row, Emit(calls, s, e), pid, Apply(s, e).procs[pid])
  {
    if pid !in s.procs {
      NewcomerTracked(s, e, calls);
    } else if e.pid != pid {
      BystanderTracked(s, e, calls, pid);
    } else if e.Step? {
      ActorTracked(s.row, s.tasks, s.procs[pid], e.now, calls, Emit(calls, s, e), pid);
    }
  }

  lemma {:induction false} StepSimulates(s: State, e: Event, calls: seq<Tagged>)
    requires Inv(s) && Offers(e, LIFECYCLE) && Simulates(s, calls)
    ensures Simulates(Apply(s, e), Emit(calls, s, e))
  {
    VerdictFollows(s, e, calls);
    forall pid | pid in Apply(s, e).procs
      ensures Tracked(Apply(s, e).row, Emit(calls, s, e), pid, Apply(s, e).procs[pid])
    {
      EachTracked(s, e, calls, pid);
    }
  }

  lemma {:induction false} RunSimulates(events: seq<Event>)
    requires RunOffers(events, LIFECYCLE)
    ensures Simulates(Exec(events), Calls(events))
  {
    if events != [] {
      var prefix := events[..|events| - 1];
      RunSimulates(prefix);
      ReachableInv(prefix);
      StepSimulates(Exec(prefix), events[|events| - 1], Calls(prefix));
    }
  }

  lemma {:induction false} AnswerIsEffect(s: State, calls: seq<Tagged>, pid: nat) returns (i: nat)
    requires Inv(s) && Simulates(s, calls)
    requires pid in s.procs && s.procs[pid].req.ReviewRequest? && s.procs[pid].pc.Done?
    ensures OnlyCall(calls, pid, i) && Project(s.procs[pid].pc.answer) == Project(Atomic(calls[..i + 1]))
  {
    var p := s.procs[pid];
    assert ProcOk(s.row, s.tasks, p) && Tracked(s.row, calls, pid, p);
    i :| TookEffectAt(s.row, calls, pid, p, i);
  }

  /**
   * Refinement: the row's verdict is the one the in-memory store reaches by the effects in order, and each
   * finished review had exactly one effect and reports what the in-memory store returned for it.
   */
  lemma {:induction false} ReviewsLinearize(events: seq<Event>, pid: nat)
    requires RunOffers(events, LIFECYCLE)
    requires pid in Exec(events).procs
    requires Exec(events).procs[pid].req.ReviewRequest? && Exec(events).procs[pid].pc.Done?
    ensures Project(Payload(Exec(events).row)) == Project(Atomic(Calls(events)))
    ensures exists i ::
      && OnlyCall(Calls(events), pid, i)
      && Project(Exec(events).procs[pid].pc.answer) == Project(Atomic(Calls(events)[..i + 1]))
  {
    RunSimulates(events);
    ReachableInv(events);
    var i := AnswerIsEffect(Exec(events), Calls(events), pid);
  }

  /** A review that the ownership guard refused has had no effect at all. */
  lemma {:induction false} RefusedHasNoEffect(events: seq<Event>, pid: nat)
    requires RunOffers(events, LIFECYCLE)
    requires pid in Exec(events).procs && Exec(events).procs[pid].pc.Refused?
    ensures NoCall(Calls(events), pid)
  {
    RunSimulates(events);
    ReachableInv(events);
    assert ProcOk(Exec(events).row, Exec(events).tasks, Exec(events).procs[pid]);
    assert Tracked(Exec(events).row, Calls(events), pid, Exec(events).procs[pid]);
  }

  /** Among any number of racing approvals and rejections, every completed call reports the same verdict. */
  lemma {:induction false} RacingReviewsAgree(events: seq<Event>, p: nat, q: nat)
    requires RunOffers(events, LIFECYCLE)
    requires p in Exec(events).procs && q in Exec(events).procs
    requires Exec(events).procs[p].req.ReviewRequest? && Exec(events).procs[q].req.ReviewRequest?
    requires Exec(events).procs[p].pc.Done? && Exec(events).procs[q].pc.Done?
    requires Exec(events).procs[p].pc.answer.Some? && Exec(events).procs[q].pc.answer.Some?
    ensures Project(Exec(events).procs[p].pc.answer) == Project(Exec(events).procs[q].pc.answer)
         == Project(Payload(Exec(events).row))
    ensures Terminal(Exec(events).procs[p].pc.answer.value.status)
  {
    ReachableInv(events);
  }

  /** The three statements of one Postgres review with nothing in between. */
  function SoloReview(row: Option<Row>, req: Request, now: string): Option<Row>
    requires req.ReviewRequest?
  {
    var (row1, _, pc1) := Advance(row, map[], Proc(req, TransitionRead), now);
    var (row2, _, pc2) := Advance(row1, map[], Proc(req, pc1), now);
    if pc1.TransitionUpdate? then row2 else row1
  }

  /**
   * The two backends agree on a single review exactly when the status is one the loop knows: the
   * in-memory store moves any other status, the Postgres store refuses to.
   */
  lemma {:induction false} BackendsAgreeOnKnownStatuses(row: Option<Row>, req: Request, now: string)
    requires req.ReviewRequest?
    requires row.Some? ==> row.value.status == row.value.payload.status
    ensures Project(Payload(SoloReview(row, req, now)))
         == Project(TransitionSpec(Payload(row), req.v, req.reviewer, now))
       <==> (row.None? || row.value.status in LIFECYCLE)
  {
  }
}
