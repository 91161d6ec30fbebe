/**
 * What each route does to the stored decision, the tasks and its caller: written out field by field for a
 * request that runs undisturbed, and over every interleaving for a review that the ownership guard stops.
 */
module DecisionRoutes {
  import opened Common
  import opened Decisions
  import opened DecisionProtocol
  import opened DecisionRefinement

  // ---- the ownership guard ----

  /** Under token authentication a decision of no tenant or of another tenant is out of reach. */
  predicate Barred(row: Option<Row>, req: Request) {
    && req.ReviewRequest? && req.auth.Jwt? && row.Some?
    && (row.value.payload.tenant == "" || row.value.payload.tenant != req.caller)
  }

  /** The guard changes nothing, and stops a review exactly when it is barred. */
  lemma {:induction false} GuardDecides(row: Option<Row>, tasks: map<TaskKey, Option<Receipt>>, req: Request, now: string)
    requires req.ReviewRequest?
    ensures Advance(row, tasks, Proc(req, StartPc(req)), now)
         == (row, tasks, if Barred(row, req) then Refused else TransitionRead)
  {
  }

  /** The request takes its guard step, barred, as event `k`. */
  predicate BarredAt(events: seq<Event>, k: nat, pid: nat) {
    && k < |events| && events[k].Step? && events[k].pid == pid
    && var s := Exec(events[..k]);
       pid in s.procs && s.procs[pid].pc == StartPc(s.procs[pid].req) && Barred(s.row, s.procs[pid].req)
  }

  predicate Idle(s: State, pid: nat) {
    pid !in s.procs || (s.procs[pid].req.ReviewRequest? && (s.procs[pid].pc.GuardRead? || s.procs[pid].pc.Refused?))
  }

  lemma {:induction false} IdleStep(s: State, e: Event, pid: nat)
    requires Idle(s, pid) && e.Step? && e.pid == pid
    ensures Apply(s, e).row == s.row && Apply(s, e).tasks == s.tasks && CallOf(s, e) == None
  {
  }

  /** Up to its guard step a request has done nothing. */
  lemma {:induction false} IdleBefore(events: seq<Event>, pid: nat)
    requires pid in Exec(events).procs && Exec(events).procs[pid].req.ReviewRequest? && Exec(events).procs[pid].pc.GuardRead?
    ensures forall j {:trigger events[..j]} :: 0 <= j <= |events| ==> Idle(Exec(events[..j]), pid)
    ensures NoCall(Calls(events), pid)
  {
    assert events[..|events|] == events;
    if events != [] {
      var prefix, e := events[..|events| - 1], events[|events| - 1];
      assert forall j :: 0 <= j <= |prefix| ==> prefix[..j] == events[..j];
      if pid in Exec(prefix).procs {
        GuardIsFirst(Exec(prefix), e, pid);
        IdleBefore(prefix, pid);
        assert CallOf(Exec(prefix), e).Some? ==> e.pid != pid;
      } else {
        AbsentBefore(prefix, pid);
      }
    }
  }

  /** No step leads back to the guard. */
  lemma {:induction false} GuardIsFirst(s: State, e: Event, pid: nat)
    requires pid in s.procs && pid in Apply(s, e).procs && Apply(s, e).procs[pid].pc.GuardRead? && s.procs[pid].req.ReviewRequest?
    ensures Apply(s, e).procs[pid] == s.procs[pid]
    ensures e.Step? ==> e.pid != pid
  {
  }

  lemma {:induction false} AbsentBefore(events: seq<Event>, pid: nat)
    requires pid !in Exec(events).procs
    ensures forall j {:trigger events[..j]} :: 0 <= j <= |events| ==> pid !in Exec(events[..j]).procs
    ensures NoCall(Calls(events), pid)
  {
    assert events[..|events|] == events;
    if events != [] {
      var prefix := events[..|events| - 1];
      assert forall j :: 0 <= j <= |prefix| ==> prefix[..j] == events[..j];
      AbsentBefore(prefix, pid);
    }
  }

  lemma {:induction false} RequestStays(s: State, e: Event, pid: nat)
    requires pid in s.procs
    ensures pid in Apply(s, e).procs && Apply(s, e).procs[pid].req == s.procs[pid].req
    ensures s.procs[pid].pc.Refused? ==> Apply(s, e).procs[pid].pc.Refused?
  {
  }

  lemma {:induction false} RefusedAfter(events: seq<Event>, k: nat, pid: nat)
    requires BarredAt(events, k, pid)
    ensures pid in Exec(events).procs && Exec(events).procs[pid].req.ReviewRequest? && Exec(events).procs[pid].pc.Refused?
    ensures forall j {:trigger events[..j]} :: 0 <= j <= |events| ==> Idle(Exec(events[..j]), pid)
    ensures NoCall(Calls(events), pid)
  {
    var prefix, e := events[..|events| - 1], events[|events| - 1];
    assert events[..|events|] == events;
    assert forall j :: 0 <= j <= |prefix| ==> prefix[..j] == events[..j];
    if k == |events| - 1 {
      var req := Exec(prefix).procs[pid].req;
      IdleBefore(prefix, pid);
      GuardDecides(Exec(prefix).row, Exec(prefix).tasks, req, e.now);
      IdleStep(Exec(prefix), e, pid);
    } else {
      RefusedAfter(prefix, k, pid);
      RequestStays(Exec(prefix), e, pid);
      if e.Step? && e.pid == pid {
        IdleStep(Exec(prefix), e, pid);
      }
    }
  }

  /**
   * Over every run a barred review is refused for good: it takes effect nowhere in the linearization, and none
   * of its steps changes the row or the tasks.
   */
  lemma {:induction false} BarredReviewsDoNothing(events: seq<Event>, k: nat, pid: nat, j: nat)
    requires BarredAt(events, k, pid)
    ensures pid in Exec(events).procs && Exec(events).procs[pid].pc.Refused? && NoCall(Calls(events), pid)
    ensures j < |events| && events[j].Step? && events[j].pid == pid ==>
              Exec(events[..j + 1]).row == Exec(events[..j]).row && Exec(events[..j + 1]).tasks == Exec(events[..j]).tasks
  {
    RefusedAfter(events, k, pid);
    if j < |events| && events[j].Step? && events[j].pid == pid {
      assert events[..j + 1][..j] == events[..j];
      IdleStep(Exec(events[..j]), events[j], pid);
    }
  }

  /** And over every run a review whose guard step is not barred goes on to the review. */
  lemma {:induction false} OtherReviewsGoOn(events: seq<Event>, k: nat, pid: nat)
    requires k < |events| && events[k].Step? && events[k].pid == pid && pid in Exec(events[..k]).procs
    requires Exec(events[..k]).procs[pid].req.ReviewRequest?
    requires Exec(events[..k]).procs[pid].pc.GuardRead? && !Barred(Exec(events[..k]).row, Exec(events[..k]).procs[pid].req)
    ensures pid in Exec(events[..k + 1]).procs && Exec(events[..k + 1]).procs[pid].pc.TransitionRead?
  {
    assert events[..k + 1][..k] == events[..k];
    GuardDecides(Exec(events[..k]).row, Exec(events[..k]).tasks, Exec(events[..k]).procs[pid].req, events[k].now);
  }

  // ---- undisturbed requests ----

  predicate Finished(pc: Pc) {
    pc.Done? || pc.Refused?
  }

  type Tasks = map<TaskKey, Option<Receipt>>

  /** A request runs to its end with nothing in between; ten steps are enough for every route. */
  function Finish(row: Option<Row>, tasks: Tasks, p: Proc, now: string, fuel: nat): (Option<Row>, Tasks, Pc)
    decreases fuel
  {
    if Finished(p.pc) || fuel == 0 then (row, tasks, p.pc)
    else
      var (row', tasks', pc') := Advance(row, tasks, p, now);
      Finish(row', tasks', p.(pc := pc'), now, fuel - 1)
  }

  lemma {:induction false} OneStep(row: Option<Row>, tasks: Tasks, p: Proc, now: string, fuel: nat)
    returns (row': Option<Row>, tasks': Tasks, pc': Pc)
    requires !Finished(p.pc) && fuel > 0
    ensures (row', tasks', pc') == Advance(row, tasks, p, now)
    ensures Finish(row, tasks, p, now, fuel) == Finish(row', tasks', p.(pc := pc'), now, fuel - 1)
  {
    row', tasks', pc' := Advance(row, tasks, p, now).0, Advance(row, tasks, p, now).1, Advance(row, tasks, p, now).2;
  }

  lemma {:induction false} Ended(row: Option<Row>, tasks: Tasks, p: Proc, now: string, fuel: nat)
    requires Finished(p.pc)
    ensures Finish(row, tasks, p, now, fuel) == (row, tasks, p.pc)
  {
  }

  predicate Consistent(row: Option<Row>) {
    row.Some? ==> row.value.status == row.value.payload.status
  }

  function WithNote(notes: map<string, string>, key: string, text: Option<string>): map<string, string> {
    if text.Some? then notes[key := text.value] else notes
  }

  /** An upsert stores what the offer names and keeps the rest; a terminal decision is returned as it is. */
  lemma {:induction false} UpsertAlone(row: Option<Row>, tasks: Tasks, offer: Offer, now: string, fuel: nat)
    requires Consistent(row) && fuel >= 10
    ensures var (row', tasks', pc') := Finish(row, tasks, Proc(UpsertRequest(offer), UpsertRead), now, fuel);
            && tasks' == tasks && row'.Some? && pc' == Done(Some(row'.value.payload))
            && (row.Some? && row.value.status in {Approved, Rejected} ==> row' == row)
            && (row.Some? && row.value.status !in {Approved, Rejected} ==>
                  var d, u := row.value.payload, row'.value.payload;
                  && row'.value.status == u.status
                  && u.status == (if offer.status.Some? then offer.status.value else d.status)
                  && u.review == (if offer.review.Some? then offer.review.value else d.review)
                  && u.tenant == (if offer.tenant.Some? then offer.tenant.value else d.tenant)
                  && u.domain == (if offer.domain.Some? then offer.domain.value else d.domain)
                  && u.writeBack == d.writeBack && u.notes == d.notes + offer.notes)
            && (row.None? ==>
                  var u := row'.value.payload;
                  && row'.value.status == u.status
                  && u.status == (if offer.status.Some? then offer.status.value else Other(""))
                  && u.review == (if offer.review.Some? then offer.review.value else None)
                  && u.tenant == (if offer.tenant.Some? then offer.tenant.value else "")
                  && u.domain == (if offer.domain.Some? then offer.domain.value else "world_simulation")
                  && u.writeBack.None? && u.notes == offer.notes)
  {
    var p := Proc(UpsertRequest(offer), UpsertRead);
    var r1, t1, pc1 := OneStep(row, tasks, p, now, fuel);
    if Finished(pc1) {
      Ended(r1, t1, p.(pc := pc1), now, fuel - 1);
    } else {
      var r2, t2, pc2 := OneStep(r1, t1, p.(pc := pc1), now, fuel - 1);
      var r3, t3, pc3 := OneStep(r2, t2, p.(pc := pc2), now, fuel - 2);
      Ended(r3, t3, p.(pc := pc3), now, fuel - 3);
    }
  }

  /** The key of the decision's task: the one it carries, or its own tenant and domain, or their defaults. */
  function TaskOf(d: Decision, caller: string): TaskKey {
    if d.writeBack.Some? then d.writeBack.value
    else TaskKey(if d.tenant == "" then caller else d.tenant, if d.domain == "" then "world_simulation" else d.domain)
  }

  function WithTask(tasks: Tasks, d: Decision, caller: string): Tasks {
    if d.writeBack.Some? || TaskOf(d, caller) in tasks then tasks else tasks[TaskOf(d, caller) := None]
  }

  /** After the store has answered "approved": the task is there, and the row names it and the outcome. */
  lemma {:induction false} ApproveTail(d: Decision, tasks: Tasks, req: Request, now: string, fuel: nat)
    requires req.ReviewRequest? && req.v.Approve? && d.status.Approved? && fuel >= 4
    ensures var d' := d.(writeBack := Some(TaskOf(d, req.caller)),
                         notes := WithNote(d.notes["outcome" := "approved"], "correction", req.correction));
            && Finish(Some(Row(Approved, d)), tasks, Proc(req, CreateTask(d)), now, fuel)
               == (Some(Row(Approved, d')), WithTask(tasks, d, req.caller), Done(Some(d')))
  {
    var row := Some(Row(Approved, d));
    var p := Proc(req, CreateTask(d));
    var r1, t1, pc1 := OneStep(row, tasks, p, now, fuel);
    assert t1 == WithTask(tasks, d, req.caller) && pc1 == AnnotateRead(ApproveOutcome(TaskOf(d, req.caller), d));
    NotedTail(d, t1, req, TaskOf(d, req.caller), now, fuel - 1);
  }

  lemma {:induction false} ApproveFields(req: Request, key: TaskKey, d: Decision)
    requires req.ReviewRequest?
    ensures d.notes + Fields(req, ApproveOutcome(key, d)) == WithNote(d.notes["outcome" := "approved"], "correction", req.correction)
  {
  }

  lemma {:induction false} NotedTail(d: Decision, tasks: Tasks, req: Request, key: TaskKey, now: string, fuel: nat)
    requires req.ReviewRequest? && req.v.Approve? && d.status.Approved? && fuel >= 3
    ensures var d' := d.(writeBack := Some(key), notes := WithNote(d.notes["outcome" := "approved"], "correction", req.correction));
            && Finish(Some(Row(Approved, d)), tasks, Proc(req, AnnotateRead(ApproveOutcome(key, d))), now, fuel)
               == (Some(Row(Approved, d')), tasks, Done(Some(d')))
  {
    var p := Proc(req, AnnotateRead(ApproveOutcome(key, d)));
    var d' := d.(writeBack := Some(key), notes := WithNote(d.notes["outcome" := "approved"], "correction", req.correction));
    ApproveFields(req, key, d);
    var r2, t2, pc2 := OneStep(Some(Row(Approved, d)), tasks, p, now, fuel);
    assert pc2 == AnnotateWrite(ApproveOutcome(key, d), d');
    var r3, t3, pc3 := OneStep(r2, t2, p.(pc := pc2), now, fuel - 1);
    Ended(r3, t3, p.(pc := pc3), now, fuel - 2);
  }

  /** After the store has answered "rejected": the row carries the outcome. */
  lemma {:induction false} OutcomeTail(d: Decision, tasks: Tasks, req: Request, now: string, fuel: nat)
    requires req.ReviewRequest? && req.v.Reject? && d.status.Rejected? && fuel >= 3
    ensures var d' := d.(notes := d.notes["outcome" := "rejected"]);
            && Finish(Some(Row(Rejected, d)), tasks, Proc(req, AnnotateRead(RejectOutcome(d))), now, fuel)
               == (Some(Row(Rejected, d')), tasks, Done(Some(d')))
  {
    var p := Proc(req, AnnotateRead(RejectOutcome(d)));
    var r1, t1, pc1 := OneStep(Some(Row(Rejected, d)), tasks, p, now, fuel);
    assert d.notes + map["outcome" := "rejected"] == d.notes["outcome" := "rejected"];
    assert pc1 == AnnotateWrite(RejectOutcome(d), d.(notes := d.notes["outcome" := "rejected"]));
    var r2, t2, pc2 := OneStep(r1, t1, p.(pc := pc1), now, fuel - 1);
    Ended(r2, t2, p.(pc := pc2), now, fuel - 2);
  }

  /** After the store has answered a reject: a correction is attached whatever the status, the outcome only if rejected. */
  lemma {:induction false} RejectTail(d: Decision, tasks: Tasks, req: Request, now: string, fuel: nat)
    requires req.ReviewRequest? && req.v.Reject? && fuel >= 6
    ensures var c := d.(notes := WithNote(d.notes, "correction", req.correction));
            var d' := if d.status.Rejected? then c.(notes := c.notes["outcome" := "rejected"]) else c;
            && Finish(Some(Row(d.status, d)), tasks, Proc(req, AfterReview(req, d)), now, fuel)
               == (Some(Row(d.status, d')), tasks, Done(Some(d')))
  {
    var row := Some(Row(d.status, d));
    var p := Proc(req, AfterReview(req, d));
    if req.correction.Some? {
      var c := d.(notes := d.notes["correction" := req.correction.value]);
      var r1, t1, pc1 := OneStep(row, tasks, p, now, fuel);
      assert d.notes + map["correction" := req.correction.value] == c.notes;
      assert pc1 == AnnotateWrite(Correction(d), c);
      var r2, t2, pc2 := OneStep(r1, t1, p.(pc := pc1), now, fuel - 1);
      assert r2 == Some(Row(c.status, c)) && pc2 == AfterCorrection(c);
      CorrectedTail(c, tasks, req, now, fuel - 2);
    } else {
      CorrectedTail(d, tasks, req, now, fuel);
    }
  }

  lemma {:induction false} CorrectedTail(c: Decision, tasks: Tasks, req: Request, now: string, fuel: nat)
    requires req.ReviewRequest? && req.v.Reject? && fuel >= 4
    ensures var d' := if c.status.Rejected? then c.(notes := c.notes["outcome" := "rejected"]) else c;
            && Finish(Some(Row(c.status, c)), tasks, Proc(req, AfterCorrection(c)), now, fuel)
               == (Some(Row(c.status, d')), tasks, Done(Some(d')))
  {
    if c.status.Rejected? {
      OutcomeTail(c, tasks, req, now, fuel);
    } else {
      Ended(Some(Row(c.status, c)), tasks, Proc(req, AfterCorrection(c)), now, fuel);
    }
  }

  /** The guard and the read: nothing has changed yet, or the request is over. */
  lemma {:induction false} ReviewHead(row: Option<Row>, tasks: Tasks, req: Request, now: string, fuel: nat)
    requires req.ReviewRequest? && !Barred(row, req) && fuel >= 10
    ensures row.None? ==> Finish(row, tasks, Proc(req, GuardRead), now, fuel) == (row, tasks, Done(None))
    ensures row.Some? && row.value.payload.status in {Approved, Rejected} ==>
              && Finish(row, tasks, Proc(req, GuardRead), now, fuel)
                 == Finish(row, tasks, Proc(req, AfterReview(req, row.value.payload)), now, fuel - 2)
    ensures row.Some? && row.value.payload.status !in {Approved, Rejected} ==>
              var d := row.value.payload;
              var status := if req.v.Approve? then Approved else Rejected;
              && Finish(row, tasks, Proc(req, GuardRead), now, fuel)
                 == Finish(row, tasks,
                        Proc(req, TransitionUpdate(d.(status := status, review := Some(Review(req.reviewer, status, now))))),
                        now, fuel - 2)
  {
    var p := Proc(req, GuardRead);
    GuardDecides(row, tasks, req, now);
    var r1, t1, pc1 := OneStep(row, tasks, p, now, fuel);
    var r2, t2, pc2 := OneStep(r1, t1, p.(pc := pc1), now, fuel - 1);
    if row.None? {
      Ended(r2, t2, p.(pc := pc2), now, fuel - 2);
    }
  }

  /** The conditional update of a pending decision stores the review and answers with it. */
  lemma {:induction false} PendingReview(row: Option<Row>, tasks: Tasks, req: Request, now: string, fuel: nat)
    requires req.ReviewRequest? && !Barred(row, req) && fuel >= 10
    requires row.Some? && row.value.status.Pending? && Consistent(row)
    ensures var status := if req.v.Approve? then Approved else Rejected;
            var u := row.value.payload.(status := status, review := Some(Review(req.reviewer, status, now)));
            && Finish(row, tasks, Proc(req, GuardRead), now, fuel)
               == Finish(Some(Row(status, u)), tasks, Proc(req, AfterReview(req, u)), now, fuel - 3)
  {
    var status := if req.v.Approve? then Approved else Rejected;
    var u := row.value.payload.(status := status, review := Some(Review(req.reviewer, status, now)));
    ReviewHead(row, tasks, req, now, fuel);
    var r3, t3, pc3 := OneStep(row, tasks, Proc(req, TransitionUpdate(u)), now, fuel - 2);
  }

  /** A decision whose status the loop does not know is left alone and reported. */
  lemma {:induction false} ForeignReview(row: Option<Row>, tasks: Tasks, req: Request, now: string, fuel: nat)
    requires req.ReviewRequest? && !Barred(row, req) && fuel >= 10
    requires row.Some? && row.value.status.Other? && Consistent(row)
    ensures Finish(row, tasks, Proc(req, GuardRead), now, fuel)
         == Finish(row, tasks, Proc(req, AfterReview(req, row.value.payload)), now, fuel - 4)
  {
    ReviewHead(row, tasks, req, now, fuel);
    var status := if req.v.Approve? then Approved else Rejected;
    var u := row.value.payload.(status := status, review := Some(Review(req.reviewer, status, now)));
    var r3, t3, pc3 := OneStep(row, tasks, Proc(req, TransitionUpdate(u)), now, fuel - 2);
    var r4, t4, pc4 := OneStep(r3, t3, Proc(req, pc3), now, fuel - 3);
  }

  /**
   * An undisturbed approval: a pending decision becomes approved by this reviewer now, names its task, its outcome
   * and the correction; an approved one keeps its review and is annotated alike; any other is returned as it is.
   */
  lemma {:induction false} ApproveAlone(row: Option<Row>, tasks: Tasks, req: Request, now: string, fuel: nat)
    requires req.ReviewRequest? && req.v.Approve? && !Barred(row, req) && Consistent(row) && fuel >= 10
    ensures var (row', tasks', pc') := Finish(row, tasks, Proc(req, GuardRead), now, fuel);
            && (row.None? ==> (row', tasks', pc') == (None, tasks, Done(None)))
            && (row.Some? ==>
                  var d := row.value.payload;
                  if d.status in {Pending, Approved} then
                    var review := if d.status.Pending? then Some(Review(req.reviewer, Approved, now)) else d.review;
                    var d' := Decision(Approved, review, d.tenant, d.domain, Some(TaskOf(d, req.caller)),
                                       WithNote(d.notes["outcome" := "approved"], "correction", req.correction));
                    (row', tasks', pc') == (Some(Row(Approved, d')), WithTask(tasks, d, req.caller), Done(Some(d')))
                  else (row', tasks', pc') == (row, tasks, Done(Some(d))))
  {
    ReviewHead(row, tasks, req, now, fuel);
    if row.Some? {
      var d := row.value.payload;
      match d.status
      case Pending =>
        var u := d.(status := Approved, review := Some(Review(req.reviewer, Approved, now)));
        PendingReview(row, tasks, req, now, fuel);
        ApproveTail(u, tasks, req, now, fuel - 3);
      case Approved => ApproveTail(d, tasks, req, now, fuel - 2);
      case Rejected => Ended(row, tasks, Proc(req, AfterReview(req, d)), now, fuel - 2);
      case Other(_) =>
        ForeignReview(row, tasks, req, now, fuel);
        Ended(row, tasks, Proc(req, AfterReview(req, d)), now, fuel - 4);
    }
  }

  /**
   * An undisturbed rejection: a pending decision becomes rejected by this reviewer now; a correction is attached
   * whatever the status, the outcome only to a rejected decision; tasks are untouched.
   */
  lemma {:induction false} RejectAlone(row: Option<Row>, tasks: Tasks, req: Request, now: string, fuel: nat)
    requires req.ReviewRequest? && req.v.Reject? && !Barred(row, req) && Consistent(row) && fuel >= 10
    ensures var (row', tasks', pc') := Finish(row, tasks, Proc(req, GuardRead), now, fuel);
            && (row.None? ==> (row', tasks', pc') == (None, tasks, Done(None)))
            && (row.Some? ==>
                  var d := row.value.payload;
                  var status := if d.status.Pending? then Rejected else d.status;
                  var review := if d.status.Pending? then Some(Review(req.reviewer, Rejected, now)) else d.review;
                  var corrected := WithNote(d.notes, "correction", req.correction);
                  var notes := if status.Rejected? then corrected["outcome" := "rejected"] else corrected;
                  var d' := Decision(status, review, d.tenant, d.domain, d.writeBack, notes);
                  (row', tasks', pc') == (Some(Row(status, d')), tasks, Done(Some(d'))))
  {
    ReviewHead(row, tasks, req, now, fuel);
    if row.Some? {
      var d := row.value.payload;
      match d.status
      case Pending =>
        var u := d.(status := Rejected, review := Some(Review(req.reviewer, Rejected, now)));
        PendingReview(row, tasks, req, now, fuel);
        RejectTail(u, tasks, req, now, fuel - 3);
      case Other(_) =>
        ForeignReview(row, tasks, req, now, fuel);
        RejectTail(d, tasks, req, now, fuel - 4);
      case _ => RejectTail(d, tasks, req, now, fuel - 2);
    }
  }

  /** The task is the caller's, exists, and is open or completed with this very receipt. */
  predicate Completable(tasks: Tasks, req: Request) {
    && req.CompleteRequest? && req.key in tasks && req.key.tenant == req.caller
    && (tasks[req.key].None? || tasks[req.key] == Some(req.receipt))
  }

  /**
   * An undisturbed completion: the receipt is stored for a completable task only, and noted on the decision only for
   * a non-negative amount on an operational-twin decision of no other tenant.
   */
  lemma {:induction false} CompleteAlone(row: Option<Row>, tasks: Tasks, req: Request, now: string, fuel: nat)
    requires req.CompleteRequest? && Consistent(row) && fuel >= 10
    ensures var (row', tasks', pc') := Finish(row, tasks, Proc(req, CompleteTask), now, fuel);
            && pc'.Done?
            && tasks' == (if Completable(tasks, req) then tasks[req.key := Some(req.receipt)] else tasks)
            && (row.None? ==> row'.None?)
            && (row.Some? ==>
                  var d, amount := row.value.payload, req.receipt.amount;
                  if && Completable(tasks, req) && amount.Some? && amount.value >= 0 && d.domain == "operational_twin"
                     && (d.tenant == "" || d.tenant == req.caller)
                  then row' == Some(Row(d.status, d.(notes := d.notes["verified_outcome" := req.receipt.source])))
                  else row' == row)
  {
    var p := Proc(req, CompleteTask);
    var r1, t1, pc1 := OneStep(row, tasks, p, now, fuel);
    if Finished(pc1) {
      Ended(r1, t1, p.(pc := pc1), now, fuel - 1);
    } else {
      var r2, t2, pc2 := OneStep(r1, t1, p.(pc := pc1), now, fuel - 1);
      if Finished(pc2) {
        Ended(r2, t2, p.(pc := pc2), now, fuel - 2);
      } else {
        VerifiedTail(row.value.payload, t2, req, now, fuel - 2);
      }
    }
  }

  lemma {:induction false} VerifiedTail(d: Decision, tasks: Tasks, req: Request, now: string, fuel: nat)
    requires req.CompleteRequest? && fuel >= 3
    ensures var d' := d.(notes := d.notes["verified_outcome" := req.receipt.source]);
            && Finish(Some(Row(d.status, d)), tasks, Proc(req, AnnotateRead(Verified)), now, fuel)
               == (Some(Row(d.status, d')), tasks, Done(Some(d')))
  {
    var p := Proc(req, AnnotateRead(Verified));
    var r1, t1, pc1 := OneStep(Some(Row(d.status, d)), tasks, p, now, fuel);
    assert d.notes + map["verified_outcome" := req.receipt.source] == d.notes["verified_outcome" := req.receipt.source];
    assert pc1 == AnnotateWrite(Verified, d.(notes := d.notes["verified_outcome" := req.receipt.source]));
    var r2, t2, pc2 := OneStep(r1, t1, p.(pc := pc1), now, fuel - 1);
    Ended(r2, t2, p.(pc := pc2), now, fuel - 2);
  }
}
