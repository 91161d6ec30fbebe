/**
 * Safety of the decision protocol over every interleaving.
 *
 * The key invariant: every in-flight annotation was taken from a terminal row, so the unconditional
 * write of `annotate` puts back the verdict that is already there.
 */
module DecisionSafety {
  import opened Common
  import opened Decisions
  import opened DecisionProtocol

  /** What no step may change once the row is terminal: the verdict, the tenant and the data domain. */
  datatype Core = Core(status: Status, review: Option<Review>, tenant: string, domain: string)

  function CoreOf(d: Decision): Core {
    Core(d.status, d.review, d.tenant, d.domain)
  }

  predicate TerminalRow(row: Option<Row>) {
    row.Some? && Terminal(row.value.status)
  }

  /** `d` carries the verdict of the terminal row. */
  predicate Agrees(row: Option<Row>, d: Decision) {
    TerminalRow(row) && CoreOf(d) == CoreOf(row.value.payload)
  }

  predicate Known(d: Decision, tasks: map<TaskKey, Option<Receipt>>) {
    d.writeBack.Some? ==> d.writeBack.value in tasks
  }

  predicate StageOk(row: Option<Row>, tasks: map<TaskKey, Option<Receipt>>, req: Request, stage: Stage) {
    match stage
    case ApproveOutcome(task, d) =>
      req.ReviewRequest? && req.v.Approve? && Agrees(row, d) && d.status.Approved? && task in tasks
    case Correction(d) => req.ReviewRequest? && req.v.Reject? && Agrees(row, d)
    case RejectOutcome(d) => req.ReviewRequest? && req.v.Reject? && Agrees(row, d)
    case Verified => req.CompleteRequest? && TerminalRow(row)
  }

  predicate ProcOk(row: Option<Row>, tasks: map<TaskKey, Option<Receipt>>, p: Proc) {
    match p.pc
    case UpsertRead => p.req.UpsertRequest? && p.req.offer.status.Some? && p.req.offer.status.value in LIFECYCLE
    case UpsertWrite(record) => p.req.UpsertRequest? && record.status in LIFECYCLE && Known(record, tasks)
    case UpsertReread(_) => p.req.UpsertRequest?
    case GuardRead => p.req.ReviewRequest?
    case Refused => p.req.ReviewRequest?
    case TransitionRead => p.req.ReviewRequest?
    case TransitionUpdate(u) =>
      && p.req.ReviewRequest? && row.Some? && Known(u, tasks)
      && u.status == VerdictStatus(p.req.v) && u.review.Some?
      && u.review.value == Review(p.req.reviewer, u.status, u.review.value.reviewedAt)
    case TransitionReread => p.req.ReviewRequest? && TerminalRow(row)
    case CreateTask(d) =>
      p.req.ReviewRequest? && p.req.v.Approve? && Agrees(row, d) && d.status.Approved? && Known(d, tasks)
    case AnnotateRead(stage) => StageOk(row, tasks, p.req, stage)
    case AnnotateWrite(stage, u) =>
      && StageOk(row, tasks, p.req, stage) && Agrees(row, u) && Known(u, tasks)
      && (stage.ApproveOutcome? ==> u.writeBack == Some(stage.task))
    case CompleteTask => p.req.CompleteRequest?
    case CompleteCheck => p.req.CompleteRequest? && TerminalRow(row)
    case Done(answer) =>
      p.req.ReviewRequest? && answer.Some? ==>
        && Agrees(row, answer.value)
        && (p.req.v.Approve? && answer.value.status.Approved? ==>
              answer.value.writeBack.Some? && answer.value.writeBack.value in tasks)
  }

  predicate RowOk(row: Option<Row>, tasks: map<TaskKey, Option<Receipt>>) {
    && (row.Some? ==>
          row.value.status == row.value.payload.status && row.value.status in LIFECYCLE && Known(row.value.payload, tasks))
    && (tasks != map[] ==> row.Some? && row.value.status.Approved?)
    && forall k :: k in tasks ==> k == KeyFor(row.value.payload, k.tenant)
  }

  predicate Inv(s: State) {
    RowOk(s.row, s.tasks) && forall pid :: pid in s.procs ==> ProcOk(s.row, s.tasks, s.procs[pid])
  }

  /** A terminal row keeps its core, rows are never deleted, tasks never disappear. */
  predicate Preserves(row: Option<Row>, tasks: map<TaskKey, Option<Receipt>>,
                      row': Option<Row>, tasks': map<TaskKey, Option<Receipt>>) {
    && (row.Some? ==> row'.Some?)
    && (TerminalRow(row) ==> TerminalRow(row') && CoreOf(row'.value.payload) == CoreOf(row.value.payload))
    && (forall k :: k in tasks ==> k in tasks')
  }

  lemma {:induction false} ProcOkPreserved(row: Option<Row>, tasks: map<TaskKey, Option<Receipt>>,
                        row': Option<Row>, tasks': map<TaskKey, Option<Receipt>>, p: Proc)
    requires ProcOk(row, tasks, p) && Preserves(row, tasks, row', tasks')
    ensures ProcOk(row', tasks', p)
  {
  }

  predicate UpsertStep(pc: Pc) {
    pc.UpsertRead? || pc.UpsertWrite? || pc.UpsertReread?
  }

  predicate ReviewStep(pc: Pc) {
    pc.GuardRead? || pc.Refused? || pc.TransitionRead? || pc.TransitionUpdate? || pc.TransitionReread?
  }

  predicate AnnotateStep(pc: Pc) {
    pc.AnnotateRead? || pc.AnnotateWrite?
  }

  lemma {:induction false} UpsertSafe(row: Option<Row>, tasks: map<TaskKey, Option<Receipt>>, p: Proc, now: string)
    requires RowOk(row, tasks) && ProcOk(row, tasks, p) && UpsertStep(p.pc)
    ensures var (row', tasks', pc') := Advance(row, tasks, p, now);
            RowOk(row', tasks') && ProcOk(row', tasks', p.(pc := pc')) && Preserves(row, tasks, row', tasks')
  {
  }

  lemma {:induction false} ReviewSafe(row: Option<Row>, tasks: map<TaskKey, Option<Receipt>>, p: Proc, now: string)
    requires RowOk(row, tasks) && ProcOk(row, tasks, p) && ReviewStep(p.pc)
    ensures var (row', tasks', pc') := Advance(row, tasks, p, now);
            RowOk(row', tasks') && ProcOk(row', tasks', p.(pc := pc')) && Preserves(row, tasks, row', tasks')
  {
  }

  lemma {:induction false} AnnotateSafe(row: Option<Row>, tasks: map<TaskKey, Option<Receipt>>, p: Proc, now: string)
    requires RowOk(row, tasks) && ProcOk(row, tasks, p) && AnnotateStep(p.pc)
    ensures var (row', tasks', pc') := Advance(row, tasks, p, now);
            RowOk(row', tasks') && ProcOk(row', tasks', p.(pc := pc')) && Preserves(row, tasks, row', tasks')
  {
  }

  lemma {:induction false} TaskSafe(row: Option<Row>, tasks: map<TaskKey, Option<Receipt>>, p: Proc, now: string)
    requires RowOk(row, tasks) && ProcOk(row, tasks, p)
    requires !UpsertStep(p.pc) && !ReviewStep(p.pc) && !AnnotateStep(p.pc)
    ensures var (row', tasks', pc') := Advance(row, tasks, p, now);
            RowOk(row', tasks') && ProcOk(row', tasks', p.(pc := pc')) && Preserves(row, tasks, row', tasks')
  {
  }

  /** One step of any request keeps its own part of the invariant and preserves the rest. */
  lemma {:induction false} AdvanceSafe(row: Option<Row>, tasks: map<TaskKey, Option<Receipt>>, p: Proc, now: string)
    requires RowOk(row, tasks) && ProcOk(row, tasks, p)
    ensures var (row', tasks', pc') := Advance(row, tasks, p, now);
            RowOk(row', tasks') && ProcOk(row', tasks', p.(pc := pc')) && Preserves(row, tasks, row', tasks')
  {
    if UpsertStep(p.pc) {
      UpsertSafe(row, tasks, p, now);
    } else if ReviewStep(p.pc) {
      ReviewSafe(row, tasks, p, now);
    } else if AnnotateStep(p.pc) {
      AnnotateSafe(row, tasks, p, now);
    } else {
      TaskSafe(row, tasks, p, now);
    }
  }

  lemma {:induction false} ApplySafe(s: State, e: Event)
    requires Inv(s) && Offers(e, LIFECYCLE)
    ensures Inv(Apply(s, e)) && Preserves(s.row, s.tasks, Apply(s, e).row, Apply(s, e).tasks)
  {
    if e.Step? && e.pid in s.procs {
      var s' := Apply(s, e);
      AdvanceSafe(s.row, s.tasks, s.procs[e.pid], e.now);
      forall pid | pid in s'.procs ensures ProcOk(s'.row, s'.tasks, s'.procs[pid]) {
        ProcOkPreserved(s.row, s.tasks, s'.row, s'.tasks, s.procs[pid]);
      }
    }
  }

  lemma {:induction false} ReachableInv(events: seq<Event>)
    requires RunOffers(events, LIFECYCLE)
    ensures Inv(Exec(events))
  {
    if events != [] {
      ReachableInv(events[..|events| - 1]);
      ApplySafe(Exec(events[..|events| - 1]), events[|events| - 1]);
    }
  }

  lemma {:induction false} RunPreserves(events: seq<Event>, k: nat)
    requires RunOffers(events, LIFECYCLE) && k <= |events|
    ensures Preserves(Exec(events[..k]).row, Exec(events[..k]).tasks, Exec(events).row, Exec(events).tasks)
  {
    if k == |events| {
      assert events[..k] == events;
    } else {
      var prefix := events[..|events| - 1];
      RunPreserves(prefix, k);
      assert prefix[..k] == events[..k];
      ReachableInv(prefix);
      ApplySafe(Exec(prefix), events[|events| - 1]);
    }
  }
}
