/**
 * The Postgres decision store under concurrency, driven by the approve, reject and complete routes.
 *
 * Every SQL statement and every sink call is one atomic step; requests interleave freely between
 * them. The model follows one decision id. A run is any sequence of events: an event that names
 * no live request changes nothing, so statements about runs quantify over all sequences.
 */
module DecisionProtocol {
  import opened Common
  import opened Decisions

  datatype Receipt = Receipt(source: string, amount: Option<int>)

  /** The process's authentication mode; `Off` skips the ownership guard and knows one tenant, its own. */
  datatype Auth = Off(tenant: string) | Jwt

  datatype Request =
    | UpsertRequest(offer: Offer)
    | ReviewRequest(v: Verdict, reviewer: string, caller: string, auth: Auth, correction: Option<string>)
    | CompleteRequest(key: TaskKey, caller: string, receipt: Receipt)

  /** Which annotation a request is writing; `fallback` is the decision it answers with if the row is gone. */
  datatype Stage =
    | ApproveOutcome(task: TaskKey, fallback: Decision)
    | Correction(fallback: Decision)
    | RejectOutcome(fallback: Decision)
    | Verified

  datatype Pc =
    | UpsertRead
    | UpsertWrite(record: Decision)
    | UpsertReread(record: Decision)
    | GuardRead
    | Refused
    | TransitionRead
    | TransitionUpdate(updated: Decision)
    | TransitionReread
    | CreateTask(decision: Decision)
    | AnnotateRead(stage: Stage)
    | AnnotateWrite(stage: Stage, annotated: Decision)
    | CompleteTask
    | CompleteCheck
    | Done(answer: Option<Decision>)

  datatype Proc = Proc(req: Request, pc: Pc)

  /** The status column duplicates the payload's status. */
  datatype Row = Row(status: Status, payload: Decision)

  datatype State = State(row: Option<Row>, tasks: map<TaskKey, Option<Receipt>>, procs: map<nat, Proc>)

  datatype Event = Begin(pid: nat, req: Request) | Step(pid: nat, now: string)

  function Payload(row: Option<Row>): Option<Decision> {
    if row.Some? then Some(row.value.payload) else None
  }

  function StartPc(req: Request): Pc {
    match req
    case UpsertRequest(_) => UpsertRead
    case ReviewRequest(_, _, _, _, _) => GuardRead
    case CompleteRequest(_, _, _) => CompleteTask
  }

  /** A decision with no tenant belongs to nobody. */
  predicate OwnedBy(d: Decision, caller: string) {
    d.tenant != "" && d.tenant == caller
  }

  function KeyFor(d: Decision, caller: string): TaskKey {
    TaskKey(if d.tenant == "" then caller else d.tenant, if d.domain == "" then DEFAULT_DOMAIN else d.domain)
  }

  /** Where a route goes once the store has answered its approve or reject. */
  function AfterReview(req: Request, d: Decision): Pc
    requires req.ReviewRequest?
  {
    if req.v.Approve? then
      if d.status.Approved? then CreateTask(d) else Done(Some(d))
    else if req.correction.Some? then AnnotateRead(Correction(d))
    else AfterCorrection(d)
  }

  function AfterCorrection(d: Decision): Pc {
    if d.status.Rejected? then AnnotateRead(RejectOutcome(d)) else Done(Some(d))
  }

  function Fields(req: Request, stage: Stage): map<string, string> {
    var correction := if req.ReviewRequest? && req.correction.Some?
                      then map["correction" := req.correction.value] else map[];
    match stage
    case ApproveOutcome(_, _) => map["outcome" := "approved"] + correction
    case Correction(_) => correction
    case RejectOutcome(_) => map["outcome" := "rejected"]
    case Verified => if req.CompleteRequest? then map["verified_outcome" := req.receipt.source] else map[]
  }

  function StageTask(stage: Stage): Option<TaskKey> {
    if stage.ApproveOutcome? then Some(stage.task) else None
  }

  function AfterAnnotate(stage: Stage, d: Decision): Pc {
    if stage.Correction? then AfterCorrection(d) else Done(Some(d))
  }

  /** `annotate` found no row. */
  function AfterMissing(stage: Stage): Pc {
    match stage
    case ApproveOutcome(_, _) => Done(None)
    case Correction(d) => AfterCorrection(d)
    case RejectOutcome(d) => Done(Some(d))
    case Verified => Done(None)
  }

  /** The receipt is attached only for a non-negative amount on an operational-twin decision of the caller. */
  predicate ReceiptApplies(d: Decision, caller: string, receipt: Receipt) {
    && receipt.amount.Some? && receipt.amount.value >= 0
    && (d.tenant == "" || d.tenant == caller)
    && d.domain == "operational_twin"
  }

  function Advance(row: Option<Row>, tasks: map<TaskKey, Option<Receipt>>, p: Proc, now: string)
    : (Option<Row>, map<TaskKey, Option<Receipt>>, Pc)
  {
    match p.pc
    case UpsertRead =>
      if p.req.UpsertRequest? then
        if row.Some? && Terminal(row.value.payload.status) then (row, tasks, Done(Payload(row)))
        else (row, tasks, UpsertWrite(Merge(Payload(row), p.req.offer)))
      else (row, tasks, p.pc)
    case UpsertWrite(record) =>
      // inserts, or replaces a row whose status column is not terminal
      (if row.Some? && Terminal(row.value.status) then row else Some(Row(record.status, record)),
       tasks, UpsertReread(record))
    case UpsertReread(record) =>
      (row, tasks, Done(Some(OrElse(Payload(row), record))))
    case GuardRead =>
      if p.req.ReviewRequest? then
        (row, tasks, if p.req.auth.Jwt? && row.Some? && !OwnedBy(row.value.payload, p.req.caller) then Refused else TransitionRead)
      else (row, tasks, p.pc)
    case Refused => (row, tasks, p.pc)
    case TransitionRead =>
      if p.req.ReviewRequest? then
        if row.None? then (row, tasks, Done(None))
        else if Terminal(row.value.payload.status) then (row, tasks, AfterReview(p.req, row.value.payload))
        else (row, tasks, TransitionUpdate(Reviewed(row.value.payload, p.req.v, p.req.reviewer, now)))
      else (row, tasks, p.pc)
    case TransitionUpdate(updated) =>
      // succeeds only while the status column says pending
      if p.req.ReviewRequest? then
        if row.Some? && row.value.status.Pending?
        then (Some(Row(updated.status, updated)), tasks, AfterReview(p.req, updated))
        else (row, tasks, TransitionReread)
      else (row, tasks, p.pc)
    case TransitionReread =>
      if p.req.ReviewRequest? then
        if row.None? then (row, tasks, Done(None))
        else (row, tasks, AfterReview(p.req, row.value.payload))
      else (row, tasks, p.pc)
    case CreateTask(d) =>
      if p.req.ReviewRequest? then
        var key := OrElse(d.writeBack, KeyFor(d, p.req.caller));
        var tasks' := if d.writeBack.Some? || key in tasks then tasks else tasks[key := None];
        (row, tasks', AnnotateRead(ApproveOutcome(key, d)))
      else (row, tasks, p.pc)
    case AnnotateRead(stage) =>
      if row.None? then (row, tasks, AfterMissing(stage))
      else (row, tasks, AnnotateWrite(stage, Annotate(row.value.payload, Notes(Fields(p.req, stage)), StageTask(stage))))
    case AnnotateWrite(stage, u) =>
      // replaces the row whatever its status is
      (if row.Some? then Some(Row(u.status, u)) else None, tasks, AfterAnnotate(stage, u))
    case CompleteTask =>
      if p.req.CompleteRequest? && p.req.key in tasks && p.req.key.tenant == p.req.caller
         && (tasks[p.req.key].None? || tasks[p.req.key].value == p.req.receipt)
      then (row, tasks[p.req.key := Some(p.req.receipt)], CompleteCheck)
      else (row, tasks, Done(None))
    case CompleteCheck =>
      if p.req.CompleteRequest? && row.Some? && ReceiptApplies(row.value.payload, p.req.caller, p.req.receipt)
      then (row, tasks, AnnotateRead(Verified))
      else (row, tasks, Done(None))
    case Done(_) => (row, tasks, p.pc)
  }

  function Apply(s: State, e: Event): State {
    match e
    case Begin(pid, req) =>
      if pid in s.procs then s else s.(procs := s.procs[pid := Proc(req, StartPc(req))])
    case Step(pid, now) =>
      if pid !in s.procs then s else
        var (row, tasks, pc) := Advance(s.row, s.tasks, s.procs[pid], now);
        State(row, tasks, s.procs[pid := s.procs[pid].(pc := pc)])
  }

  const INIT := State(None, map[], map[])

  function Exec(events: seq<Event>): State {
    if events == [] then INIT
    else Apply(Exec(events[..|events| - 1]), events[|events| - 1])
  }

  /** A decision offered without a status is stored with the empty one unless a row supplies it. */
  predicate Offers(e: Event, statuses: iset<Status>) {
    e.Begin? && e.req.UpsertRequest? ==> OrElse(e.req.offer.status, Other("")) in statuses
  }

  predicate RunOffers(events: seq<Event>, statuses: iset<Status>) {
    forall i :: 0 <= i < |events| ==> Offers(events[i], statuses)
  }

  const LIFECYCLE: iset<Status> := iset{Pending, Approved, Rejected}

  /** Every review in the run comes from a process in this mode. */
  predicate Admits(e: Event, auth: Auth) {
    e.Begin? && e.req.ReviewRequest? ==> e.req.auth == auth && (auth.Off? ==> e.req.caller == auth.tenant)
  }

  predicate RunAdmits(events: seq<Event>, auth: Auth) {
    forall i :: 0 <= i < |events| ==> Admits(events[i], auth)
  }
}
