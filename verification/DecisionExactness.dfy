/** Exactly when the decision protocol keeps its promises, in terms of what its callers offer. */
module DecisionExactness {
  import opened Common
  import opened Decisions
  import opened DecisionProtocol
  import opened DecisionSafety

  /** Once terminal, the row is terminal for ever with the same verdict, tenant and domain. */
  ghost predicate Stable(events: seq<Event>) {
    forall k {:trigger events[..k]} :: 0 <= k <= |events| && TerminalRow(Exec(events[..k]).row) ==>
      Agrees(Exec(events).row, Exec(events[..k]).row.value.payload)
  }

  ghost predicate AlwaysStable(statuses: iset<Status>, auth: Auth) {
    forall events :: RunOffers(events, statuses) && RunAdmits(events, auth) ==> Stable(events)
  }

  lemma {:induction false} VerdictsNeverChange(events: seq<Event>)
    requires RunOffers(events, LIFECYCLE)
    ensures Stable(events)
  {
    forall k | 0 <= k <= |events| && TerminalRow(Exec(events[..k]).row)
      ensures Agrees(Exec(events).row, Exec(events[..k]).row.value.payload)
    {
      RunPreserves(events, k);
    }
  }

  // ---- callers that never use a lifecycle status: no row is ever terminal ----

  predicate Foreign(d: Decision) {
    d.status.Other?
  }

  predicate ForeignStage(stage: Stage) {
    stage.Correction? && Foreign(stage.fallback)
  }

  predicate ForeignProc(p: Proc) {
    match p.pc
    case UpsertRead => p.req.UpsertRequest? && OrElse(p.req.offer.status, Other("")).Other?
    case UpsertWrite(record) => Foreign(record)
    case CreateTask(_) => false
    case AnnotateRead(stage) => ForeignStage(stage)
    case AnnotateWrite(stage, u) => ForeignStage(stage) && Foreign(u)
    case CompleteCheck => false
    case _ => true
  }

  predicate ForeignRow(row: Option<Row>) {
    row.Some? ==> row.value.status.Other? && Foreign(row.value.payload)
  }

  predicate ForeignInv(s: State) {
    ForeignRow(s.row) && s.tasks == map[] && forall pid :: pid in s.procs ==> ForeignProc(s.procs[pid])
  }

  lemma {:induction false} ForeignAdvance(row: Option<Row>, p: Proc, now: string)
    requires ForeignRow(row) && ForeignProc(p)
    ensures var (row', tasks', pc') := Advance(row, map[], p, now);
            ForeignRow(row') && tasks' == map[] && ForeignProc(p.(pc := pc'))
  {
  }

  lemma {:induction false} ForeignRunsStayForeign(events: seq<Event>, statuses: iset<Status>)
    requires RunOffers(events, statuses) && statuses !! LIFECYCLE
    ensures ForeignInv(Exec(events))
  {
    if events != [] {
      var prefix, e := events[..|events| - 1], events[|events| - 1];
      ForeignRunsStayForeign(prefix, statuses);
      assert Offers(e, statuses);
      if e.Step? && e.pid in Exec(prefix).procs {
        ForeignAdvance(Exec(prefix).row, Exec(prefix).procs[e.pid], e.now);
      }
    }
  }

  // ---- a run that loses a verdict as soon as both kinds of status are offered ----

  lemma {:induction false} Extend(events: seq<Event>, e: Event) returns (events': seq<Event>)
    ensures events' == events + [e] && Exec(events') == Apply(Exec(events), e)
    ensures events'[..|events|] == events
  {
    events' := events + [e];
    assert events'[..|events|] == events;
  }

  function OfferOf(status: Status, tenant: string): Offer {
    Offer(Some(status), None, Some(tenant), None, map[])
  }

  /** One request takes the next `n` steps undisturbed. */
  function Solo(s: State, pid: nat, n: nat): State {
    if n == 0 then s else Apply(Solo(s, pid, n - 1), Step(pid, ""))
  }

  lemma {:induction false} ExtendSolo(events: seq<Event>, pid: nat, n: nat) returns (events': seq<Event>)
    ensures |events'| == |events| + n && events'[..|events|] == events
    ensures forall i :: |events| <= i < |events'| ==> events'[i] == Step(pid, "")
    ensures Exec(events') == Solo(Exec(events), pid, n)
  {
    if n == 0 {
      events' := events;
    } else {
      var shorter := ExtendSolo(events, pid, n - 1);
      events' := Extend(shorter, Step(pid, ""));
    }
  }

  /** A request begins and takes its first `n` steps. */
  lemma {:induction false} Play(events: seq<Event>, pid: nat, req: Request, n: nat) returns (events': seq<Event>)
    ensures |events'| == |events| + 1 + n && events'[..|events|] == events && events'[|events|] == Begin(pid, req)
    ensures forall i :: |events| < i < |events'| ==> events'[i] == Step(pid, "")
    ensures Exec(events') == Solo(Apply(Exec(events), Begin(pid, req)), pid, n)
  {
    var begun := Extend(events, Begin(pid, req));
    events' := ExtendSolo(begun, pid, n);
  }

  /** `s'` differs from `s` only in request `pid`, the row and the tasks. */
  ghost predicate SameOthers(s: State, s': State, pid: nat) {
    pid in s'.procs && forall q :: q != pid ==> (q in s.procs <==> q in s'.procs) && (q in s.procs ==> s.procs[q] == s'.procs[q])
  }

  lemma {:induction false} SoloUpsert(s: State, pid: nat, offer: Offer)
    requires pid !in s.procs && !TerminalRow(s.row)
    requires s.row.Some? ==> s.row.value.status == s.row.value.payload.status
    ensures var s' := Solo(Apply(s, Begin(pid, UpsertRequest(offer))), pid, 2);
            var record := Merge(Payload(s.row), offer);
            s'.row == Some(Row(record.status, record)) && s'.tasks == s.tasks && SameOthers(s, s', pid)
  {
    var s0 := Apply(s, Begin(pid, UpsertRequest(offer)));
    assert Solo(s0, pid, 2) == Apply(Apply(s0, Step(pid, "")), Step(pid, "")) by {
      assert Solo(s0, pid, 1) == Apply(Solo(s0, pid, 0), Step(pid, ""));
    }
  }

  /** A tenant that the guard of a process in this mode lets review its own decisions. */
  function Reviewer(auth: Auth): string {
    if auth.Off? then auth.tenant else "t"
  }

  function Rejection(auth: Auth): Request {
    ReviewRequest(Reject, "r", Reviewer(auth), auth, Some("c"))
  }

  function Approval(caller: string, auth: Auth): Request {
    ReviewRequest(Approve, "r", caller, auth, None)
  }

  lemma {:induction false} SoloGuard(s: State, pid: nat, req: Request)
    requires pid !in s.procs && req.ReviewRequest?
    requires s.row.Some? && req.auth.Jwt? ==> OwnedBy(s.row.value.payload, req.caller)
    ensures var s' := Solo(Apply(s, Begin(pid, req)), pid, 1);
            s'.row == s.row && s'.tasks == s.tasks && SameOthers(s, s', pid) && s'.procs[pid] == Proc(req, TransitionRead)
  {
    var s0 := Apply(s, Begin(pid, req));
    assert Solo(s0, pid, 1) == Apply(Solo(s0, pid, 0), Step(pid, ""));
  }

  /** Refused by the conditional update, the rejection still reads a snapshot to annotate. */
  lemma {:induction false} SoloStaleRejection(s: State, pid: nat, auth: Auth)
    requires pid in s.procs && s.procs[pid] == Proc(Rejection(auth), TransitionRead) && s.row.Some?
    requires s.row.value.status == s.row.value.payload.status && s.row.value.status.Other?
    ensures var s' := Solo(s, pid, 4);
            && s'.row == s.row && s'.tasks == s.tasks && SameOthers(s, s', pid)
            && s'.procs[pid].pc.AnnotateWrite? && s'.procs[pid].pc.annotated.status == s.row.value.status
  {
    var s1 := Apply(s, Step(pid, ""));
    var s2 := Apply(s1, Step(pid, ""));
    var s3 := Apply(s2, Step(pid, ""));
    assert s2.procs[pid].pc == TransitionReread;
    assert Solo(s, pid, 4) == Apply(s3, Step(pid, "")) by {
      assert Solo(s, pid, 1) == s1;
      assert Solo(s, pid, 2) == s2;
      assert Solo(s, pid, 3) == s3;
    }
  }

  lemma {:induction false} SoloApproval(s: State, pid: nat, caller: string, auth: Auth)
    requires pid in s.procs && s.procs[pid] == Proc(Approval(caller, auth), TransitionRead) && s.row.Some?
    requires s.row.value.status == s.row.value.payload.status && s.row.value.status in LIFECYCLE
    ensures var s' := Solo(s, pid, 2);
            TerminalRow(s'.row) && SameOthers(s, s', pid)
  {
    assert Solo(s, pid, 2) == Apply(Apply(s, Step(pid, "")), Step(pid, "")) by {
      assert Solo(s, pid, 1) == Apply(Solo(s, pid, 0), Step(pid, ""));
    }
  }

  predicate Extends(events: seq<Event>, events': seq<Event>, first: Event) {
    && |events| < |events'| && events'[..|events|] == events && events'[|events|] == first
    && forall i :: |events| < i < |events'| ==> events'[i].Step?
  }

  lemma {:induction false} PlayUpsert(events: seq<Event>, s: State, pid: nat, offer: Offer) returns (events': seq<Event>, s': State)
    requires s == Exec(events) && pid !in s.procs && !TerminalRow(s.row)
    requires s.row.Some? ==> s.row.value.status == s.row.value.payload.status
    ensures s' == Exec(events') && Extends(events, events', Begin(pid, UpsertRequest(offer)))
    ensures s'.row == Some(Row(Merge(Payload(s.row), offer).status, Merge(Payload(s.row), offer)))
    ensures s'.tasks == s.tasks && SameOthers(s, s', pid)
  {
    events' := Play(events, pid, UpsertRequest(offer), 2);
    s' := Exec(events');
    SoloUpsert(s, pid, offer);
  }

  /** A review begins and passes the guard. */
  lemma {:induction false} PlayGuard(events: seq<Event>, s: State, pid: nat, req: Request) returns (events': seq<Event>, s': State)
    requires s == Exec(events) && pid !in s.procs && req.ReviewRequest?
    requires s.row.Some? && req.auth.Jwt? ==> OwnedBy(s.row.value.payload, req.caller)
    ensures s' == Exec(events') && Extends(events, events', Begin(pid, req))
    ensures s'.row == s.row && s'.tasks == s.tasks && SameOthers(s, s', pid) && s'.procs[pid] == Proc(req, TransitionRead)
  {
    events' := Play(events, pid, req, 1);
    s' := Exec(events');
    SoloGuard(s, pid, req);
  }

  lemma {:induction false} PlayStaleRejection(events: seq<Event>, s: State, pid: nat, auth: Auth) returns (events': seq<Event>, s': State)
    requires s == Exec(events) && pid in s.procs && s.procs[pid] == Proc(Rejection(auth), TransitionRead) && s.row.Some?
    requires s.row.value.status == s.row.value.payload.status && s.row.value.status.Other?
    ensures s' == Exec(events') && Extends(events, events', Step(pid, ""))
    ensures s'.row == s.row && SameOthers(s, s', pid)
    ensures s'.procs[pid].pc.AnnotateWrite? && s'.procs[pid].pc.annotated.status == s.row.value.status
  {
    events' := ExtendSolo(events, pid, 4);
    s' := Exec(events');
    SoloStaleRejection(s, pid, auth);
  }

  lemma {:induction false} PlayApproval(events: seq<Event>, s: State, pid: nat, caller: string, auth: Auth) returns (events': seq<Event>, s': State)
    requires s == Exec(events) && pid in s.procs && s.procs[pid] == Proc(Approval(caller, auth), TransitionRead) && s.row.Some?
    requires s.row.value.status == s.row.value.payload.status && s.row.value.status in LIFECYCLE
    ensures s' == Exec(events') && Extends(events, events', Step(pid, ""))
    ensures TerminalRow(s'.row) && SameOthers(s, s', pid)
  {
    events' := ExtendSolo(events, pid, 2);
    s' := Exec(events');
    SoloApproval(s, pid, caller, auth);
  }

  /** A verdict that the last step of a run replaces by a status the loop does not know. */
  lemma {:induction false} Overwritten(events: seq<Event>, s: State, pid: nat, events': seq<Event>)
    requires s == Exec(events) && TerminalRow(s.row)
    requires pid in s.procs && s.procs[pid].pc.AnnotateWrite? && s.procs[pid].pc.annotated.status.Other?
    requires events' == events + [Step(pid, "")]
    ensures !Stable(events')
  {
    assert events'[..|events|] == events;
    assert Exec(events') == Apply(s, Step(pid, ""));
    StaleWrite(s, pid);
    assert TerminalRow(Exec(events'[..|events|]).row);
  }

  /** A rejection with a correction, refused by the conditional update, holds a snapshot of an unknown status. */
  lemma {:induction false} StaleSnapshot(x: Status, y: Status, auth: Auth) returns (events: seq<Event>, s: State)
    requires x.Other?
    ensures s == Exec(events) && RunOffers(events, iset{x, y}) && RunAdmits(events, auth)
    ensures s.row.Some? && s.row.value.status == s.row.value.payload.status == x
    ensures 1 in s.procs && s.procs[1].pc.AnnotateWrite? && s.procs[1].pc.annotated.status == x
    ensures 2 !in s.procs && 3 !in s.procs
  {
    var e1, s1 := PlayUpsert([], INIT, 0, OfferOf(x, Reviewer(auth)));
    var e2, s2 := PlayGuard(e1, s1, 1, Rejection(auth));
    events, s := PlayStaleRejection(e2, s2, 1, auth);
    ExtendsOffers([], e1, x, y, auth);
    ExtendsOffers(e1, e2, x, y, auth);
    ExtendsOffers(e2, events, x, y, auth);
  }

  /** The stale snapshot later overwrites a verdict, in either authentication mode. */
  lemma {:induction false} LostVerdict(x: Status, y: Status, auth: Auth) returns (events: seq<Event>)
    requires x.Other? && y in LIFECYCLE
    ensures RunOffers(events, iset{x, y}) && RunAdmits(events, auth) && !Stable(events)
  {
    var tenant := Reviewer(auth);
    var e1, s1 := StaleSnapshot(x, y, auth);
    var e2, s2 := PlayUpsert(e1, s1, 2, OfferOf(y, tenant));
    var e3, s3 := PlayGuard(e2, s2, 3, Approval(tenant, auth));
    var e4, s4 := PlayApproval(e3, s3, 3, tenant, auth);
    events := e4 + [Step(1, "")];
    Overwritten(e4, s4, 1, events);
    ExtendsOffers(e1, e2, x, y, auth);
    ExtendsOffers(e2, e3, x, y, auth);
    ExtendsOffers(e3, e4, x, y, auth);
  }

  lemma {:induction false} StaleWrite(s: State, pid: nat)
    requires pid in s.procs && s.row.Some? && s.procs[pid].pc.AnnotateWrite?
    ensures var s' := Apply(s, Step(pid, ""));
            s'.row.Some? && s'.row.value.status == s.procs[pid].pc.annotated.status
  {
  }

  lemma {:induction false} ExtendsOffers(events: seq<Event>, events': seq<Event>, x: Status, y: Status, auth: Auth)
    requires |events| < |events'| && Extends(events, events', events'[|events|])
    requires RunOffers(events, iset{x, y}) && Offers(events'[|events|], iset{x, y})
    requires RunAdmits(events, auth) && Admits(events'[|events|], auth)
    ensures RunOffers(events', iset{x, y}) && RunAdmits(events', auth)
  {
    forall i | 0 <= i < |events'| ensures Offers(events'[i], iset{x, y}) && Admits(events'[i], auth) {
      if i < |events| {
        assert events'[..|events|][i] == events'[i];
      }
    }
  }

  /**
   * Verdicts survive every interleaving, in either authentication mode, exactly when the upserted
   * statuses are all known to the loop or all unknown to it.
   */
  lemma {:induction false} StabilityCondition(statuses: iset<Status>, auth: Auth)
    ensures AlwaysStable(statuses, auth) <==> (statuses <= LIFECYCLE || statuses !! LIFECYCLE)
  {
    if statuses <= LIFECYCLE {
      forall events | RunOffers(events, statuses) && RunAdmits(events, auth) ensures Stable(events) {
        assert RunOffers(events, LIFECYCLE);
        VerdictsNeverChange(events);
      }
    } else if statuses !! LIFECYCLE {
      forall events | RunOffers(events, statuses) && RunAdmits(events, auth) ensures Stable(events) {
        forall k | 0 <= k <= |events| ensures !TerminalRow(Exec(events[..k]).row) {
          ForeignRunsStayForeign(events[..k], statuses);
        }
      }
    } else {
      var x :| x in statuses && x !in LIFECYCLE;
      var y :| y in statuses && y in LIFECYCLE;
      var events := LostVerdict(x, y, auth);
      assert RunOffers(events, statuses);
    }
  }

  // ---- write-back tasks ----

  /** Tenants stamped on offered decisions, and tenants of the callers that review them. */
  predicate Stamps(e: Event, auth: Auth, stamps: iset<string>, callers: iset<string>) {
    && Offers(e, LIFECYCLE) && Admits(e, auth)
    && (e.Begin? && e.req.UpsertRequest? ==> OrElse(e.req.offer.tenant, "") in stamps)
    && (e.Begin? && e.req.ReviewRequest? ==> e.req.caller in callers)
  }

  predicate RunStamps(events: seq<Event>, auth: Auth, stamps: iset<string>, callers: iset<string>) {
    forall i :: 0 <= i < |events| ==> Stamps(events[i], auth, stamps, callers)
  }

  predicate OneTask(s: State) {
    forall k, k' :: k in s.tasks && k' in s.tasks ==> k == k'
  }

  ghost predicate AtMostOne(xs: iset<string>) {
    forall x, y :: x in xs && y in xs ==> x == y
  }

  ghost predicate AlwaysOneTask(auth: Auth, stamps: iset<string>, callers: iset<string>) {
    forall events :: RunStamps(events, auth, stamps, callers) ==> OneTask(Exec(events))
  }

  /** A task exists only for an approved decision, under a key of that decision; every approval leaves one. */
  lemma {:induction false} TasksOnlyWhenApproved(events: seq<Event>, pid: nat)
    requires RunOffers(events, LIFECYCLE)
    ensures var s := Exec(events);
            && (forall k :: k in s.tasks ==>
                  s.row.Some? && s.row.value.status.Approved? && k == KeyFor(s.row.value.payload, k.tenant))
            && (pid in s.procs && s.procs[pid].req.ReviewRequest? && s.procs[pid].req.v.Approve?
                && s.procs[pid].pc.Done? && s.procs[pid].pc.answer.Some?
                && s.procs[pid].pc.answer.value.status.Approved? ==>
                  s.procs[pid].pc.answer.value.writeBack.Some?
                  && s.procs[pid].pc.answer.value.writeBack.value in s.tasks)
  {
    ReachableInv(events);
  }

  predicate CallerInv(s: State, callers: iset<string>) {
    && Inv(s)
    && (forall pid :: pid in s.procs && s.procs[pid].req.ReviewRequest? ==> s.procs[pid].req.caller in callers)
    && (forall k :: k in s.tasks && s.row.Some? && s.row.value.payload.tenant == "" ==> k.tenant in callers)
  }

  lemma {:induction false} CallerAdvance(row: Option<Row>, tasks: map<TaskKey, Option<Receipt>>, p: Proc, now: string, callers: iset<string>)
    requires RowOk(row, tasks) && ProcOk(row, tasks, p)
    requires p.req.ReviewRequest? ==> p.req.caller in callers
    requires forall k :: k in tasks && row.Some? && row.value.payload.tenant == "" ==> k.tenant in callers
    ensures var (row', tasks', _) := Advance(row, tasks, p, now);
            forall k :: k in tasks' && row'.Some? && row'.value.payload.tenant == "" ==> k.tenant in callers
  {
    AdvanceSafe(row, tasks, p, now);
  }

  lemma {:induction false} TaskTenants(events: seq<Event>, auth: Auth, stamps: iset<string>, callers: iset<string>)
    requires RunStamps(events, auth, stamps, callers)
    ensures CallerInv(Exec(events), callers)
  {
    if events != [] {
      var prefix, e := events[..|events| - 1], events[|events| - 1];
      TaskTenants(prefix, auth, stamps, callers);
      ApplySafe(Exec(prefix), e);
      if e.Step? && e.pid in Exec(prefix).procs {
        CallerAdvance(Exec(prefix).row, Exec(prefix).tasks, Exec(prefix).procs[e.pid], e.now, callers);
      }
    }
  }

  predicate StampedProc(p: Proc) {
    match p.pc
    case UpsertRead => p.req.UpsertRequest? ==> OrElse(p.req.offer.tenant, "") != ""
    case UpsertWrite(record) => record.tenant != ""
    case TransitionUpdate(u) => u.tenant != ""
    case AnnotateWrite(_, u) => u.tenant != ""
    case _ => true
  }

  predicate StampedRow(row: Option<Row>) {
    row.Some? ==> row.value.payload.tenant != ""
  }

  predicate StampedInv(s: State) {
    StampedRow(s.row) && forall pid :: pid in s.procs ==> StampedProc(s.procs[pid])
  }

  lemma {:induction false} StampedAdvance(row: Option<Row>, tasks: map<TaskKey, Option<Receipt>>, p: Proc, now: string)
    requires StampedRow(row) && StampedProc(p)
    ensures var (row', _, pc') := Advance(row, tasks, p, now);
            StampedRow(row') && StampedProc(p.(pc := pc'))
  {
  }

  lemma {:induction false} StampsPersist(events: seq<Event>, auth: Auth, stamps: iset<string>, callers: iset<string>)
    requires RunStamps(events, auth, stamps, callers) && "" !in stamps
    ensures StampedInv(Exec(events))
  {
    if events != [] {
      var prefix, e := events[..|events| - 1], events[|events| - 1];
      StampsPersist(prefix, auth, stamps, callers);
      assert Stamps(e, auth, stamps, callers);
      if e.Step? && e.pid in Exec(prefix).procs {
        StampedAdvance(Exec(prefix).row, Exec(prefix).tasks, Exec(prefix).procs[e.pid], e.now);
      }
    }
  }

  /** An approval that has just created its task and not yet annotated the row. */
  lemma {:induction false} SoloTask(s: State, pid: nat, caller: string, n: nat)
    requires pid in s.procs && s.procs[pid] == Proc(Approval(caller, Jwt), TransitionRead)
    requires s.row.Some? && s.row.value.payload.writeBack.None? && s.row.value.status == s.row.value.payload.status
    requires (s.row.value.status.Pending? && n == 3) || (s.row.value.status.Approved? && n == 2)
    ensures var s' := Solo(s, pid, n);
            && s'.row.Some? && s'.row.value.status.Approved? && s'.row.value.payload.status.Approved?
            && s'.row.value.payload.tenant == s.row.value.payload.tenant && s'.row.value.payload.writeBack.None?
            && s'.row.value.payload.domain == s.row.value.payload.domain
            && SameOthers(s, s', pid)
            && KeyFor(s.row.value.payload, caller) in s'.tasks && forall k :: k in s.tasks ==> k in s'.tasks
  {
    var s1 := Apply(s, Step(pid, ""));
    var s2 := Apply(s1, Step(pid, ""));
    assert Solo(s, pid, 2) == s2 by {
      assert Solo(s, pid, 1) == s1;
    }
    if n == 3 {
      assert s2.procs[pid].pc.CreateTask?;
      assert Solo(s, pid, 3) == Apply(s2, Step(pid, ""));
    }
  }

  lemma {:induction false} PlayTask(events: seq<Event>, s: State, pid: nat, caller: string) returns (events': seq<Event>, s': State)
    requires s == Exec(events) && pid in s.procs && s.procs[pid] == Proc(Approval(caller, Jwt), TransitionRead)
    requires s.row.Some? && s.row.value.payload.writeBack.None? && s.row.value.status == s.row.value.payload.status
    requires s.row.value.status.Pending? || s.row.value.status.Approved?
    ensures s' == Exec(events') && Extends(events, events', Step(pid, ""))
    ensures s'.row.Some? && s'.row.value.status.Approved? && s'.row.value.payload.status.Approved?
    ensures s'.row.value.payload.tenant == s.row.value.payload.tenant && s'.row.value.payload.writeBack.None?
    ensures SameOthers(s, s', pid)
    ensures KeyFor(s.row.value.payload, caller) in s'.tasks && forall k :: k in s.tasks ==> k in s'.tasks
  {
    var n := if s.row.value.status.Pending? then 3 else 2;
    events' := ExtendSolo(events, pid, n);
    s' := Exec(events');
    SoloTask(s, pid, caller, n);
  }

  lemma {:induction false} ExtendsStamps(events: seq<Event>, events': seq<Event>, auth: Auth, stamps: iset<string>, callers: iset<string>)
    requires |events| < |events'| && Extends(events, events', events'[|events|])
    requires RunStamps(events, auth, stamps, callers) && Stamps(events'[|events|], auth, stamps, callers)
    ensures RunStamps(events', auth, stamps, callers)
  {
    forall i | 0 <= i < |events'| ensures Stamps(events'[i], auth, stamps, callers) {
      if i < |events| {
        assert events'[..|events|][i] == events'[i];
      }
    }
  }

  /**
   * Two reviewers of different tenants pass the guard before any row exists; the decision then arrives
   * without a tenant, and each mints a task for it.
   */
  lemma {:induction false} TwoTasks(c: string, c': string) returns (events: seq<Event>)
    requires c != c'
    ensures RunStamps(events, Jwt, iset{""}, iset{c, c'}) && !OneTask(Exec(events))
  {
    var e1, s1 := PlayGuard([], INIT, 1, Approval(c, Jwt));
    var e2, s2 := PlayGuard(e1, s1, 2, Approval(c', Jwt));
    var e3, s3 := PlayUpsert(e2, s2, 0, OfferOf(Pending, ""));
    var e4, s4 := PlayTask(e3, s3, 1, c);
    var e5, s5 := PlayTask(e4, s4, 2, c');
    events := e5;
    assert KeyFor(s3.row.value.payload, c) in s5.tasks && KeyFor(s4.row.value.payload, c') in s5.tasks;
    ExtendsStamps([], e1, Jwt, iset{""}, iset{c, c'});
    ExtendsStamps(e1, e2, Jwt, iset{""}, iset{c, c'});
    ExtendsStamps(e2, e3, Jwt, iset{""}, iset{c, c'});
    ExtendsStamps(e3, e4, Jwt, iset{""}, iset{c, c'});
    ExtendsStamps(e4, e5, Jwt, iset{""}, iset{c, c'});
  }

  /**
   * At most one task per decision, for any number of concurrent or repeated reviews, exactly when
   * authentication is off, every offered decision carries a tenant, or all reviewers share one.
   */
  lemma {:induction false} OneTaskCondition(auth: Auth, stamps: iset<string>, callers: iset<string>)
    ensures AlwaysOneTask(auth, stamps, callers) <==> (auth.Off? || "" !in stamps || AtMostOne(callers))
  {
    if auth.Off? || "" !in stamps || AtMostOne(callers) {
      var tenants := if auth.Off? then iset{auth.tenant} else callers;
      forall events | RunStamps(events, auth, stamps, callers) ensures OneTask(Exec(events)) {
        assert RunStamps(events, auth, stamps, tenants);
        TaskTenants(events, auth, stamps, tenants);
        if "" !in stamps {
          StampsPersist(events, auth, stamps, tenants);
        }
      }
    } else {
      var c, c' :| c in callers && c' in callers && c != c';
      var events := TwoTasks(c, c');
      assert RunStamps(events, auth, stamps, callers);
    }
  }

  /** A completion receipt is write-once over every run, whatever is offered. */
  lemma {:induction false} ReceiptsAreWriteOnce(events: seq<Event>, k: nat, key: TaskKey)
    requires k <= |events| && key in Exec(events[..k]).tasks && Exec(events[..k]).tasks[key].Some?
    ensures key in Exec(events).tasks && Exec(events).tasks[key] == Exec(events[..k]).tasks[key]
  {
    if k == |events| {
      assert events[..k] == events;
    } else {
      var prefix := events[..|events| - 1];
      assert prefix[..k] == events[..k];
      ReceiptsAreWriteOnce(prefix, k, key);
    }
  }
}
