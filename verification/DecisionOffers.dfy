/**
 * The refinement with the callers' own offers: exactly when the order of effects can be replayed on the
 * in-memory store with the very calls that the requests made.
 */
module DecisionOffers {
  import opened Common
  import opened Decisions
  import opened DecisionProtocol
  import opened DecisionSafety
  import opened DecisionRefinement

  /** What upserts say about the review: None leaves it out, Some(None) clears it, Some(Some(r)) sets it. */
  type Mention = Option<Option<Review>>

  predicate Mentions(e: Event, mentions: iset<Mention>) {
    e.Begin? && e.req.UpsertRequest? ==> e.req.offer.review in mentions
  }

  predicate RunMentions(events: seq<Event>, mentions: iset<Mention>) {
    forall i :: 0 <= i < |events| ==> Mentions(events[i], mentions)
  }

  /** Some upserts set a review and others leave it out. */
  ghost predicate Mixed(mentions: iset<Mention>) {
    None in mentions && exists r :: Some(Some(r)) in mentions
  }

  /** With `unset`, no upsert sets a review; otherwise every upsert mentions it. */
  predicate Allowed(m: Mention, unset: bool) {
    if unset then m == None || m == Some(None) else m.Some?
  }

  predicate RowAllowed(row: Option<Row>, unset: bool) {
    unset && row.Some? && !Terminal(row.value.payload.status) ==> row.value.payload.review.None?
  }

  predicate ProcAllowed(p: Proc, unset: bool) {
    match p.pc
    case UpsertRead => p.req.UpsertRequest? ==> Allowed(p.req.offer.review, unset)
    case UpsertWrite(record) =>
      && p.req.UpsertRequest? && Allowed(p.req.offer.review, unset)
      && p.req.offer.status == Some(record.status) && record.review == OrElse(p.req.offer.review, None)
    case _ => true
  }

  predicate AllowedInv(s: State, unset: bool) {
    RowAllowed(s.row, unset) && forall pid :: pid in s.procs ==> ProcAllowed(s.procs[pid], unset)
  }

  lemma {:induction false} AdvanceAllowed(row: Option<Row>, tasks: map<TaskKey, Option<Receipt>>, p: Proc, now: string, unset: bool)
    requires RowOk(row, tasks) && ProcOk(row, tasks, p) && RowAllowed(row, unset) && ProcAllowed(p, unset)
    ensures var (row', _, pc') := Advance(row, tasks, p, now);
            RowAllowed(row', unset) && ProcAllowed(p.(pc := pc'), unset)
  {
  }

  lemma {:induction false} ReachableAllowed(events: seq<Event>, mentions: iset<Mention>, unset: bool)
    requires RunOffers(events, LIFECYCLE) && RunMentions(events, mentions)
    requires forall m :: m in mentions ==> Allowed(m, unset)
    ensures AllowedInv(Exec(events), unset)
  {
    if events != [] {
      var prefix, e := events[..|events| - 1], events[|events| - 1];
      ReachableAllowed(prefix, mentions, unset);
      ReachableInv(prefix);
      assert Mentions(e, mentions);
      if e.Step? && e.pid in Exec(prefix).procs {
        AdvanceAllowed(Exec(prefix).row, Exec(prefix).tasks, Exec(prefix).procs[e.pid], e.now, unset);
      }
    }
  }

  /** The call a request really made, where `EffectOf` names what an upsert wrote. */
  function OwnEffect(row: Option<Row>, p: Proc, now: string): Option<Call> {
    if p.pc.UpsertWrite? && p.req.UpsertRequest? then Some(UpsertCall(p.req.offer)) else EffectOf(row, p, now)
  }

  function OwnCallOf(s: State, e: Event): Option<Call> {
    if e.Step? && e.pid in s.procs then OwnEffect(s.row, s.procs[e.pid], e.now) else None
  }

  function OwnCalls(events: seq<Event>): seq<Tagged> {
    if events == [] then [] else
      var prefix, e := events[..|events| - 1], events[|events| - 1];
      var c := OwnCallOf(Exec(prefix), e);
      if c.Some? then OwnCalls(prefix) + [Tagged(e.pid, c.value)] else OwnCalls(prefix)
  }

  /** Two call sequences by the same requests that lead through the same verdicts. */
  ghost predicate Alike(a: seq<Tagged>, b: seq<Tagged>) {
    && |a| == |b|
    && (forall i :: 0 <= i < |a| ==> a[i].pid == b[i].pid)
    && (forall i {:trigger a[..i]} :: 0 <= i <= |a| ==> Project(Atomic(a[..i])) == Project(Atomic(b[..i])))
  }

  lemma {:induction false} AlikeNext(a: seq<Tagged>, b: seq<Tagged>, s: Tagged, t: Tagged)
    requires Alike(a, b) && s.pid == t.pid
    requires Project(CallSpec(Atomic(a), s.call)) == Project(CallSpec(Atomic(b), t.call))
    ensures Alike(a + [s], b + [t])
  {
    AtomicSnoc(a, s);
    AtomicSnoc(b, t);
    forall i | 0 <= i <= |a| + 1 ensures Project(Atomic((a + [s])[..i])) == Project(Atomic((b + [t])[..i])) {
      if i <= |a| {
        assert (a + [s])[..i] == a[..i] && (b + [t])[..i] == b[..i];
      } else {
        assert (a + [s])[..i] == a + [s] && (b + [t])[..i] == b + [t];
      }
    }
  }

  /** Where no review is lost between read and write, the offer and what was written have the same effect. */
  lemma {:induction false} OwnEffectAlike(
    row: Option<Row>, p: Proc, now: string, own: Option<Decision>, put: Option<Decision>, unset: bool)
    requires RowAllowed(row, unset) && ProcAllowed(p, unset) && EffectOf(row, p, now).Some?
    requires Project(own) == Project(put) == Project(Payload(row))
    ensures OwnEffect(row, p, now).Some?
    ensures Project(CallSpec(own, OwnEffect(row, p, now).value)) == Project(CallSpec(put, EffectOf(row, p, now).value))
  {
  }

  lemma {:induction false} AlikeStep(s: State, e: Event, own: seq<Tagged>, put: seq<Tagged>, unset: bool)
    requires AllowedInv(s, unset) && Alike(own, put) && Project(Payload(s.row)) == Project(Atomic(put))
    requires e.Step? && e.pid in s.procs && EffectOf(s.row, s.procs[e.pid], e.now).Some?
    ensures OwnCallOf(s, e).Some?
    ensures Alike(own + [Tagged(e.pid, OwnCallOf(s, e).value)], put + [Tagged(e.pid, CallOf(s, e).value)])
  {
    assert own[..|own|] == own && put[..|put|] == put;
    OwnEffectAlike(s.row, s.procs[e.pid], e.now, Atomic(own), Atomic(put), unset);
    AlikeNext(own, put, Tagged(e.pid, OwnCallOf(s, e).value), Tagged(e.pid, CallOf(s, e).value));
  }

  lemma {:induction false} OwnCallsAlike(events: seq<Event>, mentions: iset<Mention>, unset: bool)
    requires RunOffers(events, LIFECYCLE) && RunMentions(events, mentions)
    requires forall m :: m in mentions ==> Allowed(m, unset)
    ensures Alike(OwnCalls(events), Calls(events))
  {
    if events != [] {
      var prefix, e := events[..|events| - 1], events[|events| - 1];
      OwnCallsAlike(prefix, mentions, unset);
      ReachableAllowed(prefix, mentions, unset);
      RunSimulates(prefix);
      var s := Exec(prefix);
      if e.Step? && e.pid in s.procs && EffectOf(s.row, s.procs[e.pid], e.now).Some? {
        AlikeStep(s, e, OwnCalls(prefix), Calls(prefix), unset);
      }
    }
  }

  lemma {:induction false} UnmixedMention(mentions: iset<Mention>, m: Mention)
    requires !Mixed(mentions)
    ensures m in mentions ==> Allowed(m, None in mentions)
  {
    assert m.Some? && m.value.Some? ==> m == Some(Some(m.value.value));
  }

  lemma {:induction false} UnmixedIsAllowed(mentions: iset<Mention>) returns (unset: bool)
    requires !Mixed(mentions)
    ensures forall m :: m in mentions ==> Allowed(m, unset)
  {
    unset := None in mentions;
    forall m | m in mentions ensures Allowed(m, unset) {
      UnmixedMention(mentions, m);
    }
  }

  /** The row's verdict is the one the in-memory store reaches by the requests' own calls in order. */
  ghost predicate Linear(events: seq<Event>) {
    Project(Payload(Exec(events).row)) == Project(Atomic(OwnCalls(events)))
  }

  /**
   * Unless upserts are mixed, the run is linear in the requests' own calls, and a finished review reports what the
   * in-memory store had at the review's one call.
   */
  lemma {:induction false} OwnCallsLinearize(events: seq<Event>, mentions: iset<Mention>, pid: nat)
    requires RunOffers(events, LIFECYCLE) && RunMentions(events, mentions) && !Mixed(mentions)
    ensures Linear(events)
    ensures pid in Exec(events).procs && Exec(events).procs[pid].req.ReviewRequest? && Exec(events).procs[pid].pc.Done? ==>
      exists i ::
        && OnlyCall(OwnCalls(events), pid, i)
        && Project(Exec(events).procs[pid].pc.answer) == Project(Atomic(OwnCalls(events)[..i + 1]))
  {
    RunSimulates(events);
    ReachableInv(events);
    var unset := UnmixedIsAllowed(mentions);
    OwnCallsAlike(events, mentions, unset);
    var own, put := OwnCalls(events), Calls(events);
    assert own[..|own|] == own && put[..|put|] == put;
    if pid in Exec(events).procs && Exec(events).procs[pid].req.ReviewRequest? && Exec(events).procs[pid].pc.Done? {
      var i := AnswerIsEffect(Exec(events), put, pid);
      assert OnlyCall(own, pid, i);
      assert Project(Atomic(own[..i + 1])) == Project(Atomic(put[..i + 1]));
    }
  }

  // ---- the converse: a review is lost between the read and the write of another upsert ----

  lemma {:induction false} Play(events: seq<Event>, s: State, own: seq<Tagged>, e: Event)
    returns (events': seq<Event>, s': State, own': seq<Tagged>)
    requires s == Exec(events) && own == OwnCalls(events)
    ensures events' == events + [e] && s' == Exec(events') == Apply(s, e) && own' == OwnCalls(events')
    ensures own' == if OwnCallOf(s, e).Some? then own + [Tagged(e.pid, OwnCallOf(s, e).value)] else own
  {
    events' := events + [e];
    assert events'[..|events|] == events;
    s' := Exec(events');
    own' := OwnCalls(events');
  }

  function OfferWith(m: Mention): Offer {
    Offer(Some(Pending), m, None, None, map[])
  }

  predicate SilentHasRead(s: State) {
    && 0 in s.procs && s.procs[0].req == UpsertRequest(OfferWith(None)) && s.procs[0].pc.UpsertWrite?
    && s.procs[0].pc.record.review.None? && s.procs[0].pc.record.status.Pending?
  }

  lemma {:induction false} SilentReads(mentions: iset<Mention>) returns (events: seq<Event>, s: State)
    requires None in mentions
    ensures s == Exec(events) && OwnCalls(events) == [] && s.row.None? && 1 !in s.procs && SilentHasRead(s)
    ensures RunOffers(events, LIFECYCLE) && RunMentions(events, mentions)
  {
    var e1, s1, o1 := Play([], INIT, [], Begin(0, UpsertRequest(OfferWith(None))));
    var o2;
    events, s, o2 := Play(e1, s1, o1, Step(0, ""));
  }

  lemma {:induction false} SetterReads(r: Review) returns (events: seq<Event>, s: State)
    ensures s == Exec(events) && OwnCalls(events) == [] && s.row.None? && SilentHasRead(s)
    ensures 1 in s.procs && s.procs[1].req == UpsertRequest(OfferWith(Some(Some(r))))
    ensures s.procs[1].pc.UpsertWrite? && s.procs[1].pc.record.status.Pending?
    ensures RunOffers(events, LIFECYCLE) && RunMentions(events, iset{None, Some(Some(r))})
  {
    var e1, s1 := SilentReads(iset{None, Some(Some(r))});
    var e2, s2, o2 := Play(e1, s1, [], Begin(1, UpsertRequest(OfferWith(Some(Some(r))))));
    var o3;
    events, s, o3 := Play(e2, s2, o2, Step(1, ""));
  }

  /** The silent upsert has read; the other has written its review. */
  lemma {:induction false} ReviewArrives(r: Review) returns (events: seq<Event>, s: State)
    ensures s == Exec(events) && OwnCalls(events) == [Tagged(1, UpsertCall(OfferWith(Some(Some(r)))))]
    ensures RunOffers(events, LIFECYCLE) && RunMentions(events, iset{None, Some(Some(r))})
    ensures s.row.Some? && s.row.value.status.Pending? && SilentHasRead(s)
  {
    var before, s1 := SetterReads(r);
    var own;
    events, s, own := Play(before, s1, [], Step(1, ""));
  }

  lemma {:induction false} TwoOffers(r: Review)
    ensures var first := CallSpec(None, UpsertCall(OfferWith(Some(Some(r)))));
            Project(CallSpec(first, UpsertCall(OfferWith(None)))) == Some(Verdicted(Pending, Some(r)))
  {
  }

  /** A silent upsert reads before, and writes after, one that sets a review: the review is gone. */
  lemma {:induction false} LostReview(r: Review) returns (events: seq<Event>)
    ensures RunOffers(events, LIFECYCLE) && RunMentions(events, iset{None, Some(Some(r))}) && !Linear(events)
  {
    var before, s := ReviewArrives(r);
    var s', own';
    events, s', own' := Play(before, s, OwnCalls(before), Step(0, ""));
    assert s'.row.Some? && s'.row.value.payload.review.None?;
    var first, second := Tagged(1, UpsertCall(OfferWith(Some(Some(r))))), Tagged(0, UpsertCall(OfferWith(None)));
    assert own' == [first] + [second] && [] + [first] == [first];
    AtomicSnoc([], first);
    AtomicSnoc([first], second);
    TwoOffers(r);
  }

  /** Every run is linear in the requests' own calls exactly unless some upserts set a review and others leave it out. */
  lemma {:induction false} OwnCallsCondition(mentions: iset<Mention>)
    ensures (forall events :: RunOffers(events, LIFECYCLE) && RunMentions(events, mentions) ==> Linear(events)) <==> !Mixed(mentions)
  {
    if Mixed(mentions) {
      var r :| Some(Some(r)) in mentions;
      var events := LostReview(r);
      assert RunMentions(events, mentions);
    } else {
      forall events | RunOffers(events, LIFECYCLE) && RunMentions(events, mentions) ensures Linear(events) {
        OwnCallsLinearize(events, mentions, 0);
      }
    }
  }
}
