/**
 * The Postgres candidate store: the record is committed under the candidate's lock, the history entry
 * is inserted later in a transaction of its own, so entries of concurrent calls can overtake each other.
 */
module CandidateHistoryPostgres {
  import opened Common
  import opened Text
  import opened Permutations
  import opened Timestamps
  import opened Candidates
  import CandidateLifecycle

  /** `inFlight` holds committed transitions whose entry is not inserted yet, in commit order. */
  datatype Db = Db(row: Option<Record>, table: seq<Entry>, inFlight: seq<Body>)

  /** `Insert(i)` lets the call of the i-th in-flight transition insert its entry. */
  datatype Event = Commit(op: Op) | Insert(i: nat)

  /** The text a stored timestamp comes back as; it depends on the time zone of the connection. */
  type Reader = string -> string

  function Reread(row: Option<Record>, reader: Reader): Option<Record> {
    if row.None? then None else
      var r := row.value;
      Some(r.(suppressedUntil := if r.suppressedUntil.None? then None else Some(reader(r.suppressedUntil.value)),
              firstSeen := reader(r.firstSeen), lastSeen := reader(r.lastSeen), updatedAt := reader(r.updatedAt)))
  }

  /** One call on the row as it is read back. */
  function NextRead(row: Option<Record>, op: Op, reader: Reader): (Option<Record>, Option<Reason>) {
    var next := Next(Reread(row, reader), op);
    if !op.Observe? && next.1.None? then (row, None) else next
  }

  /** coalesce(max(sequence) + 1, 1) */
  function NextSequence(table: seq<Entry>): nat {
    MaxSequence(table) + 1
  }

  function MaxSequence(table: seq<Entry>): nat {
    if table == [] then 0
    else
      var rest, last := MaxSequence(table[..|table| - 1]), table[|table| - 1].sequence;
      if rest < last then last else rest
  }

  function Apply(db: Db, e: Event, reader: Reader): Db {
    match e
    case Commit(op) =>
      var next := NextRead(db.row, op, reader);
      Db(next.0, db.table, db.inFlight + NewBodies(next))
    case Insert(i) => InsertAt(db, i)
  }

  function InsertAt(db: Db, i: nat): Db {
    if i >= |db.inFlight| then db
    else Db(db.row, db.table + [Entry(NextSequence(db.table), db.inFlight[i])], Drop(db.inFlight, i))
  }

  function Exec(events: seq<Event>, reader: Reader): Db {
    if events == [] then Db(None, [], []) else Apply(Exec(events[..|events| - 1], reader), events[|events| - 1], reader)
  }

  /** The transitions the commits of a run made, in commit order. */
  function Transitions(events: seq<Event>, reader: Reader): seq<Body> {
    if events == [] then [] else
      var prefix, e := events[..|events| - 1], events[|events| - 1];
      Transitions(prefix, reader) + if e.Commit? then NewBodies(NextRead(Exec(prefix, reader).row, e.op, reader)) else []
  }

  function Logged(db: Db): seq<Body> {
    CandidateLifecycle.Bodies(db.table)
  }

  // ---- conservation ----

  predicate GapFree(table: seq<Entry>) {
    forall i :: 0 <= i < |table| ==> table[i].sequence == i + 1
  }

  lemma {:induction false} SequencesAreGapFree(table: seq<Entry>)
    requires GapFree(table)
    ensures NextSequence(table) == |table| + 1
  {
    if table != [] {
      SequencesAreGapFree(table[..|table| - 1]);
    }
  }

  /** Every transition of `transitions` is in the table or in flight, as often as it happened. */
  predicate Conserves(db: Db, transitions: seq<Body>) {
    && GapFree(db.table)
    && multiset(Logged(db)) + multiset(db.inFlight) == multiset(transitions)
  }

  lemma {:induction false} InsertLogs(db: Db, i: nat)
    requires i < |db.inFlight|
    ensures Logged(InsertAt(db, i)) == Logged(db) + [db.inFlight[i]]
  {
  }

  lemma {:induction false} InsertConserves(db: Db, i: nat, transitions: seq<Body>)
    requires Conserves(db, transitions)
    ensures Conserves(InsertAt(db, i), transitions)
  {
    if i < |db.inFlight| {
      SequencesAreGapFree(db.table);
      DropMultiset(db.inFlight, i);
      InsertLogs(db, i);
    }
  }

  /**
   * Conservation, for every interleaving and every reading of timestamps: each transition the commits
   * made is in the table or in flight with its multiplicity, and the sequence numbers are 1..n.
   */
  lemma {:induction false} HistoryConservesTransitions(events: seq<Event>, reader: Reader)
    ensures Conserves(Exec(events, reader), Transitions(events, reader))
  {
    if events != [] {
      var prefix, e := events[..|events| - 1], events[|events| - 1];
      HistoryConservesTransitions(prefix, reader);
      if e.Insert? {
        InsertConserves(Exec(prefix, reader), e.i, Transitions(prefix, reader));
        assert Transitions(events, reader) == Transitions(prefix, reader);
      }
    }
  }

  lemma {:induction false} ConservedLength(db: Db, transitions: seq<Body>)
    requires Conserves(db, transitions)
    ensures |Logged(db)| + |db.inFlight| == |transitions|
  {
    assert |multiset(Logged(db)) + multiset(db.inFlight)| == |multiset(transitions)|;
  }

  // ---- the same calls on the in-memory store ----

  /** The calls in the order their transactions committed. */
  function Committed(events: seq<Event>): seq<Op> {
    if events == [] then [] else
      var e := events[|events| - 1];
      Committed(events[..|events| - 1]) + if e.Commit? then [e.op] else []
  }

  lemma {:induction false} CommitOne(ops: seq<Op>, op: Op)
    ensures Candidates.Exec(ops + [op]) == Candidates.Apply(Candidates.Exec(ops), op)
  {
    assert (ops + [op])[..|ops|] == ops;
  }

  /** The texts the store writes. */
  ghost function Renderings(): iset<string> {
    iset i: ValidInstant :: Render(i)
  }

  predicate RecordWithin(row: Option<Record>, texts: iset<string>) {
    row.Some? ==>
      && row.value.firstSeen in texts && row.value.lastSeen in texts && row.value.updatedAt in texts
      && (row.value.suppressedUntil.Some? ==> row.value.suppressedUntil.value in texts)
  }

  predicate OpWithin(op: TextOp, texts: iset<string>) {
    op.timestamp in texts && (op.SuppressUntil? ==> op.until in texts)
  }

  /** Every timestamp the store writes comes back as it was written. */
  ghost predicate Faithful(reader: Reader) {
    forall t :: t in Renderings() ==> reader(t) == t
  }

  lemma {:induction false} RereadWithin(row: Option<Record>, texts: iset<string>, reader: Reader)
    requires RecordWithin(row, texts) && forall t :: t in texts ==> reader(t) == t
    ensures Reread(row, reader) == row
  {
  }

  lemma {:induction false} RefusedKeepsRow(row: Option<Record>, op: TextOp)
    ensures !op.ObserveAt? && NextText(row, op).1.None? ==> NextText(row, op).0 == row
  {
  }

  lemma {:induction false} FaithfulReading(row: Option<Record>, op: Op, reader: Reader)
    requires Reread(row, reader) == row
    ensures NextRead(row, op, reader) == Next(row, op)
  {
    RefusedKeepsRow(row, Rendered(op));
  }

  lemma {:induction false} CallStaysWithin(row: Option<Record>, op: TextOp, texts: iset<string>)
    requires RecordWithin(row, texts) && OpWithin(op, texts)
    ensures RecordWithin(NextText(row, op).0, texts)
  {
  }

  lemma {:induction false} RunsWrite(ops: seq<Op>)
    ensures RecordWithin(Candidates.Exec(ops).record, Renderings())
  {
    if ops != [] {
      var op := ops[|ops| - 1];
      RunsWrite(ops[..|ops| - 1]);
      assert OpWithin(Rendered(op), Renderings());
      CallStaysWithin(Candidates.Exec(ops[..|ops| - 1]).record, Rendered(op), Renderings());
    }
  }

  /** When timestamps come back as they were written, the row and the transitions are the in-memory store's. */
  lemma {:induction false} FaithfulMatchesMemory(events: seq<Event>, reader: Reader)
    requires Faithful(reader)
    ensures MatchesMemory(events, reader)
    ensures Transitions(events, reader) == CandidateLifecycle.Bodies(Candidates.Exec(Committed(events)).history)
  {
    if events != [] {
      var prefix, e := events[..|events| - 1], events[|events| - 1];
      FaithfulMatchesMemory(prefix, reader);
      if e.Commit? {
        var before := Candidates.Exec(Committed(prefix));
        CommitOne(Committed(prefix), e.op);
        RunsWrite(Committed(prefix));
        RereadWithin(before.record, Renderings(), reader);
        FaithfulReading(before.record, e.op, reader);
        CandidateLifecycle.LogAddsBodies(before, Next(before.record, e.op));
      } else {
        assert Committed(events) == Committed(prefix);
      }
    }
  }

  /** The row is the record the in-memory store has after the committed calls. */
  predicate MatchesMemory(events: seq<Event>, reader: Reader) {
    Exec(events, reader).row == Candidates.Exec(Committed(events)).record
  }

  lemma {:induction false} CommitStep(events: seq<Event>, op: Op, reader: Reader)
    ensures Committed(events + [Commit(op)]) == Committed(events) + [op]
    ensures Exec(events + [Commit(op)], reader).row == NextRead(Exec(events, reader).row, op, reader).0
  {
    assert (events + [Commit(op)])[..|events|] == events;
  }

  /** The same call committed twice, on both stores. */
  lemma {:induction false} Twice(op: Op, reader: Reader)
    ensures var events := [Commit(op), Commit(op)];
            && Exec(events, reader).row == NextRead(NextRead(None, op, reader).0, op, reader).0
            && Candidates.Exec(Committed(events)).record == Next(Next(None, op).0, op).0
  {
    var once := [] + [Commit(op)];
    CommitStep([], op, reader);
    CommitStep(once, op, reader);
    assert once + [Commit(op)] == [Commit(op), Commit(op)];
    CommitOne([], op);
    CommitOne([] + [op], op);
  }

  /** A second observation keeps the first one's timestamp, as it was read back. */
  lemma {:induction false} SeenTwice(op: TextOp, reader: Reader)
    requires op.ObserveAt?
    ensures var first := NextText(None, op).0;
            && NextText(first, op).0.Some? && NextText(first, op).0.value.firstSeen == op.timestamp
            && NextText(Reread(first, reader), op).0.Some?
            && NextText(Reread(first, reader), op).0.value.firstSeen == reader(op.timestamp)
            && Reread(None, reader) == None
  {
  }

  lemma {:induction false} SecondSight(op: Op, reader: Reader)
    requires op.Observe?
    ensures MatchesMemory([Commit(op), Commit(op)], reader) ==> reader(Rendered(op).timestamp) == Rendered(op).timestamp
  {
    Twice(op, reader);
    SeenTwice(Rendered(op), reader);
  }

  /** Over all runs the Postgres store keeps the in-memory store's record exactly when its timestamps come back as written. */
  lemma {:induction false} MemoryCondition(reader: Reader)
    ensures (forall events :: MatchesMemory(events, reader)) <==> Faithful(reader)
  {
    if Faithful(reader) {
      forall events ensures MatchesMemory(events, reader) {
        FaithfulMatchesMemory(events, reader);
      }
    }
    if forall events :: MatchesMemory(events, reader) {
      forall i: ValidInstant ensures reader(Render(i)) == Render(i) {
        SecondSight(Observe(Facts(false, 0.0, 0.0, 0), i), reader);
      }
    }
  }

  // ---- order ----

  predicate InCommitOrder(db: Db, transitions: seq<Body>) {
    Logged(db) + db.inFlight == transitions
  }

  /** The i-th in-flight entry equals all that committed before it. */
  predicate Fits(inFlight: seq<Body>, i: nat) {
    i < |inFlight| ==> forall j :: 0 <= j < i ==> inFlight[j] == inFlight[i]
  }

  lemma {:induction false} MovedToFront(s: seq<Body>, i: nat)
    requires i < |s|
    ensures [s[i]] + Drop(s, i) == s <==> forall j :: 0 <= j < i ==> s[j] == s[i]
  {
    var moved := [s[i]] + Drop(s, i);
    if moved == s {
      forall j | 0 <= j < i ensures s[j] == s[i] {
        AllEqual(s, i, j);
      }
    }
  }

  lemma {:induction false} AllEqual(s: seq<Body>, i: nat, j: nat)
    requires j <= i < |s| && [s[i]] + Drop(s, i) == s
    ensures s[j] == s[i]
  {
    var moved := [s[i]] + Drop(s, i);
    if j > 0 {
      AllEqual(s, i, j - 1);
      assert moved[j] == s[j - 1];
    }
  }

  /** From an ordered state, an insert keeps commit order exactly when its entry equals all earlier ones in flight. */
  lemma {:induction false} InsertKeepsOrder(db: Db, i: nat, transitions: seq<Body>)
    requires InCommitOrder(db, transitions)
    ensures InCommitOrder(InsertAt(db, i), transitions) <==> Fits(db.inFlight, i)
  {
    if i < |db.inFlight| {
      var log, moved := Logged(db), [db.inFlight[i]] + Drop(db.inFlight, i);
      InsertLogs(db, i);
      MovedToFront(db.inFlight, i);
      assert Logged(InsertAt(db, i)) + Drop(db.inFlight, i) == log + moved;
      assert log + moved == log + db.inFlight <==> moved == db.inFlight by {
        assert (log + moved)[|log|..] == moved && (log + db.inFlight)[|log|..] == db.inFlight;
      }
    }
  }

  ghost predicate AlwaysInOrder(events: seq<Event>, reader: Reader) {
    forall k {:trigger events[..k]} :: 0 <= k <= |events| ==> InCommitOrder(Exec(events[..k], reader), Transitions(events[..k], reader))
  }

  /** Every insert of the run takes an entry that equals all earlier ones in flight at that moment. */
  predicate EveryInsertFits(events: seq<Event>, reader: Reader) {
    events != [] ==>
      var prefix, e := events[..|events| - 1], events[|events| - 1];
      EveryInsertFits(prefix, reader) && (e.Insert? ==> Fits(Exec(prefix, reader).inFlight, e.i))
  }

  lemma {:induction false} Regroup(a: seq<Body>, b: seq<Body>, c: seq<Body>)
    ensures a + (b + c) == a + b + c
  {
  }

  lemma {:induction false} CommitKeepsOrder(db: Db, transitions: seq<Body>, op: Op, reader: Reader)
    requires InCommitOrder(db, transitions)
    ensures InCommitOrder(Apply(db, Commit(op), reader), transitions + NewBodies(NextRead(db.row, op, reader)))
  {
    Regroup(Logged(db), db.inFlight, NewBodies(NextRead(db.row, op, reader)));
  }

  lemma {:induction false} StepOrder(events: seq<Event>, reader: Reader)
    requires events != []
    ensures var prefix, e := events[..|events| - 1], events[|events| - 1];
            InCommitOrder(Exec(prefix, reader), Transitions(prefix, reader)) ==>
              (InCommitOrder(Exec(events, reader), Transitions(events, reader))
               <==> (e.Insert? ==> Fits(Exec(prefix, reader).inFlight, e.i)))
  {
    var prefix, e := events[..|events| - 1], events[|events| - 1];
    var db, transitions := Exec(prefix, reader), Transitions(prefix, reader);
    if InCommitOrder(db, transitions) {
      if e.Commit? {
        CommitKeepsOrder(db, transitions, e.op, reader);
      } else {
        InsertKeepsOrder(db, e.i, transitions);
        assert Transitions(events, reader) == transitions;
      }
    }
  }

  lemma {:induction false} OrderOfPrefix(events: seq<Event>, reader: Reader)
    requires events != []
    ensures AlwaysInOrder(events, reader)
       <==> AlwaysInOrder(events[..|events| - 1], reader) && InCommitOrder(Exec(events, reader), Transitions(events, reader))
  {
    var prefix := events[..|events| - 1];
    assert events[..|events|] == events;
    assert forall k :: 0 <= k <= |prefix| ==> prefix[..k] == events[..k];
  }

  /** Over every run: the history is in commit order at every moment exactly when every insert fits. */
  lemma {:induction false} StaysInOrderCondition(events: seq<Event>, reader: Reader)
    ensures AlwaysInOrder(events, reader) <==> EveryInsertFits(events, reader)
  {
    if events == [] {
      assert forall k :: 0 <= k <= |events| ==> events[..k] == [];
    } else {
      var prefix := events[..|events| - 1];
      StaysInOrderCondition(prefix, reader);
      OrderOfPrefix(events, reader);
      StepOrder(events, reader);
      assert prefix[..|prefix|] == prefix;
    }
  }

  /** Every insert of the run took the oldest transition not yet logged, or one equal to it. */
  predicate EveryInsertIsNext(events: seq<Event>, reader: Reader) {
    events != [] ==>
      var prefix, e := events[..|events| - 1], events[|events| - 1];
      var db, transitions := Exec(prefix, reader), Transitions(prefix, reader);
      && EveryInsertIsNext(prefix, reader)
      && (e.Insert? && e.i < |db.inFlight| ==> |db.table| < |transitions| && db.inFlight[e.i] == transitions[|db.table|])
  }

  /** Over every run: the table ends up in commit order exactly when every insert took the oldest transition. */
  lemma {:induction false} TableInOrderCondition(events: seq<Event>, reader: Reader)
    ensures Logged(Exec(events, reader)) <= Transitions(events, reader) <==> EveryInsertIsNext(events, reader)
  {
    if events != [] {
      var prefix, e := events[..|events| - 1], events[|events| - 1];
      var db, transitions := Exec(prefix, reader), Transitions(prefix, reader);
      TableInOrderCondition(prefix, reader);
      HistoryConservesTransitions(prefix, reader);
      ConservedLength(db, transitions);
      if e.Commit? {
        assert transitions <= Transitions(events, reader);
        PrefixOfLonger(Logged(db), transitions, Transitions(events, reader));
      } else {
        assert Transitions(events, reader) == transitions;
        if e.i < |db.inFlight| {
          InsertLogs(db, e.i);
          PrefixNext(Logged(db), db.inFlight[e.i], transitions);
        }
      }
    }
  }

  lemma {:induction false} PrefixOfLonger(a: seq<Body>, b: seq<Body>, c: seq<Body>)
    requires |a| <= |b| && b <= c
    ensures a <= b <==> a <= c
  {
  }

  lemma {:induction false} PrefixNext(a: seq<Body>, x: Body, b: seq<Body>)
    requires |a| < |b|
    ensures a + [x] <= b <==> a <= b && b[|a|] == x
  {
    if a + [x] <= b {
      assert a == (a + [x])[..|a|] == b[..|a|];
      assert (a + [x])[|a|] == x;
    }
  }

  /** Never two in-flight entries at once. */
  predicate Serial(events: seq<Event>, reader: Reader) {
    events != [] ==> Serial(events[..|events| - 1], reader) && |Exec(events, reader).inFlight| <= 1
  }

  lemma {:induction false} SerialBefore(events: seq<Event>, reader: Reader)
    requires events != [] && Serial(events, reader)
    ensures Serial(events[..|events| - 1], reader) && |Exec(events[..|events| - 1], reader).inFlight| <= 1
  {
    var prefix := events[..|events| - 1];
    assert prefix == [] ==> Exec(prefix, reader).inFlight == [];
  }

  lemma {:induction false} SerialInsertsFit(events: seq<Event>, reader: Reader)
    ensures Serial(events, reader) ==> EveryInsertFits(events, reader)
  {
    if events != [] && Serial(events, reader) {
      SerialBefore(events, reader);
      SerialInsertsFit(events[..|events| - 1], reader);
    }
  }

  /** With at most one entry in flight at a time, the history is in commit order at every moment. */
  lemma {:induction false} SerialHistoryIsOrdered(events: seq<Event>, reader: Reader)
    ensures Serial(events, reader) ==> AlwaysInOrder(events, reader)
  {
    SerialInsertsFit(events, reader);
    StaysInOrderCondition(events, reader);
  }

  // ---- overlap does reorder ----

  function AsWritten(): Reader {
    (t: string) => t
  }

  lemma {:induction false} AsWrittenReads(row: Option<Record>, op: Op)
    ensures NextRead(row, op, AsWritten()) == Next(row, op)
  {
    assert Reread(row, AsWritten()) == row;
    FaithfulReading(row, op, AsWritten());
  }

  lemma {:induction false} Extend(events: seq<Event>, db: Db, e: Event) returns (events': seq<Event>, db': Db)
    requires db == Exec(events, AsWritten())
    ensures events' == events + [e] && db' == Exec(events', AsWritten()) == Apply(db, e, AsWritten())
    ensures Transitions(events', AsWritten())
         == Transitions(events, AsWritten()) + if e.Commit? then NewBodies(NextRead(db.row, e.op, AsWritten())) else []
  {
    events' := events + [e];
    db' := Apply(db, e, AsWritten());
    assert events'[..|events|] == events;
  }

  /** What four calls at one instant log: an observation, a suppression, its lifting and a second suppression. */
  lemma {:induction false} FourTransitions(facts: Facts, t: string)
    requires t != ""
    ensures var first := NextText(None, ObserveAt(facts, t));
            var second := NextText(first.0, SuppressUntil("r", t, t));
            var third := NextText(second.0, ObserveAt(facts, t));
            var fourth := NextText(third.0, SuppressUntil("r", t, t));
            && NewBodies(first) == [Body(Observed, Fresh(facts), facts, None)]
            && NewBodies(second) == [Body(SuppressedBy, Suppressed, facts, None)] == NewBodies(fourth)
            && NewBodies(third) == [Body(StatusChanged, Fresh(facts), facts, None)]
  {
    CompareEqual(t, t);
    assert Strip("r") == "r";
  }

  /** Four commits before the first insert. */
  lemma {:induction false} FourInFlight(facts: Facts, t: ValidInstant) returns (events: seq<Event>, db: Db)
    ensures db == Exec(events, AsWritten()) && db.table == [] && db.inFlight == Transitions(events, AsWritten())
    ensures db.inFlight == [Body(Observed, Fresh(facts), facts, None), Body(SuppressedBy, Suppressed, facts, None),
                            Body(StatusChanged, Fresh(facts), facts, None), Body(SuppressedBy, Suppressed, facts, None)]
  {
    var e1, d1 := Extend([], Db(None, [], []), Commit(Observe(facts, t)));
    var e2, d2 := Extend(e1, d1, Commit(Suppress("r", t, t)));
    var e3, d3 := Extend(e2, d2, Commit(Observe(facts, t)));
    events, db := Extend(e3, d3, Commit(Suppress("r", t, t)));
    CandidateLifecycle.RenderIsNotEmpty(t);
    FourTransitions(facts, Render(t));
    AsWrittenReads(None, Observe(facts, t));
    AsWrittenReads(d1.row, Suppress("r", t, t));
    AsWrittenReads(d2.row, Observe(facts, t));
    AsWrittenReads(d3.row, Suppress("r", t, t));
  }

  /** The first suppression can be logged before the observation it followed. */
  lemma {:induction false} OverlapReorders(facts: Facts, t: ValidInstant) returns (events: seq<Event>)
    ensures !(Logged(Exec(events, AsWritten())) <= Transitions(events, AsWritten()))
  {
    var e1, d1 := FourInFlight(facts, t);
    var d2;
    events, d2 := Extend(e1, d1, Insert(1));
    assert Logged(d2)[0] == Body(SuppressedBy, Suppressed, facts, None);
    assert Transitions(events, AsWritten())[0] == Body(Observed, Fresh(facts), facts, None);
  }

  /** Inserting the oldest of o, a, b, a, then the second a, then b loses commit order and regains it. */
  lemma {:induction false} LostAndRegained(db: Db, o: Body, a: Body, b: Body)
    requires db.table == [] && db.inFlight == [o, a, b, a] && a != b
    ensures var first := InsertAt(db, 0);
            var second := InsertAt(first, 2);
            !InCommitOrder(second, [o, a, b, a]) && InCommitOrder(InsertAt(second, 1), [o, a, b, a])
  {
    var first := InsertAt(db, 0);
    InsertLogs(db, 0);
    assert first.inFlight == [a, b, a];
    var second := InsertAt(first, 2);
    InsertLogs(first, 2);
    assert second.inFlight == [a, b];
    assert (Logged(second) + second.inFlight)[2] == a;
    InsertLogs(second, 1);
    assert InsertAt(second, 1).inFlight == [a];
  }

  /** Commit order can be lost and regained, when an entry overtakes an equal one. */
  lemma {:induction false} OrderCanReturn(facts: Facts, t: ValidInstant) returns (events: seq<Event>)
    ensures InCommitOrder(Exec(events, AsWritten()), Transitions(events, AsWritten()))
    ensures !AlwaysInOrder(events, AsWritten())
  {
    var e1, d1 := FourInFlight(facts, t);
    var e2, d2 := Extend(e1, d1, Insert(0));
    var e3, d3 := Extend(e2, d2, Insert(2));
    var d4;
    events, d4 := Extend(e3, d3, Insert(1));
    LostAndRegained(d1, d1.inFlight[0], d1.inFlight[1], d1.inFlight[2]);
    assert events[..|e3|] == e3;
  }
}
