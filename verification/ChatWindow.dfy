/** A bounded conversation behaves like the suffix of an unbounded one, over every sequence of requests. */
module ChatWindow {
  import opened Common
  import opened Chat

  /** One appended question with its answer. */
  datatype Exchange = Exchange(id: string, question: string, answer: string, domain: Domain)

  /** The conversation together with everything ever appended to it. */
  datatype State = State(conversation: Option<Conversation>, log: seq<Exchange>)

  function Step(s: State, r: Request, limit: nat): State {
    var (conversation, outcome) := Handle(s.conversation, r, limit);
    State(conversation,
          if outcome.Answered? then s.log + [Exchange(r.id, r.question, outcome.text, r.domain)] else s.log)
  }

  function Exec(requests: seq<Request>, limit: nat): State {
    if requests == [] then State(None, [])
    else Step(Exec(requests[..|requests| - 1], limit), requests[|requests| - 1], limit)
  }

  /** The unbounded transcript: question and answer of each exchange in turn. */
  function Transcript(log: seq<Exchange>): (m: seq<Message>)
    ensures |m| == 2 * |log|
  {
    if log == [] then [] else
      var e := log[|log| - 1];
      Transcript(log[..|log| - 1]) + [Question(e.id, e.question), Answer(e.id, e.answer, e.domain)]
  }

  /** How many answers fit in the window; with no limit, all of them. */
  function Capacity(limit: nat, n: nat): nat {
    if limit == 0 || n <= (limit + 1) / 2 then n else (limit + 1) / 2
  }

  predicate Recent(log: seq<Exchange>, limit: nat, k: int) {
    0 <= k && |log| - Capacity(limit, |log|) <= k < |log|
  }

  /** No id is answered twice among the recent exchanges, at any time. */
  predicate Spaced(log: seq<Exchange>, limit: nat) {
    forall i, j :: 0 <= i < j < |log| && log[i].id == log[j].id ==> limit > 0 && j - i > (limit + 1) / 2
  }

  predicate Inv(s: State, limit: nat) {
    && (s.conversation.None? <==> s.log == [])
    && (s.conversation.Some? ==>
          && s.conversation.value.messages == Window(Transcript(s.log), limit)
          && forall i :: 0 <= i < |s.log| ==> s.log[i].domain == s.conversation.value.domain)
    && Spaced(s.log, limit)
  }

  lemma {:induction false} TranscriptAt(log: seq<Exchange>, k: nat)
    requires k < |log|
    ensures Transcript(log)[2 * k] == Question(log[k].id, log[k].question)
    ensures Transcript(log)[2 * k + 1] == Answer(log[k].id, log[k].answer, log[k].domain)
  {
    if k < |log| - 1 {
      TranscriptAt(log[..|log| - 1], k);
    }
  }

  lemma {:induction false} WindowSlides<T>(m: seq<T>, limit: nat, a: T, b: T)
    ensures Window(Window(m, limit) + [a, b], limit) == Window(m + [a, b], limit)
  {
  }

  lemma {:induction false} FirstReplyFinds(messages: seq<Message>, id: string)
    ensures var r := FirstReply(messages, id);
            if r.Some? then
              exists i :: 0 <= i < |messages| && messages[i] == r.value
                          && forall j :: 0 <= j < i ==> !(messages[j].Answer? && messages[j].replyTo == id)
            else forall j :: 0 <= j < |messages| ==> !(messages[j].Answer? && messages[j].replyTo == id)
  {
    if messages != [] {
      if messages[0].Answer? && messages[0].replyTo == id {
        assert messages[0] == FirstReply(messages, id).value;
      } else {
        var rest := messages[1..];
        FirstReplyFinds(rest, id);
        var r := FirstReply(messages, id);
        if r.Some? {
          var i :| 0 <= i < |rest| && rest[i] == r.value
                   && forall j :: 0 <= j < i ==> !(rest[j].Answer? && rest[j].replyTo == id);
          assert messages[i + 1] == r.value;
          forall j | 0 <= j < i + 1 ensures !(messages[j].Answer? && messages[j].replyTo == id) {
            assert j > 0 ==> messages[j] == rest[j - 1];
          }
        } else {
          forall j | 0 <= j < |messages| ensures !(messages[j].Answer? && messages[j].replyTo == id) {
            assert j > 0 ==> messages[j] == rest[j - 1];
          }
        }
      }
    }
  }

  /** Message `i` of the window is message `i + Dropped` of the transcript. */
  function Dropped(n: nat, limit: nat): nat {
    if limit == 0 || 2 * n <= limit then 0 else 2 * n - limit
  }

  lemma {:induction false} WindowAt(log: seq<Exchange>, limit: nat, i: nat)
    requires i < |Window(Transcript(log), limit)|
    ensures Window(Transcript(log), limit)[i] == Transcript(log)[i + Dropped(|log|, limit)]
    ensures |Window(Transcript(log), limit)| + Dropped(|log|, limit) == 2 * |log|
  {
  }

  /** An answer is in the window exactly when its exchange is recent. */
  lemma {:induction false} RecentInWindow(n: nat, limit: nat, k: nat)
    requires k < n
    ensures n - Capacity(limit, n) <= k <==> 2 * k + 1 >= Dropped(n, limit)
  {
  }

  /** The replay lookup finds an answer exactly for recent ids, and it is that exchange's answer. */
  lemma {:induction false} LookupIsRecent(log: seq<Exchange>, limit: nat, id: string)
    requires Spaced(log, limit)
    ensures var r := FirstReply(Window(Transcript(log), limit), id);
            && (r.None? <==> forall k :: Recent(log, limit, k) ==> log[k].id != id)
            && forall k :: Recent(log, limit, k) && log[k].id == id ==> r == Some(Answer(id, log[k].answer, log[k].domain))
  {
    var w := Window(Transcript(log), limit);
    var r := FirstReply(w, id);
    FirstReplyFinds(w, id);
    forall k | Recent(log, limit, k) && log[k].id == id ensures r.Some? {
      AnswerIsStored(log, limit, k);
    }
    if r.Some? {
      var i :| 0 <= i < |w| && w[i] == r.value;
      var k := FoundAt(log, limit, i, id);
      forall k' | Recent(log, limit, k') && log[k'].id == id ensures k' == k {
        RecentIsUnique(log, limit, k, k');
      }
    }
  }

  lemma {:induction false} RecentIsUnique(log: seq<Exchange>, limit: nat, k: int, k': int)
    requires Spaced(log, limit) && Recent(log, limit, k) && Recent(log, limit, k') && log[k].id == log[k'].id
    ensures k == k'
  {
  }

  /** The answer of a recent exchange stands in the window. */
  lemma {:induction false} AnswerIsStored(log: seq<Exchange>, limit: nat, k: nat)
    requires Recent(log, limit, k)
    ensures exists i :: 0 <= i < |Window(Transcript(log), limit)|
                        && Window(Transcript(log), limit)[i] == Answer(log[k].id, log[k].answer, log[k].domain)
  {
    var i := 2 * k + 1 - Dropped(|log|, limit);
    RecentInWindow(|log|, limit, k);
    TranscriptAt(log, k);
    WindowAt(log, limit, i);
  }

  /** The answers of the transcript stand at odd places. */
  lemma {:induction false} AnswerAt(log: seq<Exchange>, t: nat)
    requires t < 2 * |log| && Transcript(log)[t].Answer?
    ensures t == 2 * (t / 2) + 1
    ensures Transcript(log)[t] == Answer(log[t / 2].id, log[t / 2].answer, log[t / 2].domain)
  {
    TranscriptAt(log, t / 2);
  }

  lemma {:induction false} FoundAt(log: seq<Exchange>, limit: nat, i: nat, id: string) returns (k: nat)
    requires i < |Window(Transcript(log), limit)|
    requires Window(Transcript(log), limit)[i].Answer? && Window(Transcript(log), limit)[i].replyTo == id
    ensures Recent(log, limit, k) && log[k].id == id
    ensures Window(Transcript(log), limit)[i] == Answer(id, log[k].answer, log[k].domain)
  {
    WindowAt(log, limit, i);
    var t := i + Dropped(|log|, limit);
    AnswerAt(log, t);
    k := t / 2;
    RecentInWindow(|log|, limit, k);
  }

  lemma {:induction false} DomainsAgree(s: State, limit: nat)
    requires Inv(s, limit) && s.conversation.Some?
    ensures UsedDomains(s.conversation.value) == {s.conversation.value.domain}
  {
    var w := s.conversation.value.messages;
    forall m | m in w && m.Answer? ensures m.domain == s.conversation.value.domain {
      var i :| 0 <= i < |w| && w[i] == m;
      var k := FoundAt(s.log, limit, i, m.replyTo);
    }
  }

  lemma {:induction false} AppendKeepsSpacing(log: seq<Exchange>, e: Exchange, limit: nat)
    requires Spaced(log, limit) && forall k :: Recent(log, limit, k) ==> log[k].id != e.id
    ensures Spaced(log + [e], limit)
  {
    var log' := log + [e];
    forall i, j | 0 <= i < j < |log'| && log'[i].id == log'[j].id ensures limit > 0 && j - i > (limit + 1) / 2 {
      if j == |log| {
        assert !Recent(log, limit, i);
      }
    }
  }

  lemma {:induction false} AppendKeepsWindow(log: seq<Exchange>, e: Exchange, limit: nat)
    ensures Window(Window(Transcript(log), limit) + [Question(e.id, e.question), Answer(e.id, e.answer, e.domain)], limit)
         == Window(Transcript(log + [e]), limit)
  {
    assert (log + [e])[..|log|] == log;
    WindowSlides(Transcript(log), limit, Question(e.id, e.question), Answer(e.id, e.answer, e.domain));
  }

  lemma {:induction false} AppendKeepsInv(s: State, e: Exchange, limit: nat)
    requires Inv(s, limit) && (s.conversation.Some? ==> e.domain == s.conversation.value.domain)
    requires forall k :: Recent(s.log, limit, k) ==> s.log[k].id != e.id
    ensures Inv(State(Some(Appended(s.conversation, e.id, e.question, e.answer, e.domain, limit)), s.log + [e]), limit)
  {
    AppendKeepsSpacing(s.log, e, limit);
    AppendKeepsWindow(s.log, e, limit);
    assert s.conversation.None? ==> Window(Transcript(s.log), limit) == [];
  }

  /** What the answer to a request says about the log, and what the request leaves behind. */
  ghost predicate Faithful(s: State, r: Request, limit: nat) {
    var outcome := Handle(s.conversation, r, limit).1;
    && (outcome == Conflict <==> s.conversation.Some? && r.domain != s.conversation.value.domain)
    && (outcome.Replayed? <==> outcome != Conflict && exists k :: Recent(s.log, limit, k) && s.log[k].id == r.id)
    && (outcome.Replayed? ==> forall k :: Recent(s.log, limit, k) && s.log[k].id == r.id ==> outcome.text == s.log[k].answer)
    && (outcome.Answered? ==> r.answer == Some(outcome.text))
    && (!outcome.Answered? ==> Step(s, r, limit) == s)
  }

  /** What a request does, given what the replay lookup finds in a conversation of one domain. */
  lemma {:induction false} Outcomes(c: Option<Conversation>, r: Request, limit: nat, prior: Option<Message>)
    requires prior == if c.Some? then FirstReply(c.value.messages, r.id) else None
    requires c.Some? ==> UsedDomains(c.value) == {c.value.domain}
    ensures var (c', outcome) := Handle(c, r, limit);
            && (outcome == Conflict <==> c.Some? && r.domain != c.value.domain)
            && (outcome.Replayed? <==> outcome != Conflict && prior.Some?)
            && (outcome.Replayed? ==> prior.Some? && outcome.text == prior.value.text)
            && (outcome.Answered? ==> r.answer == Some(outcome.text))
            && (!outcome.Answered? ==> c' == c)
  {
    if prior.Some? {
      assert prior.value.domain in UsedDomains(c.value);
    }
  }

  lemma {:induction false} OutcomeIsFaithful(s: State, r: Request, limit: nat)
    requires Inv(s, limit)
    ensures Faithful(s, r, limit)
  {
    if s.conversation.Some? {
      DomainsAgree(s, limit);
      LookupIsRecent(s.log, limit, r.id);
      Outcomes(s.conversation, r, limit, FirstReply(s.conversation.value.messages, r.id));
    } else {
      Outcomes(s.conversation, r, limit, None);
    }
  }

  lemma {:induction false} AnsweredAppends(s: State, r: Request, limit: nat)
    requires Handle(s.conversation, r, limit).1.Answered?
    ensures r.answer.Some?
    ensures Step(s, r, limit) == State(Some(Appended(s.conversation, r.id, r.question, r.answer.value, r.domain, limit)),
                                       s.log + [Exchange(r.id, r.question, r.answer.value, r.domain)])
  {
  }

  lemma {:induction false} AnsweredIsNew(s: State, r: Request, limit: nat)
    requires Inv(s, limit) && Handle(s.conversation, r, limit).1.Answered?
    ensures forall k :: Recent(s.log, limit, k) ==> s.log[k].id != r.id
    ensures s.conversation.Some? ==> r.domain == s.conversation.value.domain
  {
    OutcomeIsFaithful(s, r, limit);
  }

  lemma {:induction false} StepKeepsInv(s: State, r: Request, limit: nat, s': State)
    requires Inv(s, limit) && s' == Step(s, r, limit)
    ensures Inv(s', limit)
  {
    if Handle(s.conversation, r, limit).1.Answered? {
      AnsweredAppends(s, r, limit);
      AnsweredIsNew(s, r, limit);
      AppendKeepsInv(s, Exchange(r.id, r.question, r.answer.value, r.domain), limit);
    } else {
      OutcomeIsFaithful(s, r, limit);
    }
  }

  /** Over every run: the stored messages are the last `limit` of the transcript, in one data domain. */
  lemma {:induction false} StoreIsSuffix(requests: seq<Request>, limit: nat)
    ensures Inv(Exec(requests, limit), limit)
  {
    if requests != [] {
      StoreIsSuffix(requests[..|requests| - 1], limit);
      StepKeepsInv(Exec(requests[..|requests| - 1], limit), requests[|requests| - 1], limit, Exec(requests, limit));
    }
  }

  /** After any run a request is replayed exactly when its id is recent, and then with that id's stored answer. */
  lemma {:induction false} ReplayIsIdempotent(requests: seq<Request>, r: Request, limit: nat)
    ensures Faithful(Exec(requests, limit), r, limit)
  {
    StoreIsSuffix(requests, limit);
    OutcomeIsFaithful(Exec(requests, limit), r, limit);
  }

  /** An id recurs in the log only after more than half a window of newer exchanges, and never without a limit. */
  lemma {:induction false} RecurrenceIsSpaced(requests: seq<Request>, limit: nat, i: nat, j: nat)
    requires i < j < |Exec(requests, limit).log| && Exec(requests, limit).log[i].id == Exec(requests, limit).log[j].id
    ensures limit > 0 && j - i > (limit + 1) / 2
  {
    StoreIsSuffix(requests, limit);
  }

  // ---- every request, from the log alone ----

  /** Exchange `k` is recent enough that its answer is still stored. */
  predicate Stored(log: seq<Exchange>, limit: nat, k: int) {
    0 <= k < |log| && (limit == 0 || |log| - k <= (limit + 1) / 2)
  }

  predicate Fits(log: seq<Exchange>, r: Request) {
    log == [] || r.domain == log[0].domain
  }

  predicate Known(log: seq<Exchange>, limit: nat, id: string) {
    exists k :: 0 <= k < |log| && Stored(log, limit, k) && log[k].id == id
  }

  lemma {:induction false} StoredIsRecent(log: seq<Exchange>, limit: nat, k: int)
    ensures Stored(log, limit, k) <==> Recent(log, limit, k)
  {
  }

  lemma {:induction false} KnownIsRecent(log: seq<Exchange>, limit: nat, id: string)
    ensures Known(log, limit, id) <==> exists k :: Recent(log, limit, k) && log[k].id == id
  {
    if k :| 0 <= k < |log| && Stored(log, limit, k) && log[k].id == id {
      StoredIsRecent(log, limit, k);
    }
    if k :| Recent(log, limit, k) && log[k].id == id {
      StoredIsRecent(log, limit, k);
      assert Stored(log, limit, k);
    }
  }

  /** A request that is neither refused nor replayed is answered exactly when the model answers. */
  lemma {:induction false} NewRequest(c: Option<Conversation>, r: Request, limit: nat)
    ensures var outcome := Handle(c, r, limit).1;
            outcome != Conflict && !outcome.Replayed? ==> outcome == if r.answer.None? then Unavailable else Answered(r.answer.value)
  {
  }

  lemma {:induction false} DomainOfLog(s: State, r: Request, limit: nat)
    requires Inv(s, limit)
    ensures (s.conversation.Some? && r.domain != s.conversation.value.domain) <==> !Fits(s.log, r)
  {
  }

  /**
   * After any run, what a request gets: a conflict in another domain than the log's; the stored answer when its id
   * is known; otherwise the model's answer, which is appended as exactly this exchange, or nothing if there is none.
   */
  lemma {:induction false} EveryRequest(requests: seq<Request>, r: Request, limit: nat)
    ensures var s := Exec(requests, limit);
            var outcome := Handle(s.conversation, r, limit).1;
            && (outcome == Conflict <==> !Fits(s.log, r))
            && (outcome.Replayed? <==> Fits(s.log, r) && Known(s.log, limit, r.id))
            && (forall k :: 0 <= k < |s.log| && Stored(s.log, limit, k) && s.log[k].id == r.id && Fits(s.log, r) ==>
                  outcome == Replayed(s.log[k].answer))
            && (forall text :: outcome == Answered(text) <==> Fits(s.log, r) && !Known(s.log, limit, r.id) && r.answer == Some(text))
            && (outcome == Unavailable <==> Fits(s.log, r) && !Known(s.log, limit, r.id) && r.answer.None?)
            && (outcome.Answered? ==> Exec(requests + [r], limit).log == s.log + [Exchange(r.id, r.question, outcome.text, r.domain)])
            && (!outcome.Answered? ==> Exec(requests + [r], limit) == s)
  {
    var s := Exec(requests, limit);
    StoreIsSuffix(requests, limit);
    OutcomeIsFaithful(s, r, limit);
    DomainOfLog(s, r, limit);
    KnownIsRecent(s.log, limit, r.id);
    NewRequest(s.conversation, r, limit);
    forall k | 0 <= k < |s.log| && Stored(s.log, limit, k) ensures Recent(s.log, limit, k) {
      StoredIsRecent(s.log, limit, k);
    }
    assert (requests + [r])[..|requests|] == requests;
  }

  /** Message `t` of the unbounded transcript, read off the log. */
  function MessageAt(log: seq<Exchange>, t: nat): Message
    requires t < 2 * |log|
  {
    var e := log[t / 2];
    if t % 2 == 0 then Question(e.id, e.question) else Answer(e.id, e.answer, e.domain)
  }

  lemma {:induction false} TranscriptReads(log: seq<Exchange>, t: nat)
    requires t < 2 * |log|
    ensures Transcript(log)[t] == MessageAt(log, t)
  {
    TranscriptAt(log, t / 2);
  }

  /** `m` is what is left of the transcript after the first `dropped` messages. */
  predicate TailOf(m: seq<Message>, log: seq<Exchange>, dropped: nat) {
    |m| + dropped == 2 * |log| && forall i :: 0 <= i < |m| ==> m[i] == MessageAt(log, i + dropped)
  }

  lemma {:induction false} WindowIsTail(log: seq<Exchange>, limit: nat)
    ensures TailOf(Window(Transcript(log), limit), log, Dropped(|log|, limit))
  {
    var m := Window(Transcript(log), limit);
    forall i | 0 <= i < |m| ensures i + Dropped(|log|, limit) < 2 * |log| && m[i] == MessageAt(log, i + Dropped(|log|, limit)) {
      WindowAt(log, limit, i);
      TranscriptReads(log, i + Dropped(|log|, limit));
    }
  }

  lemma {:induction false} InvStores(s: State, limit: nat)
    requires Inv(s, limit)
    ensures s.conversation.None? <==> s.log == []
    ensures s.conversation.Some? ==> s.conversation.value.messages == Window(Transcript(s.log), limit)
  {
  }

  /** Exactly the last `limit` messages of the log are stored; with limit 0, all of them. */
  predicate StoresLast(s: State, limit: nat) {
    && (s.conversation.None? <==> s.log == [])
    && (s.conversation.Some? ==>
          TailOf(s.conversation.value.messages, s.log,
                 if limit == 0 || 2 * |s.log| <= limit then 0 else 2 * |s.log| - limit))
  }

  lemma {:induction false} InvStoresLast(s: State, limit: nat)
    requires Inv(s, limit)
    ensures StoresLast(s, limit)
  {
    InvStores(s, limit);
    WindowIsTail(s.log, limit);
  }

  lemma {:induction false} StoredMessages(requests: seq<Request>, limit: nat)
    ensures StoresLast(Exec(requests, limit), limit)
  {
    StoreIsSuffix(requests, limit);
    InvStoresLast(Exec(requests, limit), limit);
  }

  lemma {:induction false} DroppedParity(n: nat, limit: nat)
    ensures Dropped(n, limit) % 2 == 0 <==> limit % 2 == 0 || 2 * n <= limit
    ensures n > 0 ==> Dropped(n, limit) < 2 * n
  {
  }

  lemma {:induction false} WindowStart(log: seq<Exchange>, limit: nat)
    requires log != []
    ensures Window(Transcript(log), limit) != []
    ensures Window(Transcript(log), limit)[0].Question? <==> limit % 2 == 0 || 2 * |log| <= limit
  {
    WindowIsTail(log, limit);
    DroppedParity(|log|, limit);
  }

  /** The window holds whole pairs exactly when the limit is even or has not been reached. */
  lemma {:induction false} WindowHoldsPairs(requests: seq<Request>, limit: nat)
    requires Exec(requests, limit).log != []
    ensures var s := Exec(requests, limit);
            s.conversation.Some? && s.conversation.value.messages != []
            && (s.conversation.value.messages[0].Question? <==> limit % 2 == 0 || 2 * |s.log| <= limit)
  {
    StoreIsSuffix(requests, limit);
    WindowStart(Exec(requests, limit).log, limit);
  }

  /** Every exchange ever appended carries the domain of the first. */
  lemma {:induction false} OneDomainPerConversation(requests: seq<Request>, limit: nat, i: nat, j: nat)
    requires i < |Exec(requests, limit).log| && j < |Exec(requests, limit).log|
    ensures Exec(requests, limit).log[i].domain == Exec(requests, limit).log[j].domain
  {
    StoreIsSuffix(requests, limit);
  }
}
