/** The chat route over the bounded conversation store. */
module Chat {
  import opened Common

  datatype Domain = OperationalTwin | WorldSimulation

  datatype Message =
    | Question(id: string, text: string)
    | Answer(replyTo: string, text: string, domain: Domain)

  datatype Conversation = Conversation(domain: Domain, messages: seq<Message>)

  /** Python's `messages[-limit:]`; a limit of 0 keeps everything. */
  function Window<T>(messages: seq<T>, limit: nat): seq<T> {
    if limit == 0 || |messages| <= limit then messages else messages[|messages| - limit..]
  }

  /** The first message that replies to `id`. */
  function FirstReply(messages: seq<Message>, id: string): (r: Option<Message>)
    ensures r.Some? ==> r.value.Answer? && r.value.replyTo == id && r.value in messages
  {
    if messages == [] then None
    else if messages[0].Answer? && messages[0].replyTo == id then Some(messages[0])
    else FirstReply(messages[1..], id)
  }

  function Appended(c: Option<Conversation>, id: string, question: string, answer: string, domain: Domain, limit: nat): Conversation {
    var before := if c.Some? then c.value else Conversation(domain, []);
    before.(messages := Window(before.messages + [Question(id, question), Answer(id, answer, domain)], limit))
  }

  /** `answer` is what the model would say; None is an inference failure. */
  datatype Request = Request(id: string, domain: Domain, question: string, answer: Option<string>)

  datatype Outcome = Conflict | Unavailable | Replayed(text: string) | Answered(text: string)

  /** The domains a conversation already uses: its own and those of its stored answers. */
  function UsedDomains(c: Conversation): set<Domain> {
    {c.domain} + set m | m in c.messages && m.Answer? :: m.domain
  }

  /** One request, from lock to unlock. */
  function Handle(c: Option<Conversation>, r: Request, limit: nat): (Option<Conversation>, Outcome) {
    if c.Some? && r.domain !in UsedDomains(c.value) then (c, Conflict)
    else
      var prior := if c.Some? then FirstReply(c.value.messages, r.id) else None;
      if prior.Some? then
        (c, if prior.value.domain != r.domain then Conflict else Replayed(prior.value.text))
      else if r.answer.None? then (c, Unavailable)
      else (Some(Appended(c, r.id, r.question, r.answer.value, r.domain, limit)), Answered(r.answer.value))
  }

  type Key = (string, string, string)

  /** The process-local store and the route that drives it, one request at a time per conversation. */
  class ChatConversationStore {
    const historyLimit: nat
    var conversations: map<Key, Conversation>

    constructor (limit: nat)
      ensures historyLimit == limit && conversations == map[]
    {
      historyLimit := limit;
      conversations := map[];
    }

    function Get(key: Key): Option<Conversation>
      reads this
    {
      if key in conversations then Some(conversations[key]) else None
    }

    method AppendExchange(key: Key, id: string, question: string, answer: string, domain: Domain) returns (c: Conversation)
      modifies this
      ensures c == Appended(old(Get(key)), id, question, answer, domain, historyLimit)
      ensures conversations == old(conversations)[key := c]
    {
      if key !in conversations {
        conversations := conversations[key := Conversation(domain, [])];
      }
      c := conversations[key];
      c := c.(messages := c.messages + [Question(id, question), Answer(id, answer, domain)]);
      c := c.(messages := Window(c.messages, historyLimit));
      conversations := conversations[key := c];
    }

    method AnswerForMessage(key: Key, id: string) returns (r: Option<Message>)
      ensures r == if Get(key).None? then None else FirstReply(Get(key).value.messages, id)
    {
      if key !in conversations {
        return None;
      }
      return FirstReply(conversations[key].messages, id);
    }

    method Ask(key: Key, r: Request) returns (outcome: Outcome)
      modifies this
      ensures outcome == Handle(old(Get(key)), r, historyLimit).1
      ensures Get(key) == Handle(old(Get(key)), r, historyLimit).0
      ensures conversations - {key} == old(conversations) - {key}
    {
      var conversation := Get(key);
      if conversation.Some? && r.domain !in UsedDomains(conversation.value) {
        return Conflict;
      }
      var prior := AnswerForMessage(key, r.id);
      if prior.Some? {
        return if prior.value.domain != r.domain then Conflict else Replayed(prior.value.text);
      }
      if r.answer.None? {
        return Unavailable;
      }
      var _ := AppendExchange(key, r.id, r.question, r.answer.value, r.domain);
      return Answered(r.answer.value);
    }
  }
}
