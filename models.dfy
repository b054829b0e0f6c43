/**
 * The records every part of the agent shares: a chat message, the state that
 * travels through one conversation turn, a category's required fields and what
 * a custom handler returns.
 */
module Models {

  datatype Option<T> = None | Some(value: T)

  /** `Literal["user", "assistant", "system"]`: no other role can be built. */
  datatype Role = User | Assistant | System

  datatype Message = Message(role: Role, content: string)

  /**
   * One user's conversation: the whole message history plus the scratch
   * fields the workflow nodes write. `metadata` holds values of any type in
   * the source; only its emptiness matters here, so values are strings.
   */
  datatype AgentState = AgentState(
    messages: seq<Message>,
    category: Option<string>,
    missingRequirements: seq<string>,
    confidence: Option<real>,
    needsEscalation: bool,
    workflowStep: Option<string>,
    metadata: map<string, string>)

  /** The fields a category needs before it can be handled, in declared order. */
  datatype CategoryRequirement = CategoryRequirement(category: string, requiredFields: seq<string>)

  /** The messages a custom or escalation handler wants appended. */
  datatype HandlerResponse = HandlerResponse(messages: seq<Message>, metadata: map<string, string>)

  /** `AgentState(messages=...)`: every other field takes its declared default. */
  function InitialState(messages: seq<Message>): (s: AgentState)
    ensures s.messages == messages
    ensures s.category == None && s.missingRequirements == [] && s.confidence == None
    ensures !s.needsEscalation && s.workflowStep == None && s.metadata == map[]
  {
    AgentState(messages, None, [], None, false, None, map[])
  }

  /** `HandlerResponse(messages=...)`: the metadata defaults to empty. */
  function ResponseOf(messages: seq<Message>): (r: HandlerResponse)
    ensures r.messages == messages && r.metadata == map[]
  {
    HandlerResponse(messages, map[])
  }

  /** The spelling of a role in the dumped form of a message. */
  function RoleName(r: Role): string {
    match r
    case User => "user"
    case Assistant => "assistant"
    case System => "system"
  }

  /** A message as `model_dump()` writes it: the role as its literal spelling. */
  datatype MessageRecord = MessageRecord(role: string, content: string)

  function Dump(m: Message): MessageRecord {
    MessageRecord(RoleName(m.role), m.content)
  }

  /** Rebuilding a message validates the role against the three literals. */
  function Load(rec: MessageRecord): (m: Option<Message>)
    ensures m.Some? <==> rec.role in {"user", "assistant", "system"}
    ensures m.Some? ==> RoleName(m.value.role) == rec.role && m.value.content == rec.content
  {
    if rec.role == "user" then Some(Message(User, rec.content))
    else if rec.role == "assistant" then Some(Message(Assistant, rec.content))
    else if rec.role == "system" then Some(Message(System, rec.content))
    else None
  }

  function DumpAll(ms: seq<Message>): (recs: seq<MessageRecord>)
    ensures |recs| == |ms|
  {
    if ms == [] then [] else [Dump(ms[0])] + DumpAll(ms[1..])
  }

  /** `AgentState(**values)` rebuilds the history, or fails on the first bad record. */
  function LoadAll(recs: seq<MessageRecord>): Option<seq<Message>> {
    if recs == [] then Some([])
    else match (Load(recs[0]), LoadAll(recs[1..]))
      case (Some(m), Some(rest)) => Some([m] + rest)
      case _ => None
  }

  /** Dumping a history and rebuilding it gives back the same ordered messages. */
  lemma {:induction false} HistoryRoundTrip(ms: seq<Message>)
    ensures LoadAll(DumpAll(ms)) == Some(ms)
  {
    if ms != [] {
      HistoryRoundTrip(ms[1..]);
      assert DumpAll(ms)[1..] == DumpAll(ms[1..]);
      assert Load(Dump(ms[0])) == Some(ms[0]);
      assert [ms[0]] + ms[1..] == ms;
    }
  }

  /** A dumped history with a role outside the three literals cannot be rebuilt. */
  lemma {:induction false} LoadAllRejectsUnknownRole(recs: seq<MessageRecord>, k: nat)
    requires k < |recs| && recs[k].role !in {"user", "assistant", "system"}
    ensures LoadAll(recs) == None
  {
    if k > 0 {
      LoadAllRejectsUnknownRole(recs[1..], k - 1);
    }
  }
}
