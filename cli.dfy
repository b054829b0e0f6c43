/**
 * The multi-user chat session of the command-line front end: which user is
 * speaking, how many messages each user sent, and the session log of every
 * message and reply. Join times, activity stamps and the session clock are
 * left out.
 */
module Cli {
  import Text
  import opened Oracle
  import opened AgentCommon
  import GraphAgent
  import Models

  // ===== The session log =====

  datatype EntryKind = UserEntry | AssistantEntry | ErrorEntry

  /** One log entry: its type, the user it belongs to, and the text. */
  datatype Entry = Entry(kind: EntryKind, userId: string, content: string)

  /** The number of entries of one type, as `get_stats` counts them. */
  function Count(h: seq<Entry>, kind: EntryKind): (n: nat)
    ensures n <= |h|
  {
    if h == [] then 0 else (if h[0].kind == kind then 1 else 0) + Count(h[1..], kind)
  }

  /** The number of messages `u` sent, according to the log. */
  function SentBy(h: seq<Entry>, u: string): (n: nat)
    ensures n <= Count(h, UserEntry)
  {
    if h == [] then 0
    else (if h[0].kind == UserEntry && h[0].userId == u then 1 else 0) + SentBy(h[1..], u)
  }

  lemma {:induction false} CountConcat(a: seq<Entry>, b: seq<Entry>, kind: EntryKind)
    ensures Count(a + b, kind) == Count(a, kind) + Count(b, kind)
  {
    if a != [] {
      assert (a + b)[0] == a[0];
      assert (a + b)[1..] == a[1..] + b;
      CountConcat(a[1..], b, kind);
    } else {
      assert a + b == b;
    }
  }

  lemma {:induction false} SentByConcat(a: seq<Entry>, b: seq<Entry>, u: string)
    ensures SentBy(a + b, u) == SentBy(a, u) + SentBy(b, u)
  {
    if a != [] {
      assert (a + b)[0] == a[0];
      assert (a + b)[1..] == a[1..] + b;
      SentByConcat(a[1..], b, u);
    } else {
      assert a + b == b;
    }
  }

  /** A user who appears nowhere in the log has sent nothing. */
  lemma {:induction false} SentByAbsent(h: seq<Entry>, u: string)
    requires forall k :: 0 <= k < |h| ==> h[k].userId != u
    ensures SentBy(h, u) == 0
  {
    if h != [] {
      SentByAbsent(h[1..], u);
    }
  }

  /** The log is a run of exchanges: a user's message, then the reply or the error for that user. */
  ghost predicate Exchanges(h: seq<Entry>)
    decreases |h|
  {
    h == [] || (|h| >= 2 && h[0].kind == UserEntry && h[1].kind != UserEntry && h[1].userId == h[0].userId
                && Exchanges(h[2..]))
  }

  /** Appending one exchange keeps the log a run of exchanges. */
  lemma {:induction false} ExchangesAppend(h: seq<Entry>, sent: Entry, reply: Entry)
    requires Exchanges(h)
    requires sent.kind == UserEntry && reply.kind != UserEntry && reply.userId == sent.userId
    ensures Exchanges(h + [sent, reply])
    decreases |h|
  {
    if h != [] {
      assert (h + [sent, reply])[2..] == h[2..] + [sent, reply];
      ExchangesAppend(h[2..], sent, reply);
    }
  }

  /** Every message in the log is answered exactly once, by a reply or an error. */
  lemma {:induction false} EveryMessageAnswered(h: seq<Entry>)
    requires Exchanges(h)
    ensures Count(h, UserEntry) == Count(h, AssistantEntry) + Count(h, ErrorEntry)
    ensures |h| == 2 * Count(h, UserEntry)
    decreases |h|
  {
    if h != [] {
      EveryMessageAnswered(h[2..]);
      assert h[1..][1..] == h[2..];
    }
  }

  /** The kind of the entry that answers `message` from `userId`: the agent rejects blank input. */
  function ReplyKind(message: string, userId: string): (kind: EntryKind)
    ensures kind != UserEntry
    ensures kind == ErrorEntry <==> Text.Strip(message) == "" || Text.Strip(userId) == ""
  {
    if Text.Strip(message) == "" || Text.Strip(userId) == "" then ErrorEntry else AssistantEntry
  }

  predicate Distinct(s: seq<string>) {
    forall i, j :: 0 <= i < j < |s| ==> s[i] != s[j]
  }

  /**
   * The session's invariant: the current user is known, the insertion
   * order lists each user once, the log is a run of exchanges by known
   * users, and each user's count is the number of messages the log shows
   * for them.
   */
  ghost predicate SessionInvariant(current: string, users: map<string, nat>, order: seq<string>, h: seq<Entry>) {
    && current in users
    && Distinct(order) && |users| == |order|
    && (forall u :: u in users <==> u in order)
    && Exchanges(h)
    && (forall k :: 0 <= k < |h| ==> h[k].userId in users)
    && (forall u :: u in users ==> users[u] == SentBy(h, u))
  }

  /** `users` after one more message from `u`. */
  function CountOne(users: map<string, nat>, u: string): (m: map<string, nat>)
    requires u in users
    ensures m.Keys == users.Keys && m[u] == users[u] + 1
    ensures forall v :: v in users && v != u ==> m[v] == users[v]
  {
    users[u := users[u] + 1]
  }

  /** One more exchange by the current user, counted for that user alone, keeps the invariant. */
  lemma ExchangeKeepsInvariant(current: string, users: map<string, nat>, order: seq<string>, h: seq<Entry>,
                               message: string, reply: Entry)
    requires SessionInvariant(current, users, order, h)
    requires reply.kind != UserEntry && reply.userId == current
    ensures SessionInvariant(current, CountOne(users, current), order,
                             h + [Entry(UserEntry, current, message), reply])
  {
    var sent := Entry(UserEntry, current, message);
    var h' := h + [sent, reply];
    var users' := CountOne(users, current);
    ExchangesAppend(h, sent, reply);
    forall u | u in users' ensures users'[u] == SentBy(h', u) {
      SentByConcat(h, [sent, reply], u);
      assert [sent, reply][1..] == [reply];
    }
    forall k | 0 <= k < |h'| ensures h'[k].userId in users' {
      if k >= |h| {
        assert h'[k] == [sent, reply][k - |h|];
      }
    }
  }

  /** Adding an unknown user with no messages keeps the invariant. */
  lemma NewUserKeepsInvariant(current: string, users: map<string, nat>, order: seq<string>, h: seq<Entry>, u: string)
    requires SessionInvariant(current, users, order, h) && u !in users
    ensures SessionInvariant(current, users[u := 0], order + [u], h)
  {
    SentByAbsent(h, u);
  }

  // ===== Statistics =====

  datatype UserStats = UserStats(userId: string, messageCount: nat, isCurrent: bool)

  datatype SessionStats = SessionStats(
    currentUser: string,
    totalUsers: nat,
    userMessages: nat,
    agentMessages: nat,
    errors: nat,
    totalExchanges: nat,
    users: seq<UserStats>)

  // ===== The session =====

  /**
   * What the agent's `chat` did with one message from `user`, seen from the
   * session: a blank message or user id is answered with "Error: " and the
   * reason and leaves the store as it was; otherwise the agent's graph runs
   * (result `r`, nodes `path`) from the stored conversation, a completed run
   * is stored for that user and answered with its last message, and a raised
   * handler is answered with the apology and stores nothing.
   */
  ghost predicate Answered(agent: GraphAgent.Agent, before: map<string, Models.AgentState>, after: map<string, Models.AgentState>,
                           message: string, user: string, replies: Replies, readFails: bool,
                           r: StepResult, path: seq<GraphAgent.Node>, response: string)
    reads agent`handlers
  {
    && (Text.Strip(message) == "" ==> response == "Error: " + MessageError && after == before)
    && (Text.Strip(message) != "" && Text.Strip(user) == "" ==> response == "Error: " + UserIdError && after == before)
    && (Text.Strip(message) != "" && Text.Strip(user) != "" ==>
          && agent.RunContract(GraphAgent.TurnStart(before, user, message, readFails), replies, r, path)
          && (r.Failed? ==> response == ErrorApology && after == before)
          && (r.Continue? ==> response == ReplyText(r.state.messages) && after == before[user := r.state]))
  }

  class ChatSession {
    const agent: GraphAgent.Agent
    var currentUserId: string
    /** `users`: each user's `message_count`. */
    var users: map<string, nat>
    /** The order in which the keys of `users` were inserted. */
    var userOrder: seq<string>
    var globalHistory: seq<Entry>

    ghost predicate Valid()
      reads this
    {
      SessionInvariant(currentUserId, users, userOrder, globalHistory)
    }

    /** `__init__`: starts with the initial user, who has sent nothing, and an empty log. */
    constructor (agent: GraphAgent.Agent, initialUserId: string)
      ensures Valid()
      ensures this.agent == agent && currentUserId == initialUserId
      ensures users == map[initialUserId := 0] && userOrder == [initialUserId] && globalHistory == []
    {
      this.agent := agent;
      currentUserId := initialUserId;
      users := map[initialUserId := 0];
      userOrder := [initialUserId];
      globalHistory := [];
    }

    /** `add_user`: a new user starts at zero messages; a known user's record is left as it is. */
    method AddUser(userId: string)
      requires Valid()
      modifies this`users, this`userOrder
      ensures Valid()
      ensures userId in old(users) ==> users == old(users) && userOrder == old(userOrder)
      ensures userId !in old(users) ==> users == old(users)[userId := 0] && userOrder == old(userOrder) + [userId]
    {
      if userId !in users {
        NewUserKeepsInvariant(currentUserId, users, userOrder, globalHistory, userId);
        users := users[userId := 0];
        userOrder := userOrder + [userId];
      }
    }

    /** `switch_user`: makes `userId` current, adding it first if it is new. */
    method SwitchUser(userId: string)
      requires Valid()
      modifies this`users, this`userOrder, this`currentUserId
      ensures Valid()
      ensures currentUserId == userId
      ensures userId in old(users) ==> users == old(users) && userOrder == old(userOrder)
      ensures userId !in old(users) ==> users == old(users)[userId := 0] && userOrder == old(userOrder) + [userId]
    {
      AddUser(userId);
      currentUserId := userId;
    }

    /** `get_current_user`: the current user is one of the session's users. */
    function CurrentUser(): (u: string)
      reads this
      requires Valid()
      ensures u in users && u in ListUsers()
    {
      currentUserId
    }

    /** `list_users`: every user exactly once, in the order they joined. */
    function ListUsers(): (ids: seq<string>)
      reads this
      requires Valid()
      ensures |ids| == |users| && Distinct(ids)
      ensures forall u :: u in ids <==> u in users
    {
      userOrder
    }

    /**
     * `send_message`: counts one more message for the current user and logs
     * it, asks the agent, and logs the reply; a rejected input is logged as
     * an error and its text returned instead of raised. `replies` and
     * `readFails` are what the agent's model and checkpointer do; `r` and
     * `path` are the result and the nodes of the agent's graph run, which
     * decide the response and the agent's stored conversation.
     */
    method SendMessage(message: string, replies: Replies, readFails: bool)
      returns (response: string, ghost r: StepResult, ghost path: seq<GraphAgent.Node>)
      requires Valid()
      modifies this`users, this`globalHistory, agent`store
      ensures Valid()
      ensures users == CountOne(old(users), currentUserId)
      ensures globalHistory == old(globalHistory)
        + [Entry(UserEntry, currentUserId, message), Entry(ReplyKind(message, currentUserId), currentUserId, response)]
      ensures Answered(agent, old(agent.store), agent.store, message, currentUserId, replies, readFails, r, path, response)
    {
      var reply;
      response, reply, r, path := Ask(message, currentUserId, replies, readFails);
      Record(message, reply);
    }

    /**
     * The bookkeeping of `send_message`: one more message for the current
     * user, and the message and its answer appended to the log.
     */
    method Record(message: string, reply: Entry)
      requires Valid()
      requires reply.kind != UserEntry && reply.userId == currentUserId
      modifies this`users, this`globalHistory
      ensures Valid()
      ensures users == CountOne(old(users), currentUserId)
      ensures globalHistory == old(globalHistory) + [Entry(UserEntry, currentUserId, message), reply]
    {
      var user := currentUserId;
      var counts := CountOne(users, user);
      var log := globalHistory + [Entry(UserEntry, user, message), reply];
      ExchangeKeepsInvariant(user, users, userOrder, globalHistory, message, reply);
      users := counts;
      globalHistory := log;
    }

    /**
     * The `try` block of `send_message`: the agent's answer becomes an
     * assistant entry; a rejected input becomes an error entry whose text
     * is returned and leaves the agent's store as it was. `r` and `path` are
     * the result and the nodes of the agent's graph run.
     */
    method Ask(message: string, user: string, replies: Replies, readFails: bool)
      returns (response: string, reply: Entry, ghost r: StepResult, ghost path: seq<GraphAgent.Node>)
      modifies agent`store
      ensures reply == Entry(ReplyKind(message, user), user, response)
      ensures Answered(agent, old(agent.store), agent.store, message, user, replies, readFails, r, path, response)
    {
      var out;
      out, r, path := agent.Chat(message, user, replies, readFails);
      match out {
        case Answer(text) =>
          response := text;
          reply := Entry(AssistantEntry, user, text);
        case InvalidArgument(reason) =>
          response := "Error: " + reason;
          reply := Entry(ErrorEntry, user, response);
      }
    }

    /**
     * `get_stats`: counts the log by entry type and lists each user's count,
     * marking the current user, in the order users joined.
     */
    method GetStats() returns (stats: SessionStats)
      requires Valid()
      ensures stats.currentUser == currentUserId && stats.totalUsers == |users|
      ensures stats.userMessages == Count(globalHistory, UserEntry)
      ensures stats.agentMessages == Count(globalHistory, AssistantEntry)
      ensures stats.errors == Count(globalHistory, ErrorEntry)
      ensures stats.totalExchanges == stats.userMessages == stats.agentMessages + stats.errors
      ensures |stats.users| == |users|
      ensures forall k :: 0 <= k < |stats.users| ==>
        stats.users[k] == UserStats(userOrder[k], users[userOrder[k]], userOrder[k] == currentUserId)
      ensures exists k :: 0 <= k < |stats.users| && stats.users[k].isCurrent
      ensures forall k, l :: 0 <= k < l < |stats.users| ==> !(stats.users[k].isCurrent && stats.users[l].isCurrent)
    {
      var userMessages := Count(globalHistory, UserEntry);
      var agentMessages := Count(globalHistory, AssistantEntry);
      var errors := Count(globalHistory, ErrorEntry);
      var perUser: seq<UserStats> := [];
      var i := 0;
      while i < |userOrder|
        invariant 0 <= i <= |userOrder|
        invariant |perUser| == i
        invariant forall k :: 0 <= k < i ==>
          perUser[k] == UserStats(userOrder[k], users[userOrder[k]], userOrder[k] == currentUserId)
      {
        var u := userOrder[i];
        perUser := perUser + [UserStats(u, users[u], u == currentUserId)];
        i := i + 1;
      }
      EveryMessageAnswered(globalHistory);
      var c :| 0 <= c < |userOrder| && userOrder[c] == currentUserId;
      assert perUser[c].isCurrent;
      stats := SessionStats(currentUserId, |users|, userMessages, agentMessages, errors, userMessages, perUser);
    }
  }

  // ===== Display =====

  const SpeechBalloon: char := '\U{1F4AC}'
  const Robot: char := '\U{1F916}'

  /** Who a displayed line is attributed to. */
  function Speaker(isUser: bool, userId: string): string {
    if !isUser then "Agent" else if userId != "" then userId else "You"
  }

  /**
   * `format_message`: a new line, the speaker's icon, the speaker in bold,
   * then the text; `userId` is "" when no id is given.
   */
  function FormatMessage(content: string, isUser: bool, userId: string): (r: string)
    ensures |r| >= 9 + |content|
    ensures r[0] == '\n' && (r[1] == SpeechBalloon <==> isUser) && (r[1] == Robot <==> !isUser)
    ensures r[2..5] == " **"
    ensures |r| >= |content| && r[|r| - |content|..] == content
  {
    var icon := if isUser then SpeechBalloon else Robot;
    var r := ['\n', icon] + " **" + Speaker(isUser, userId) + ":** " + content;
    assert r[|r| - |content|..] == content;
    r
  }

  /** The speaker's name is shown between the bold markers right after the icon. */
  lemma FormatMessageNamesSpeaker(content: string, isUser: bool, userId: string)
    ensures var r := FormatMessage(content, isUser, userId);
      var name := Speaker(isUser, userId);
      |r| >= 9 + |name| && r[5..5 + |name|] == name && r[5 + |name|..9 + |name|] == ":** "
    ensures isUser && userId != "" ==> Text.Contains(FormatMessage(content, isUser, userId), userId)
  {
    var r := FormatMessage(content, isUser, userId);
    var name := Speaker(isUser, userId);
    var icon := if isUser then SpeechBalloon else Robot;
    assert r == ['\n', icon] + " **" + name + ":** " + content;
    assert r[5..5 + |name|] == name;
    if isUser && userId != "" {
      Text.ContainsAt(r, userId, 5);
    }
  }

  /** Two users with ids give different lines for the same text, so the log shows who spoke. */
  lemma FormatMessageIdentifiesUser(content: string, u1: string, u2: string)
    requires u1 != "" && u2 != ""
    requires FormatMessage(content, true, u1) == FormatMessage(content, true, u2)
    ensures u1 == u2
  {
    var r1 := FormatMessage(content, true, u1);
    var r2 := FormatMessage(content, true, u2);
    assert r1 == ['\n', SpeechBalloon] + " **" + u1 + ":** " + content;
    assert r2 == ['\n', SpeechBalloon] + " **" + u2 + ":** " + content;
    assert |u1| == |u2|;
    assert r1[5..5 + |u1|] == u1;
    assert r2[5..5 + |u2|] == u2;
  }
}
