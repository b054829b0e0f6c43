/**
 * The current agent: a fixed graph of workflow nodes run once per user
 * message, with each user's conversation state kept between turns.
 *
 *   classify --> check_requirements --> route --> execute_handler --> END
 *       \                 \               \
 *        \                 +--> END        +--> generate_response
 *         +--> generate_response --> score_confidence --> escalate --> END
 *                                            \
 *                                             +--> END
 *
 * The graph passes the state from node to node by value, so each node is a
 * method that returns the updated state. Every call to the language model is
 * one entry of the `Replies` given for the turn.
 */
module GraphAgent {
  import opened Models
  import opened Oracle
  import opened AgentCommon
  import Text
  import Classification

  const ReviewMessage := "Your request is being reviewed by our team and we'll get back to you shortly."

  /** An assistant message containing one of these is counted as a request for information. */
  const RequestPhrases: seq<string> := ["could you", "please tell", "can you provide", "what", "which", "need"]

  /** The base class's `handle_low_confidence`: one fixed hand-off message. */
  function ReviewEscalation(s: AgentState): HandlerResponse {
    ResponseOf([Message(Assistant, ReviewMessage)])
  }

  // ===== The graph =====

  datatype Node = Classify | CheckRequirements | Route | ExecuteHandler | GenerateResponse | ScoreConfidence | Escalate | End

  /** The successors of each node, conditional edges included. */
  function Edges(n: Node): set<Node> {
    match n
    case Classify => {CheckRequirements, GenerateResponse}
    case CheckRequirements => {Route, End}
    case Route => {ExecuteHandler, GenerateResponse}
    case ExecuteHandler => {End}
    case GenerateResponse => {ScoreConfidence}
    case ScoreConfidence => {Escalate, End}
    case Escalate => {End}
    case End => {}
  }

  /** The most nodes a walk from `n` can still visit after `n`. */
  function Rank(n: Node): nat {
    match n
    case Classify => 6
    case CheckRequirements => 5
    case Route => 4
    case GenerateResponse => 3
    case ScoreConfidence => 2
    case ExecuteHandler => 1
    case Escalate => 1
    case End => 0
  }

  /** A run of the graph from its entry, following edges. */
  ghost predicate IsWalk(path: seq<Node>) {
    |path| > 0 && path[0] == Classify
    && forall i :: 0 <= i < |path| - 1 ==> path[i + 1] in Edges(path[i])
  }

  /** Every edge leads to a node of smaller rank, and only END has no successor. */
  lemma EdgesDescend(n: Node, m: Node)
    ensures m in Edges(n) ==> Rank(m) < Rank(n)
    ensures Edges(n) == {} <==> n == End
  {
  }

  /**
   * Every walk reaches END in at most seven nodes: ranks fall along each edge,
   * so a walk from classify is at most one node longer than classify's rank.
   */
  lemma {:induction false} WalkIsShort(path: seq<Node>)
    requires |path| > 0
    requires forall i :: 0 <= i < |path| - 1 ==> path[i + 1] in Edges(path[i])
    ensures Rank(path[|path| - 1]) + |path| <= Rank(path[0]) + 1
  {
    if |path| > 1 {
      var p := path[..|path| - 1];
      assert forall i :: 0 <= i < |p| - 1 ==> p[i + 1] in Edges(p[i]) by {
        forall i | 0 <= i < |p| - 1 ensures p[i + 1] in Edges(p[i]) {
          assert p[i] == path[i] && p[i + 1] == path[i + 1];
        }
      }
      WalkIsShort(p);
      assert path[|path| - 1] in Edges(path[|path| - 2]);
    }
  }

  /**
   * A walk through execute_handler is classify, check_requirements, route,
   * execute_handler and then only END: handler output is never scored or
   * escalated.
   */
  lemma HandlerWalk(path: seq<Node>, i: nat)
    requires IsWalk(path) && i < |path| && path[i] == ExecuteHandler
    ensures i == 3 && path[..4] == [Classify, CheckRequirements, Route, ExecuteHandler]
    ensures |path| <= 5 && forall j :: i < j < |path| ==> path[j] == End
    ensures ScoreConfidence !in path && Escalate !in path && GenerateResponse !in path
  {
    assert path[i] in Edges(path[i - 1]);
    assert path[i - 1] == Route;
    assert path[i - 1] in Edges(path[i - 2]);
    assert path[i - 2] == CheckRequirements;
    assert path[i - 2] in Edges(path[i - 3]);
    assert path[i - 3] == Classify;
    assert i > 3 ==> path[i - 3] in Edges(path[i - 4]);
    assert i + 1 < |path| ==> path[i + 1] in Edges(path[i]);
    assert i + 2 < |path| ==> path[i + 2] in Edges(path[i + 1]);
  }

  /** The six complete runs of the graph, and the one cut short by a raising handler. */
  lemma RunsAreWalks()
    ensures IsWalk([Classify, CheckRequirements, End])
    ensures IsWalk([Classify, CheckRequirements, Route, ExecuteHandler])
    ensures IsWalk([Classify, CheckRequirements, Route, ExecuteHandler, End])
    ensures IsWalk([Classify, CheckRequirements, Route, GenerateResponse, ScoreConfidence, End])
    ensures IsWalk([Classify, CheckRequirements, Route, GenerateResponse, ScoreConfidence, Escalate, End])
    ensures IsWalk([Classify, GenerateResponse, ScoreConfidence, End])
    ensures IsWalk([Classify, GenerateResponse, ScoreConfidence, Escalate, End])
  {
  }

  /** score_confidence is entered only from generate_response. */
  lemma ScoredOnlyAfterGeneration(path: seq<Node>, i: nat)
    requires IsWalk(path) && i < |path| && path[i] == ScoreConfidence
    ensures i > 0 && path[i - 1] == GenerateResponse
  {
    assert path[i] in Edges(path[i - 1]);
  }

  /** The `workflow_step` each node records. */
  function StepName(n: Node): string {
    match n
    case Classify => "classify"
    case CheckRequirements => "check_requirements"
    case Route => "route"
    case ExecuteHandler => "execute_handler"
    case GenerateResponse => "generate_response"
    case ScoreConfidence => "score_confidence"
    case Escalate => "escalate"
    case End => "end"
  }

  // ===== Pure helpers the nodes use =====

  /** `state.messages[-4:-1]`: up to three messages before the current one. */
  function Lookback(ms: seq<Message>): (w: seq<Message>)
    requires |ms| > 0
    ensures |w| == if |ms| >= 4 then 3 else |ms| - 1
    ensures w == ms[|ms| - 1 - |w|..|ms| - 1]
  {
    ms[if |ms| >= 4 then |ms| - 4 else 0..|ms| - 1]
  }

  predicate HasUserMessage(w: seq<Message>) {
    exists i :: 0 <= i < |w| && w[i].role == User
  }

  /** An assistant message whose lower-cased text contains one of the request phrases. */
  predicate AsksForInformation(m: Message) {
    m.role == Assistant
    && exists i :: 0 <= i < |RequestPhrases| && Text.Contains(Text.Lower(m.content), RequestPhrases[i])
  }

  /** How many messages of the history ask for information. */
  function RequestCount(ms: seq<Message>): nat {
    if ms == [] then 0
    else RequestCount(ms[..|ms| - 1]) + (if AsksForInformation(Last(ms)) then 1 else 0)
  }

  /** The count of two stretches of history adds up. */
  lemma {:induction false} RequestCountConcat(a: seq<Message>, b: seq<Message>)
    ensures RequestCount(a + b) == RequestCount(a) + RequestCount(b)
    decreases |b|
  {
    if b == [] {
      assert a + b == a;
    } else {
      assert (a + b)[..|a + b| - 1] == a + b[..|b| - 1];
      RequestCountConcat(a, b[..|b| - 1]);
    }
  }

  /** The fixed question used when the model cannot phrase one; the source indexes the list, so it is never empty here. */
  function FallbackQuestion(fields: seq<string>): string
    requires |fields| > 0
  {
    if |fields| == 1 then "I can help with that! What's your " + fields[0] + "?"
    else "I can help! I just need your " + Text.Join(fields[..|fields| - 1], ", ")
         + ", and " + fields[|fields| - 1] + "."
  }

  /** The question asked for missing fields: the model's text, or the fixed fallback. */
  function MissingFieldsQuestion(fields: seq<string>, reply: Reply): string
    requires |fields| > 0
  {
    match reply
    case Text(c) => c
    case Failure(_) => FallbackQuestion(fields)
  }

  /** The fallback question names every missing field. */
  lemma FallbackQuestionNamesFields(fields: seq<string>, k: nat)
    requires k < |fields|
    ensures Text.Contains(FallbackQuestion(fields), fields[k])
  {
    var n := |fields|;
    if n == 1 {
      Text.ContainsSelf(fields[0]);
      Text.ContainsInContext("I can help with that! What's your ", fields[0], "?", fields[0]);
    } else if k == n - 1 {
      Text.ContainsSelf(fields[k]);
      Text.ContainsInContext("I can help! I just need your " + Text.Join(fields[..n - 1], ", ") + ", and ",
                             fields[k], ".", fields[k]);
    } else {
      FallbackQuestionNamesListedField(fields, k);
    }
  }

  /** A field before the last is named in the joined list of the many-field question. */
  lemma FallbackQuestionNamesListedField(fields: seq<string>, k: nat)
    requires k < |fields| - 1
    ensures Text.Contains(FallbackQuestion(fields), fields[k])
  {
    var n := |fields|;
    var joined := Text.Join(fields[..n - 1], ", ");
    Text.JoinContainsParts(fields[..n - 1], ", ", k);
    assert fields[..n - 1][k] == fields[k];
    var listed := "I can help! I just need your " + joined + ", and ";
    Text.ContainsInContext("I can help! I just need your ", joined, ", and ", fields[k]);
    var q := FallbackQuestion(fields);
    assert q == listed + fields[n - 1] + ".";
    assert q[0..|listed|] == listed;
    Text.ContainsAt(q, listed, 0);
    Text.ContainsTransitive(q, listed, fields[k]);
  }

  /**
   * The fallback question is itself counted as a request for information
   * ("what" in the one-field form, "need" in the other), so the ceiling on
   * questions holds even while the model is unreachable.
   */
  lemma FallbackQuestionIsCounted(fields: seq<string>)
    requires |fields| > 0
    ensures AsksForInformation(Message(Assistant, FallbackQuestion(fields)))
  {
    var q := FallbackQuestion(fields);
    if |fields| == 1 {
      var pre := "I can help with that! What's your ";
      assert q == pre + (fields[0] + "?");
      assert pre[22] == 'W' && pre[23] == 'h' && pre[24] == 'a' && pre[25] == 't';
      assert pre[22..26] == "What";
      Text.ContainsLowered(pre, fields[0] + "?", "what", 22);
      assert RequestPhrases[3] == "what";
    } else {
      var pre := "I can help! I just need your ";
      var rest := Text.Join(fields[..|fields| - 1], ", ") + ", and " + fields[|fields| - 1] + ".";
      assert q == pre + rest;
      assert pre[19] == 'n' && pre[20] == 'e' && pre[21] == 'e' && pre[22] == 'd';
      assert pre[19..23] == "need";
      Text.ContainsLowered(pre, rest, "need", 19);
      assert RequestPhrases[5] == "need";
    }
  }

  /**
   * The ceiling on questions: once two fallback questions are anywhere in the
   * history, whatever came between or after them, the count has reached two,
   * so the next unmet check escalates instead of asking again.
   */
  lemma TwoQuestionsReachCeiling(a: seq<Message>, b: seq<Message>, c: seq<Message>, f1: seq<string>, f2: seq<string>)
    requires |f1| > 0 && |f2| > 0
    ensures RequestCount(a + [Message(Assistant, FallbackQuestion(f1))] + b
                           + [Message(Assistant, FallbackQuestion(f2))] + c) >= 2
  {
    var q1 := [Message(Assistant, FallbackQuestion(f1))];
    var q2 := [Message(Assistant, FallbackQuestion(f2))];
    FallbackQuestionIsCounted(f1);
    FallbackQuestionIsCounted(f2);
    assert RequestCount(q1) == 1 by { assert q1[..0] == []; }
    assert RequestCount(q2) == 1 by { assert q2[..0] == []; }
    RequestCountConcat(a, q1);
    RequestCountConcat(a + q1, b);
    RequestCountConcat(a + q1 + b, q2);
    RequestCountConcat(a + q1 + b + q2, c);
  }

  /**
   * The state a turn starts from: the stored conversation with the stripped
   * message appended, or a fresh one when nothing is stored or reading fails.
   */
  function TurnStart(store: map<string, AgentState>, userId: string, message: string, readFails: bool): (s: AgentState)
    ensures |s.messages| > 0 && Last(s.messages) == Message(User, Text.Strip(message))
  {
    var incoming := Message(User, Text.Strip(message));
    if !readFails && userId in store then store[userId].(messages := store[userId].messages + [incoming])
    else InitialState([incoming])
  }

  // ===== The agent =====

  class Agent {
    /** What `get_classification_categories` returns. */
    const categories: seq<string>
    /** What `get_category_requirements` returns. */
    const requirements: seq<CategoryRequirement>
    const threshold: real
    /** `handle_low_confidence`, as the developer defines it. */
    const lowConfidence: AgentState -> HandlerResponse
    var handlers: map<string, Handler>
    /** The checkpointer: each user's conversation state after their last turn. */
    var store: map<string, AgentState>

    constructor (categories: seq<string>, requirements: seq<CategoryRequirement>, threshold: real,
                 lowConfidence: AgentState -> HandlerResponse)
      ensures this.categories == categories && this.requirements == requirements
      ensures this.threshold == threshold && this.lowConfidence == lowConfidence
      ensures handlers == map[] && store == map[]
    {
      this.categories := categories;
      this.requirements := requirements;
      this.threshold := threshold;
      this.lowConfidence := lowConfidence;
      handlers := map[];
      store := map[];
    }

    // ----- Handler registration -----

    method RegisterHandler(category: string, handler: HandlerValue) returns (reg: Registration)
      modifies this`handlers
      ensures reg == RegistrationOf(old(handlers), categories, category, handler)
      ensures reg.Refused? ==> handlers == old(handlers)
      ensures reg.Registered? ==> handler.Callable? && handlers == old(handlers)[category := handler.run]
    {
      reg := RegistrationOf(handlers, categories, category, handler);
      if reg.Registered? {
        handlers := handlers[category := handler.run];
      }
    }

    /** `handlers.pop(category, None)`: removes the name, and does nothing when it is absent. */
    method UnregisterHandler(category: string)
      modifies this`handlers
      ensures handlers == old(handlers) - {category}
      ensures category !in old(handlers) ==> handlers == old(handlers)
    {
      handlers := handlers - {category};
    }

    // ----- Routing: pure functions of the state -----

    function ShouldCheckRequirements(s: AgentState): (next: Node)
      ensures next in Edges(Classify)
      ensures next == CheckRequirements <==>
        |categories| > 0 && s.category.Some? && s.category.value != "default" && s.category.value != ""
    {
      if |categories| > 0 && s.category.Some? && s.category.value !in {"default", ""}
      then CheckRequirements else GenerateResponse
    }

    function RequirementsMet(s: AgentState): (next: Node)
      ensures next in Edges(CheckRequirements)
      ensures next == Route <==> s.missingRequirements == []
    {
      if s.missingRequirements != [] then End else Route
    }

    function HasCustomHandler(s: AgentState): (next: Node)
      reads this`handlers
      ensures next in Edges(Route)
      ensures next == ExecuteHandler <==> s.category.Some? && s.category.value != "" && s.category.value in handlers
    {
      if s.category.Some? && s.category.value != "" && s.category.value in handlers
      then ExecuteHandler else GenerateResponse
    }

    function ConfidenceCheck(s: AgentState): (next: Node)
      ensures next in Edges(ScoreConfidence)
      ensures next == Escalate <==> s.needsEscalation
    {
      if s.needsEscalation then Escalate else End
    }

    /** The verdict of the requirement check; a state without a category matches no entry. */
    function VerdictOf(s: AgentState, reply: Reply): (v: Classification.Verdict)
      ensures v.met <==> v.missing == []
      ensures s.category.None? ==> v == Classification.Verdict(true, [])
    {
      match s.category
      case None => Classification.Verdict(true, [])
      case Some(c) => Classification.RequirementsVerdict(c, requirements, reply)
    }

    // ----- Nodes -----

    /**
     * `_is_new_conversation_thread`: a new thread when there is at most one
     * message or no user message among the three before the current one;
     * otherwise the model decides, "NEW" in any case and padding meaning new,
     * and a failed call meaning the same thread.
     */
    method IsNewConversationThread(s: AgentState, reply: Reply) returns (isNew: bool)
      ensures isNew <==>
        || |s.messages| <= 1
        || !HasUserMessage(Lookback(s.messages))
        || (reply.Text? && Text.Upper(Text.Strip(reply.content)) == "NEW")
    {
      if |s.messages| <= 1 {
        return true;
      }
      var window := Lookback(s.messages);
      var recent: seq<string> := [];
      var i := 0;
      while i < |window|
        invariant 0 <= i <= |window|
        invariant recent == [] <==> forall j :: 0 <= j < i ==> window[j].role != User
      {
        if window[i].role == User {
          recent := recent + [window[i].content];
        }
        i := i + 1;
      }
      if recent == [] {
        return true;
      }
      match reply {
        case Failure(_) =>
          isNew := false;
        case Text(t) =>
          isNew := Text.Upper(Text.Strip(t)) == "NEW";
      }
    }

    /**
     * `_classify_node`: clears the missing requirements and sets the
     * category, "default" when no categories are declared. Whatever the
     * thread check decides, the category is written again afterwards, so the
     * new state does not depend on it.
     */
    method ClassifyNode(s: AgentState, replies: Replies) returns (t: AgentState)
      requires |s.messages| > 0
      ensures t == Classified(s, replies)
    {
      t := s.(workflowStep := Some("classify"));
      var isNew := IsNewConversationThread(t, replies(ThreadCheck));
      if isNew {
        t := t.(missingRequirements := [], category := None);
      } else {
        t := t.(missingRequirements := []);
      }
      if |categories| == 0 {
        t := t.(category := Some(Classification.Default));
        return;
      }
      var c, asked := Classification.ClassifyMessage(categories, replies(ClassifyCall));
      t := t.(category := Some(c));
    }

    /**
     * The state `_classify_node` leaves: the step recorded, no missing
     * fields, and a category that is "default" or a declared one; nothing
     * else changes.
     */
    function Classified(s: AgentState, replies: Replies): (t: AgentState)
      ensures t.category.Some? && (t.category.value == Classification.Default || t.category.value in categories)
      ensures t.messages == s.messages && t.metadata == s.metadata
      ensures t.confidence == s.confidence && t.needsEscalation == s.needsEscalation
    {
      s.(workflowStep := Some("classify"), missingRequirements := [],
         category := Some(if |categories| == 0 then Classification.Default
                          else Classification.ClassifiedAs(categories, replies(ClassifyCall))))
    }

    /** The loop that counts the assistant messages asking for information. */
    method CountRequirementRequests(ms: seq<Message>) returns (n: nat)
      ensures n == RequestCount(ms)
    {
      n := 0;
      var i := 0;
      while i < |ms|
        invariant 0 <= i <= |ms|
        invariant n == RequestCount(ms[..i])
      {
        assert ms[..i + 1][..i] == ms[..i];
        if AsksForInformation(ms[i]) {
          n := n + 1;
        }
        i := i + 1;
      }
      assert ms[..|ms|] == ms;
    }

    /**
     * `_check_requirements_node`: records the missing fields. When some are
     * missing and the history already asks for information twice or more,
     * it flags escalation and appends the escalation messages; otherwise it
     * appends exactly one question. When none are missing the history is
     * untouched.
     */
    method CheckRequirementsNode(s: AgentState, replies: Replies) returns (t: AgentState)
      requires |s.messages| > 0
      ensures var v := VerdictOf(s, replies(RequirementsCall));
        var u := s.(workflowStep := Some("check_requirements"), missingRequirements := v.missing);
        && (v.met ==> t == u)
        && (!v.met && RequestCount(s.messages) >= 2 ==>
              t == u.(needsEscalation := true,
                      messages := s.messages + lowConfidence(u.(needsEscalation := true)).messages))
        && (!v.met && RequestCount(s.messages) < 2 ==>
              t == u.(messages := s.messages + [Message(Assistant, MissingFieldsQuestion(v.missing, replies(QuestionCall)))]))
    {
      var met: bool, missing: seq<string>;
      match s.category {
        case None =>
          met, missing := true, [];
        case Some(c) =>
          var asked, shown;
          met, missing, asked, shown := Classification.CheckRequirements(c, requirements, s.messages, replies(RequirementsCall));
      }
      t := s.(workflowStep := Some("check_requirements"), missingRequirements := missing);
      if !met {
        var requests := CountRequirementRequests(t.messages);
        if requests >= 2 {
          t := t.(needsEscalation := true);
          var escalation := lowConfidence(t);
          t := t.(messages := t.messages + escalation.messages);
        } else {
          var question := MissingFieldsQuestion(missing, replies(QuestionCall));
          t := t.(messages := t.messages + [Message(Assistant, question)]);
        }
      }
    }

    /** `_route_node`: only records the step; the edges decide. */
    method RouteNode(s: AgentState) returns (t: AgentState)
      ensures t == s.(workflowStep := Some("route"))
    {
      t := s.(workflowStep := Some("route"));
    }

    /**
     * `_execute_handler_node`: the registered handler sees the state and its
     * messages are appended in order; an exception it raises propagates.
     */
    method ExecuteHandlerNode(s: AgentState) returns (r: StepResult)
      ensures var u := s.(workflowStep := Some("execute_handler"));
        && (s.category.Some? && s.category.value in handlers ==>
              match handlers[s.category.value](u)
              case Raised(e) => r == Failed(e)
              case Returned(resp) => r == Continue(u.(messages := s.messages + resp.messages)))
        && (!(s.category.Some? && s.category.value in handlers) ==> r == Continue(u))
    {
      var u := s.(workflowStep := Some("execute_handler"));
      if s.category.Some? && s.category.value in handlers {
        var outcome := handlers[s.category.value](u);
        match outcome {
          case Raised(e) =>
            return Failed(e);
          case Returned(resp) =>
            return Continue(u.(messages := u.messages + resp.messages));
        }
      }
      return Continue(u);
    }

    /** `_generate_response_node`: appends the model's answer, or "Error: ..." when the call fails. */
    method GenerateResponseNode(s: AgentState, reply: Reply) returns (t: AgentState)
      ensures t == s.(workflowStep := Some("generate_response"),
                      messages := s.messages + [Message(Assistant, GeneratedText(reply))])
    {
      t := s.(workflowStep := Some("generate_response"));
      t := t.(messages := t.messages + [Message(Assistant, GeneratedText(reply))]);
    }

    /**
     * `_score_confidence_node`: the confidence is the last message's length
     * divided by 100, and escalation is needed exactly when that length is
     * below 100 times the threshold. With no messages neither field changes.
     */
    method ScoreConfidenceNode(s: AgentState) returns (t: AgentState)
      ensures |s.messages| == 0 ==> t == s.(workflowStep := Some("score_confidence"))
      ensures |s.messages| > 0 ==>
        var n := |Last(s.messages).content|;
        && t.messages == s.messages && t.category == s.category && t.metadata == s.metadata
        && t.missingRequirements == s.missingRequirements && t.workflowStep == Some("score_confidence")
        && t.confidence == Some(n as real / 100.0)
        && (t.needsEscalation <==> (n as real) < threshold * 100.0)
    {
      t := s.(workflowStep := Some("score_confidence"));
      if |t.messages| > 0 {
        var confidence := |Last(t.messages).content| as real / 100.0;
        t := t.(confidence := Some(confidence), needsEscalation := confidence < threshold);
      }
    }

    /**
     * `_escalate_node`: the last message is replaced by the escalation
     * messages (`messages[-1:] = ...`); everything before it is kept.
     */
    method EscalateNode(s: AgentState) returns (t: AgentState)
      ensures var u := s.(workflowStep := Some("escalate"));
        var escalation := lowConfidence(u).messages;
        t == u.(messages := if |s.messages| == 0 then escalation
                            else s.messages[..|s.messages| - 1] + escalation)
    {
      t := s.(workflowStep := Some("escalate"));
      var escalation := lowConfidence(t);
      if |t.messages| == 0 {
        t := t.(messages := escalation.messages);
      } else {
        t := t.(messages := t.messages[..|t.messages| - 1] + escalation.messages);
      }
    }

    /**
     * The default path after routing: generate an answer, score it, and
     * replace it by the escalation messages when it scores below the
     * threshold.
     */
    method AnswerByDefault(s: AgentState, draftReply: Reply) returns (t: AgentState, escalated: bool)
      ensures t == s.(workflowStep := Some(if escalated then "escalate" else "score_confidence"),
                      messages := t.messages, confidence := t.confidence, needsEscalation := escalated)
      ensures var draft := GeneratedText(draftReply);
        && t.confidence == Some(|draft| as real / 100.0)
        && (escalated <==> (|draft| as real) < threshold * 100.0)
        && (!escalated ==> t.messages == s.messages + [Message(Assistant, draft)])
        && (escalated ==>
              t.messages == s.messages + lowConfidence(t.(messages := s.messages + [Message(Assistant, draft)])).messages)
    {
      t := GenerateResponseNode(s, draftReply);
      t := ScoreConfidenceNode(t);
      escalated := ConfidenceCheck(t) == Escalate;
      if escalated {
        var before := t;
        t := EscalateNode(t);
        assert before.messages == s.messages + [Message(Assistant, GeneratedText(draftReply))];
        assert t.(messages := before.messages) == before.(workflowStep := Some("escalate"));
      }
    }

    /**
     * The route a run takes is the one the conditional edges pick for the
     * classified state `c`: the requirement check exactly when
     * `ShouldCheckRequirements(c)` says so, END right after it exactly when
     * the verdict lists missing fields, and the handler exactly when one is
     * registered for the category. On the handler route the turn completes
     * exactly when the handler returns, and fails with the handler's own
     * exception when it raises. The final state keeps the classified
     * category and the metadata it started with, holds the verdict's missing
     * fields (none when the check was skipped), and records the step of the
     * last node before END.
     */
    ghost predicate RoutedBy(s0: AgentState, c: AgentState, v: Classification.Verdict, r: StepResult, path: seq<Node>)
      reads this`handlers
    {
      && |path| >= 2 && path[1] == ShouldCheckRequirements(c)
      && (path[1] == CheckRequirements ==>
            |path| >= 3 && path[2] == RequirementsMet(c.(missingRequirements := v.missing)))
      && (path[1] == CheckRequirements && path[2] == Route ==> |path| >= 4 && path[3] == HasCustomHandler(c))
      && (path[1] == CheckRequirements && path[2] == Route && path[3] == ExecuteHandler ==>
            && c.category.Some? && c.category.value in handlers
            && var outcome := handlers[c.category.value](c.(workflowStep := Some("execute_handler")));
            && (r.Continue? <==> outcome.Returned?)
            && (outcome.Raised? ==> r == Failed(outcome.error)))
      && (r.Continue? ==>
            && r.state.category == c.category && r.state.metadata == s0.metadata
            && r.state.missingRequirements == (if path[1] == CheckRequirements then v.missing else [])
            && r.state.workflowStep == Some(StepName(path[|path| - 2])))
      && (r.Continue? && ScoreConfidence !in path ==> r.state.confidence == s0.confidence)
      && (r.Continue? && ScoreConfidence in path ==> (r.state.needsEscalation <==> Escalate in path))
      && (r.Continue? && path[|path| - 2] != CheckRequirements && ScoreConfidence !in path ==>
            r.state.needsEscalation == s0.needsEscalation)
      && (r.Continue? && path[|path| - 2] == CheckRequirements ==>
            (r.state.needsEscalation <==> s0.needsEscalation || RequestCount(s0.messages) >= 2))
    }

    /**
     * What one run of the compiled graph from `s0` guarantees about the final
     * result `r` and the nodes visited: the route the edges pick, and what
     * the result holds along that route.
     */
    ghost predicate RunContract(s0: AgentState, replies: Replies, r: StepResult, path: seq<Node>)
      reads this`handlers
    {
      var c := Classified(s0, replies);
      RoutedBy(s0, c, VerdictOf(c, replies(RequirementsCall)), r, path) && RunGuarantees(s0, replies, r, path)
    }

    /**
     * The run always ends at END unless a handler raises; it never rewrites
     * a message it started with; handler output is never scored or escalated
     * and leaves the confidence fields as they were; a low-confidence draft
     * is replaced by the escalation messages and never survives; unmet
     * requirements end the turn with one question, or with the escalation
     * messages appended.
     */
    ghost predicate RunGuarantees(s0: AgentState, replies: Replies, r: StepResult, path: seq<Node>)
      reads this`handlers
    {
      && IsWalk(path)
      && (r.Continue? <==> path[|path| - 1] == End)
      && (r.Failed? ==> path[|path| - 1] == ExecuteHandler)
      && (r.Continue? ==> s0.messages <= r.state.messages)
      && (ExecuteHandler in path ==> ScoreConfidence !in path && Escalate !in path)
      && (ExecuteHandler in path && r.Continue? ==>
            var t := r.state;
            && t.confidence == s0.confidence && t.needsEscalation == s0.needsEscalation
            && t.category.Some? && t.category.value in handlers
            && handlers[t.category.value](t.(messages := s0.messages)).Returned?
            && t.messages == s0.messages + handlers[t.category.value](t.(messages := s0.messages)).response.messages)
      && (ScoreConfidence in path ==>
            var draft := GeneratedText(replies(GenerateCall));
            && r.Continue?
            && r.state.confidence == Some(|draft| as real / 100.0)
            && (Escalate in path <==> (|draft| as real) < threshold * 100.0)
            && (Escalate !in path ==> r.state.messages == s0.messages + [Message(Assistant, draft)])
            && (Escalate in path ==>
                  r.state.messages
                  == s0.messages + lowConfidence(r.state.(messages := s0.messages + [Message(Assistant, draft)])).messages))
      && (path == [Classify, CheckRequirements, End] ==>
            && r.Continue? && r.state.missingRequirements != []
            && (RequestCount(s0.messages) < 2 ==>
                  r.state.messages == s0.messages
                    + [Message(Assistant, MissingFieldsQuestion(r.state.missingRequirements, replies(QuestionCall)))])
            && (RequestCount(s0.messages) >= 2 ==>
                  r.state.needsEscalation
                  && r.state.messages == s0.messages + lowConfidence(r.state.(messages := s0.messages)).messages))
    }

    /**
     * A turn whose classified category needs the requirement check, has
     * nothing missing and has a registered handler that returns, takes the
     * handler route to END and completes: the handler's messages, not an
     * apology, end the turn.
     */
    lemma HandlerTurnCompletes(s0: AgentState, replies: Replies, r: StepResult, path: seq<Node>)
      requires RunContract(s0, replies, r, path)
      requires var c := Classified(s0, replies);
        && ShouldCheckRequirements(c) == CheckRequirements
        && VerdictOf(c, replies(RequirementsCall)).missing == []
        && HasCustomHandler(c) == ExecuteHandler
        && handlers[c.category.value](c.(workflowStep := Some("execute_handler"))).Returned?
      ensures path == [Classify, CheckRequirements, Route, ExecuteHandler, End]
      ensures r.Continue?
    {
      assert path[3] == ExecuteHandler;
      HandlerWalk(path, 3);
      assert |path| == 5 && path[4] == End;
    }

    /** One run of the compiled graph from `s0`, returning the final result and the nodes visited. */
    method RunWorkflow(s0: AgentState, replies: Replies) returns (r: StepResult, path: seq<Node>)
      requires |s0.messages| > 0
      ensures RunContract(s0, replies, r, path)
    {
      var s := ClassifyNode(s0, replies);
      ghost var v := VerdictOf(s, replies(RequirementsCall));
      if ShouldCheckRequirements(s) == CheckRequirements {
        r, path := RunChecked(s0, s, v, replies);
        return;
      }
      r, path := RunDirect(s0, s, v, replies);
    }

    /** The run that skips the requirement check: generate, score, and escalate when needed. */
    method RunDirect(s0: AgentState, c: AgentState, ghost v: Classification.Verdict, replies: Replies)
      returns (r: StepResult, path: seq<Node>)
      requires |s0.messages| > 0 && ShouldCheckRequirements(c) == GenerateResponse
      requires c.messages == s0.messages && c.metadata == s0.metadata && c.missingRequirements == []
      requires c.confidence == s0.confidence && c.needsEscalation == s0.needsEscalation
      ensures RoutedBy(s0, c, v, r, path)
      ensures RunGuarantees(s0, replies, r, path)
    {
      RunsAreWalks();
      var t, escalated := AnswerByDefault(c, replies(GenerateCall));
      if escalated {
        path := [Classify, GenerateResponse, ScoreConfidence, Escalate, End];
      } else {
        path := [Classify, GenerateResponse, ScoreConfidence, End];
      }
      return Continue(t), path;
    }

    /**
     * The run from check_requirements on, for the state `c` just classified
     * from `s0`, whose requirement verdict is `v`.
     */
    method RunChecked(s0: AgentState, c: AgentState, ghost v: Classification.Verdict, replies: Replies)
      returns (r: StepResult, path: seq<Node>)
      requires |s0.messages| > 0 && c == Classified(s0, replies) && v == VerdictOf(c, replies(RequirementsCall))
      requires ShouldCheckRequirements(c) == CheckRequirements
      ensures RoutedBy(s0, c, v, r, path)
      ensures RunGuarantees(s0, replies, r, path)
    {
      RunsAreWalks();
      var t := CheckRequirementsNode(c, replies);
      if RequirementsMet(t) == End {
        return Continue(t), [Classify, CheckRequirements, End];
      }
      r, path := RunRouted(s0, c, v, t, replies);
    }

    /** The run from route on, once the requirement check found nothing missing. */
    method RunRouted(s0: AgentState, ghost c: AgentState, ghost v: Classification.Verdict, t: AgentState, replies: Replies)
      returns (r: StepResult, path: seq<Node>)
      requires |s0.messages| > 0 && c == Classified(s0, replies) && v == VerdictOf(c, replies(RequirementsCall))
      requires ShouldCheckRequirements(c) == CheckRequirements && v.missing == []
      requires t == c.(workflowStep := Some("check_requirements"))
      ensures RoutedBy(s0, c, v, r, path)
      ensures RunGuarantees(s0, replies, r, path)
    {
      var u := RouteNode(t);
      if HasCustomHandler(u) == ExecuteHandler {
        r, path := RunHandler(s0, c, v, u, replies);
      } else {
        r, path := RunRoutedDefault(s0, c, v, u, replies);
      }
    }

    /** The handler branch after route: the handler's messages end the turn, or its exception does. */
    method RunHandler(s0: AgentState, ghost c: AgentState, ghost v: Classification.Verdict, u: AgentState, replies: Replies)
      returns (r: StepResult, path: seq<Node>)
      requires |s0.messages| > 0 && ShouldCheckRequirements(c) == CheckRequirements && v.missing == []
      requires c.messages == s0.messages && c.metadata == s0.metadata && c.missingRequirements == []
      requires c.confidence == s0.confidence && c.needsEscalation == s0.needsEscalation
      requires u == c.(workflowStep := Some("route"))
      requires HasCustomHandler(c) == ExecuteHandler
      ensures RoutedBy(s0, c, v, r, path)
      ensures RunGuarantees(s0, replies, r, path)
    {
      RunsAreWalks();
      r := ExecuteHandlerNode(u);
      if r.Continue? {
        path := [Classify, CheckRequirements, Route, ExecuteHandler, End];
      } else {
        path := [Classify, CheckRequirements, Route, ExecuteHandler];
      }
    }

    /** The model's branch after route: generate, score, and escalate when needed. */
    method RunRoutedDefault(s0: AgentState, ghost c: AgentState, ghost v: Classification.Verdict, u: AgentState, replies: Replies)
      returns (r: StepResult, path: seq<Node>)
      requires |s0.messages| > 0 && ShouldCheckRequirements(c) == CheckRequirements && v.missing == []
      requires c.messages == s0.messages && c.metadata == s0.metadata && c.missingRequirements == []
      requires c.confidence == s0.confidence && c.needsEscalation == s0.needsEscalation
      requires u == c.(workflowStep := Some("route"))
      requires HasCustomHandler(c) == GenerateResponse
      ensures RoutedBy(s0, c, v, r, path)
      ensures RunGuarantees(s0, replies, r, path)
    {
      RunsAreWalks();
      var t, escalated := AnswerByDefault(u, replies(GenerateCall));
      if escalated {
        path := [Classify, CheckRequirements, Route, GenerateResponse, ScoreConfidence, Escalate, End];
      } else {
        path := [Classify, CheckRequirements, Route, GenerateResponse, ScoreConfidence, End];
      }
      return Continue(t), path;
    }

    /**
     * `chat`: an empty or all-whitespace message or user id is rejected
     * before anything changes. Otherwise the stripped message is appended to
     * the user's stored conversation (a fresh one when none is stored or
     * reading fails) and the graph runs; the reply is the last message's
     * text and the new state is stored for that user alone. A raised
     * exception gives the fixed apology. `readFails` stands for a failing
     * checkpointer read.
     */
    method Chat(message: string, userId: string, replies: Replies, readFails: bool)
      returns (out: ChatOutcome, ghost r: StepResult, ghost path: seq<Node>)
      modifies this`store
      ensures Text.Strip(message) == "" ==> out == InvalidArgument(MessageError) && store == old(store)
      ensures Text.Strip(message) != "" && Text.Strip(userId) == "" ==>
        out == InvalidArgument(UserIdError) && store == old(store)
      ensures Text.Strip(message) != "" && Text.Strip(userId) != "" ==>
        && RunContract(TurnStart(old(store), userId, message, readFails), replies, r, path)
        && (r.Failed? ==> out == Answer(ErrorApology) && store == old(store))
        && (r.Continue? ==> out == Answer(ReplyText(r.state.messages)) && store == old(store)[userId := r.state])
    {
      r, path := Failed(""), [];
      var text, user := Text.Strip(message), Text.Strip(userId);
      if text == "" {
        return InvalidArgument(MessageError), r, path;
      }
      if user == "" {
        return InvalidArgument(UserIdError), r, path;
      }
      var s0 := TurnStart(store, userId, message, readFails);
      var result;
      result, path := RunWorkflow(s0, replies);
      r := result;
      match result {
        case Failed(_) =>
          out := Answer(ErrorApology);
        case Continue(t) =>
          store := store[userId := t];
          out := Answer(ReplyText(t.messages));
      }
    }
  }
}
