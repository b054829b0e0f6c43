/**
 * The earlier agent revision: one workflow node does everything. It
 * classifies by keyword, checks the requirement table with a field-presence
 * test, and then runs a handler or answers with the model. Every turn starts
 * from a fresh state holding only the new message.
 */
module SingleNodeAgent {
  import opened Models
  import opened Oracle
  import opened AgentCommon
  import Text
  import Classification

  const ExpertMessage := "Let me connect you with a human expert."

  /** The base class's `handle_low_confidence` in this revision. */
  function ExpertEscalation(s: AgentState): HandlerResponse {
    ResponseOf([Message(Assistant, ExpertMessage)])
  }

  /**
   * The first position at or after `i` whose category, lower-cased, occurs
   * in `lowered`, or None when none does.
   */
  function FirstKeywordFrom(categories: seq<string>, lowered: string, i: nat): (k: Option<nat>)
    requires i <= |categories|
    ensures k.Some? ==> i <= k.value < |categories| && Text.Contains(lowered, Text.Lower(categories[k.value]))
    ensures k.Some? ==> forall j :: i <= j < k.value ==> !Text.Contains(lowered, Text.Lower(categories[j]))
    ensures k.None? ==> forall j :: i <= j < |categories| ==> !Text.Contains(lowered, Text.Lower(categories[j]))
    decreases |categories| - i
  {
    if i == |categories| then None
    else if Text.Contains(lowered, Text.Lower(categories[i])) then Some(i)
    else FirstKeywordFrom(categories, lowered, i + 1)
  }

  /** The category keyword classification gives a message. */
  function KeywordCategory(categories: seq<string>, message: string): (c: string)
    ensures c == Classification.Default || c in categories
  {
    match FirstKeywordFrom(categories, Text.Lower(message), 0)
    case Some(k) => categories[k]
    case None => Classification.Default
  }

  /**
   * Keyword classification in both directions: the result is the first
   * category whose lower-cased name occurs in the lower-cased message, or
   * "default" exactly when no category's does.
   */
  lemma KeywordOutcome(categories: seq<string>, message: string)
    ensures var lowered := Text.Lower(message);
      var c := KeywordCategory(categories, message);
      || (exists k :: 0 <= k < |categories| && categories[k] == c
            && Text.Contains(lowered, Text.Lower(categories[k]))
            && forall j :: 0 <= j < k ==> !Text.Contains(lowered, Text.Lower(categories[j])))
      || (c == Classification.Default
            && forall j :: 0 <= j < |categories| ==> !Text.Contains(lowered, Text.Lower(categories[j])))
  {
    match FirstKeywordFrom(categories, Text.Lower(message), 0)
    case Some(k) =>
      assert categories[k] == KeywordCategory(categories, message);
    case None =>
  }

  /** A message containing a declared category's name is classified as that category or an earlier one. */
  lemma MentionedCategoryIsFound(categories: seq<string>, prefix: string, k: nat, suffix: string)
    requires k < |categories|
    ensures var c := KeywordCategory(categories, prefix + categories[k] + suffix);
      c in categories[..k + 1]
  {
    var message := prefix + categories[k] + suffix;
    Text.LowerConcat(prefix, categories[k]);
    Text.LowerConcat(prefix + categories[k], suffix);
    Text.ContainsSelf(Text.Lower(categories[k]));
    Text.ContainsInContext(Text.Lower(prefix), Text.Lower(categories[k]), Text.Lower(suffix), Text.Lower(categories[k]));
    assert Text.Lower(prefix) + Text.Lower(categories[k]) + Text.Lower(suffix) == Text.Lower(message);
    match FirstKeywordFrom(categories, Text.Lower(message), 0)
    case Some(j) =>
      assert j <= k;
      assert categories[j] == categories[..k + 1][j];
    case None =>
      assert false;
  }

  /** The "Need: ..." reply for missing fields. */
  function NeedReply(missing: seq<string>): string {
    "Need: " + Text.Join(missing, ", ")
  }

  /** The "Need: ..." reply names every missing field. */
  lemma NeedReplyNamesFields(missing: seq<string>, k: nat)
    requires k < |missing|
    ensures Text.Contains(NeedReply(missing), missing[k])
  {
    Text.JoinContainsParts(missing, ", ", k);
    Text.ContainsInContext("Need: ", Text.Join(missing, ", "), "", missing[k]);
    assert "Need: " + Text.Join(missing, ", ") + "" == NeedReply(missing);
  }

  class Agent {
    const categories: seq<string>
    const requirements: seq<CategoryRequirement>
    const threshold: real
    const lowConfidence: AgentState -> HandlerResponse
    /** `check_field_present(message, field)`, whose definition is not part of this model. */
    const fieldPresent: (string, string) -> bool
    var handlers: map<string, Handler>

    constructor (categories: seq<string>, requirements: seq<CategoryRequirement>, threshold: real,
                 lowConfidence: AgentState -> HandlerResponse, fieldPresent: (string, string) -> bool)
      ensures this.categories == categories && this.requirements == requirements
      ensures this.threshold == threshold && this.lowConfidence == lowConfidence
      ensures this.fieldPresent == fieldPresent && handlers == map[]
    {
      this.categories := categories;
      this.requirements := requirements;
      this.threshold := threshold;
      this.lowConfidence := lowConfidence;
      this.fieldPresent := fieldPresent;
      handlers := map[];
    }

    method RegisterHandler(category: string, handler: HandlerValue) returns (reg: Registration)
      modifies this`handlers
      ensures reg == RegistrationOf(old(handlers), categories, category, handler)
      ensures reg.Refused? ==> handlers == old(handlers)
      ensures reg.Registered? ==> handler.Callable? && handlers == old(handlers)[category := handler.run]
    {
      reg := RegistrationOf(handlers, categories, category, handler);
      if reg.Registered? {
        handlers := handlers[category := handler.run];
      }
    }

    method UnregisterHandler(category: string)
      modifies this`handlers
      ensures handlers == old(handlers) - {category}
      ensures category !in old(handlers) ==> handlers == old(handlers)
    {
      handlers := handlers - {category};
    }

    /** `_classify_message`: the search loop over the categories. */
    method ClassifyMessage(message: string) returns (category: string)
      ensures category == KeywordCategory(categories, message)
    {
      var lowered := Text.Lower(message);
      var i := 0;
      while i < |categories|
        invariant 0 <= i <= |categories|
        invariant FirstKeywordFrom(categories, lowered, i) == FirstKeywordFrom(categories, lowered, 0)
      {
        if Text.Contains(lowered, Text.Lower(categories[i])) {
          return categories[i];
        }
        i := i + 1;
      }
      return Classification.Default;
    }

    /** The fields that the message does not supply, in declared order. */
    function MissingFields(fields: seq<string>, message: string): (missing: seq<string>)
      ensures |missing| <= |fields|
      ensures forall f :: f in missing ==> f in fields && !fieldPresent(message, f)
      ensures forall f :: f in fields && !fieldPresent(message, f) ==> f in missing
    {
      if fields == [] then []
      else
        var f := fields[|fields| - 1];
        MissingFields(fields[..|fields| - 1], message) + (if fieldPresent(message, f) then [] else [f])
    }

    /** The missing fields of the first entry for `category` that lacks any, or None when none does. */
    function FirstUnmet(reqs: seq<CategoryRequirement>, category: Option<string>, message: string)
      : (u: Option<seq<string>>)
      ensures u.Some? ==>
        (u.value != [] && exists r :: r in reqs && Some(r.category) == category && u.value == MissingFields(r.requiredFields, message))
      ensures u.None? ==> forall r :: r in reqs && Some(r.category) == category ==> MissingFields(r.requiredFields, message) == []
    {
      if reqs == [] then None
      else
        var missing := MissingFields(reqs[0].requiredFields, message);
        if Some(reqs[0].category) == category && missing != [] then Some(missing)
        else FirstUnmet(reqs[1..], category, message)
    }

    /** Entry `i` of `reqs` is for the category and lacks fields of `message`. */
    ghost predicate UnmetAt(reqs: seq<CategoryRequirement>, category: Option<string>, message: string, i: int)
      requires 0 <= i < |reqs|
    {
      Some(reqs[i].category) == category && MissingFields(reqs[i].requiredFields, message) != []
    }

    /**
     * The reported fields belong to the first entry for the category that
     * lacks any: every earlier entry for it is satisfied.
     */
    lemma {:induction false} FirstUnmetIsFirst(reqs: seq<CategoryRequirement>, category: Option<string>, message: string)
      requires FirstUnmet(reqs, category, message).Some?
      ensures exists i :: (0 <= i < |reqs| && UnmetAt(reqs, category, message, i)
        && FirstUnmet(reqs, category, message).value == MissingFields(reqs[i].requiredFields, message)
        && forall j :: 0 <= j < i ==> !UnmetAt(reqs, category, message, j))
    {
      if UnmetAt(reqs, category, message, 0) {
        assert 0 <= 0 < |reqs| && UnmetAt(reqs, category, message, 0)
          && FirstUnmet(reqs, category, message).value == MissingFields(reqs[0].requiredFields, message);
      } else {
        var rest := reqs[1..];
        FirstUnmetIsFirst(rest, category, message);
        var i :| 0 <= i < |rest| && UnmetAt(rest, category, message, i)
          && FirstUnmet(rest, category, message).value == MissingFields(rest[i].requiredFields, message)
          && forall j :: 0 <= j < i ==> !UnmetAt(rest, category, message, j);
        assert reqs[i + 1] == rest[i];
        forall j | 0 <= j < i + 1 ensures !UnmetAt(reqs, category, message, j) {
          if j > 0 {
            assert reqs[j] == rest[j - 1];
            assert !UnmetAt(rest, category, message, j - 1);
          }
        }
        assert UnmetAt(reqs, category, message, i + 1);
      }
    }

    /** Scanning from entry `i`: that entry decides when it is unmet, and otherwise the scan goes on. */
    lemma FirstUnmetStep(reqs: seq<CategoryRequirement>, category: Option<string>, message: string, i: nat)
      requires i < |reqs|
      ensures FirstUnmet(reqs[i..], category, message)
        == if Some(reqs[i].category) == category && MissingFields(reqs[i].requiredFields, message) != []
           then Some(MissingFields(reqs[i].requiredFields, message))
           else FirstUnmet(reqs[i + 1..], category, message)
    {
      assert reqs[i..][0] == reqs[i];
      assert reqs[i..][1..] == reqs[i + 1..];
    }

    /** The inner loop of `_check_requirements`: the fields absent from `message`, in declared order. */
    method ScanFields(fields: seq<string>, message: string) returns (missing: seq<string>)
      ensures missing == MissingFields(fields, message)
    {
      missing := [];
      var j := 0;
      while j < |fields|
        invariant 0 <= j <= |fields|
        invariant missing == MissingFields(fields[..j], message)
      {
        assert fields[..j + 1][..j] == fields[..j];
        if !fieldPresent(message, fields[j]) {
          missing := missing + [fields[j]];
        }
        j := j + 1;
      }
      assert fields[..j] == fields;
    }

    /**
     * `_check_requirements`: every entry for the state's category is checked
     * in table order against the lower-cased last message; the first that
     * lacks fields records them and fails the check. When all are satisfied
     * the state is returned unchanged.
     */
    method CheckRequirements(s: AgentState) returns (met: bool, t: AgentState)
      requires |s.messages| > 0
      ensures var u := FirstUnmet(requirements, s.category, Text.Lower(Last(s.messages).content));
        && (met <==> u.None?)
        && t == (if met then s else s.(missingRequirements := u.value))
    {
      var message := Text.Lower(Last(s.messages).content);
      var i := 0;
      while i < |requirements|
        invariant 0 <= i <= |requirements|
        invariant FirstUnmet(requirements[i..], s.category, message) == FirstUnmet(requirements, s.category, message)
      {
        var req := requirements[i];
        FirstUnmetStep(requirements, s.category, message, i);
        if Some(req.category) == s.category {
          var missing := ScanFields(req.requiredFields, message);
          if missing != [] {
            return false, s.(missingRequirements := missing);
          }
        }
        i := i + 1;
      }
      return true, s;
    }

    /** The default path: the model's draft is kept when it scores at least the threshold, and otherwise only the escalation messages are appended. */
    ghost predicate DefaultAnswer(s: AgentState, reply: Reply, r: StepResult) {
      var draft := GeneratedText(reply);
      && r.Continue?
      && ((|draft| as real) < threshold * 100.0 ==> r.state == s.(messages := s.messages + lowConfidence(s).messages))
      && ((|draft| as real) >= threshold * 100.0 ==> r.state == s.(messages := s.messages + [Message(Assistant, draft)]))
    }

    /**
     * What one turn of `_process_message` does. With categories it
     * classifies, ends the turn with one "Need: ..." message when fields
     * are missing, and otherwise hands a registered category to its handler,
     * whose messages are appended with no confidence check. With no
     * categories, or no handler, the model answers as described by
     * `DefaultAnswer`.
     */
    ghost predicate ProcessContract(s: AgentState, reply: Reply, r: StepResult)
      requires |s.messages| > 0
      reads this
    {
      var last := Last(s.messages).content;
      && (|categories| == 0 ==> DefaultAnswer(s, reply, r))
      && (|categories| > 0 ==>
            var c := KeywordCategory(categories, last);
            var sc := s.(category := Some(c));
            match FirstUnmet(requirements, Some(c), Text.Lower(last))
            case Some(missing) =>
              r == Continue(sc.(missingRequirements := missing,
                                messages := s.messages + [Message(Assistant, NeedReply(missing))]))
            case None =>
              if c in handlers then
                match handlers[c](sc)
                case Raised(e) => r == Failed(e)
                case Returned(resp) => r == Continue(sc.(messages := s.messages + resp.messages))
              else DefaultAnswer(sc, reply, r))
    }

    /** `_process_message`, with `reply` standing for the model's answer to the turn. */
    method ProcessMessage(s: AgentState, reply: Reply) returns (r: StepResult)
      requires |s.messages| > 0
      ensures ProcessContract(s, reply, r)
    {
      var last := Last(s.messages).content;
      var t := s;
      if |categories| > 0 {
        var c := ClassifyMessage(last);
        t := t.(category := Some(c));
        var met;
        met, t := CheckRequirements(t);
        if !met {
          t := t.(messages := t.messages + [Message(Assistant, NeedReply(t.missingRequirements))]);
          return Continue(t);
        }
        if c in handlers {
          var outcome := handlers[c](t);
          match outcome {
            case Raised(e) =>
              return Failed(e);
            case Returned(resp) =>
              return Continue(t.(messages := t.messages + resp.messages));
          }
        }
      }
      var response := GeneratedText(reply);
      var confidence := |response| as real / 100.0;
      if confidence < threshold {
        var escalation := lowConfidence(t);
        t := t.(messages := t.messages + escalation.messages);
      } else {
        t := t.(messages := t.messages + [Message(Assistant, response)]);
      }
      return Continue(t);
    }

    /**
     * `chat`: rejects an empty or all-whitespace message or user id, then
     * runs one turn on a fresh state holding only the stripped message and
     * answers with the last message's text, or the fixed apology when a
     * handler raises. Nothing carries over between calls.
     */
    method Chat(message: string, userId: string, reply: Reply) returns (out: ChatOutcome, ghost r: StepResult)
      ensures Text.Strip(message) == "" ==> out == InvalidArgument(MessageError)
      ensures Text.Strip(message) != "" && Text.Strip(userId) == "" ==> out == InvalidArgument(UserIdError)
      ensures Text.Strip(message) != "" && Text.Strip(userId) != "" ==>
        && ProcessContract(InitialState([Message(User, Text.Strip(message))]), reply, r)
        && (r.Failed? ==> out == Answer(ErrorApology))
        && (r.Continue? ==> out == Answer(ReplyText(r.state.messages)))
    {
      r := Failed("");
      var text, user := Text.Strip(message), Text.Strip(userId);
      if text == "" {
        return InvalidArgument(MessageError), r;
      }
      if user == "" {
        return InvalidArgument(UserIdError), r;
      }
      var result := ProcessMessage(InitialState([Message(User, text)]), reply);
      r := result;
      match result {
        case Failed(_) =>
          out := Answer(ErrorApology);
        case Continue(t) =>
          out := Answer(ReplyText(t.messages));
      }
    }
  }
}
