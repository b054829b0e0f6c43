/**
 * The revision of the classification helpers that shows the model only the
 * previous user message as context. Reply validation is the same as in the
 * current revision.
 */
module RecentContextClassification {
  import opened Models
  import opened Oracle
  import Classification
  import Text

  /** The contents of the user's messages, oldest first. */
  function UserTexts(history: seq<Message>): seq<string> {
    if history == [] then []
    else
      var last := history[|history| - 1];
      UserTexts(history[..|history| - 1]) + (if last.role == User then [last.content] else [])
  }

  /** The user's messages of two consecutive stretches of history follow each other. */
  lemma {:induction false} UserTextsConcat(a: seq<Message>, b: seq<Message>)
    ensures UserTexts(a + b) == UserTexts(a) + UserTexts(b)
    decreases |b|
  {
    if b != [] {
      assert (a + b)[..|a + b| - 1] == a + b[..|b| - 1];
      UserTextsConcat(a, b[..|b| - 1]);
    } else {
      assert a + b == a;
    }
  }

  /**
   * The reversed scan that collects at most two user messages, newest first,
   * and keeps the older of the two as "Previous user message" only when two
   * were found.
   */
  method PreviousUserMessage(history: seq<Message>) returns (previous: Option<string>)
    ensures var u := UserTexts(history);
      previous == if |u| >= 2 then Some(u[|u| - 2]) else None
  {
    var recent: seq<string> := [];
    var i := |history|;
    while i > 0 && |recent| < 2
      invariant 0 <= i <= |history|
      invariant var u := UserTexts(history[i..]);
        |recent| == |u| <= 2 && forall k :: 0 <= k < |recent| ==> recent[k] == u[|u| - 1 - k]
    {
      i := i - 1;
      assert history[i..] == [history[i]] + history[i + 1..];
      UserTextsConcat([history[i]], history[i + 1..]);
      assert UserTexts([history[i]]) == UserTexts([]) + (if history[i].role == User then [history[i].content] else []);
      if history[i].role == User {
        recent := recent + [history[i].content];
      }
    }
    assert history == history[..i] + history[i..];
    UserTextsConcat(history[..i], history[i..]);
    previous := if |recent| > 1 then Some(recent[1]) else None;
  }

  /**
   * `classify_message_with_llm`: this revision's function is the same as the
   * current revision's apart from how the prompt is built (formatted from
   * the shared template here, written out inline there). The prompt only shapes
   * the model's `reply`, which is a parameter, so the model delegates to it.
   */
  method ClassifyMessage(categories: seq<string>, reply: Reply) returns (category: string, asked: bool)
    ensures asked <==> |categories| > 0
    ensures category == Classification.Default || category in categories
    ensures category == Classification.ClassifiedAs(categories, reply)
  {
    category, asked := Classification.ClassifyMessage(categories, reply);
  }

  /**
   * `check_requirements_with_llm` of this revision: the verdict is read from
   * the reply exactly as in the current revision; the context is the
   * previous user message, and nothing is shown when the model is not asked.
   */
  method CheckRequirements(category: string, requirements: seq<CategoryRequirement>, history: seq<Message>, reply: Reply)
    returns (met: bool, missing: seq<string>, asked: bool, previous: Option<string>)
    ensures Classification.Verdict(met, missing) == Classification.RequirementsVerdict(category, requirements, reply)
    ensures met <==> missing == []
    ensures asked <==> Classification.RequirementFor(requirements, category).Some?
                       && Classification.RequirementFor(requirements, category).value.requiredFields != []
    ensures var u := UserTexts(history);
      previous == if asked && |u| >= 2 then Some(u[|u| - 2]) else None
  {
    var entry := Classification.FindRequirement(requirements, category);
    if entry.None? || entry.value.requiredFields == [] {
      return true, [], false, None;
    }
    var fields := entry.value.requiredFields;
    previous := PreviousUserMessage(history);
    asked := true;
    match reply {
      case Failure(_) =>
        met, missing := false, fields;
      case Text(t) =>
        var result := Text.Strip(t);
        if Text.Upper(result) == "NONE" {
          met, missing := true, [];
        } else {
          missing := Classification.FilterDeclared(Classification.ParseFieldList(result), fields);
          met := |missing| == 0;
        }
    }
  }
}
