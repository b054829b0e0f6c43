/**
 * Post-processing of the language model's answers in the current revision:
 * the category it names is checked against the declared list, and the
 * missing fields it lists are checked against the category's declared
 * fields, with a fixed fallback whenever the model cannot be reached. The
 * reply validation here is shared by the two earlier revisions.
 */
module Classification {
  import opened Models
  import opened Oracle
  import Text

  /** The category that stands for "none of the declared ones". */
  const Default := "default"

  /**
   * The first position at or after `i` whose category, lower-cased, equals
   * `lowered`, or None when no position does.
   */
  function FirstMatchFrom(categories: seq<string>, lowered: string, i: nat): (k: Option<nat>)
    requires i <= |categories|
    ensures k.Some? ==> i <= k.value < |categories| && Text.Lower(categories[k.value]) == lowered
    ensures k.Some? ==> forall j :: i <= j < k.value ==> Text.Lower(categories[j]) != lowered
    ensures k.None? ==> forall j :: i <= j < |categories| ==> Text.Lower(categories[j]) != lowered
    decreases |categories| - i
  {
    if i == |categories| then None
    else if Text.Lower(categories[i]) == lowered then Some(i)
    else FirstMatchFrom(categories, lowered, i + 1)
  }

  /** The category `classify_message_with_llm` returns for a given model reply. */
  function ClassifiedAs(categories: seq<string>, reply: Reply): (c: string)
    ensures c == Default || c in categories
  {
    if |categories| == 0 then Default
    else match reply
      case Failure(_) => Default
      case Text(t) =>
        match FirstMatchFrom(categories, Text.Lower(Text.Strip(t)), 0)
        case Some(k) => categories[k]
        case None => Default
  }

  /**
   * `classify_message_with_llm`: no categories means "default" without asking
   * the model (`asked` is false); otherwise the stripped reply is compared,
   * ignoring case, with each category in order and the first equal one is
   * returned in its declared spelling; no match or a failed call gives
   * "default". The message itself only enters the prompt.
   */
  method ClassifyMessage(categories: seq<string>, reply: Reply) returns (category: string, asked: bool)
    ensures asked <==> |categories| > 0
    ensures category == ClassifiedAs(categories, reply)
  {
    if |categories| == 0 {
      return Default, false;
    }
    asked := true;
    match reply {
      case Failure(_) =>
        category := Default;
      case Text(t) =>
        var lowered := Text.Lower(Text.Strip(t));
        var i := 0;
        while i < |categories|
          invariant 0 <= i <= |categories|
          invariant FirstMatchFrom(categories, lowered, i) == FirstMatchFrom(categories, lowered, 0)
        {
          if Text.Lower(categories[i]) == lowered {
            return categories[i], true;
          }
          i := i + 1;
        }
        category := Default;
    }
  }

  /**
   * What the classification means, in both directions: with categories and a
   * reply, the result is the first category equal to the stripped reply up to
   * case, or "default" exactly when no category is.
   */
  lemma ClassificationOutcome(categories: seq<string>, t: string)
    requires |categories| > 0
    ensures var lowered := Text.Lower(Text.Strip(t));
      var c := ClassifiedAs(categories, Text(t));
      || (exists k :: 0 <= k < |categories| && categories[k] == c
            && Text.Lower(categories[k]) == lowered
            && forall j :: 0 <= j < k ==> Text.Lower(categories[j]) != lowered)
      || (c == Default && forall j :: 0 <= j < |categories| ==> Text.Lower(categories[j]) != lowered)
  {
    var lowered := Text.Lower(Text.Strip(t));
    match FirstMatchFrom(categories, lowered, 0)
    case Some(k) =>
      assert categories[k] == ClassifiedAs(categories, Text(t));
    case None =>
  }

  /** Replies that differ only in case and surrounding whitespace classify alike. */
  lemma ClassificationIgnoresCase(categories: seq<string>, t1: string, t2: string)
    requires Text.Lower(Text.Strip(t1)) == Text.Lower(Text.Strip(t2))
    ensures ClassifiedAs(categories, Text(t1)) == ClassifiedAs(categories, Text(t2))
  {
  }

  /** The outcome of checking a category's requirements. */
  datatype Verdict = Verdict(met: bool, missing: seq<string>)

  /** The first requirement entry declared for `category`, if any. */
  function RequirementFor(requirements: seq<CategoryRequirement>, category: string): (e: Option<CategoryRequirement>)
    ensures e.Some? ==> e.value in requirements && e.value.category == category
    ensures e.None? ==> forall r :: r in requirements ==> r.category != category
  {
    if requirements == [] then None
    else if requirements[0].category == category then Some(requirements[0])
    else RequirementFor(requirements[1..], category)
  }

  /** Among several entries for one category, the earliest one is used. */
  lemma {:induction false} RequirementForIsFirst(requirements: seq<CategoryRequirement>, category: string, k: nat)
    requires k < |requirements| && requirements[k].category == category
    requires forall j :: 0 <= j < k ==> requirements[j].category != category
    ensures RequirementFor(requirements, category) == Some(requirements[k])
  {
    if k > 0 {
      RequirementForIsFirst(requirements[1..], category, k - 1);
    }
  }

  /** The lookup loop over the requirement table, stopping at the first entry for `category`. */
  method FindRequirement(requirements: seq<CategoryRequirement>, category: string) returns (entry: Option<CategoryRequirement>)
    ensures entry == RequirementFor(requirements, category)
  {
    var i := 0;
    while i < |requirements|
      invariant 0 <= i <= |requirements|
      invariant RequirementFor(requirements[i..], category) == RequirementFor(requirements, category)
    {
      if requirements[i].category == category {
        return Some(requirements[i]);
      }
      assert requirements[i..][1..] == requirements[i + 1..];
      i := i + 1;
    }
    return None;
  }

  /** `[field.strip() for field in parts if field.strip()]`. */
  function TrimmedItems(parts: seq<string>): (items: seq<string>)
    ensures |items| <= |parts|
    ensures forall k :: 0 <= k < |items| ==> items[k] != ""
  {
    if parts == [] then []
    else
      var head := Text.Strip(parts[0]);
      (if head != "" then [head] else []) + TrimmedItems(parts[1..])
  }

  /** The field names listed in a comma-separated reply, trimmed, empty ones dropped. */
  function ParseFieldList(result: string): seq<string> {
    TrimmedItems(Text.SplitOn(result, ','))
  }

  /** The items that are declared, in the order they come. */
  function KeepDeclared(items: seq<string>, declared: seq<string>): (kept: seq<string>)
    ensures |kept| <= |items|
    ensures forall x :: x in kept ==> x in declared && x in items
  {
    if items == [] then []
    else
      var last := items[|items| - 1];
      KeepDeclared(items[..|items| - 1], declared) + (if last in declared then [last] else [])
  }

  /** Filtering drops only undeclared names: every declared item survives. */
  lemma {:induction false} KeepDeclaredComplete(items: seq<string>, declared: seq<string>, x: string)
    requires x in items && x in declared
    ensures x in KeepDeclared(items, declared)
  {
    var last := items[|items| - 1];
    if x != last {
      assert x in items[..|items| - 1];
      KeepDeclaredComplete(items[..|items| - 1], declared, x);
    }
  }

  /** The loop that copies the declared fields of the model's list into `valid_missing`. */
  method FilterDeclared(items: seq<string>, declared: seq<string>) returns (valid: seq<string>)
    ensures valid == KeepDeclared(items, declared)
  {
    valid := [];
    var i := 0;
    while i < |items|
      invariant 0 <= i <= |items|
      invariant valid == KeepDeclared(items[..i], declared)
    {
      assert items[..i + 1][..i] == items[..i];
      if items[i] in declared {
        valid := valid + [items[i]];
      }
      i := i + 1;
    }
    assert items[..|items|] == items;
  }

  /** How a reply about a category with the non-empty field list `fields` is read. */
  function VerdictFor(fields: seq<string>, reply: Reply): (v: Verdict)
    requires |fields| > 0
    ensures v.met <==> v.missing == []
    ensures forall f :: f in v.missing ==> f in fields
  {
    match reply
    case Failure(_) => Verdict(false, fields)
    case Text(t) =>
      var result := Text.Strip(t);
      if Text.Upper(result) == "NONE" then Verdict(true, [])
      else
        var valid := KeepDeclared(ParseFieldList(result), fields);
        Verdict(|valid| == 0, valid)
  }

  /** The pair `check_requirements_with_llm` returns for a given model reply. */
  function RequirementsVerdict(category: string, requirements: seq<CategoryRequirement>, reply: Reply): (v: Verdict)
    ensures v.met <==> v.missing == []
    ensures forall f :: f in v.missing ==>
      RequirementFor(requirements, category).Some? && f in RequirementFor(requirements, category).value.requiredFields
  {
    match RequirementFor(requirements, category)
    case None => Verdict(true, [])
    case Some(entry) =>
      if |entry.requiredFields| == 0 then Verdict(true, [])
      else VerdictFor(entry.requiredFields, reply)
  }

  /**
   * Whatever the model answers, a category without a requirement entry, or
   * whose entry lists no fields, is satisfied; a failed call reports every
   * declared field missing; "NONE" in any case is satisfied; and otherwise
   * exactly the declared names the reply lists are missing.
   */
  lemma RequirementsOutcome(category: string, requirements: seq<CategoryRequirement>, reply: Reply)
    ensures var e := RequirementFor(requirements, category);
      var v := RequirementsVerdict(category, requirements, reply);
      && (e.None? || e.value.requiredFields == [] ==> v == Verdict(true, []))
      && (e.Some? && e.value.requiredFields != [] && reply.Failure? ==> v == Verdict(false, e.value.requiredFields))
      && ((e.Some? && e.value.requiredFields != [] && reply.Text?
           && Text.Upper(Text.Strip(reply.content)) == "NONE") ==> v == Verdict(true, []))
      && ((e.Some? && e.value.requiredFields != [] && reply.Text?
           && Text.Upper(Text.Strip(reply.content)) != "NONE") ==>
            forall f :: f in ParseFieldList(Text.Strip(reply.content)) && f in e.value.requiredFields
              ==> f in v.missing)
  {
    var e := RequirementFor(requirements, category);
    if e.Some? && e.value.requiredFields != [] && reply.Text? && Text.Upper(Text.Strip(reply.content)) != "NONE" {
      var items := ParseFieldList(Text.Strip(reply.content));
      forall f | f in items && f in e.value.requiredFields
        ensures f in RequirementsVerdict(category, requirements, reply).missing
      {
        KeepDeclaredComplete(items, e.value.requiredFields, f);
      }
    }
  }

  /** Keeps the user and assistant messages, in order. */
  function DialogueOnly(ms: seq<Message>): (d: seq<Message>)
    ensures |d| <= |ms|
    ensures forall m :: m in d ==> m in ms && m.role != System
  {
    if ms == [] then []
    else
      var last := ms[|ms| - 1];
      DialogueOnly(ms[..|ms| - 1]) + (if last.role != System then [last] else [])
  }

  /** Extending a prefix by one message extends its dialogue by that message when it is from the user or the assistant. */
  lemma DialogueOnlyStep(w: seq<Message>, i: nat)
    requires i < |w|
    ensures DialogueOnly(w[..i + 1]) == DialogueOnly(w[..i]) + (if w[i].role == User || w[i].role == Assistant then [w[i]] else [])
  {
    var longer := w[..i + 1];
    assert longer[..|longer| - 1] == w[..i] && longer[|longer| - 1] == w[i];
  }

  /** `history[-n:]`. */
  function LastN(history: seq<Message>, n: nat): (w: seq<Message>)
    ensures |w| <= n && |w| <= |history| && w == history[|history| - |w|..]
  {
    if |history| <= n then history else history[|history| - n..]
  }

  /**
   * The conversation context shown to the model: of the last five messages,
   * the ones from the user or the assistant, oldest first.
   */
  method HistoryWindow(history: seq<Message>) returns (shown: seq<Message>)
    ensures shown == DialogueOnly(LastN(history, 5))
    ensures |shown| <= 5
  {
    var window := LastN(history, 5);
    shown := [];
    var i := 0;
    while i < |window|
      invariant 0 <= i <= |window|
      invariant shown == DialogueOnly(window[..i])
    {
      DialogueOnlyStep(window, i);
      if window[i].role == User || window[i].role == Assistant {
        shown := shown + [window[i]];
      }
      i := i + 1;
    }
    assert window[..|window|] == window;
  }

  /**
   * `check_requirements_with_llm`. `asked` says whether the model was
   * consulted, which happens exactly when the category has an entry with at
   * least one field; `shown` is the history window that went into the prompt.
   * The current message itself only enters the prompt.
   */
  method CheckRequirements(category: string, requirements: seq<CategoryRequirement>, history: seq<Message>, reply: Reply)
    returns (met: bool, missing: seq<string>, asked: bool, shown: seq<Message>)
    ensures Verdict(met, missing) == RequirementsVerdict(category, requirements, reply)
    ensures asked <==> RequirementFor(requirements, category).Some?
                       && RequirementFor(requirements, category).value.requiredFields != []
    ensures shown == if asked then DialogueOnly(LastN(history, 5)) else []
  {
    var entry := FindRequirement(requirements, category);
    if entry.None? || entry.value.requiredFields == [] {
      return true, [], false, [];
    }
    var fields := entry.value.requiredFields;
    shown := HistoryWindow(history);
    asked := true;
    match reply {
      case Failure(_) =>
        met, missing := false, fields;
      case Text(t) =>
        var result := Text.Strip(t);
        if Text.Upper(result) == "NONE" {
          met, missing := true, [];
        } else {
          missing := FilterDeclared(ParseFieldList(result), fields);
          met := |missing| == 0;
        }
    }
  }
}
