/**
 * The earliest revision of the classification helpers: the requirement check
 * sees only the current message, never the history. Reply validation is the
 * same as in the current revision.
 */
module LegacyClassification {
  import opened Models
  import opened Oracle
  import Classification
  import Text

  /**
   * `classify_message_with_llm`: this revision's function is the same as the
   * current revision's: the prompt is written out inline here as it is
   * there. The prompt only shapes the model's `reply`, which is a
   * parameter, so the model delegates to it.
   */
  method ClassifyMessage(categories: seq<string>, reply: Reply) returns (category: string, asked: bool)
    ensures asked <==> |categories| > 0
    ensures category == Classification.Default || category in categories
    ensures category == Classification.ClassifiedAs(categories, reply)
  {
    category, asked := Classification.ClassifyMessage(categories, reply);
  }

  /**
   * `check_requirements_with_llm` without history: a missing entry or an
   * empty field list is satisfied without asking the model, "NONE" is
   * satisfied, a failed call reports every declared field, and otherwise the
   * declared names the reply lists are missing.
   */
  method CheckRequirements(category: string, requirements: seq<CategoryRequirement>, reply: Reply)
    returns (met: bool, missing: seq<string>, asked: bool)
    ensures Classification.Verdict(met, missing) == Classification.RequirementsVerdict(category, requirements, reply)
    ensures met <==> missing == []
    ensures asked <==> Classification.RequirementFor(requirements, category).Some?
                       && Classification.RequirementFor(requirements, category).value.requiredFields != []
  {
    var entry := Classification.FindRequirement(requirements, category);
    if entry.None? || entry.value.requiredFields == [] {
      return true, [], false;
    }
    var fields := entry.value.requiredFields;
    asked := true;
    match reply {
      case Failure(_) =>
        met, missing := false, fields;
      case Text(t) =>
        var result := Text.Strip(t);
        if Text.Upper(result) == "NONE" {
          met, missing := true, [];
        } else {
          missing := Classification.FilterDeclared(Classification.ParseFieldList(result), fields);
          met := |missing| == 0;
        }
    }
  }
}
