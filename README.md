# Agentic: a verified model of the conversation core

Agentic is a Python framework for building customer-facing chat agents. A
developer declares message categories, the fields each category requires,
and handlers for some categories. The agent then runs each user message
through a fixed workflow:

1. classify the message with a language model;
2. check that the category's required fields are present, asking for them
   (and escalating after repeated asks) when they are not;
3. hand the message to the category's handler, or let the model answer;
4. score the model's answer and replace it with a hand-off message when its
   confidence is too low.

This project models that core in Dafny and proves what it guarantees
whatever the language model answers. It covers:

- the data model (`models.dfy`);
- the current graph-based agent (`graph_agent.dfy`) and the earlier
  single-node agent (`single_node_agent.dfy`), which share handler
  registration and reply extraction (`agent_common.dfy`);
- the three revisions of the classification and requirement-check helpers
  (`classification.dfy`, `recent_context_classification.dfy`,
  `legacy_classification.dfy`);
- knowledge loading, keyword retrieval and the knowledge summaries
  (`knowledge.dfy`);
- the multi-user chat session of the command-line front end (`cli.dfy`);
- the tool filter by name (`tools.dfy`);
- the scripted mock model used in tests (`testing.dfy`).

`text.dfy` gives the Python string operations the code relies on (`strip`,
`lower`, `upper`, `split`, `join`, `in`), and `oracle.dfy` gives the
language model's answers.

The language model is an oracle. It is not called. Each turn receives a
`Replies` function: for every place in the code that calls the model
(thread check, classification, requirement check, question for missing
fields, answer generation), it gives the reply text or a failure. Every
property below therefore holds for every possible model behaviour.

The graph agent's conversation store (the LangGraph checkpointer) is a map
from user id to `AgentState`. A run of the graph is a method that calls the
node methods along the conditional edges. It also returns the list of nodes
it visited, so that properties of the graph's paths can be stated and
proved.

## Model

| member | source | states |
|---|---|---|
| Models.InitialState | agentic/models.py:19-28 | A new state holds the given messages and every other field at its default: no category, no missing fields, no confidence, no escalation, no workflow step, empty metadata. |
| Models.ResponseOf | agentic/models.py:38-42 | A handler response carries the given messages in order, with empty metadata by default. |
| Models.Load | agentic/models.py:12-16 | A stored message is accepted exactly when its role is "user", "assistant" or "system"; the accepted message keeps that role and the content. |
| Models.HistoryRoundTrip | agentic/models.py:12-16 | Dumping a conversation and validating it back gives the same conversation. |
| Models.LoadAllRejectsUnknownRole | agentic/models.py:15 | A single stored message with any other role makes the whole conversation invalid. |
| AgentCommon.RegistrationOf | agentic/agent.py:84-117 | Registration is refused exactly when the category is empty, the handler is not callable, or the category already has a handler, and these errors are checked in that order. A successful registration warns exactly when categories are declared and the category is not one of them. |
| AgentCommon.RegisterTwiceThenUnregister | agentic/agent.py:84-121 | A new category registers; registering it again is refused as already registered; after unregistering it, it registers again. |
| AgentCommon.GeneratedText | agentic/agent.py:487-491 | The model's answer is used as it is; a failed call becomes a text that starts with "Error: ". |
| AgentCommon.ReplyText | agentic/agent.py:171-182 | The reply is the content of the last message, or the fixed apology when there is no message. |
| Classification.FirstMatchFrom | agentic/classification.py:52-55 | Finds the first category, from a given position on, whose lower-case form equals the lowered reply; no earlier category matches; None means that no category matches. |
| Classification.ClassifiedAs | agentic/classification.py:28-64 | The classification is always "default" or a declared category, in its declared spelling. |
| Classification.ClassifyMessage | agentic/classification.py:12-64 | The model is consulted exactly when categories are declared, and the result is the classification of its reply. |
| Classification.ClassificationOutcome | agentic/classification.py:44-58 | Both directions: the result is the first category equal to the stripped reply up to case, or "default" exactly when no category is. |
| Classification.ClassificationIgnoresCase | agentic/classification.py:49-55 | Two replies that agree after stripping and lower-casing give the same classification. |
| Classification.RequirementFor | agentic/classification.py:86-91 | The entry found is a declared entry for that category; None means that no entry names it. |
| Classification.RequirementForIsFirst | agentic/classification.py:88-91 | When several entries name the category, the first one is used. |
| Classification.FindRequirement | agentic/classification.py:86-91 | The search loop returns exactly the first entry for the category. |
| Classification.TrimmedItems | agentic/classification.py:145 | The parsed reply items are never empty and are no more numerous than the comma-separated parts. |
| Classification.KeepDeclared | agentic/classification.py:147-151 | Every kept item is a declared field and was listed in the reply. |
| Classification.KeepDeclaredComplete | agentic/classification.py:147-151 | Every declared field that the reply lists is kept. |
| Classification.FilterDeclared | agentic/classification.py:147-151 | The filtering loop keeps exactly the declared items, in reply order. |
| Classification.VerdictFor | agentic/classification.py:137-160 | The requirements are met exactly when nothing is missing, and every missing field is a declared field. |
| Classification.RequirementsVerdict | agentic/classification.py:86-160 | Same for the whole check: met iff nothing missing, and missing fields always come from the category's entry. |
| Classification.RequirementsOutcome | agentic/classification.py:86-160 | Whatever the model answers: no entry or no fields gives (True, []); a failed call gives (False, all required fields); "NONE" in any case gives (True, []); otherwise every declared field the reply lists is reported missing. |
| Classification.DialogueOnly | agentic/classification.py:103-108 | The history shown keeps only user and assistant messages taken from the window. |
| Classification.LastN | agentic/classification.py:103 | The window is a suffix of the history, at most `n` messages long. |
| Classification.HistoryWindow | agentic/classification.py:100-110 | The prompt shows at most five messages: the user and assistant messages among the last five. |
| Classification.CheckRequirements | agentic/classification.py:67-160 | Returns the verdict read from the reply, consults the model exactly when the category has an entry with fields, and shows the history window only then. |
| RecentContextClassification.UserTextsConcat | src/classification.py:99-101 | The user messages of two consecutive stretches of history are those of each, in order. |
| RecentContextClassification.PreviousUserMessage | src/classification.py:96-106 | The newest-first scan stops after two user messages and yields the second newest user message, or nothing when there are fewer than two. |
| RecentContextClassification.ClassifyMessage | src/classification.py:13-59 | Classification is closed over the categories plus "default", is the same reading of the reply as in the current revision, and gives "default" without a call when there are no categories. |
| RecentContextClassification.CheckRequirements | src/classification.py:62-138 | The verdict is read from the reply as in the current revision; met iff nothing missing; the model is asked only for an entry with fields; the context is the previous user message, only then. |
| LegacyClassification.ClassifyMessage | src/agentic/classification.py:12-64 | Classification is closed over the categories plus "default", with the same validation, and no call when there are no categories. |
| LegacyClassification.CheckRequirements | src/agentic/classification.py:67-134 | The verdict is read from the reply as in the current revision; met iff nothing missing; the model is asked only for an entry with fields. |
| GraphAgent.EdgesDescend | agentic/agent.py:216-262 | Every edge of the workflow graph leads to a node of lower rank, and END is the only node without a successor. |
| GraphAgent.WalkIsShort | agentic/agent.py:216-262 | A path along the edges loses rank at every step, so every run terminates after at most seven nodes. |
| GraphAgent.HandlerWalk | agentic/agent.py:237-247 | A run that executes a handler went classify, check requirements, route, handler, then only END: it never scores, escalates or generates. |
| GraphAgent.RunsAreWalks | agentic/agent.py:216-262 | The seven routes a turn can take are all paths of the graph. |
| GraphAgent.ScoredOnlyAfterGeneration | agentic/agent.py:250 | Confidence scoring is only ever reached straight from response generation. |
| GraphAgent.Lookback | agentic/agent.py:428 | The look-back window is the three messages just before the current one, or all of them when there are fewer. |
| GraphAgent.RequestCountConcat | agentic/agent.py:313-319 | The number of information requests in two stretches of history adds up. |
| GraphAgent.FallbackQuestionNamesFields | agentic/agent.py:514-520 | The fallback question for missing fields names every missing field. |
| GraphAgent.FallbackQuestionIsCounted | agentic/agent.py:313-319 | The fallback question itself counts as a request for information. |
| GraphAgent.TwoQuestionsReachCeiling | agentic/agent.py:313-325 | Once two fallback questions are in the history, the next unmet check escalates instead of asking again. |
| GraphAgent.TurnStart | agentic/agent.py:143-162 | A turn starts from the stored conversation, or from a new one when none is stored or reading fails; either way the last message is the stripped user message. |
| GraphAgent.Agent.constructor | agentic/agent.py:32-52 | A new agent keeps its configuration and starts with no handlers and no stored conversations. |
| GraphAgent.Agent.RegisterHandler | agentic/agent.py:84-117 | A refused registration changes nothing; an accepted one adds exactly that category's handler and leaves every other entry as it was. |
| GraphAgent.Agent.UnregisterHandler | agentic/agent.py:119-121 | Removes the category's handler, and changes nothing when there is none. |
| GraphAgent.Agent.ShouldCheckRequirements | agentic/agent.py:383-390 | Routing goes to the requirement check iff categories are declared and the category is set and is neither "default" nor "". |
| GraphAgent.Agent.RequirementsMet | agentic/agent.py:392-397 | Routing goes on to `route` iff no field is missing, and otherwise ends the turn. |
| GraphAgent.Agent.HasCustomHandler | agentic/agent.py:399-404 | Routing goes to the handler iff the category is set, non-empty and registered. |
| GraphAgent.Agent.ConfidenceCheck | agentic/agent.py:411-416 | Routing escalates iff escalation is needed, and otherwise ends the turn. |
| GraphAgent.Agent.VerdictOf | agentic/agent.py:300-308 | The requirement check's verdict: met iff nothing missing, and met without fields when the category is unset. |
| GraphAgent.Agent.IsNewConversationThread | agentic/agent.py:418-458 | New iff there is at most one message, or no user message among the three before the last, or the model answers "NEW" after stripping and up-casing; a failed call means not new. |
| GraphAgent.Agent.ClassifyNode | agentic/agent.py:268-293 | Records the step, clears the missing fields, and sets the category to "default" without categories or to the classification of the reply; nothing else changes. |
| GraphAgent.Agent.Classified | agentic/agent.py:268-293 | The classified state has a category, "default" or a declared one, and keeps the messages, metadata, confidence and escalation flag it started with. |
| GraphAgent.Agent.CountRequirementRequests | agentic/agent.py:313-319 | The counting loop returns the number of assistant messages containing one of the six request phrases, ignoring case. |
| GraphAgent.Agent.CheckRequirementsNode | agentic/agent.py:295-333 | Records the missing fields; when they are met, the messages are unchanged; otherwise, after two or more requests, it marks escalation and appends the escalation messages, and before that it appends exactly one question. |
| GraphAgent.Agent.RouteNode | agentic/agent.py:335-339 | Records the step and changes nothing else. |
| GraphAgent.Agent.ExecuteHandlerNode | agentic/agent.py:341-349 | Appends the registered handler's messages after the existing ones, propagates a handler exception, and leaves the messages alone when there is no handler. |
| GraphAgent.Agent.GenerateResponseNode | agentic/agent.py:351-358 | Appends exactly one assistant message, the model's answer or its "Error: ..." text. |
| GraphAgent.Agent.ScoreConfidenceNode | agentic/agent.py:360-369 | Confidence is the last message's length over 100, and escalation is needed iff it is below the threshold; without messages both fields are untouched. |
| GraphAgent.Agent.EscalateNode | agentic/agent.py:371-379 | Replaces the last message by the escalation messages and keeps all earlier messages. |
| GraphAgent.Agent.AnswerByDefault | agentic/agent.py:351-379 | On the model's path the draft is kept when confident enough, and otherwise it is gone, replaced by the escalation messages. Only the messages, the confidence, the escalation flag and the step change; category, missing fields and metadata stay as they were. |
| GraphAgent.Agent.RunWorkflow | agentic/agent.py:202-262 | The route is the one the conditional edges pick on the classified state: the requirement check exactly when `ShouldCheckRequirements` says so, END right after it exactly when the verdict lists missing fields, and the handler exactly when `HasCustomHandler` finds one. On the handler route the run completes exactly when the handler returns, and fails with the handler's own exception when it raises. The final state keeps the classified category and the starting metadata, holds the verdict's missing fields (none when the check is skipped), and records the last node's step. A run ends at END unless a handler raises, and never rewrites a message it started with. Handler output is never scored or escalated. A low-confidence draft never survives. Unmet requirements end the turn with one question, or with the escalation messages appended. |
| GraphAgent.Agent.RunDirect | agentic/agent.py:218-262 | The same route and guarantees for a run that skips the requirement check: generate, score, and escalate exactly when the draft scores below the threshold. |
| GraphAgent.Agent.HandlerTurnCompletes | agentic/agent.py:237-247 | When the classified category is checked, nothing is missing, a handler is registered and it returns, the run takes classify, check_requirements, route, execute_handler, END and completes. |
| GraphAgent.Agent.RunChecked | agentic/agent.py:228-262 | The same route and guarantees for a run whose classified state goes to the requirement check, including that a returning handler completes the turn. |
| GraphAgent.Agent.RunRouted | agentic/agent.py:237-262 | The same route and guarantees once the requirement check found nothing missing and the state is routed, including that a returning handler completes the turn. |
| GraphAgent.Agent.RunHandler | agentic/agent.py:237-247 | The same route and guarantees when a handler is registered: the turn completes at END with the handler's messages exactly when it returns, and fails with its exception exactly when it raises. |
| GraphAgent.Agent.RunRoutedDefault | agentic/agent.py:237-262 | The same route and guarantees when no handler is registered: generate, score, and escalate when needed. |
| GraphAgent.Agent.Chat | agentic/agent.py:125-189 | Empty or blank input is rejected before the store is touched. Otherwise the graph runs from the user's stored conversation plus the stripped message, along the route and with every guarantee of `RunContract`. A completed run is stored for that user alone and answered with its last message. A raised handler gives the fixed apology and stores nothing; a returning handler's turn is always completed and stored. |
| SingleNodeAgent.FirstKeywordFrom | src/agentic/agent.py:234-237 | Finds the first category, from a given position on, whose lower-case form occurs in the lowered message; no earlier one does; None means that none does. |
| SingleNodeAgent.KeywordCategory | src/agentic/agent.py:228-240 | The keyword classification is always "default" or a declared category. |
| SingleNodeAgent.KeywordOutcome | src/agentic/agent.py:228-240 | Both directions: the result is the first category mentioned in the message ignoring case, or "default" exactly when none is mentioned. |
| SingleNodeAgent.MentionedCategoryIsFound | src/agentic/agent.py:234-237 | A message mentioning a category is classified as that category or as one declared before it. |
| SingleNodeAgent.NeedReplyNamesFields | src/agentic/agent.py:206-208 | The "Need: ..." reply names every missing field. |
| SingleNodeAgent.Agent.constructor | src/agentic/agent.py:32-52 | A new agent keeps its configuration and starts with no handlers. |
| SingleNodeAgent.Agent.RegisterHandler | src/agentic/agent.py:84-117 | The same validation and duplicate refusal as the current agent; an accepted registration adds exactly that entry. |
| SingleNodeAgent.Agent.UnregisterHandler | src/agentic/agent.py:119-121 | Removal, a no-op when the category has no handler. |
| SingleNodeAgent.Agent.ClassifyMessage | src/agentic/agent.py:228-240 | The search loop returns the keyword classification. |
| SingleNodeAgent.Agent.MissingFields | src/agentic/agent.py:249-253 | Both directions: a field is missing exactly when it is required and the presence test fails for it. |
| SingleNodeAgent.Agent.FirstUnmetIsFirst | src/agentic/agent.py:248-257 | The reported fields are those of the first entry for the category that lacks any; every earlier entry for the category is satisfied. |
| SingleNodeAgent.Agent.FirstUnmet | src/agentic/agent.py:242-258 | Some fields are reported exactly when an entry for the category has missing fields, and those are the fields of such an entry; otherwise every entry for the category is satisfied. |
| SingleNodeAgent.Agent.ScanFields | src/agentic/agent.py:249-252 | The inner loop collects exactly the fields the presence test rejects, in declared order, as `MissingFields` states. |
| SingleNodeAgent.Agent.CheckRequirements | src/agentic/agent.py:242-258 | Met iff no entry for the category lacks a field; when unmet, only the missing fields are recorded, in declared order, and otherwise the state is unchanged. |
| SingleNodeAgent.Agent.ProcessMessage | src/agentic/agent.py:197-227 | Without categories the model answers. Otherwise unmet requirements append one "Need: ..." message and end the turn, and a handler's messages are appended with no confidence check. Below the threshold only the escalation messages are appended, never the draft. |
| SingleNodeAgent.Agent.Chat | src/agentic/agent.py:125-173 | Blank input is rejected. Every turn runs on a fresh state holding only the stripped message. The answer is the last message, or the apology when a handler raises. |
| Knowledge.LoadersPartitionSources | src/knowledge.py:60-62 | The file loader and the URL loader accept complementary sources, decided by the "http://" or "https://" prefix. |
| Knowledge.Truncated | src/knowledge.py:96-97 | Text within the limit is kept; longer text keeps exactly its first `max_file_size` characters followed by the truncation marker. |
| Knowledge.TruncationIsIdempotent | src/knowledge.py:96-97 | Truncating truncated text again changes nothing. |
| Knowledge.CandidatesWellScored | src/knowledge.py:212-222 | Every scored entry is the store entry at its index, has no error and has text, and carries its positive overlap score. |
| Knowledge.CandidatesInStoreOrder | src/knowledge.py:212-222 | Scored entries appear in store order. |
| Knowledge.CandidatesComplete | src/knowledge.py:212-222 | Every searchable entry with positive overlap is scored. |
| Knowledge.NoCandidatesForEmptyQuery | src/knowledge.py:207-208 | A query with no words scores nothing. |
| Knowledge.InsertRanked | src/knowledge.py:225 | Inserting into the ranking adds exactly that entry: the result is a permutation of the old ranking plus it. |
| Knowledge.InsertKeepsRanked | src/knowledge.py:225 | Inserting an entry later in the store than everything ranked keeps the ranking. |
| Knowledge.SortByScore | src/knowledge.py:225 | The sort is a permutation of the scored entries. |
| Knowledge.SortRanks | src/knowledge.py:225 | Sorting entries listed in store order ranks them by non-increasing score, with ties kept in store order, as a stable sort does. |
| Knowledge.PermutationKeepsScores | src/knowledge.py:225 | Reordering scored entries keeps them correctly scored. |
| Knowledge.SliceTo | src/knowledge.py:226 | `[:max_results]` gives a prefix of the Python length, including negative limits. |
| Knowledge.TopOfSortedIsRanked | src/knowledge.py:224-226 | The returned prefix is correctly scored and ranked. |
| Knowledge.LeftOutOfPrefix | src/knowledge.py:226 | In a ranked list, an entry left out of a prefix ranks below every entry in it. |
| Knowledge.LeftOutRanksLower | src/knowledge.py:224-226 | An eligible entry that was not returned ranks below every entry that was. |
| Knowledge.RetrievedIsRanked | src/knowledge.py:202-226 | Retrieval returns only entries without error and with text that share a word with the query, ranked by overlap, ties in insertion order. |
| Knowledge.RetrievedIsTop | src/knowledge.py:202-226 | Top-k: an eligible entry that was not retrieved has lower overlap than, or the same overlap as but a later position than, every retrieved entry. |
| Knowledge.SimpleRetriever.constructor | src/knowledge.py:195-196 | A new retriever has an empty store. |
| Knowledge.SimpleRetriever.AddContent | src/knowledge.py:198-200 | Appends exactly one entry, at the end of the store. |
| Knowledge.SimpleRetriever.Retrieve | src/knowledge.py:202-226 | The scoring loop and sort return exactly the ranked retrieval: nothing for an empty query or store; at most `max_results` entries; only searchable entries with positive overlap; non-increasing overlap, ties in store order. |
| Knowledge.FirstLoader | src/knowledge.py:271-273 | The loader chosen accepts the source; no loader is chosen only when none accepts it. |
| Knowledge.LoadOne | src/knowledge.py:268-299 | A source that yields no record always yields an error line. |
| Knowledge.Report | src/knowledge.py:251-301 | Every source counts once: total equals the number of sources, loaded plus failed equals the total, and there is one error line per failure. |
| Knowledge.KnowledgePartsNumbered | src/knowledge.py:323-329 | When every retrieved entry has text, there is one block per entry, numbered from 1 in order. |
| Knowledge.KnowledgeTextEmptyIffNothing | src/knowledge.py:317-331 | The formatted knowledge is empty exactly when nothing was retrieved. |
| Knowledge.KnowledgeText | src/knowledge.py:322-331 | The formatting loop joins the numbered blocks of the entries with text, separated by blank lines. |
| Knowledge.SummaryLines | src/knowledge.py:338-355 | There is no summary entry exactly when every record has an error. |
| Knowledge.SummaryLineNamesSource | src/knowledge.py:343-355 | Every summary entry names its record's source. |
| Knowledge.SummaryListsEveryRecord | src/knowledge.py:339-355 | Every record loaded without error has its entry in the summary. |
| Knowledge.SummaryNamesEverySource | src/knowledge.py:333-357 | The summary text names the source of every record loaded without error. |
| Knowledge.KnowledgeManager.constructor | src/knowledge.py:237-241 | A new manager has no loaders, no retriever, no sources and no records. |
| Knowledge.KnowledgeManager.AddLoader | src/knowledge.py:243-245 | Appends the loader at the end. |
| Knowledge.KnowledgeManager.SetRetriever | src/knowledge.py:247-249 | The given retriever becomes the one used for queries and loading. |
| Knowledge.KnowledgeManager.ChooseLoader | src/knowledge.py:272-273 | The loader loop picks the first loader that accepts the source. |
| Knowledge.KnowledgeManager.LoadSource | src/knowledge.py:269-299 | One source: the chosen loader's record, if any, is kept and given to the retriever, and the error line is reported. |
| Knowledge.KnowledgeManager.LoadSources | src/knowledge.py:251-301 | Resets the records, then loads every source by its first accepting loader. The statistics satisfy total = number of sources, loaded + failed = total, and errors = failed. The retriever receives every record after its earlier entries. |
| Knowledge.KnowledgeManager.RetrieveForQuery | src/knowledge.py:303-331 | Empty without a retriever, without records, or when nothing is retrieved; otherwise the numbered blocks of the retrieved entries. |
| Knowledge.KnowledgeManager.GetAllContentSummary | src/knowledge.py:333-357 | The summary of the records, empty exactly when every record has an error. |
| Cli.CountConcat | agentic/cli.py:105-107 | Entry counts of two stretches of the log add up. |
| Cli.SentByConcat | agentic/cli.py:62-73 | A user's message counts in two stretches of the log add up. |
| Cli.ExchangesAppend | agentic/cli.py:65-101 | Appending a user entry followed by its answer keeps the log a run of exchanges. |
| Cli.EveryMessageAnswered | agentic/cli.py:103-128 | In a run of exchanges, the user messages equal the assistant messages plus the errors, and the log is twice as long as the user messages. |
| Cli.ReplyKind | agentic/cli.py:75-101 | The answer to a message is logged as an error exactly when the agent rejects the message or the user id as blank. |
| Cli.CountOne | agentic/cli.py:62 | One more message from a user: the same users, that user's count up by one, every other count unchanged. |
| Cli.ExchangeKeepsInvariant | agentic/cli.py:57-101 | One more exchange, counted for the current user alone, keeps each user's count equal to the log's. |
| Cli.NewUserKeepsInvariant | agentic/cli.py:34-41 | Adding an unknown user with zero messages keeps the session invariant. |
| Cli.ChatSession.constructor | agentic/cli.py:24-32 | The session starts with the initial user, who is current and has sent nothing, and with an empty log. |
| Cli.ChatSession.AddUser | agentic/cli.py:34-41 | A new user starts at zero messages, at the end of the join order; a known user's record is never overwritten. |
| Cli.ChatSession.SwitchUser | agentic/cli.py:43-47 | The user becomes current, and is a known user, added first if new. |
| Cli.ChatSession.CurrentUser | agentic/cli.py:49-51 | The current user is always one of the session's users. |
| Cli.ChatSession.ListUsers | agentic/cli.py:53-55 | Every user exactly once, in join order. |
| Cli.ChatSession.SendMessage | agentic/cli.py:57-101 | Increments only the current user's count, by one. Appends exactly two entries: the user's message, then the agent's reply or "Error: " and the reason. The response and the agent's new store are those of the agent's turn (`Answered`): a rejection, or the graph run that satisfies `RunContract` with its last message, or the apology exactly when a handler raised. It never raises, and the invariant is kept. |
| Cli.ChatSession.Ask | agentic/cli.py:75-101 | A rejected blank message or user id is logged as an error entry whose text, "Error: " and the reason, is returned, and the agent's store is unchanged. Otherwise the agent's graph run satisfies `RunContract`, route included. The returned and logged answer is the last message of the stored result, or the apology exactly when a handler raised and nothing was stored. |
| Cli.ChatSession.Record | agentic/cli.py:62-73 | The current user's count goes up by one and the log gains the message and its answer, keeping every count equal to the log's. |
| Cli.ChatSession.GetStats | agentic/cli.py:103-128 | Total users is the number of users; the counts are those of the log; exchanges equal user messages, which equal replies plus errors; one entry per user in join order; exactly one user is current. |
| Cli.FormatMessage | agentic/cli.py:198-206 | The line starts with a new line and the speaker's icon: the speech balloon exactly for users, the robot exactly for the agent. It ends with the message text. |
| Cli.FormatMessageNamesSpeaker | agentic/cli.py:198-206 | The speaker shown in bold is the user id, "You" when there is none, or "Agent". |
| Cli.FormatMessageIdentifiesUser | agentic/cli.py:200-201 | Two users with ids never get the same line for the same text. |
| Tools.FirstNamed | src/agentic/tools.py:112 | The tool found is available and has the name; none is found exactly when no tool has it. |
| Tools.FirstNamedIsFirst | src/agentic/tools.py:112 | The tool found is the first available tool with that name. |
| Tools.SelectedConcat | src/agentic/tools.py:111-116 | Selecting for two runs of names gives the selections one after the other, so the output follows the order of the names. |
| Tools.SelectedMembers | src/agentic/tools.py:111-116 | Every returned tool was requested by name and is the first tool of that name; every requested name some tool has is answered. |
| Tools.SelectedAllKnown | src/agentic/tools.py:111-116 | When every name is known, the k-th tool is the first tool with the k-th name. |
| Tools.GetToolsByNames | src/agentic/tools.py:101-118 | Empty names return the available tools unchanged. Otherwise the result is the selection by name: unknown names are skipped, there are at most as many tools as names, and each returned tool's name was requested. |
| Testing.TranscriptReplaysScript | src/testing.py:22-27 | The first calls replay the scripted responses in order, once, and every later call gets "Mock response". |
| Testing.MockLlm.constructor | src/testing.py:13-16 | The cursor starts at the first scripted response. |
| Testing.MockLlm.MockInvoke | src/testing.py:22-31 | The k-th call returns the k-th scripted response while there is one, and "Mock response" after that. The cursor advances only past a scripted response and never exceeds the script. The reply's content is exactly the chosen text. |

## Left out

- The language model, prompts and prompt wording: every model call is an oracle reply given per turn. The ways a reply object is turned into text (`.content` or `str(...)`) are one text.
- The LangGraph machinery (`StateGraph`, the checkpointer, `ainvoke`): replaced by node methods called along the edges and a map from user id to state.
- async/await and concurrency: each turn is sequential.
- Floating point: confidence is an exact real, `len / 100` against the threshold, with no rounding.
- Strings are ASCII: `strip`, `lower`, `upper` and `split` use the ASCII whitespace and letters; Unicode case mapping and whitespace are not modelled.
- `check_field_present` (src/agentic/agent.py:14) is not part of this model. It is an uninterpreted predicate given to the single-node agent's constructor. The module it is imported from, src/agentic/classification.py, defines only `classify_message_with_llm` (line 12) and `check_requirements_with_llm` (line 67). That import would therefore fail, and the single-node agent module as shipped cannot be imported.
- File, directory and URL loading (`FileLoader.load`, `_load_directory`, `URLLoader.load`), MCP server loading and the `asyncio.run` wrappers: a loader's result is given by the `load` parameter. Only the truncation rule of `_load_file` is modelled, as `Knowledge.Truncated`.
- The CLI's chat loop, click commands, printing, `AgentLoader`, `export_history` and every timestamp, join time and session duration.
- Logging and warnings: a registration warning is the `warned` flag of the result, and nothing else of logging is modelled.
- `_needs_confidence_check` (agentic/agent.py:406-409) is not wired into the graph and is not modelled.
- `_is_new_conversation_thread` only resets the category before reclassification, which then always sets it. Its answer therefore has no effect on the state, and `ClassifyNode` ignores it.
- GraphAgent.Agent.Chat: when a handler raises, the result is the apology and the store is left as it was. LangGraph's checkpoints of the nodes that ran before the failure are not modelled.
- GraphAgent.Agent.Chat and SingleNodeAgent.Agent.Chat: the answer is taken as the last message's content. The case where the last message is a dictionary whose role is not "assistant", which would give the first apology, cannot arise with the state's message records and is not modelled.
- GraphAgent.Agent.ExecuteHandlerNode, GraphAgent.Agent.EscalateNode, GraphAgent.Agent.CheckRequirementsNode and SingleNodeAgent.Agent.ProcessMessage: handlers and `handle_low_confidence` receive the live state object (agentic/agent.py:324-325, 346-347, 376; src/agentic/agent.py:213, 222). In the model they are functions of a state value. So a handler is assumed not to change the state it receives, and `handle_low_confidence` is assumed to return and never raise. The handler clauses of `RunContract` and `ProcessContract` (confidence and escalation flag unchanged, messages extended by exactly the response) rest on these assumptions.
- Knowledge.SortByScore: Python's sort (Timsort) is modelled by stable insertion; only its result, a stable descending ordering, is claimed.
- Knowledge.SimpleRetriever.Retrieve: a content record is a typed record rather than a dictionary; an absent or empty `error`, `content`, `size` or `file_count` are alike.
- The classification helpers' `hasattr(msg, 'role')` checks: every message in the model has a role and content.
- src/agentic/models.py is not part of this model; both agents use the records of agentic/models.py.
- The written description of the framework and the code differ in three places, and the model follows the code. There is no per-category attempt counter: the ask-at-most-twice rule counts assistant messages containing one of six phrases. Escalation for unmet requirements appends the escalation messages, while escalation for low confidence replaces the draft. A failed generation becomes an "Error: ..." assistant message that is then scored like any answer.
