# Emergency case registry, in Dafny

This project models the emergency case registry of a demonstration
emergency-dispatch chatbot, and proves properties of the model. It also
models two small tools that the chatbot's agents call.

- **The registry** (`EmergencyResponseSystem` in `info_aggregator.py`) keeps an ordered
  list of `EmergencyCase` records. It rewrites the whole list to its data file after
  every change and keeps one append-only transcript file per conversation id. It can:
  - find a case by `conversation_id` (the first match wins);
  - update fields by name, replace responder lists and append conversation turns, each
    reporting success or failure;
  - count the responder types that the open cases demand;
  - hand out the next conversation id.
- **The responder coordinator's tools** (`agent_defs/responder_coordinator.py`):
  - `request_first_responder` dispatches from a bounded pool of responders;
  - `assess_emergency_severity` classifies a situation by keywords as CRITICAL, URGENT
    or NON-URGENT.
- **The simulated news feed** (`agent_defs/disaster_info_agg.py`, `fake_news_feed_tool`)
  moves a cursor cyclically through a fixed table of news items. Some slots in the table
  are empty.

Modules and files:

| file | module | what it holds |
|---|---|---|
| `wrappers.dfy` | `Wrappers` | `Option` (Python's `None`-or-value) |
| `text.dfy` | `Text` | case folding, the substring test `k in s`, decimal rendering of a count and its inverse |
| `emergency_case.dfy` | `EmergencyCases` | the `Case` record, attribute names, `getattr`/`setattr`, the keyword-argument loop of `update_case` |
| `case_store.dfy` | `CaseStore` | pure specifications of the list: first-match lookup, the open-case filter, the next id, transcript file contents |
| `responder_demand.dfy` | `ResponderDemand` | the demand for a responder type over the open cases, and how updates change it |
| `response_system.dfy` | `ResponseSystem` | the class `EmergencyResponseSystem` and a replay of the module's self-test |
| `run_context.dfy` | `RunContext` | the agents' run context, reduced to `availableResponders` and `iNews` |
| `responder_coordinator.dfy` | `ResponderCoordinator` | `RequestFirstResponder`, `AssessEmergencySeverity` |
| `disaster_info.dfy` | `DisasterInfo` | `FakeNewsFeed` and the cursor's cycle |

How the registry's state is modelled:
- `cases: seq<Case>` is the list in memory.
- The ghost field `saved: Option<seq<Case>>` is the data file. It holds the list last
  written, or `None` when the file is missing or is not valid JSON.
- The ghost field `transcripts: map<int, string>` maps a conversation id to the content
  of `conversation_<id>.txt`, for each such file that exists.

`Valid()` says that the list in memory never diverges from the data file. Every
operation preserves it, and every mutation ends with `saved == Some(cases)`. Every
operation that writes transcripts keeps them append-only (`TranscriptsGrow`). Cases are
values. An update replaces the case at the position that `IndexOf` finds, which is the
first case with the id.

`add_case` does not check for a duplicate id, and the model follows the code here.
`CaseStore.IndexOfAfterAppend` shows the consequence: a case appended under an id that
is already in use is not found by a lookup while the earlier case keeps that id. Until
then, `add_to_conversation`, `update_responders` and `update_case_field` cannot reach
it, and they act on the earlier case instead. Only `update_case_field` on
`conversation_id` can renumber the earlier case, after which lookups find the later one.
`update_case` cannot renumber a case (`EmergencyCases.ApplyAllKeepsId`). `CaseStore.FreshIdKeepsUnique` shows that ids taken from
`get_next_conversation_id` keep the ids unique.

`ResponseSystem.MultipleConversationsScenario` replays `test_multiple_conversations`
(info_aggregator.py:163-282) without files, using only the contracts:
- it opens the three cases and appends a turn;
- it makes the same three updates as the test;
- it reloads from the list the data file holds (`saved`), which equals the list in memory after the updates;
- it shows that the test's assertions hold, including two paramedics still in demand once
  case 3 is closed.

## Model

| member | source | states |
|---|---|---|
| `EmergencyCases.FieldNamed` | info_aggregator.py:138-139 | `hasattr` on a case: a name is recognised exactly when it is one of the seven dataclass attribute names, and it then designates the field with that name |
| `EmergencyCases.FieldNameRoundTrip` | info_aggregator.py:9-16 | every field is recognised under its own attribute name, so no two fields share a name |
| `EmergencyCases.SetField` | info_aggregator.py:141 | `setattr`: reading the field afterwards gives the new value, and every other field reads as before; a value of the wrong kind is refused |
| `EmergencyCases.ApplyOneField` | info_aggregator.py:59-61 | one keyword argument changes the field it names when the name is an attribute, and leaves every other field as it was; an unknown name changes nothing |
| `EmergencyCases.ApplyAllUntouched` | info_aggregator.py:59-61 | after `update_case`'s loop, a field that no keyword argument sets keeps its value |
| `EmergencyCases.ApplyAllKeepsId` | info_aggregator.py:56-61 | keyword arguments that Python can bind to `update_case` (none named `conversation_id` or `self`) never change a case's id |
| `EmergencyCases.ApplyAllLastWins` | info_aggregator.py:59-61 | after `update_case`'s loop, a field that some arguments set holds the value of the last of them |
| `CaseStore.IndexOf` | info_aggregator.py:70-73 | the position of the first case with the id: that case has the id and no earlier case does; there is no position exactly when no case has the id |
| `CaseStore.LookupFindsEach` | info_aggregator.py:69-73 | when ids are unique, looking up a case's id returns exactly that case |
| `CaseStore.IndexOfAfterAppend` | info_aggregator.py:43-44 | appending keeps every earlier lookup; the new case is found only under an id that no earlier case has |
| `CaseStore.IndexOfAfterReplace` | info_aggregator.py:86-91 | changing a case in place without changing its id changes no lookup |
| `CaseStore.Open` | info_aggregator.py:66-67 | `get_open_cases` holds a case exactly when the store holds it and it is not closed |
| `CaseStore.OpenConcat` | info_aggregator.py:66-67 | the filter keeps store order: the open cases of `a + b` are the open cases of `a` followed by those of `b` |
| `CaseStore.MaxId` | info_aggregator.py:160 | `max` over the ids of a non-empty store is at least every id and is the id of some case |
| `CaseStore.NextId` | info_aggregator.py:157-160 | the next id is 1 on an empty store; otherwise it is one more than some case's id and greater than every id |
| `CaseStore.FreshIdKeepsUnique` | info_aggregator.py:157-160 | adding a case under the next id keeps ids unique, and the next id then grows by exactly one |
| `CaseStore.TranscriptAfterAdd` | info_aggregator.py:47-54 | an existing transcript file is only appended to; a new one starts with the `Caller: <name>` header; either way it ends with the conversation and a blank line, and its length leaves room for nothing else, so the header is never written into an existing file |
| `CaseStore.TranscriptAfterAppend` | info_aggregator.py:96-99 | appending a turn keeps the old file content as a prefix and adds exactly the text and a blank line |
| `CaseStore.WithTurn` | info_aggregator.py:90-91 | a turn is added to the conversation after a newline, and no other field changes |
| `CaseStore.TurnsCompose` | info_aggregator.py:91 | appending turn `a` and then turn `b` equals appending `a + "\n" + b` once |
| `ResponderDemand.Count` | info_aggregator.py:150-153 | the tally of one responder list counts each occurrence, so it equals the label's multiplicity in the list |
| `ResponderDemand.CountPositive` | info_aggregator.py:151-153 | a label is counted at least once exactly when the list contains it |
| `ResponderDemand.DemandConcat` | info_aggregator.py:147-155 | the tally over a concatenation of case lists is the sum of the tallies |
| `ResponderDemand.DemandOfOpen` | info_aggregator.py:149 | tallying over the open cases equals tallying over all cases with closed cases counting zero |
| `ResponderDemand.DemandPositive` | info_aggregator.py:151-153 | a label has positive demand exactly when some open case lists it |
| `ResponderDemand.DemandReplace` | info_aggregator.py:145-155 | replacing one case changes the demand by exactly the new case's contribution minus the old one's |
| `ResponderDemand.ReplacedRespondersDemand` | info_aggregator.py:118 | replacing an open case's responder list replaces its demand and does not merge: the old list stops counting and the new list counts |
| `ResponderDemand.ClosingRemovesDemand` | info_aggregator.py:141 | closing a case removes all of its demand from the count |
| `ResponseSystem.EmergencyResponseSystem.constructor` | info_aggregator.py:27-37 | loading gives the stored list, or an empty list when the data file is missing or is not valid JSON; the store starts valid |
| `ResponseSystem.EmergencyResponseSystem.FindIndex` | info_aggregator.py:70-73 | the search loop returns the position of the first case with the id, or none |
| `ResponseSystem.EmergencyResponseSystem.GetCaseById` | info_aggregator.py:69-73 | returns a case of the store with that id (the first one), or none exactly when no case has the id; changes nothing |
| `ResponseSystem.EmergencyResponseSystem.GetOpenCases` | info_aggregator.py:66-67 | returns exactly the cases that are not closed, in store order |
| `ResponseSystem.EmergencyResponseSystem.GetNextConversationId` | info_aggregator.py:157-160 | returns 1 on an empty store; otherwise returns an id greater than every existing id and one more than the largest |
| `ResponseSystem.EmergencyResponseSystem.AddCase` | info_aggregator.py:43-54 | appends the case at the end and saves the new list; writes the header only to a new transcript file, then the conversation; transcripts stay append-only |
| `ResponseSystem.EmergencyResponseSystem.UpdateCase` | info_aggregator.py:56-64 | succeeds exactly when some case has the id; applies the keyword arguments in order to the first such case, skipping unknown names; saves only on success; otherwise changes nothing; the matched case keeps its id, so every lookup by id gives the same position as before |
| `ResponseSystem.EmergencyResponseSystem.AddToConversation` | info_aggregator.py:86-101 | on a missing id returns false and changes nothing; otherwise appends `"\n" + text` to the first matching case's conversation only, saves, and appends `text + "\n\n"` to its transcript file |
| `ResponseSystem.EmergencyResponseSystem.UpdateResponders` | info_aggregator.py:114-120 | on a missing id returns false and changes nothing; otherwise replaces the first matching case's responder list wholesale, changes nothing else, and saves |
| `ResponseSystem.EmergencyResponseSystem.UpdateCaseField` | info_aggregator.py:134-143 | fails, changing nothing, on a missing id or a name that is not an attribute; otherwise sets that one field of the first matching case and saves |
| `ResponseSystem.EmergencyResponseSystem.CountRespondersNeeded` | info_aggregator.py:145-155 | a label is a key exactly when an open case demands it, and its count is the number of entries naming it over the open cases' lists, so at least 1 |
| `ResponseSystem.TallyResponders` | info_aggregator.py:150-153 | counting one open case's list entry by entry (a missing key starts at 0, then is incremented) turns an exact tally of the earlier cases into an exact tally that also includes this list |
| `ResponderDemand.TallyEntry` | info_aggregator.py:151-153 | one increment keeps the map equal to the demand so far, a first occurrence creating the key |
| `ResponderDemand.TallyCase` | info_aggregator.py:149-150 | once an open case's whole list is counted, the map is the tally of the cases up to and including it |
| `ResponderDemand.TallyComplete` | info_aggregator.py:149-155 | a tally over `get_open_cases()` equals the demand over all cases, keyed by exactly the demanded labels, each at least 1 |
| `ResponseSystem.ScenarioDemand` | info_aggregator.py:269-273 | after the self-test's updates two paramedics are in demand, because case 3 is closed |
| `ResponseSystem.OpenScenarioCases` | info_aggregator.py:180-223 | the self-test's three cases are stored in order, each with a transcript file, after one turn is appended to case 1 |
| `ResponseSystem.MultipleConversationsScenario` | info_aggregator.py:163-282 | after opening, updating and reloading the self-test's cases, the lookups give the updated cases and `count_responders_needed` reports 2 paramedics |
| `ResponseSystem.UpdateScenarioCases` | info_aggregator.py:240-243 | the self-test's three updates all succeed and give the updated cases without touching the transcripts |
| `Text.LowerFacts` | agent_defs/responder_coordinator.py:35 | lower-casing keeps the length, leaves no upper-case letter and is idempotent |
| `Text.Contains` | agent_defs/responder_coordinator.py:37 | `k in s` holds exactly when `k` occurs in `s` at some position |
| `Text.NatToString` | agent_defs/responder_coordinator.py:22 | the count is rendered as decimal digits, non-empty, with no leading zero unless the count is 0 |
| `Text.DecimalRoundTrip` | agent_defs/responder_coordinator.py:22 | reading the rendered digits back gives the count |
| `ResponderCoordinator.DispatchedMessageReports` | agent_defs/responder_coordinator.py:22-23 | the dispatch status contains the remaining count, readable back, and is never the refusal message |
| `ResponderCoordinator.RequestFirstResponder` | agent_defs/responder_coordinator.py:16-23 | with responders available, takes exactly one and reports the new count; otherwise leaves the count and returns the refusal; a non-negative count stays non-negative |
| `ResponderCoordinator.AnyOccurs` | agent_defs/responder_coordinator.py:36-41 | the keyword loop finds a match exactly when some keyword of the list occurs in the text |
| `ResponderCoordinator.AssessEmergencySeverity` | agent_defs/responder_coordinator.py:26-42 | the level is one of the three; CRITICAL exactly when a critical keyword occurs in the lower-cased text; URGENT exactly when none does and an urgent keyword does |
| `ResponderCoordinator.SeverityIgnoresCase` | agent_defs/responder_coordinator.py:35 | the assessment depends only on the lower-cased situation |
| `DisasterInfo.NextNewsIndex` | agent_defs/disaster_info_agg.py:162 | the new cursor lies in `[0, len(_NEWS))` for any start; from inside the table it moves one slot on, and it wraps to 0 after the last slot |
| `DisasterInfo.NewsAt` | agent_defs/disaster_info_agg.py:164-168 | a non-empty item is returned unchanged; an empty slot gives the fixed "No new development" message; the result is never empty |
| `DisasterInfo.FakeNewsFeed` | agent_defs/disaster_info_agg.py:161-168 | the cursor becomes `(old + 1) % len(_NEWS)` and stays in range; only the cursor changes; the news at the new cursor is returned |
| `DisasterInfo.StepOfRemainder` | agent_defs/disaster_info_agg.py:162 | stepping from a reduced cursor equals reducing one more step, so each call advances the cursor by one modulo the table length |
| `DisasterInfo.CursorAfterIsShift` | agent_defs/disaster_info_agg.py:162 | from a cursor inside the table, `k` calls leave it at `(start + k) % len(_NEWS)` |
| `DisasterInfo.CursorCycles` | agent_defs/disaster_info_agg.py:162 | after `len(_NEWS)` calls the cursor is back at its starting slot |

## Left out

- Real file I/O (`open`, `json.load`, `json.dump`, `os.path.exists`) is not modelled. The data file is the ghost `saved` and the transcript files are the ghost `transcripts` map, so the JSON encoding and the `conversation_<id>.txt` naming are not modelled.
- `EmergencyCase.to_dict` and `from_dict` (info_aggregator.py:18-23) only serve the JSON encoding. The encoding round trip checked through real files (info_aggregator.py:246-261) is replaced by a reload from the saved list.
- The load-time fallback (info_aggregator.py:36-37) is the constructor's `stored` parameter. `None` stands for both a missing file and one that is not valid JSON, and the two cannot be told apart.
- A data file that is valid JSON of the wrong shape is not modelled. If a record's keys do not match the dataclass, or the top level is `null`, a number, a non-empty object or a non-empty string, the constructor raises TypeError (info_aggregator.py:23, 35). A top-level `{}` or `""` has nothing to iterate, so it loads as an empty store, which `stored == Some([])` represents. A file that cannot be decoded as text raises UnicodeDecodeError. Neither error is caught (info_aggregator.py:36), so no store is built. `stored` covers only a file holding a list of case records, or one that is missing or not valid JSON.
- `EmergencyCases.FieldNamed`: `hasattr` also accepts a case's methods and inherited attributes (`to_dict`, `__class__`, …). Setting one of those would change the object rather than a field, so only the seven data fields are recognised. Python behaves differently for other names. `update_case_field(1, "__doc__", "x")` returns True, where `UpdateCaseField` returns false. Setting `to_dict` makes the next `_save_data` (info_aggregator.py:39-41) truncate the data file and then raise TypeError. `update_case` likewise sets such attributes.
- `ResponseSystem.EmergencyResponseSystem.UpdateCase`: the call `update_case(id, conversation_id=…)` or `update_case(id, self=…)` raises TypeError when Python binds the arguments, before the body runs. The model states this as the precondition `Bindable(kwargs)` rather than modelling the exception.
- `EmergencyCases.SetField`: Python's `setattr` stores a value of any type. The typed record cannot hold a value of the wrong kind, so such a value is refused. `UpdateCaseField` then returns false and `UpdateCase` skips the argument, as it does an unknown name.
- Python aliasing is not modelled. `get_case_by_id` returns the stored object itself, and `update_responders` stores the caller's list object. Cases are values here, replaced at the position found.
- `demo_start_conversation` (info_aggregator.py:285-318) is not modelled; it only drives the code and prints.
- `ResponseSystem.OpenScenarioCases`: the self-test's transcript turns are shortened, and only one of its six appended turns is replayed, because the demand assertions do not depend on them.
- `Text.Lower` folds only the ASCII letters A-Z, whereas Python's `str.lower` folds all of Unicode.
- The text of the 46-entry news table (agent_defs/disaster_info_agg.py:35-154, 28 of its slots `None`) is not modelled. `FakeNewsFeed` takes the table as a parameter and requires it to be non-empty, as the real table is.
- The run context's pydantic model (context.py) does not declare `available_responders` or `i_news`. `RunContext.AgentContext` holds only these two fields, and pydantic validation is not modelled.
- The `@function_tool` and `async` wrapping, the `Agent` definitions and their prompts, `main.py`'s input loop, the triage, FAQ and personal-care agents and telemetry are not modelled. They are configuration and glue with no logic of their own.
