# Flow-Forge automation core in Dafny

Flow-Forge lets a user describe a repetitive task as a trigger plus ordered
actions (an *automation*). The user can start it from a template, build it step
by step, toggle it between running and paused, delete it, and read a dashboard
and an activity log. This project models the logic behind that and proves what
it promises:

- **Server store** (`backend/server.py`), modules `Catalog`, `Store` and `Api`.
  - The fixed template catalogue and its category filter.
  - The owner-scoped automation collection and the append-only activity log, held
    by the class `Store.AutomationStore`. Its methods `Create`, `Toggle`, `Delete`
    and `LogActivity` change those collections in place.
  - The read-only queries behind `GET /automations`, `GET /dashboard/stats` and
    `GET /activity`.
- **Guided flow builder** (`frontend/src/pages/BuilderPage.js`), module `Builder`.
  - The node list and flow name, held by the class `Builder.FlowBuilder` with
    `AddNode`, `RemoveNode`, `UpdateNode` and the template preload.
  - The pure transforms they apply, the template search, and `saveFlow`'s checks
    and flattening.
- **Dashboard list logic** (`frontend/src/pages/DashboardPage.js`), module
  `Dashboard`.
  - The search filter, the greeting, the status display and the AI-box guard.
  - The local patch of the fetched list after a toggle or a delete, held by the
    class `Dashboard.DashboardView`.
- **Activity page** (`frontend/src/pages/ActivityPage.js`), module `Activity`:
  the relative-time rendering of an entry's age, and the icon-style lookup.

Shared modules:

- `Wrappers`: `Option` and `Result`.
- `Seqs`: order-preserving `Filter`, `Map`, `Reverse`, `Take`, `FirstIndex`,
  and the facts relating them.
- `Text`:
  - JavaScript's `trim`, `includes` and `join`, and `toLowerCase` on ASCII;
  - the decimal rendering of a number, with its inverse.

Modelling choices:

- The server's uuid4 ids are a counter `nextId`, so "fresh" is an invariant of the
  store. `datetime.now` is a counter `clock`, so "newest first" is the order of
  that counter.
- The result limits `to_list(100)` and `to_list(50)` are modelled.
- `GET /dashboard/stats` counts and sums at most 100 of the caller's records, as
  the code does. Which 100 those are rests on the ordering assumption stated
  under "Left out".
- The hour of the day, the age in milliseconds of a log entry, and the locale
  date text are parameters.

Behaviour of the code worth noting:

- The server checks nothing about the request. An empty name, trigger or action
  is stored as given (`Store.NewAutomation`). Only the builder page refuses them
  (`Builder.SaveFlow`).
- The builder joins the action summaries with `", "` in the `action` field and
  with `" → "` only in the description.
- The log detail of a create is `"Created: <name>"`, not the bare name.
- `removeNode` itself removes whatever id it is given, the trigger included, once
  the flow has more than two nodes (`Builder.RemoveNodeCanDropTrigger`). Only
  the page's rendering offers the remove button on action nodes alone. The model
  proves the trigger stays first under that guard (`Builder.EditKeepsTriggerFirst`).
- Toggle is a two-way switch: `"active"` becomes `"paused"`, and every other
  status, `"error"` included, becomes `"active"`.

## Model

| member | source | states |
|---|---|---|
| `Catalog.GetTemplates` | backend/server.py:178-182 | no category, `""` or `"all"` gives the whole catalogue in order; any other category gives exactly the entries of that category, as an order-preserving subsequence |
| `Catalog.OfCategory` | backend/server.py:180-181 | the entries of a category are an order-preserving subsequence of the list, holding exactly the entries of that category |
| `Catalog.FindTemplate` | backend/server.py:193 | none exactly when no entry has the id; otherwise the first entry with that id |
| `Catalog.FindUnique` | backend/server.py:193 | in a list without repeated ids, looking an entry up by its own id finds that entry |
| `Catalog.FindByUniqueId` | backend/server.py:193 | in a list without repeated ids, looking up an id finds the one entry carrying it |
| `Catalog.CatalogueIdsUnique` | backend/server.py:163-176 | no two catalogue entries share an id |
| `Catalog.CatalogueEntriesComplete` | backend/server.py:163-176 | every entry has a non-empty id, category, trigger and action, and a positive time saved |
| `Store.RequestedTemplate` | backend/server.py:191-195 | the catalogue entry whose id is the request's non-empty `template_id`, or none when there is no such entry |
| `Store.NewAutomation` | backend/server.py:197-211 | the created record has the given fresh id, the caller as owner, the clock tick, the request's name, status active, zero tasks run, category defaulting to "custom", and trigger/action from the request when non-empty |
| `Store.NewAutomationFromTemplate` | backend/server.py:191-208 | an empty trigger or action is taken from the named template, else `""`; minutes saved are that template's, or 10 when no template matches |
| `Store.NewAutomationWithoutTemplate` | backend/server.py:208 | a request without a template id is credited 10 minutes |
| `Store.NextStatus` | backend/server.py:226 | the result is "paused" exactly when the old status is "active", and "active" exactly when it is not |
| `Store.FindOwned` | backend/server.py:223 | none exactly when the caller owns no record with that id; otherwise the index of the first such record |
| `Store.ToggleTwiceRestores` | backend/server.py:226 | toggling the same active or paused record twice restores the collection |
| `Store.UpdateHitsFoundRecord` | backend/server.py:223-227 | with unique ids, the update by id alone hits the record the owner check found |
| `Store.RemovedIsFilter` | backend/server.py:233 | with unique ids, deleting the found record equals keeping every record with a different id |
| `Store.ToggledIsMap` | backend/server.py:227 | with unique ids, toggling the found record equals setting the new status on every record with that id |
| `Store.Owned` | backend/server.py:218 | exactly the records whose owner is the caller |
| `Store.AppendKeepsOthers` | backend/server.py:212 | inserting another owner's record leaves the caller's records unchanged |
| `Store.ToggleKeepsOthers` | backend/server.py:227 | toggling another owner's record leaves the caller's records unchanged |
| `Store.RemoveKeepsOthers` | backend/server.py:233 | deleting another owner's record leaves the caller's records unchanged |
| `Store.ListAutomations` | backend/server.py:216-219 | only the caller's records, as many as they own up to 100 |
| `Store.ListNewestFirst` | backend/server.py:218 | the listing is strictly decreasing in creation time |
| `Store.ListComplete` | backend/server.py:218 | with at most 100 records, every one of the caller's records is listed |
| `Store.ListHoldsNewest` | backend/server.py:218 | over 100 records, the listing holds the newest: any owned record left out was created before every record shown |
| `Seqs.TakeReverseHoldsNewest` | backend/server.py:218 | of a list ordered by a key, the first n of its reverse are its newest: any element left out has a smaller key than every element kept |
| `Store.CountActive` | backend/server.py:244 | the active count never exceeds the number of records counted |
| `Store.CountActiveIsFilter` | backend/server.py:244 | the active count is the number of records whose status is "active" |
| `Store.SumsAppend` | backend/server.py:244-246 | one more record adds its activity, tasks and minutes to the three aggregates |
| `Store.GetDashboardStats` | backend/server.py:241-255 | over the first 100 of the caller's records: total is their number, active is the number of them whose status is "active" (so at most total), tasks and minutes are their sums |
| `Store.StatsAfterCreate` | backend/server.py:243-251 | below the cap, a create adds one to total and active and its minutes to the minutes saved |
| `Store.StatsIgnoreOthers` | backend/server.py:243 | another owner's new record leaves the caller's stats unchanged |
| `Store.ListActivity` | backend/server.py:269-273 | only the caller's entries, as many as they have up to 50 |
| `Store.ActivityComplete` | backend/server.py:272 | with at most 50 entries, every one of the caller's entries is listed |
| `Store.ActivityHoldsNewest` | backend/server.py:272 | over 50 entries, the listing holds the newest: any entry of the caller's left out is older than every entry shown |
| `Store.ActivityNewestFirst` | backend/server.py:272 | the activity listing is strictly decreasing in timestamp |
| `Store.LatestEntryFirst` | backend/server.py:259-272 | the entry just logged for the caller heads the caller's activity listing |
| `Store.AutomationStore.constructor` | backend/server.py:20-21 | a fresh store holds no records and no log entries, and satisfies the store invariant |
| `Store.AutomationStore.LogActivity` | backend/server.py:259-267 | appends exactly one entry with a fresh id and the current tick, and changes nothing else |
| `Store.AutomationStore.Create` | backend/server.py:186-214 | always succeeds: appends the new record with a fresh id, then one "automation_created" entry with detail "Created: name" |
| `Store.AppendFresh` | backend/server.py:186-214 | a record whose id and creation tick are above every stored one can be appended: ids stay unique and creation ticks increasing |
| `Store.AutomationStore.Toggle` | backend/server.py:221-229 | 404 leaving records and log unchanged when the caller owns no such id; otherwise flips that record's status, returns the new status and logs "name → status" |
| `Store.AutomationStore.Delete` | backend/server.py:231-237 | 404 leaving records and log unchanged when the caller owns no such id; otherwise removes that record and logs "Deleted automation id" |
| `Text.TrimEmptyIffBlank` | frontend/src/pages/BuilderPage.js:117 | `trim()` is empty exactly when the string is all whitespace |
| `Text.ContainsIffOccurs` | frontend/src/pages/BuilderPage.js:84 | `includes` holds exactly when the sub-string occurs at some position |
| `Text.ParseDecimalOfDecimal` | frontend/src/pages/ActivityPage.js:38 | reading back the decimal numeral of a number gives that number |
| `Builder.MaxId` | frontend/src/pages/BuilderPage.js:103 | the largest node id: no node's id exceeds it, and some node has it |
| `Builder.AddNodeSpec` | frontend/src/pages/BuilderPage.js:102-105 | keeps every node, appends one empty action node with an id above all others, and keeps ids unique |
| `Builder.FilterByIdRemovesAtMostOne` | frontend/src/pages/BuilderPage.js:109 | with unique ids, dropping an id removes at most one node |
| `Builder.RemoveNodeSpec` | frontend/src/pages/BuilderPage.js:107-110 | a no-op on two nodes or fewer; otherwise keeps exactly the nodes with other ids, in order; the flow stays well formed |
| `Builder.UpdateNodeSpec` | frontend/src/pages/BuilderPage.js:112-114 | only the matching node's value changes; length, ids, kinds, captions and order are kept |
| `Builder.ApplyEdit` | frontend/src/pages/BuilderPage.js:102-114 | each edit keeps at least two nodes with distinct ids |
| `Builder.ApplyEdits` | frontend/src/pages/BuilderPage.js:56-114 | from a well-formed flow such as the initial one, any sequence of edits keeps at least two nodes with distinct ids |
| `Builder.InitialFlowWellFormed` | frontend/src/pages/BuilderPage.js:56-59 | the initial flow is well formed, with the trigger first |
| `Builder.EditKeepsTriggerFirst` | frontend/src/pages/BuilderPage.js:262-263 | edits that never remove the trigger's id keep the trigger first and every other node an action |
| `Builder.RemoveNodeCanDropTrigger` | frontend/src/pages/BuilderPage.js:107-110 | named with the trigger's id on a three-node flow, removal drops the trigger |
| `Builder.FirstTriggerValue` | frontend/src/pages/BuilderPage.js:118 | none exactly when no node is a trigger; otherwise the value of the first trigger node |
| `Builder.ActionValuesSpec` | frontend/src/pages/BuilderPage.js:119 | the summaries are exactly the non-empty action values; they are empty exactly when every action value is empty |
| `Builder.ActionValueMember` | frontend/src/pages/BuilderPage.js:119 | a value is a summary exactly when it is non-empty and some action node carries it |
| `Builder.ActionValuesNonEmpty` | frontend/src/pages/BuilderPage.js:119 | no summary is empty |
| `Builder.SaveFlow` | frontend/src/pages/BuilderPage.js:116-128 | refuses a blank name, then a missing or empty trigger, then all-empty actions, each exactly when that check fails; otherwise submits the name, the trigger, the actions joined by ", ", the description "trigger → a1 → a2", category custom, no template and all node snapshots |
| `Builder.SubmittedRequest` | frontend/src/pages/BuilderPage.js:124-127 | a submitted request carries the non-blank name, the non-empty first trigger, the joined summaries, no template id and the custom category |
| `Builder.CreatedFromFields` | backend/server.py:197-211 | a request with a trigger, an action, no template id and category custom is stored with them, active, with 10 minutes saved |
| `Builder.SavedFlowCreates` | frontend/src/pages/BuilderPage.js:124-128 | a saved flow is stored as an active custom automation with the flow's name, its non-empty first trigger, its non-empty joined actions, its node snapshots and 10 minutes saved |
| `Builder.JoinNonEmpty` | frontend/src/pages/BuilderPage.js:126 | joining non-empty summaries gives a non-empty action |
| `Builder.TemplateFlowSaves` | frontend/src/pages/BuilderPage.js:67-74 | a preloaded template flow is well formed and saves as the template's own trigger and action, with description "trigger → action" |
| `Builder.ActivatedTemplateCredited` | frontend/src/pages/BuilderPage.js:88-94 | activating a catalogue template stores its trigger, action and category, names it as the template, and credits its minutes saved. The page never calls `activateTemplate`: the "Use this" button at line 211 calls `useTemplate`, which the file does not define |
| `Builder.FilteredTemplates` | frontend/src/pages/BuilderPage.js:82-86 | keeps a template exactly when it is in the chosen category (or "all" is chosen) and its lower-cased name contains the lower-cased query; order is kept |
| `Builder.FilteredTemplatesShowsAll` | frontend/src/pages/BuilderPage.js:82-86 | category "all" and an empty query show every template |
| `Builder.FlowBuilder.constructor` | frontend/src/pages/BuilderPage.js:55-59 | starts with an empty name and the two-node initial flow |
| `Builder.FlowBuilder.AddNode` | frontend/src/pages/BuilderPage.js:102-105 | the nodes become the old ones plus one new action node; the name is unchanged; the flow stays well formed |
| `Builder.FlowBuilder.RemoveNode` | frontend/src/pages/BuilderPage.js:107-110 | the nodes become the old ones without that id, or stay as they are on two nodes; the flow stays well formed |
| `Builder.FlowBuilder.UpdateNode` | frontend/src/pages/BuilderPage.js:112-114 | the nodes become the old ones with that node's value replaced; the flow stays well formed |
| `Builder.FlowBuilder.PreloadTemplate` | frontend/src/pages/BuilderPage.js:64-77 | when the route names a template in the list, the name and the two-node flow become the template's; otherwise nothing changes |
| `Dashboard.Filtered` | frontend/src/pages/DashboardPage.js:104-107 | keeps an automation exactly when its lower-cased name or its lower-cased category contains the lower-cased query; order is kept |
| `Dashboard.EmptySearchKeepsAll` | frontend/src/pages/DashboardPage.js:104-107 | an empty query keeps every automation |
| `Dashboard.Greeting` | frontend/src/pages/DashboardPage.js:109-114 | "Good morning" exactly before 12, "Good afternoon" exactly from 12 to before 17, "Good evening" exactly from 17 |
| `Dashboard.StyleOfSpec` | frontend/src/pages/DashboardPage.js:265 | the caption is "Running", the active style, exactly when the status is neither paused nor error, so an unknown status looks active |
| `Dashboard.ToggleFlipsSwitch` | frontend/src/pages/DashboardPage.js:285 | after a toggle the switch shows checked exactly when it did not before |
| `Dashboard.AiRequest` | frontend/src/pages/DashboardPage.js:84 | no request exactly when the query is blank; otherwise the query itself is sent |
| `Dashboard.TogglePatchMatchesServer` | frontend/src/pages/DashboardPage.js:64 | patching the fetched list with the returned status gives what a fresh listing returns after the server's toggle |
| `Dashboard.DeletePatchMatchesServer` | frontend/src/pages/DashboardPage.js:75 | with at most 100 records, dropping the id from the fetched list gives what a fresh listing returns after the server's delete |
| `Dashboard.TogglePatchSpec` | frontend/src/pages/DashboardPage.js:64 | only the entry with the id changes, and only its status |
| `Dashboard.DeletePatchSpec` | frontend/src/pages/DashboardPage.js:75 | exactly the entries with the id are dropped; the rest keep their order |
| `Dashboard.DashboardView.constructor` | frontend/src/pages/DashboardPage.js:35-38 | starts with an empty list and empty search and AI boxes |
| `Dashboard.DashboardView.Refresh` | frontend/src/pages/DashboardPage.js:44-57 | the list becomes what the server returned; the boxes are unchanged |
| `Dashboard.DashboardView.ApplyToggle` | frontend/src/pages/DashboardPage.js:64 | the list becomes the toggle patch of the old list; the boxes are unchanged |
| `Dashboard.DashboardView.ApplyDelete` | frontend/src/pages/DashboardPage.js:75 | the list becomes the old list without the id; the boxes are unchanged |
| `Dashboard.DashboardView.AiSuggest` | frontend/src/pages/DashboardPage.js:83-102 | a blank query sends nothing and changes nothing; otherwise the query is sent and cleared once the automation was created |
| `Activity.AgeOf` | frontend/src/pages/ActivityPage.js:33-41 | just now exactly under one minute (negative ages included); n minutes exactly from one minute to before one hour, with n in 1..59 the floor of the age in minutes; likewise hours in 1..23 before one day; the date exactly from one day |
| `Activity.DateOnlyForOldEntries` | frontend/src/pages/ActivityPage.js:40 | only entries a day old or more show the date text |
| `Activity.FormatTimeRoundTrip` | frontend/src/pages/ActivityPage.js:37-39 | every relative text reads back as the bucket and number it was made from |
| `Activity.SuffixedNumeral` | frontend/src/pages/ActivityPage.js:38-39 | a numeral with a five-letter suffix splits back into the number and the suffix |
| `Activity.AgeMonotone` | frontend/src/pages/ActivityPage.js:37-40 | an older entry never falls in an earlier bucket nor shows a smaller number in the same bucket |
| `Activity.StyleForSpec` | frontend/src/pages/ActivityPage.js:75 | the default style exactly when the kind is none of the five the server logs |

## Left out

- Ordering assumption: unsorted reads are taken in insertion order. MongoDB does not guarantee that order. It matters for `find_one` and `delete_one` (`Store.FindOwned` takes the first match; with unique ids there is only one) and for `GET /dashboard/stats`. That query has no sort, so beyond 100 records the code does not fix which records the stats count (`Store.GetDashboardStats` takes the first 100 inserted).
- MongoDB and its I/O are plain sequences. The `_id` projection, `insert_one` acknowledgements and storage failures are not modelled.
- Python's `datetime.now().isoformat()` strings are a strictly increasing clock tick. So two records never share a creation time, and the tie order of equal ISO strings is not modelled.
- `uuid4` ids are a counter, and the delete log renders the id in decimal. So the model cannot say anything about collisions of random ids.
- `hours_saved` and `productivity_value` use floating-point rounding. The model keeps `time_saved_minutes` as an integer sum instead.
- Authentication is not modelled: password hashing, JWT issue and decode, register, login, `/auth/me` and `get_current_user`. The caller's id is a trusted parameter. So is the `authorization` query parameter that `/activity` reads, which the page never sends as such.
- `onboard_user` is a profile update behind authentication.
- `ai_suggest` is not modelled. Its language-model call and `json.loads` parsing are a foreign service and a library parser.
- `Dashboard.DashboardView.AiSuggest`: the create request posted with the suggestion is reduced to the outcome flag `created`. The `aiLoading` spinner flag is not modelled.
- Each page handler is treated as one atomic step: `Promise.all`, the awaits, and the stale `flowNodes` closure that `removeNode` reads its length from and that `addNode` computes its new id from (`Builder.AddNodeSpec` promises unique ids only under that atomicity).
- Each server handler is treated as one atomic step (`Store.AutomationStore.Create`, `Toggle`, `Delete`). Requests that interleave between their awaits are not modelled. For example, a delete that lands between the `find_one` and the `update_one` of a toggle still leaves an "automation_toggled" entry although no record changed. The one-log-entry-per-change contracts rest on this atomicity.
- Also omitted: the dashboard's `stats` state (`Dashboard.DashboardView` does not hold it; it is whatever `GET /dashboard/stats` returned, `Store.GetDashboardStats`), toasts, navigation, the `activeTab`, `loading` and `saving` flags, `ICON_MAP`, and all rendering beyond the status style and the switch.
- `toLocaleDateString` is foreign locale code. Its text is the parameter `date` of `Activity.FormatTime`.
- `Text.Lower`: lower-cases only the ASCII letters A-Z. Non-ASCII case mapping of `toLowerCase` is not modelled, so `Builder.FilteredTemplates` and `Dashboard.Filtered` match the source only on ASCII names, categories and queries.
- JavaScript object lookups such as `STATUS_STYLES[status]` would also find inherited keys like `"constructor"`. They are modelled as map lookups.
- `Dashboard.DeletePatchMatchesServer`: stated only when the caller has at most 100 records. Beyond that, a fresh listing also brings in the 101st record, and the page picks it up only at the refetch that follows the patch.
- Other files are not part of this model: the landing, settings, login, register and onboarding pages, `App.js`, `AuthContext.js`, and the integration tester `backend_test.py`.
