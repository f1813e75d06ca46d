/** The list logic of the dashboard page (`frontend/src/pages/DashboardPage.js`):
    the search filter, the local patch of the fetched list after a toggle or a
    delete, the greeting by hour, the guard in front of the AI request, and
    how a status is shown. */
module Dashboard {
  import opened Wrappers
  import opened Seqs
  import opened Text
  import opened Api
  import Store

  // ---------------------------------------------------------------- search

  /** The lower-cased name or the lower-cased category contains the lower-cased query. */
  function SearchMatches(query: string): Automation -> bool
  {
    (a: Automation) =>
      Contains(Lower(a.name), Lower(query)) || Contains(Lower(a.category), Lower(query))
  }

  /** `filtered`: the fetched automations the search box lets through, in their order. */
  function Filtered(automations: seq<Automation>, query: string): (r: seq<Automation>)
    ensures IsSubsequence(r, automations)
    ensures forall a :: a in r <==>
      a in automations && (Occurs(Lower(a.name), Lower(query)) || Occurs(Lower(a.category), Lower(query)))
  {
    var p := SearchMatches(query);
    FilterIsSubsequence(automations, p);
    forall a ensures a in Filter(automations, p) <==>
      a in automations && (Occurs(Lower(a.name), Lower(query)) || Occurs(Lower(a.category), Lower(query))) {
      FilterMembership(automations, p, a);
      ContainsIffOccurs(Lower(a.name), Lower(query));
      ContainsIffOccurs(Lower(a.category), Lower(query));
    }
    Filter(automations, p)
  }

  /** An empty search box shows every automation. */
  lemma EmptySearchKeepsAll(automations: seq<Automation>)
    ensures Filtered(automations, "") == automations
  {
    forall i | 0 <= i < |automations| ensures SearchMatches("")(automations[i]) {
      ContainsEmpty(Lower(automations[i].name));
    }
    FilterAll(automations, SearchMatches(""));
  }

  // ------------------------------------------------------------- greeting

  const GOOD_MORNING := "Good morning"
  const GOOD_AFTERNOON := "Good afternoon"
  const GOOD_EVENING := "Good evening"

  /** `getGreeting` for the hour of the local clock, passed in. */
  function Greeting(hour: int): (g: string)
    ensures g == GOOD_MORNING <==> hour < 12
    ensures g == GOOD_AFTERNOON <==> 12 <= hour < 17
    ensures g == GOOD_EVENING <==> 17 <= hour
  {
    if hour < 12 then GOOD_MORNING
    else if hour < 17 then GOOD_AFTERNOON
    else GOOD_EVENING
  }

  // ----------------------------------------------------------- status display

  /** One entry of `STATUS_STYLES`: the dot colour and the caption. */
  datatype StatusStyle = StatusStyle(dot: string, caption: string)

  const STATUS_STYLES: map<string, StatusStyle> := map[
    STATUS_ACTIVE := StatusStyle("bg-emerald-500", "Running"),
    STATUS_PAUSED := StatusStyle("bg-slate-300", "Paused"),
    STATUS_ERROR := StatusStyle("bg-red-500", "Needs attention")]

  /** `STATUS_STYLES[a.status] || STATUS_STYLES.active`. */
  function StyleOf(status: string): StatusStyle
  {
    if status in STATUS_STYLES then STATUS_STYLES[status] else STATUS_STYLES[STATUS_ACTIVE]
  }

  /** A record is captioned "Running" unless it is paused or needs attention:
      any status the page does not know is shown as a running one. */
  lemma StyleOfSpec(status: string)
    ensures StyleOf(status).caption == "Running" <==> status != STATUS_PAUSED && status != STATUS_ERROR
    ensures StyleOf(status) == StyleOf(STATUS_ACTIVE) <==> status != STATUS_PAUSED && status != STATUS_ERROR
  {
  }

  /** The switch `checked={a.status === "active"}`. */
  predicate SwitchChecked(status: string)
  {
    status == STATUS_ACTIVE
  }

  /** A successful toggle always flips the switch, also from "error". */
  lemma ToggleFlipsSwitch(status: string)
    ensures SwitchChecked(Store.NextStatus(status)) <==> !SwitchChecked(status)
  {
  }

  // ------------------------------------------------------------ AI request

  /** The message `handleAiSuggest` posts, or none when the query is blank. */
  function AiRequest(aiQuery: string): (r: Option<string>)
    ensures r.None? <==> IsBlank(aiQuery)
    ensures r.Some? ==> r.value == aiQuery
  {
    TrimEmptyIffBlank(aiQuery);
    if Trim(aiQuery) == "" then None else Some(aiQuery)
  }

  // ------------------------------------------------------- agreement with the server

  /** Right after a successful toggle, patching the fetched list gives what
      a fresh `GET /automations` returns. */
  lemma TogglePatchMatchesServer(all: seq<Automation>, owner: UserId, id: AutomationId)
    requires UniqueIds(all) && Store.FindOwned(all, id, owner).Some?
    ensures var i := Store.FindOwned(all, id, owner).value;
      Map(Store.ListAutomations(all, owner), SetStatusWhere(id, Store.NextStatus(all[i].status))) ==
      Store.ListAutomations(Store.Toggled(all, i), owner)
  {
    var i := Store.FindOwned(all, id, owner).value;
    var f := SetStatusWhere(id, Store.NextStatus(all[i].status));
    var p := OwnedBy(owner);
    Store.ToggledIsMap(all, i);
    FilterMap(all, f, p);
    MapReverse(Filter(all, p), f);
    MapTake(Reverse(Filter(all, p)), f, Store.LIST_LIMIT);
  }

  /** Right after a successful delete, dropping the id from the fetched list
      gives what a fresh `GET /automations` returns, as long as the caller has
      no more records than one listing holds. */
  lemma DeletePatchMatchesServer(all: seq<Automation>, owner: UserId, id: AutomationId)
    requires UniqueIds(all) && Store.FindOwned(all, id, owner).Some?
    requires |Store.Owned(all, owner)| <= Store.LIST_LIMIT
    ensures Filter(Store.ListAutomations(all, owner), LacksId(id)) ==
      Store.ListAutomations(Store.Removed(all, Store.FindOwned(all, id, owner).value), owner)
  {
    var i := Store.FindOwned(all, id, owner).value;
    var q := LacksId(id);
    var p := OwnedBy(owner);
    Store.RemovedIsFilter(all, i);
    FilterCommutes(all, q, p);
    FilterReverse(Filter(all, p), q);
    assert |Filter(Filter(all, q), p)| <= Store.LIST_LIMIT;
  }

  // ------------------------------------------------------------ page state

  /** The dashboard's `automations` list, search box and AI box. */
  class DashboardView {
    var automations: seq<Automation>
    var searchQuery: string
    var aiQuery: string

    constructor ()
      ensures automations == [] && searchQuery == "" && aiQuery == ""
    {
      automations, searchQuery, aiQuery := [], "", "";
    }

    /** `fetchData`: the list is replaced by what the server returned. */
    method Refresh(fetched: seq<Automation>)
      modifies this
      ensures automations == fetched
      ensures searchQuery == old(searchQuery) && aiQuery == old(aiQuery)
    {
      automations := fetched;
    }

    /** The patch after the server confirmed a toggle to `status`. */
    method ApplyToggle(id: AutomationId, status: string)
      modifies this
      ensures automations == Map(old(automations), SetStatusWhere(id, status))
      ensures searchQuery == old(searchQuery) && aiQuery == old(aiQuery)
    {
      automations := Map(automations, SetStatusWhere(id, status));
    }

    /** The patch after the server confirmed a delete. */
    method ApplyDelete(id: AutomationId)
      modifies this
      ensures automations == Filter(old(automations), LacksId(id))
      ensures searchQuery == old(searchQuery) && aiQuery == old(aiQuery)
    {
      automations := Filter(automations, LacksId(id));
    }

    /** `handleAiSuggest`, taken as one step: a blank query sends nothing and
        changes nothing; otherwise the query is sent, and cleared when the
        server created the suggested automation (`created`). */
    method AiSuggest(created: bool) returns (request: Option<string>)
      modifies this
      ensures request == AiRequest(old(aiQuery))
      ensures request.None? ==> aiQuery == old(aiQuery)
      ensures request.Some? ==> aiQuery == (if created then "" else old(aiQuery))
      ensures automations == old(automations) && searchQuery == old(searchQuery)
    {
      request := AiRequest(aiQuery);
      if request.None? {
        return;
      }
      if created {
        aiQuery := "";
      }
    }
  }

  /** The toggle patch changes only the entry with the id, and only its status. */
  lemma TogglePatchSpec(automations: seq<Automation>, id: AutomationId, status: string)
    ensures var r := Map(automations, SetStatusWhere(id, status));
      |r| == |automations| &&
      forall i :: 0 <= i < |automations| ==>
        (automations[i].id == id ==> r[i] == automations[i].(status := status)) &&
        (automations[i].id != id ==> r[i] == automations[i])
  {
  }

  /** The delete patch drops exactly the entries with the id and keeps the rest in order. */
  lemma DeletePatchSpec(automations: seq<Automation>, id: AutomationId)
    ensures var r := Filter(automations, LacksId(id));
      IsSubsequence(r, automations) && forall a :: a in r <==> a in automations && a.id != id
  {
    FilterIsSubsequence(automations, LacksId(id));
    forall a ensures a in Filter(automations, LacksId(id)) <==> a in automations && a.id != id {
      FilterMembership(automations, LacksId(id), a);
    }
  }
}
