/** The server's automation store (`backend/server.py`): the `automations`
    and `activity_log` collections held in memory, the create / toggle / delete
    handlers that change them, `log_activity`, and the read-only queries behind
    `GET /automations`, `GET /dashboard/stats` and `GET /activity`. */
module Store {
  import opened Wrappers
  import opened Seqs
  import opened Text
  import opened Api
  import Catalog

  const DEFAULT_CATEGORY := "custom"
  /** Minutes saved credited to an automation that names no known template. */
  const DEFAULT_TIME_SAVED := 10
  /** `to_list(100)` of `GET /automations` and of `GET /dashboard/stats`, `to_list(50)` of `GET /activity`. */
  const LIST_LIMIT := 100
  const STATS_LIMIT := 100
  const ACTIVITY_LIMIT := 50

  // ---------------------------------------------------------------- creation

  /** Python truthiness of an optional string: present and non-empty. */
  predicate Truthy(value: Option<string>)
  {
    value.Some? && value.value != ""
  }

  /** Python's `value or fallback`. */
  function OrElse(value: Option<string>, fallback: string): string
  {
    if Truthy(value) then value.value else fallback
  }

  /** The request's `template_id` names catalogue entry `k`. */
  predicate NamesTemplate(data: AutomationCreate, k: nat)
  {
    k < |Catalog.TEMPLATES| && Truthy(data.templateId) && Catalog.TEMPLATES[k].id == data.templateId.value
  }

  /** The catalogue entry `create_automation` takes trigger, action and
      minutes saved from: the one whose id is the request's `template_id`. */
  function RequestedTemplate(data: AutomationCreate): (r: Option<Catalog.Template>)
    ensures forall k: nat :: NamesTemplate(data, k) ==> r == Some(Catalog.TEMPLATES[k])
    ensures (forall k: nat :: !NamesTemplate(data, k)) ==> r == None
  {
    if Truthy(data.templateId) then
      var t := Catalog.FindTemplate(Catalog.TEMPLATES, data.templateId.value);
      Catalog.CatalogueIdsUnique();
      Catalog.FindByUniqueId(Catalog.TEMPLATES, data.templateId.value);
      assert t.Some? ==> exists k: nat :: NamesTemplate(data, k) by {
        if t.Some? {
          var i :| 0 <= i < |Catalog.TEMPLATES| && Catalog.TEMPLATES[i].id == data.templateId.value;
          assert NamesTemplate(data, i);
        }
      }
      t
    else
      None
  }

  /** The document `create_automation` inserts for `data`, given the fresh id,
      the caller and the current clock tick. The server checks nothing about
      the request: an empty name, trigger or action is stored as it is. */
  function NewAutomation(data: AutomationCreate, id: AutomationId, owner: UserId, now: nat): (a: Automation)
    ensures a.id == id && a.userId == owner && a.createdAt == now && a.name == data.name
    ensures a.status == STATUS_ACTIVE && a.tasksRun == 0
    ensures a.category == (if Truthy(data.category) then data.category.value else DEFAULT_CATEGORY)
    ensures a.description == (if data.description.Some? then data.description.value else "")
    ensures a.nodes == (if data.nodes.Some? then data.nodes.value else [])
    ensures a.templateId == data.templateId
    ensures Truthy(data.trigger) ==> a.trigger == data.trigger.value
    ensures Truthy(data.action) ==> a.action == data.action.value
  {
    var template := RequestedTemplate(data);
    Automation(
      id,
      data.name,
      OrElse(data.description, ""),
      OrElse(data.trigger, if template.Some? then template.value.trigger else ""),
      OrElse(data.action, if template.Some? then template.value.action else ""),
      STATUS_ACTIVE,
      OrElse(data.category, DEFAULT_CATEGORY),
      data.templateId,
      if data.nodes.Some? then data.nodes.value else [],
      0,
      if template.Some? then template.value.timeSaved else DEFAULT_TIME_SAVED,
      owner,
      now)
  }

  /** What a created record takes from the catalogue: an empty or missing
      trigger or action is filled in from the template the request names, and
      the minutes saved are that template's, or 10 when the request names no
      template or an id the catalogue does not have. */
  lemma NewAutomationFromTemplate(data: AutomationCreate, id: AutomationId, owner: UserId, now: nat)
    ensures var a := NewAutomation(data, id, owner, now);
      forall k: nat :: NamesTemplate(data, k) ==>
        a.timeSavedMinutes == Catalog.TEMPLATES[k].timeSaved &&
        (!Truthy(data.trigger) ==> a.trigger == Catalog.TEMPLATES[k].trigger) &&
        (!Truthy(data.action) ==> a.action == Catalog.TEMPLATES[k].action)
    ensures var a := NewAutomation(data, id, owner, now);
      (forall k: nat :: !NamesTemplate(data, k)) ==>
        a.timeSavedMinutes == DEFAULT_TIME_SAVED &&
        (!Truthy(data.trigger) ==> a.trigger == "") &&
        (!Truthy(data.action) ==> a.action == "")
  {
    var t := RequestedTemplate(data);
  }

  /** A request without a template id gets the default ten minutes saved. */
  lemma NewAutomationWithoutTemplate(data: AutomationCreate, id: AutomationId, owner: UserId, now: nat)
    requires !Truthy(data.templateId)
    ensures NewAutomation(data, id, owner, now).timeSavedMinutes == DEFAULT_TIME_SAVED
  {
    assert RequestedTemplate(data) == None;
  }

  // ------------------------------------------------------- toggle and delete

  /** The status a toggle moves to: "active" pauses, anything else (also
      "error") becomes "active". */
  function NextStatus(status: string): (r: string)
    ensures r == STATUS_PAUSED <==> status == STATUS_ACTIVE
    ensures r == STATUS_ACTIVE <==> status != STATUS_ACTIVE
  {
    if status == STATUS_ACTIVE then STATUS_PAUSED else STATUS_ACTIVE
  }

  function OwnedWithId(id: AutomationId, owner: UserId): Automation -> bool
  {
    (a: Automation) => a.id == id && a.userId == owner
  }

  /** `find_one({"id": id, "user_id": owner})` and `delete_one` with the same filter: the first match. */
  function FindOwned(all: seq<Automation>, id: AutomationId, owner: UserId): (r: Option<nat>)
    ensures r.None? <==> forall i :: 0 <= i < |all| ==> !(all[i].id == id && all[i].userId == owner)
    ensures r.Some? ==> r.value < |all| && all[r.value].id == id && all[r.value].userId == owner
    ensures r.Some? ==> forall j :: 0 <= j < r.value ==> !(all[j].id == id && all[j].userId == owner)
  {
    FirstIndex(all, OwnedWithId(id, owner))
  }

  /** The collection after the record at `i` has been toggled. */
  function Toggled(all: seq<Automation>, i: nat): seq<Automation>
    requires i < |all|
  {
    all[i := all[i].(status := NextStatus(all[i].status))]
  }

  /** The collection after the record at `i` has been deleted. */
  function Removed(all: seq<Automation>, i: nat): seq<Automation>
    requires i < |all|
  {
    all[..i] + all[i + 1..]
  }

  /** Toggling the same record twice restores the collection when it was active or paused. */
  lemma ToggleTwiceRestores(all: seq<Automation>, i: nat)
    requires i < |all| && (all[i].status == STATUS_ACTIVE || all[i].status == STATUS_PAUSED)
    ensures Toggled(Toggled(all, i), i) == all
  {
    assert Toggled(Toggled(all, i), i)[i] == all[i];
  }

  /** With unique ids, `update_one({"id": id})` (which does not filter by owner)
      hits the very record `find_one` found for the owner. */
  lemma UpdateHitsFoundRecord(all: seq<Automation>, id: AutomationId, owner: UserId)
    requires UniqueIds(all) && FindOwned(all, id, owner).Some?
    ensures FirstIndex(all, HasId(id)) == FindOwned(all, id, owner)
  {
    var i := FindOwned(all, id, owner).value;
    var k := FirstIndex(all, HasId(id));
    assert HasId(id)(all[i]);
  }

  /** With unique ids, deleting the record at `i` is keeping every record whose id differs from its id. */
  lemma {:induction false} RemovedIsFilter(all: seq<Automation>, i: nat)
    requires i < |all| && UniqueIds(all)
    ensures Removed(all, i) == Filter(all, LacksId(all[i].id))
  {
    var p := LacksId(all[i].id);
    var before, after := all[..i], all[i + 1..];
    assert all == before + [all[i]] + after;
    forall j | 0 <= j < |before| ensures p(before[j]) {
      assert before[j] == all[j];
    }
    forall j | 0 <= j < |after| ensures p(after[j]) {
      assert after[j] == all[i + 1 + j];
    }
    FilterAll(before, p);
    FilterAll(after, p);
    FilterAppend(all[..i] + [all[i]], all[i + 1..], p);
    FilterAppend(all[..i], [all[i]], p);
  }

  /** With unique ids, toggling the record at `i` is the dashboard's map over every record. */
  lemma ToggledIsMap(all: seq<Automation>, i: nat)
    requires i < |all| && UniqueIds(all)
    ensures Toggled(all, i) == Map(all, SetStatusWhere(all[i].id, NextStatus(all[i].status)))
  {
    var m := Map(all, SetStatusWhere(all[i].id, NextStatus(all[i].status)));
    assert forall j :: 0 <= j < |all| ==> m[j] == Toggled(all, i)[j];
  }

  // ------------------------------------------------------------- ownership

  /** The caller's records, in collection order (`{"user_id": owner}`). */
  function Owned(all: seq<Automation>, owner: UserId): (r: seq<Automation>)
    ensures forall a :: a in r <==> a in all && a.userId == owner
  {
    assert forall a :: a in Filter(all, OwnedBy(owner)) <==> a in all && a.userId == owner by {
      forall a { FilterMembership(all, OwnedBy(owner), a); }
    }
    Filter(all, OwnedBy(owner))
  }

  /** A create, toggle or delete of a record owned by `other` leaves every
      other owner's records exactly as they were. */
  lemma AppendKeepsOthers(all: seq<Automation>, a: Automation, owner: UserId)
    requires a.userId != owner
    ensures Owned(all + [a], owner) == Owned(all, owner)
  {
    FilterAppend(all, [a], OwnedBy(owner));
  }

  lemma ToggleKeepsOthers(all: seq<Automation>, i: nat, owner: UserId)
    requires i < |all| && all[i].userId != owner
    ensures Owned(Toggled(all, i), owner) == Owned(all, owner)
  {
    FilterUpdateRejected(all, i, all[i].(status := NextStatus(all[i].status)), OwnedBy(owner));
  }

  lemma RemoveKeepsOthers(all: seq<Automation>, i: nat, owner: UserId)
    requires i < |all| && all[i].userId != owner
    ensures Owned(Removed(all, i), owner) == Owned(all, owner)
  {
    FilterRemoveRejected(all, i, OwnedBy(owner));
  }

  // ------------------------------------------------------------ queries

  /** `GET /automations`: the caller's records, newest first, at most 100. */
  function ListAutomations(all: seq<Automation>, owner: UserId): (r: seq<Automation>)
    ensures forall a :: a in r ==> a in all && a.userId == owner
    ensures |r| == if |Owned(all, owner)| <= LIST_LIMIT then |Owned(all, owner)| else LIST_LIMIT
  {
    var owned := Owned(all, owner);
    var r := Take(Reverse(owned), LIST_LIMIT);
    assert forall a :: a in r ==> a in owned by {
      forall a | a in r ensures a in owned {
        var i :| 0 <= i < |r| && r[i] == a;
        assert r[i] == owned[|owned| - 1 - i];
      }
    }
    r
  }

  /** Records are stored in creation order, so the listing really is newest first. */
  lemma ListNewestFirst(all: seq<Automation>, owner: UserId)
    requires Increasing(all, CreatedAt)
    ensures Decreasing(ListAutomations(all, owner), CreatedAt)
  {
    FilterKeepsIncreasing(all, OwnedBy(owner), CreatedAt);
    ReverseOfIncreasing(Owned(all, owner), CreatedAt);
    TakeOfDecreasing(Reverse(Owned(all, owner)), LIST_LIMIT, CreatedAt);
  }

  /** Over the limit, the listing holds the newest records: any owned record it
      leaves out was created before every record it shows. */
  lemma ListHoldsNewest(all: seq<Automation>, owner: UserId, a: Automation, b: Automation)
    requires Increasing(all, CreatedAt)
    requires a in Owned(all, owner) && a !in ListAutomations(all, owner) && b in ListAutomations(all, owner)
    ensures a.createdAt < b.createdAt
  {
    FilterKeepsIncreasing(all, OwnedBy(owner), CreatedAt);
    TakeReverseHoldsNewest(Owned(all, owner), LIST_LIMIT, CreatedAt, a, b);
  }

  /** Under the limit, the listing holds every one of the caller's records. */
  lemma ListComplete(all: seq<Automation>, owner: UserId, a: Automation)
    requires |Owned(all, owner)| <= LIST_LIMIT
    requires a in all && a.userId == owner
    ensures a in ListAutomations(all, owner)
  {
    var owned := Owned(all, owner);
    var i :| 0 <= i < |owned| && owned[i] == a;
    assert ListAutomations(all, owner)[|owned| - 1 - i] == a;
  }

  datatype DashboardStats = DashboardStats(
    activeAutomations: nat,
    totalAutomations: nat,
    tasksRun: nat,
    timeSavedMinutes: nat)

  function IsActive(a: Automation): bool
  {
    a.status == STATUS_ACTIVE
  }

  function CountActive(s: seq<Automation>): (n: nat)
    ensures n <= |s|
  {
    if s == [] then 0 else (if IsActive(s[0]) then 1 else 0) + CountActive(s[1..])
  }

  function SumTasks(s: seq<Automation>): nat
  {
    if s == [] then 0 else s[0].tasksRun + SumTasks(s[1..])
  }

  function SumMinutes(s: seq<Automation>): nat
  {
    if s == [] then 0 else s[0].timeSavedMinutes + SumMinutes(s[1..])
  }

  /** `GET /dashboard/stats` in integer minutes: counts and sums over the
      first 100 of the caller's records in collection order. */
  function GetDashboardStats(all: seq<Automation>, owner: UserId): (r: DashboardStats)
    ensures r.activeAutomations <= r.totalAutomations
    ensures r.totalAutomations == if |Owned(all, owner)| <= STATS_LIMIT then |Owned(all, owner)| else STATS_LIMIT
    ensures var counted := Take(Owned(all, owner), STATS_LIMIT);
      r.activeAutomations == |Filter(counted, IsActive)| &&
      r.tasksRun == SumTasks(counted) && r.timeSavedMinutes == SumMinutes(counted)
  {
    var counted := Take(Owned(all, owner), STATS_LIMIT);
    CountActiveIsFilter(counted);
    DashboardStats(CountActive(counted), |counted|, SumTasks(counted), SumMinutes(counted))
  }

  /** `active_automations` is the number of records whose status is "active". */
  lemma {:induction false} CountActiveIsFilter(s: seq<Automation>)
    ensures CountActive(s) == |Filter(s, IsActive)|
  {
    if s != [] {
      CountActiveIsFilter(s[1..]);
    }
  }

  lemma {:induction false} SumsAppend(s: seq<Automation>, a: Automation)
    ensures CountActive(s + [a]) == CountActive(s) + (if IsActive(a) then 1 else 0)
    ensures SumTasks(s + [a]) == SumTasks(s) + a.tasksRun
    ensures SumMinutes(s + [a]) == SumMinutes(s) + a.timeSavedMinutes
  {
    if s != [] {
      assert (s + [a])[1..] == s[1..] + [a];
      SumsAppend(s[1..], a);
    } else {
      assert s + [a] == [a];
    }
  }

  /** Below the limit, a create by the caller adds one record to the total, one
      to the active count, and its minutes to the minutes saved. */
  lemma StatsAfterCreate(all: seq<Automation>, a: Automation, owner: UserId)
    requires a.userId == owner && a.status == STATUS_ACTIVE && a.tasksRun == 0
    requires |Owned(all, owner)| < STATS_LIMIT
    ensures var before, after := GetDashboardStats(all, owner), GetDashboardStats(all + [a], owner);
      after == before.(activeAutomations := before.activeAutomations + 1,
                       totalAutomations := before.totalAutomations + 1,
                       timeSavedMinutes := before.timeSavedMinutes + a.timeSavedMinutes)
  {
    var owned := Owned(all, owner);
    FilterAppend(all, [a], OwnedBy(owner));
    assert Owned(all + [a], owner) == owned + [a];
    assert Take(owned, STATS_LIMIT) == owned;
    assert Take(owned + [a], STATS_LIMIT) == owned + [a];
    SumsAppend(owned, a);
  }

  /** Another owner's new record leaves the caller's stats unchanged. */
  lemma StatsIgnoreOthers(all: seq<Automation>, a: Automation, owner: UserId)
    requires a.userId != owner
    ensures GetDashboardStats(all + [a], owner) == GetDashboardStats(all, owner)
  {
    AppendKeepsOthers(all, a, owner);
  }

  // ------------------------------------------------------------ activity log

  function LoggedFor(owner: UserId): LogEntry -> bool
  {
    (e: LogEntry) => e.userId == owner
  }

  function Timestamp(e: LogEntry): int
  {
    e.timestamp
  }

  /** `GET /activity`: the caller's entries, newest first, at most 50. */
  function ListActivity(log: seq<LogEntry>, owner: UserId): (r: seq<LogEntry>)
    ensures forall e :: e in r ==> e in log && e.userId == owner
    ensures |r| == if |Filter(log, LoggedFor(owner))| <= ACTIVITY_LIMIT then |Filter(log, LoggedFor(owner))| else ACTIVITY_LIMIT
  {
    var mine := Filter(log, LoggedFor(owner));
    var r := Take(Reverse(mine), ACTIVITY_LIMIT);
    assert forall e :: e in r ==> e in mine by {
      forall e | e in r ensures e in mine {
        var i :| 0 <= i < |r| && r[i] == e;
        assert r[i] == mine[|mine| - 1 - i];
      }
    }
    r
  }

  lemma ActivityNewestFirst(log: seq<LogEntry>, owner: UserId)
    requires Increasing(log, Timestamp)
    ensures Decreasing(ListActivity(log, owner), Timestamp)
  {
    FilterKeepsIncreasing(log, LoggedFor(owner), Timestamp);
    ReverseOfIncreasing(Filter(log, LoggedFor(owner)), Timestamp);
  }

  /** Under the limit, the listing holds every one of the caller's entries. */
  lemma ActivityComplete(log: seq<LogEntry>, owner: UserId, e: LogEntry)
    requires |Filter(log, LoggedFor(owner))| <= ACTIVITY_LIMIT
    requires e in log && e.userId == owner
    ensures e in ListActivity(log, owner)
  {
    var mine := Filter(log, LoggedFor(owner));
    FilterMembership(log, LoggedFor(owner), e);
    var i :| 0 <= i < |mine| && mine[i] == e;
    assert ListActivity(log, owner)[|mine| - 1 - i] == e;
  }

  /** Over the limit, the listing holds the newest entries: any entry of the
      caller's it leaves out is older than every entry it shows. */
  lemma ActivityHoldsNewest(log: seq<LogEntry>, owner: UserId, e: LogEntry, f: LogEntry)
    requires Increasing(log, Timestamp)
    requires e in Filter(log, LoggedFor(owner)) && e !in ListActivity(log, owner) && f in ListActivity(log, owner)
    ensures e.timestamp < f.timestamp
  {
    FilterKeepsIncreasing(log, LoggedFor(owner), Timestamp);
    TakeReverseHoldsNewest(Filter(log, LoggedFor(owner)), ACTIVITY_LIMIT, Timestamp, e, f);
  }

  /** The entry just appended for the caller heads the caller's activity list. */
  lemma LatestEntryFirst(log: seq<LogEntry>, e: LogEntry)
    ensures ListActivity(log + [e], e.userId) != [] && ListActivity(log + [e], e.userId)[0] == e
  {
    FilterAppend(log, [e], LoggedFor(e.userId));
  }

  // ------------------------------------------------------------------ the store

  /** A record whose id and creation tick are above every stored one can be
      appended without breaking the store's invariant on records. */
  lemma AppendFresh(s: seq<Automation>, a: Automation, nextId: nat, clock: nat)
    requires forall i :: 0 <= i < |s| ==> s[i].id < nextId && s[i].createdAt < clock
    requires UniqueIds(s) && Increasing(s, CreatedAt)
    requires a.id == nextId && a.createdAt == clock
    ensures forall i :: 0 <= i < |s + [a]| ==> (s + [a])[i].id < nextId + 1 && (s + [a])[i].createdAt < clock + 1
    ensures UniqueIds(s + [a]) && Increasing(s + [a], CreatedAt)
    ensures forall i :: 0 <= i < |s| ==> s[i].id != a.id
  {
    IncreasingAppend(s, a, CreatedAt);
  }

  /** Both collections, plus the counter that stands for uuid4 and the clock
      that stands for `datetime.now`. */
  class AutomationStore {
    var automations: seq<Automation>
    var activity: seq<LogEntry>
    var nextId: nat
    var clock: nat

    /** Ids are unique and below the counter; records and log entries are in
        strictly increasing time order and older than the clock. */
    ghost predicate Valid()
      reads this
    {
      (forall i :: 0 <= i < |automations| ==> automations[i].id < nextId && automations[i].createdAt < clock) &&
      UniqueIds(automations) &&
      Increasing(automations, CreatedAt) &&
      (forall i :: 0 <= i < |activity| ==> activity[i].id < nextId && activity[i].timestamp < clock) &&
      Increasing(activity, Timestamp)
    }

    constructor ()
      ensures Valid() && automations == [] && activity == []
    {
      automations, activity := [], [];
      nextId, clock := 0, 0;
    }

    /** `log_activity`: appends one entry and changes nothing else. */
    method LogActivity(userId: UserId, action: string, detail: string)
      requires Valid()
      modifies this
      ensures Valid()
      ensures activity == old(activity) + [LogEntry(old(nextId), userId, action, detail, old(clock))]
      ensures automations == old(automations)
      ensures nextId == old(nextId) + 1 && clock == old(clock) + 1
    {
      var entry := LogEntry(nextId, userId, action, detail, clock);
      IncreasingAppend(activity, entry, Timestamp);
      activity := activity + [entry];
      nextId, clock := nextId + 1, clock + 1;
    }

    /** `POST /automations`: always succeeds, inserts the new record and logs
        "automation_created". */
    method Create(owner: UserId, data: AutomationCreate) returns (a: Automation)
      requires Valid()
      modifies this
      ensures Valid()
      ensures a == NewAutomation(data, old(nextId), owner, old(clock))
      ensures forall i :: 0 <= i < |old(automations)| ==> old(automations)[i].id != a.id
      ensures automations == old(automations) + [a]
      ensures activity == old(activity) + [LogEntry(old(nextId) + 1, owner, AUTOMATION_CREATED, "Created: " + data.name, old(clock) + 1)]
    {
      a := NewAutomation(data, nextId, owner, clock);
      AppendFresh(automations, a, nextId, clock);
      automations := automations + [a];
      nextId, clock := nextId + 1, clock + 1;
      LogActivity(owner, AUTOMATION_CREATED, "Created: " + data.name);
    }

    /** `PUT /automations/{id}/toggle`: 404 unless the caller owns a record with
        that id; otherwise flips its status and logs "automation_toggled". */
    method Toggle(owner: UserId, id: AutomationId) returns (r: Result<string, ApiError>)
      requires Valid()
      modifies this
      ensures Valid()
      ensures old(FindOwned(automations, id, owner)).None? ==>
        r == Failure(NotFound) &&
        automations == old(automations) && activity == old(activity) &&
        nextId == old(nextId) && clock == old(clock)
      ensures old(FindOwned(automations, id, owner)).Some? ==>
        var i := old(FindOwned(automations, id, owner)).value;
        var before := old(automations)[i];
        r == Success(NextStatus(before.status)) &&
        automations == Toggled(old(automations), i) &&
        activity == old(activity) + [LogEntry(old(nextId), owner, AUTOMATION_TOGGLED,
                                              before.name + " → " + NextStatus(before.status), old(clock))]
    {
      var found := FindOwned(automations, id, owner);
      if found.None? {
        return Failure(NotFound);
      }
      var before := automations[found.value];
      var newStatus := NextStatus(before.status);
      UpdateHitsFoundRecord(automations, id, owner);
      var k := FirstIndex(automations, HasId(id)).value;
      IncreasingUpdate(automations, k, automations[k].(status := newStatus), CreatedAt);
      automations := automations[k := automations[k].(status := newStatus)];
      LogActivity(owner, AUTOMATION_TOGGLED, before.name + " → " + newStatus);
      r := Success(newStatus);
    }

    /** `DELETE /automations/{id}`: 404 unless the caller owns a record with
        that id; otherwise removes it and logs "automation_deleted". */
    method Delete(owner: UserId, id: AutomationId) returns (r: Result<string, ApiError>)
      requires Valid()
      modifies this
      ensures Valid()
      ensures old(FindOwned(automations, id, owner)).None? ==>
        r == Failure(NotFound) &&
        automations == old(automations) && activity == old(activity) &&
        nextId == old(nextId) && clock == old(clock)
      ensures old(FindOwned(automations, id, owner)).Some? ==>
        r == Success("deleted") &&
        automations == Removed(old(automations), old(FindOwned(automations, id, owner)).value) &&
        activity == old(activity) + [LogEntry(old(nextId), owner, AUTOMATION_DELETED,
                                              "Deleted automation " + Decimal(id), old(clock))]
    {
      var found := FindOwned(automations, id, owner);
      if found.None? {
        return Failure(NotFound);
      }
      var i := found.value;
      IncreasingRemove(automations, i, CreatedAt);
      automations := automations[..i] + automations[i + 1..];
      LogActivity(owner, AUTOMATION_DELETED, "Deleted automation " + Decimal(id));
      r := Success("deleted");
    }
  }
}
