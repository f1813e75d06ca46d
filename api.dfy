/** The record shapes the server stores and returns, and that the pages send
    and receive as JSON: the `AutomationCreate` request body, the automation
    document, the activity-log document, and the server's error answer. */
module Api {
  import opened Wrappers

  /** The authenticated caller's id, taken as trusted. */
  type UserId = string

  /** Automation ids: the server's uuid4 strings are modelled as numbers drawn
      from a counter, which makes "fresh" a provable fact. */
  type AutomationId = nat

  datatype NodeKind = Trigger | Action

  /** One `{type, value}` element of an automation's `nodes` list. */
  datatype NodeSnapshot = NodeSnapshot(kind: NodeKind, value: string)

  /** The body of `POST /automations`; `None` stands for a JSON `null`, and a
      missing field is its declared default (`""`, `"custom"`, `[]`). */
  datatype AutomationCreate = AutomationCreate(
    name: string,
    description: Option<string>,
    trigger: Option<string>,
    action: Option<string>,
    templateId: Option<string>,
    category: Option<string>,
    nodes: Option<seq<NodeSnapshot>>)

  /** A stored automation document; `createdAt` is a tick of the store's clock. */
  datatype Automation = Automation(
    id: AutomationId,
    name: string,
    description: string,
    trigger: string,
    action: string,
    status: string,
    category: string,
    templateId: Option<string>,
    nodes: seq<NodeSnapshot>,
    tasksRun: nat,
    timeSavedMinutes: nat,
    userId: UserId,
    createdAt: nat)

  /** A stored activity-log document; `action` is the event kind. */
  datatype LogEntry = LogEntry(
    id: nat,
    userId: UserId,
    action: string,
    detail: string,
    timestamp: nat)

  /** The only error the store reports: HTTP 404 "Automation not found". */
  datatype ApiError = NotFound

  const STATUS_ACTIVE := "active"
  const STATUS_PAUSED := "paused"
  const STATUS_ERROR := "error"

  const AUTOMATION_CREATED := "automation_created"
  const AUTOMATION_TOGGLED := "automation_toggled"
  const AUTOMATION_DELETED := "automation_deleted"
  const ONBOARDING_COMPLETE := "onboarding_complete"
  const AI_SUGGESTION := "ai_suggestion"

  /** No two automations share an id. */
  predicate UniqueIds(s: seq<Automation>)
  {
    forall i, j :: 0 <= i < j < |s| ==> s[i].id != s[j].id
  }

  function HasId(id: AutomationId): Automation -> bool
  {
    (a: Automation) => a.id == id
  }

  function LacksId(id: AutomationId): Automation -> bool
  {
    (a: Automation) => a.id != id
  }

  function OwnedBy(owner: UserId): Automation -> bool
  {
    (a: Automation) => a.userId == owner
  }

  function CreatedAt(a: Automation): int
  {
    a.createdAt
  }

  /** The dashboard's patch after a toggle: the entry with `id` gets `status`. */
  function SetStatusWhere(id: AutomationId, status: string): Automation -> Automation
  {
    (a: Automation) => if a.id == id then a.(status := status) else a
  }
}
