/** The guided flow builder of the builder page
    (`frontend/src/pages/BuilderPage.js`): an ordered list of one trigger node
    and action nodes that the user edits, the preload from a template, the
    template search, and the check-and-flatten step that turns the flow into
    the `POST /automations` request. */
module Builder {
  import opened Wrappers
  import opened Seqs
  import opened Text
  import opened Api
  import Catalog
  import Store

  const TRIGGER_LABEL := "When this happens..."
  const FIRST_ACTION_LABEL := "Do this..."
  const NEXT_ACTION_LABEL := "Then do this..."
  /** The category the guided builder submits. */
  const BUILDER_CATEGORY := "custom"

  /** One step of the flow as the page keeps it; `value` is the option picked, "" while unset. */
  datatype FlowNode = FlowNode(id: int, kind: NodeKind, caption: string, value: string)

  /** The flow the page starts with. */
  const INITIAL_FLOW: seq<FlowNode> :=
    [FlowNode(1, Trigger, TRIGGER_LABEL, ""), FlowNode(2, Action, FIRST_ACTION_LABEL, "")]

  function NodeId(n: FlowNode): int
  {
    n.id
  }

  /** At least two nodes, and no id used twice. */
  predicate WellFormed(nodes: seq<FlowNode>)
  {
    |nodes| >= 2 && Distinct(nodes, NodeId)
  }

  /** The trigger is the first node and every other node is an action. */
  predicate TriggerFirst(nodes: seq<FlowNode>)
  {
    |nodes| > 0 && nodes[0].kind == Trigger && forall i :: 1 <= i < |nodes| ==> nodes[i].kind == Action
  }

  // ---------------------------------------------------------------- editing

  /** `Math.max(...flowNodes.map(n => n.id))`. */
  function MaxId(nodes: seq<FlowNode>): (m: int)
    requires nodes != []
    ensures forall i :: 0 <= i < |nodes| ==> nodes[i].id <= m
    ensures exists i :: 0 <= i < |nodes| && nodes[i].id == m
  {
    if |nodes| == 1 then nodes[0].id
    else
      var m := MaxId(nodes[1..]);
      assert forall i :: 1 <= i < |nodes| ==> nodes[i] == nodes[1..][i - 1];
      if nodes[0].id >= m then nodes[0].id else m
  }

  /** `addNode`: one empty action node appended, with id one above the largest. */
  function WithNewAction(nodes: seq<FlowNode>): seq<FlowNode>
    requires nodes != []
  {
    nodes + [FlowNode(MaxId(nodes) + 1, Action, NEXT_ACTION_LABEL, "")]
  }

  function IdIsNot(id: int): FlowNode -> bool
  {
    (n: FlowNode) => n.id != id
  }

  /** `removeNode`: nothing when the flow has two nodes or fewer, otherwise every node with that id dropped. */
  function WithoutNode(nodes: seq<FlowNode>, id: int): seq<FlowNode>
  {
    if |nodes| <= 2 then nodes else Filter(nodes, IdIsNot(id))
  }

  function SetValueWhere(id: int, value: string): FlowNode -> FlowNode
  {
    (n: FlowNode) => if n.id == id then n.(value := value) else n
  }

  /** `updateNode`: the value of the node(s) with that id replaced. */
  function WithValue(nodes: seq<FlowNode>, id: int, value: string): seq<FlowNode>
  {
    Map(nodes, SetValueWhere(id, value))
  }

  /** `addNode` keeps every existing node, adds one empty action node whose id
      is above every existing id, and so keeps the flow well formed. */
  lemma AddNodeSpec(nodes: seq<FlowNode>)
    requires WellFormed(nodes)
    ensures var r := WithNewAction(nodes);
      |r| == |nodes| + 1 && r[..|nodes|] == nodes &&
      r[|nodes|].kind == Action && r[|nodes|].value == "" &&
      (forall i :: 0 <= i < |nodes| ==> nodes[i].id < r[|nodes|].id) &&
      WellFormed(r)
  {
    var r := WithNewAction(nodes);
    assert r[..|nodes|] == nodes;
    forall i, j | 0 <= i < j < |r| ensures NodeId(r[i]) != NodeId(r[j]) {
      if j < |nodes| {
        assert r[i] == nodes[i] && r[j] == nodes[j];
      } else {
        assert r[i] == nodes[i];
      }
    }
  }

  /** With distinct ids, dropping one id removes at most one node. */
  lemma {:induction false} FilterByIdRemovesAtMostOne(nodes: seq<FlowNode>, id: int)
    requires Distinct(nodes, NodeId)
    ensures |Filter(nodes, IdIsNot(id))| >= |nodes| - 1
  {
    if nodes != [] {
      DistinctTail(nodes, NodeId);
      if nodes[0].id == id {
        FilterAll(nodes[1..], IdIsNot(id));
      } else {
        FilterByIdRemovesAtMostOne(nodes[1..], id);
      }
    }
  }

  /** `removeNode` is a no-op on a flow of two nodes; otherwise it keeps exactly
      the nodes whose id differs, in their order, and the flow stays well formed. */
  lemma RemoveNodeSpec(nodes: seq<FlowNode>, id: int)
    requires WellFormed(nodes)
    ensures |nodes| <= 2 ==> WithoutNode(nodes, id) == nodes
    ensures |nodes| > 2 ==>
      IsSubsequence(WithoutNode(nodes, id), nodes) &&
      forall n :: n in WithoutNode(nodes, id) <==> n in nodes && n.id != id
    ensures WellFormed(WithoutNode(nodes, id))
  {
    if |nodes| > 2 {
      FilterIsSubsequence(nodes, IdIsNot(id));
      forall n ensures n in WithoutNode(nodes, id) <==> n in nodes && n.id != id {
        FilterMembership(nodes, IdIsNot(id), n);
      }
      FilterByIdRemovesAtMostOne(nodes, id);
      FilterKeepsDistinct(nodes, IdIsNot(id), NodeId);
    }
  }

  /** `updateNode` changes only the value of the node with that id: length,
      ids, kinds, captions and order are kept, and the flow stays well formed. */
  lemma UpdateNodeSpec(nodes: seq<FlowNode>, id: int, value: string)
    requires WellFormed(nodes)
    ensures var r := WithValue(nodes, id, value);
      |r| == |nodes| &&
      (forall i :: 0 <= i < |nodes| ==>
        r[i].id == nodes[i].id && r[i].kind == nodes[i].kind && r[i].caption == nodes[i].caption &&
        r[i].value == (if nodes[i].id == id then value else nodes[i].value)) &&
      WellFormed(r)
  {
    var r := WithValue(nodes, id, value);
    assert forall i :: 0 <= i < |nodes| ==> NodeId(r[i]) == NodeId(nodes[i]);
  }

  /** One user edit of the flow. */
  datatype Edit = AddNode | RemoveNode(id: int) | UpdateNode(id: int, value: string)

  function ApplyEdit(nodes: seq<FlowNode>, e: Edit): (r: seq<FlowNode>)
    requires WellFormed(nodes)
    ensures WellFormed(r)
  {
    match e
    case AddNode => AddNodeSpec(nodes); WithNewAction(nodes)
    case RemoveNode(id) => RemoveNodeSpec(nodes, id); WithoutNode(nodes, id)
    case UpdateNode(id, value) => UpdateNodeSpec(nodes, id, value); WithValue(nodes, id, value)
  }

  /** Any sequence of edits keeps the flow well formed: from the initial flow,
      there are always at least two nodes and the ids stay distinct. */
  function ApplyEdits(nodes: seq<FlowNode>, edits: seq<Edit>): (r: seq<FlowNode>)
    requires WellFormed(nodes)
    ensures WellFormed(r)
    decreases |edits|
  {
    if edits == [] then nodes else ApplyEdits(ApplyEdit(nodes, edits[0]), edits[1..])
  }

  lemma InitialFlowWellFormed()
    ensures WellFormed(INITIAL_FLOW) && TriggerFirst(INITIAL_FLOW)
  {
  }

  /** The page shows a remove button only on action nodes of a flow longer than two. */
  predicate SparesTrigger(nodes: seq<FlowNode>, e: Edit)
  {
    e.RemoveNode? ==> |nodes| > 0 && nodes[0].id != e.id
  }

  /** Edits that never name the trigger's id for removal keep the trigger first
      and every other node an action. */
  lemma EditKeepsTriggerFirst(nodes: seq<FlowNode>, e: Edit)
    requires WellFormed(nodes) && TriggerFirst(nodes) && SparesTrigger(nodes, e)
    ensures TriggerFirst(ApplyEdit(nodes, e))
  {
    match e
    case AddNode =>
    case UpdateNode(id, value) =>
    case RemoveNode(id) =>
      if |nodes| > 2 {
        assert nodes == [nodes[0]] + nodes[1..];
        FilterAppend([nodes[0]], nodes[1..], IdIsNot(id));
        var r := WithoutNode(nodes, id);
        assert r[0] == nodes[0];
        forall i | 1 <= i < |r| ensures r[i].kind == Action {
          var t := Filter(nodes[1..], IdIsNot(id));
          assert r[i] == t[i - 1] && t[i - 1] in t;
        }
      }
  }

  /** `removeNode` itself does not protect the trigger: named with the
      trigger's id on a three-node flow, it drops the trigger. */
  lemma RemoveNodeCanDropTrigger()
    ensures var flow := INITIAL_FLOW + [FlowNode(3, Action, NEXT_ACTION_LABEL, "")];
      WithoutNode(flow, 1) == flow[1..] && !TriggerFirst(WithoutNode(flow, 1))
  {
    var flow := INITIAL_FLOW + [FlowNode(3, Action, NEXT_ACTION_LABEL, "")];
    assert flow == [flow[0]] + flow[1..];
    FilterAppend([flow[0]], flow[1..], IdIsNot(1));
    FilterAll(flow[1..], IdIsNot(1));
  }

  // ------------------------------------------------------------ saving

  /** Why `saveFlow` refused, in the order it checks; or the request it submits. */
  datatype SaveOutcome = MissingName | MissingTrigger | NoActions | Submit(request: AutomationCreate)

  /** `flowNodes.find(n => n.type === "trigger")?.value`. */
  function FirstTriggerValue(nodes: seq<FlowNode>): (r: Option<string>)
    ensures r.None? <==> forall i :: 0 <= i < |nodes| ==> nodes[i].kind != Trigger
    ensures r.Some? ==> exists i :: 0 <= i < |nodes| && nodes[i].kind == Trigger && nodes[i].value == r.value &&
                                    forall j :: 0 <= j < i ==> nodes[j].kind != Trigger
  {
    match FirstIndex(nodes, IsTriggerNode)
    case None => None
    case Some(i) => Some(nodes[i].value)
  }

  function IsTriggerNode(n: FlowNode): bool
  {
    n.kind == Trigger
  }

  function IsActionNode(n: FlowNode): bool
  {
    n.kind == Action
  }

  function ValueOf(n: FlowNode): string
  {
    n.value
  }

  function NonEmpty(s: string): bool
  {
    s != ""
  }

  /** `flowNodes.filter(n => n.type === "action").map(n => n.value).filter(Boolean)`. */
  function ActionValues(nodes: seq<FlowNode>): seq<string>
  {
    Filter(Map(Filter(nodes, IsActionNode), ValueOf), NonEmpty)
  }

  /** The summaries list exactly the non-empty values of action nodes. */
  lemma ActionValuesSpec(nodes: seq<FlowNode>)
    ensures forall v :: v in ActionValues(nodes) <==>
      v != "" && exists i :: 0 <= i < |nodes| && nodes[i].kind == Action && nodes[i].value == v
    ensures ActionValues(nodes) == [] <==> forall i :: 0 <= i < |nodes| && nodes[i].kind == Action ==> nodes[i].value == ""
  {
    forall v ensures v in ActionValues(nodes) <==>
      v != "" && exists i :: 0 <= i < |nodes| && nodes[i].kind == Action && nodes[i].value == v {
      ActionValueMember(nodes, v);
    }
    if ActionValues(nodes) != [] {
      ActionValueMember(nodes, ActionValues(nodes)[0]);
    }
    forall i | 0 <= i < |nodes| && nodes[i].kind == Action && nodes[i].value != ""
      ensures ActionValues(nodes) != []
    {
      ActionValueMember(nodes, nodes[i].value);
    }
  }

  lemma ActionValueMember(nodes: seq<FlowNode>, v: string)
    ensures v in ActionValues(nodes) <==>
      v != "" && exists i :: 0 <= i < |nodes| && nodes[i].kind == Action && nodes[i].value == v
  {
    var actions := Filter(nodes, IsActionNode);
    var values := Map(actions, ValueOf);
    FilterMembership(values, NonEmpty, v);
    if v in values {
      var j :| 0 <= j < |values| && values[j] == v;
      FilterMembership(nodes, IsActionNode, actions[j]);
      assert actions[j] in nodes;
    }
    if v != "" && exists i :: 0 <= i < |nodes| && nodes[i].kind == Action && nodes[i].value == v {
      var i :| 0 <= i < |nodes| && nodes[i].kind == Action && nodes[i].value == v;
      FilterMembership(nodes, IsActionNode, nodes[i]);
      var j :| 0 <= j < |actions| && actions[j] == nodes[i];
      assert values[j] == v;
    }
  }

  function Snapshot(n: FlowNode): NodeSnapshot
  {
    NodeSnapshot(n.kind, n.value)
  }

  /** `saveFlow`: refuses a blank name, then a missing or empty first trigger,
      then a flow whose action nodes are all empty; otherwise submits the
      flattened flow. */
  function SaveFlow(flowName: string, nodes: seq<FlowNode>): (r: SaveOutcome)
    ensures r == MissingName <==> IsBlank(flowName)
    ensures r == MissingTrigger <==>
      !IsBlank(flowName) && (FirstTriggerValue(nodes).None? || FirstTriggerValue(nodes).value == "")
    ensures r == NoActions <==>
      !IsBlank(flowName) && FirstTriggerValue(nodes).Some? && FirstTriggerValue(nodes).value != "" &&
      forall i :: 0 <= i < |nodes| && nodes[i].kind == Action ==> nodes[i].value == ""
    ensures r.Submit? ==>
      var trigger := FirstTriggerValue(nodes).value;
      var actions := ActionValues(nodes);
      trigger != "" && actions != [] &&
      r.request == AutomationCreate(
        flowName,
        Some(trigger + " → " + Join(actions, " → ")),
        Some(trigger),
        Some(Join(actions, ", ")),
        None,
        Some(BUILDER_CATEGORY),
        Some(Map(nodes, Snapshot)))
  {
    TrimEmptyIffBlank(flowName);
    ActionValuesSpec(nodes);
    if Trim(flowName) == "" then MissingName
    else
      var trigger := FirstTriggerValue(nodes);
      var actions := ActionValues(nodes);
      if trigger.None? || trigger.value == "" then MissingTrigger
      else if |actions| == 0 then NoActions
      else
        Submit(AutomationCreate(
          flowName,
          Some(trigger.value + " → " + Join(actions, " → ")),
          Some(trigger.value),
          Some(Join(actions, ", ")),
          None,
          Some(BUILDER_CATEGORY),
          Some(Map(nodes, Snapshot))))
  }

  /** A submitted flow is stored as the builder meant it: an active custom
      automation with the flow's name, first trigger, joined action summaries
      and node snapshots, credited with the default ten minutes, since the
      builder sends no template id. */
  lemma SavedFlowCreates(flowName: string, nodes: seq<FlowNode>, req: AutomationCreate, id: AutomationId, owner: UserId, now: nat)
    requires SaveFlow(flowName, nodes) == Submit(req)
    ensures var a := Store.NewAutomation(req, id, owner, now);
      a.name == flowName && !IsBlank(a.name) &&
      a.trigger == FirstTriggerValue(nodes).value && a.trigger != "" &&
      a.action == Join(ActionValues(nodes), ", ") && a.action != "" &&
      a.status == STATUS_ACTIVE && a.category == BUILDER_CATEGORY && a.templateId == None &&
      a.timeSavedMinutes == Store.DEFAULT_TIME_SAVED && a.nodes == Map(nodes, Snapshot)
  {
    SubmittedRequest(flowName, nodes, req);
    ActionValuesNonEmpty(nodes);
    JoinNonEmpty(ActionValues(nodes), ", ");
    CreatedFromFields(req, id, owner, now);
  }

  lemma ActionValuesNonEmpty(nodes: seq<FlowNode>)
    ensures forall i :: 0 <= i < |ActionValues(nodes)| ==> ActionValues(nodes)[i] != ""
  {
    var actions := ActionValues(nodes);
    assert forall i :: 0 <= i < |actions| ==> actions[i] in actions;
  }

  /** The request a successful save submits, field by field. */
  lemma SubmittedRequest(flowName: string, nodes: seq<FlowNode>, req: AutomationCreate)
    requires SaveFlow(flowName, nodes) == Submit(req)
    ensures req.name == flowName && !IsBlank(flowName) && FirstTriggerValue(nodes).value != "" && req.trigger == Some(FirstTriggerValue(nodes).value) &&
      req.action == Some(Join(ActionValues(nodes), ", ")) && req.nodes == Some(Map(nodes, Snapshot)) &&
      req.templateId == None && req.category == Some(BUILDER_CATEGORY) && ActionValues(nodes) != []
  {
  }

  /** What the server stores for a request with a trigger and an action, no
      template id and the builder's category. */
  lemma CreatedFromFields(req: AutomationCreate, id: AutomationId, owner: UserId, now: nat)
    requires Store.Truthy(req.trigger) && Store.Truthy(req.action) && !Store.Truthy(req.templateId)
    requires req.category == Some(BUILDER_CATEGORY) && req.nodes.Some?
    ensures var a := Store.NewAutomation(req, id, owner, now);
      a.name == req.name && a.trigger == req.trigger.value && a.action == req.action.value &&
      a.status == STATUS_ACTIVE && a.category == BUILDER_CATEGORY && a.templateId == req.templateId &&
      a.timeSavedMinutes == Store.DEFAULT_TIME_SAVED && a.nodes == req.nodes.value
  {
    Store.NewAutomationWithoutTemplate(req, id, owner, now);
  }

  /** Joining parts whose first one is non-empty gives a non-empty string. */
  lemma JoinNonEmpty(parts: seq<string>, sep: string)
    requires parts != [] && forall i :: 0 <= i < |parts| ==> parts[i] != ""
    ensures Join(parts, sep) != ""
  {
    assert parts[0] != "";
    if |parts| > 1 {
      assert |Join(parts, sep)| >= |parts[0]|;
    }
  }

  // ------------------------------------------------------ templates

  /** The two-node flow the page loads for a template. */
  function TemplateFlow(t: Catalog.Template): seq<FlowNode>
  {
    [FlowNode(1, Trigger, TRIGGER_LABEL, t.trigger), FlowNode(2, Action, FIRST_ACTION_LABEL, t.action)]
  }

  /** A template with a name, trigger and action saves as its own trigger and
      action, with the description "trigger → action". */
  lemma TemplateFlowSaves(t: Catalog.Template)
    requires !IsBlank(t.name) && t.trigger != "" && t.action != ""
    ensures WellFormed(TemplateFlow(t)) && TriggerFirst(TemplateFlow(t))
    ensures SaveFlow(t.name, TemplateFlow(t)) == Submit(AutomationCreate(
      t.name,
      Some(t.trigger + " → " + t.action),
      Some(t.trigger),
      Some(t.action),
      None,
      Some(BUILDER_CATEGORY),
      Some([NodeSnapshot(Trigger, t.trigger), NodeSnapshot(Action, t.action)])))
  {
    var flow := TemplateFlow(t);
    assert FirstIndex(flow, IsTriggerNode) == Some(0);
    assert Filter(flow, IsActionNode) == [flow[1]] by {
      assert flow[1..][1..] == [];
    }
    assert Map([flow[1]], ValueOf) == [t.action];
    assert ActionValues(flow) == [t.action] by {
      assert [t.action][1..] == [];
    }
    assert Map(flow, Snapshot) == [NodeSnapshot(Trigger, t.trigger), NodeSnapshot(Action, t.action)];
  }

  /** The request `activateTemplate` posts for a template card. */
  function ActivationRequest(t: Catalog.Template): AutomationCreate
  {
    AutomationCreate(t.name, Some(t.description), Some(t.trigger), Some(t.action), Some(t.id), Some(t.category), Some([]))
  }

  /** Activating a catalogue template stores its trigger, action and category,
      names it as the record's template, and credits its minutes saved. */
  lemma ActivatedTemplateCredited(k: nat, id: AutomationId, owner: UserId, now: nat)
    requires k < |Catalog.TEMPLATES|
    ensures var t := Catalog.TEMPLATES[k];
      var a := Store.NewAutomation(ActivationRequest(t), id, owner, now);
      a.name == t.name && a.trigger == t.trigger && a.action == t.action &&
      a.category == t.category && a.templateId == Some(t.id) &&
      a.timeSavedMinutes == t.timeSaved && a.status == STATUS_ACTIVE
  {
    var t := Catalog.TEMPLATES[k];
    Catalog.CatalogueEntriesComplete();
    assert t in Catalog.TEMPLATES;
    assert t.id != "" && t.category != "";
    assert Store.NamesTemplate(ActivationRequest(t), k);
    Store.NewAutomationFromTemplate(ActivationRequest(t), id, owner, now);
  }

  function TemplateVisible(filterCat: string, searchQ: string): Catalog.Template -> bool
  {
    (t: Catalog.Template) =>
      (filterCat == Catalog.ALL_CATEGORIES || t.category == filterCat) &&
      (searchQ == "" || Contains(Lower(t.name), Lower(searchQ)))
  }

  /** `filteredTemplates`: the templates in the chosen category (or all) whose
      lower-cased name contains the lower-cased query, in their order. */
  function FilteredTemplates(templates: seq<Catalog.Template>, filterCat: string, searchQ: string): (r: seq<Catalog.Template>)
    ensures IsSubsequence(r, templates)
    ensures forall t :: t in r <==>
      t in templates && (filterCat == Catalog.ALL_CATEGORIES || t.category == filterCat) &&
      Occurs(Lower(t.name), Lower(searchQ))
  {
    var p := TemplateVisible(filterCat, searchQ);
    FilterIsSubsequence(templates, p);
    forall t ensures t in Filter(templates, p) <==>
      t in templates && (filterCat == Catalog.ALL_CATEGORIES || t.category == filterCat) &&
      Occurs(Lower(t.name), Lower(searchQ)) {
      FilterMembership(templates, p, t);
      ContainsIffOccurs(Lower(t.name), Lower(searchQ));
      ContainsEmpty(Lower(t.name));
    }
    Filter(templates, p)
  }

  /** With the "all" category and an empty query every template is shown. */
  lemma FilteredTemplatesShowsAll(templates: seq<Catalog.Template>)
    ensures FilteredTemplates(templates, Catalog.ALL_CATEGORIES, "") == templates
  {
    FilterAll(templates, TemplateVisible(Catalog.ALL_CATEGORIES, ""));
  }

  // ------------------------------------------------------------ the page state

  /** The builder's `flowName` and `flowNodes` state. */
  class FlowBuilder {
    var flowName: string
    var flowNodes: seq<FlowNode>

    ghost predicate Valid()
      reads this
    {
      WellFormed(flowNodes)
    }

    constructor ()
      ensures Valid() && flowName == "" && flowNodes == INITIAL_FLOW
    {
      flowName, flowNodes := "", INITIAL_FLOW;
    }

    method AddNode()
      requires Valid()
      modifies this
      ensures Valid()
      ensures flowNodes == WithNewAction(old(flowNodes)) && flowName == old(flowName)
    {
      AddNodeSpec(flowNodes);
      flowNodes := WithNewAction(flowNodes);
    }

    method RemoveNode(id: int)
      requires Valid()
      modifies this
      ensures Valid()
      ensures flowNodes == WithoutNode(old(flowNodes), id) && flowName == old(flowName)
    {
      RemoveNodeSpec(flowNodes, id);
      if |flowNodes| <= 2 {
        return;
      }
      flowNodes := Filter(flowNodes, IdIsNot(id));
    }

    method UpdateNode(id: int, value: string)
      requires Valid()
      modifies this
      ensures Valid()
      ensures flowNodes == WithValue(old(flowNodes), id, value) && flowName == old(flowName)
    {
      UpdateNodeSpec(flowNodes, id, value);
      flowNodes := WithValue(flowNodes, id, value);
    }

    /** The page's load step: when the route names a template the fetched list
        has, its name and two-node flow replace the current ones. */
    method PreloadTemplate(templates: seq<Catalog.Template>, templateId: Option<string>)
      requires Valid()
      modifies this
      ensures Valid()
      ensures templateId.Some? && templateId.value != "" && Catalog.FindTemplate(templates, templateId.value).Some? ==>
        var t := Catalog.FindTemplate(templates, templateId.value).value;
        flowName == t.name && flowNodes == TemplateFlow(t)
      ensures !(templateId.Some? && templateId.value != "" && Catalog.FindTemplate(templates, templateId.value).Some?) ==>
        flowName == old(flowName) && flowNodes == old(flowNodes)
    {
      if templateId.Some? && templateId.value != "" {
        var found := Catalog.FindTemplate(templates, templateId.value);
        if found.Some? {
          flowName := found.value.name;
          flowNodes := TemplateFlow(found.value);
        }
      }
    }
  }
}
