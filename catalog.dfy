/** The fixed template catalogue the server ships (`TEMPLATES`), the
    `GET /templates` category filter, and the first-match lookup by id that both
    the server (`next(...)`) and the builder page (`Array.prototype.find`) use. */
module Catalog {
  import opened Wrappers
  import opened Seqs

  /** A predefined automation blueprint; `timeSaved` is in minutes. */
  datatype Template = Template(
    id: string,
    name: string,
    description: string,
    category: string,
    trigger: string,
    action: string,
    timeSaved: nat,
    icon: string)

  const TEMPLATES: seq<Template> :=
    [
      Template("t1", "Auto-sync leads from Gmail to CRM", "Automatically capture new leads from emails and push to your CRM", "sales", "New email with lead info", "Create CRM contact", 45, "mail"),
      Template("t2", "Extract invoice data from PDFs", "Parse PDF invoices and populate spreadsheets automatically", "finance", "New PDF in Drive", "Extract data to Sheets", 60, "file-text"),
      Template("t3", "New employee onboarding docs", "Send welcome docs to folder and notify team on Slack", "hr", "New employee added", "Send docs + Slack alert", 30, "users"),
      Template("t4", "Weekly report to Slack", "Compile weekly metrics and post summary to your Slack channel", "marketing", "Every Monday 9 AM", "Post report to Slack", 20, "bar-chart"),
      Template("t5", "Sync inventory across platforms", "Keep inventory levels updated across all your selling platforms", "operations", "Inventory change", "Update all platforms", 90, "package"),
      Template("t6", "Auto-respond to customer queries", "AI reads customer emails and drafts responses for review", "sales", "New customer email", "Draft AI response", 35, "message-square"),
      Template("t7", "Expense report generation", "Collect receipts from email, categorize, and generate monthly report", "finance", "End of month", "Generate expense report", 120, "credit-card"),
      Template("t8", "Social media scheduling", "Queue posts across platforms from a single spreadsheet", "marketing", "New row in spreadsheet", "Schedule social posts", 40, "share-2"),
      Template("t9", "Meeting notes to tasks", "Transcribe meetings and create action items in project management tool", "operations", "Meeting ends", "Create tasks from notes", 25, "clipboard"),
      Template("t10", "PTO request workflow", "Route PTO requests for approval and update team calendar", "hr", "PTO form submitted", "Route for approval", 15, "calendar"),
      Template("t11", "Daily standup summary", "Collect team updates and post daily summary to channel", "operations", "Daily at 10 AM", "Post summary to Slack", 15, "clock"),
      Template("t12", "Lead scoring automation", "Score incoming leads based on engagement and notify sales team", "sales", "New lead activity", "Score + notify team", 50, "target")
    ]

  /** The category filter value that bypasses filtering, both in `GET /templates` and in the builder's template list. */
  const ALL_CATEGORIES := "all"

  function InCategory(category: string): Template -> bool
  {
    (t: Template) => t.category == category
  }

  /** `GET /templates?category=...`: an absent or empty category, or "all",
      returns the whole catalogue; any other value returns the templates of
      that category, in catalogue order. */
  function GetTemplates(category: Option<string>): (r: seq<Template>)
    ensures (category.None? || category.value == "" || category.value == ALL_CATEGORIES) ==> r == TEMPLATES
    ensures category.Some? && category.value != "" && category.value != ALL_CATEGORIES ==>
      IsSubsequence(r, TEMPLATES) &&
      forall t :: t in r <==> t in TEMPLATES && t.category == category.value
  {
    if category.Some? && category.value != "" && category.value != ALL_CATEGORIES then
      OfCategory(TEMPLATES, category.value)
    else
      TEMPLATES
  }

  /** The entries of `templates` in category `c`, in their order. */
  function OfCategory(templates: seq<Template>, c: string): (r: seq<Template>)
    ensures IsSubsequence(r, templates)
    ensures forall t :: t in r <==> t in templates && t.category == c
  {
    FilterIsSubsequence(templates, InCategory(c));
    assert forall t :: t in Filter(templates, InCategory(c)) <==> t in templates && t.category == c by {
      forall t { FilterMembership(templates, InCategory(c), t); }
    }
    Filter(templates, InCategory(c))
  }

  /** The first template whose id is `id`, if any. */
  function FindTemplate(templates: seq<Template>, id: string): (r: Option<Template>)
    ensures r.None? <==> forall i :: 0 <= i < |templates| ==> templates[i].id != id
    ensures r.Some? ==> exists i :: 0 <= i < |templates| && templates[i] == r.value && templates[i].id == id &&
                                    forall j :: 0 <= j < i ==> templates[j].id != id
  {
    if templates == [] then None
    else if templates[0].id == id then Some(templates[0])
    else
      var r := FindTemplate(templates[1..], id);
      assert r.Some? ==> exists k :: 0 < k < |templates| && templates[k] == r.value && templates[k].id == id &&
                                     forall j :: 0 <= j < k ==> templates[j].id != id by {
        if r.Some? {
          var i :| 0 <= i < |templates[1..]| && templates[1..][i] == r.value && templates[1..][i].id == id &&
                   forall j :: 0 <= j < i ==> templates[1..][j].id != id;
          assert forall j :: 0 <= j < i + 1 ==> templates[j].id != id by {
            forall j | 0 <= j < i + 1 ensures templates[j].id != id {
              if j > 0 { assert templates[j] == templates[1..][j - 1]; }
            }
          }
        }
      }
      r
  }

  /** No two catalogue entries share an id. */
  lemma CatalogueIdsUnique()
    ensures forall i, j :: 0 <= i < j < |TEMPLATES| ==> TEMPLATES[i].id != TEMPLATES[j].id
  {
  }

  /** In a list without repeated ids, looking an entry up by its own id finds that entry. */
  lemma FindUnique(templates: seq<Template>, k: nat)
    requires k < |templates|
    requires forall i, j :: 0 <= i < j < |templates| ==> templates[i].id != templates[j].id
    ensures FindTemplate(templates, templates[k].id) == Some(templates[k])
  {
  }

  /** In a list without repeated ids, looking up an id finds the one entry carrying it. */
  lemma FindByUniqueId(templates: seq<Template>, id: string)
    requires forall i, j :: 0 <= i < j < |templates| ==> templates[i].id != templates[j].id
    ensures forall k :: 0 <= k < |templates| && templates[k].id == id ==> FindTemplate(templates, id) == Some(templates[k])
  {
    forall k | 0 <= k < |templates| && templates[k].id == id
      ensures FindTemplate(templates, id) == Some(templates[k])
    {
      FindUnique(templates, k);
    }
  }

  /** Every catalogue entry has a non-empty id, category, trigger and action, and saves some time. */
  lemma CatalogueEntriesComplete()
    ensures forall t :: t in TEMPLATES ==>
      t.id != "" && t.category != "" && t.trigger != "" && t.action != "" && t.timeSaved > 0
  {
  }
}
