/** The two roadmap pages as stateful views over browser storage: the
    original page (`RoadmapPageUpdated`, key "roadmapData") and the enhanced
    page (`RoadmapPageEnhanced`, key "xandeum-roadmap-data"). Each keeps one
    roadmap document, writes it back under its own key after every change,
    stamps every change with the current date, and imports and exports the
    document as a file. The date is a parameter (`today`). */
module RoadmapPages {
  import opened Wrappers
  import opened Json
  import opened RoadmapTasks
  import TaskEditModal
  import QuarterManager

  datatype Variant = Updated | Enhanced

  function StorageKey(v: Variant): string {
    match v
    case Updated => "roadmapData"
    case Enhanced => "xandeum-roadmap-data"
  }

  /** The quarters each page ships with (`initialRoadmapData.quarters`). */
  const UpdatedSeedQuarters: seq<Quarter> := [
    Quarter("q1-2026", "Q1 2026", [
      Task("project-setup", "Project Setup & Infrastructure", "Development environment, CI/CD pipeline, security framework", "Foundation", 100, None),
      Task("xandeum-storage", "Xandeum Storage Abstraction", "Storage simulation layer with Xandeum primitives", "Foundation", 85, None),
      Task("authentication", "Authentication System", "User management with blockchain identity support", "Foundation", 90, None),
      Task("core-ui", "Core UI Components", "Design system and responsive component library", "Frontend", 75, None)
    ]),
    Quarter("q2-2026", "Q2 2026", [
      Task("transaction-engine", "Transaction Processing Engine", "Data ingestion, categorization, and duplicate detection", "Financial", 60, None),
      Task("account-aggregation", "Account Aggregation System", "Financial institution connectors and data sync", "Financial", 45, None),
      Task("basic-dashboard", "Basic Financial Dashboard", "Account overview and transaction displays", "Frontend", 70, None),
      Task("data-encryption", "Data Encryption Framework", "Client-side encryption and key management", "Foundation", 80, None)
    ]),
    Quarter("q3-2026", "Q3 2026", [
      Task("investment-tracking", "Investment Portfolio Tracking", "Position tracking and performance analytics", "Analytics", 30, None),
      Task("financial-health", "Financial Health Assessment", "Health scoring and cash flow analysis", "Analytics", 25, None),
      Task("goal-management", "Goal Management System", "Goal setting, tracking, and progress monitoring", "Financial", 20, None),
      Task("advanced-ui", "Advanced UI Features", "Interactive charts and data visualizations", "Frontend", 40, None)
    ]),
    Quarter("q4-2026", "Q4 2026", [
      Task("predictive-analytics", "Predictive Analytics Engine", "Spending prediction and income forecasting", "Analytics", 15, None),
      Task("crypto-integration", "Cryptocurrency Integration", "Exchange APIs and crypto portfolio tracking", "Xandeum", 10, None),
      Task("performance-optimization", "Performance Optimization", "Scalability improvements and caching", "Foundation", 5, None),
      Task("beta-testing", "Beta Testing Program", "User testing and feedback incorporation", "Foundation", 0, None)
    ]),
    Quarter("q1-2027", "Q1 2027", [
      Task("xandeum-api", "Xandeum API Integration", "Migration from simulation to actual Xandeum storage", "Xandeum", 0, None),
      Task("smart-contracts", "Smart Contract Automation", "Automated financial rules and triggers", "Xandeum", 0, None),
      Task("security-audit", "Advanced Security Audit", "Comprehensive security testing and validation", "Foundation", 0, None),
      Task("mobile-app", "Mobile Application", "Native mobile app development", "Frontend", 0, None)
    ]),
    Quarter("q2-2027", "Q2 2027", [
      Task("ai-recommendations", "AI-Powered Recommendations", "Machine learning for personalized insights", "Analytics", 0, None),
      Task("decentralized-identity", "Decentralized Identity", "Full blockchain identity integration", "Xandeum", 0, None),
      Task("advanced-analytics", "Advanced Analytics Dashboard", "Sophisticated financial modeling and forecasting", "Analytics", 0, None),
      Task("public-beta", "Public Beta Launch", "Open beta with community feedback", "Frontend", 0, None)
    ]),
    Quarter("q3-2027", "Q3 2027", [
      Task("production-launch", "Production Launch", "Full public release with marketing campaign", "Foundation", 0, None),
      Task("enterprise-features", "Enterprise Features", "Business financial management capabilities", "Financial", 0, None),
      Task("global-expansion", "Global Expansion", "Internationalization and localization", "Foundation", 0, None),
      Task("developer-api", "Developer API", "Public API for third-party integrations", "Foundation", 0, None)
    ])
  ]

  const EnhancedSeedQuarters: seq<Quarter> := [
    Quarter("q1-2026", "Q1 2026", [
      Task("project-setup", "Project Setup & Infrastructure", "Development environment, CI/CD pipeline, security framework", "Foundation", 100, None),
      Task("xandeum-storage", "Xandeum Storage Abstraction", "Storage simulation layer with Xandeum primitives", "Foundation", 85, None),
      Task("authentication", "Authentication System", "User management with blockchain identity support", "Foundation", 90, None),
      Task("core-ui", "Core UI Components", "Design system and responsive component library", "Frontend", 75, None)
    ]),
    Quarter("q2-2026", "Q2 2026", [
      Task("transaction-engine", "Transaction Processing Engine", "Data ingestion, categorization, and duplicate detection", "Financial", 60, None),
      Task("account-aggregation", "Account Aggregation System", "Financial institution connectors and data sync", "Financial", 45, None),
      Task("financial-dashboard", "Basic Financial Dashboard", "Account overview and transaction displays", "Financial", 70, None),
      Task("data-encryption", "Data Encryption Framework", "Client-side encryption and key management", "Foundation", 80, None)
    ]),
    Quarter("q3-2026", "Q3 2026", [
      Task("investment-tracking", "Investment Portfolio Tracking", "Position tracking and performance analytics", "Analytics", 30, None),
      Task("financial-health", "Financial Health Assessment", "Health scoring and cash flow analysis", "Analytics", 25, None),
      Task("goal-management", "Goal Management System", "Goal setting, tracking, and progress monitoring", "Financial", 20, None),
      Task("advanced-ui", "Advanced UI Features", "Interactive charts and data visualizations", "Frontend", 40, None)
    ])
  ]

  /** `initialRoadmapData`: the shipped quarters, stamped with the date the
      page was loaded. */
  function InitialRoadmap(v: Variant, today: string): (r: Roadmap)
    ensures r.lastUpdated == today
    ensures v.Updated? ==> |r.quarters| == 7
    ensures v.Enhanced? ==> |r.quarters| == 3
  {
    Roadmap(today, if v.Updated? then UpdatedSeedQuarters else EnhancedSeedQuarters)
  }

  /** Every shipped task has a truthy id, so the dialog edits it in place,
      and within a quarter no two shipped tasks share an id, so an edit
      replaces exactly one task. */
  lemma {:induction false} ShippedTasksHaveDistinctIds(v: Variant, today: string)
    ensures var qs := InitialRoadmap(v, today).quarters;
      forall i, k :: 0 <= i < |qs| && 0 <= k < |qs[i].tasks| ==> qs[i].tasks[k].id != ""
    ensures var qs := InitialRoadmap(v, today).quarters;
      forall i, k, l :: 0 <= i < |qs| && 0 <= k < l < |qs[i].tasks| ==> qs[i].tasks[k].id != qs[i].tasks[l].id
  {
    ShippedTaskIdsTruthy(v, today);
    ShippedTaskIdsDistinct(v, today);
  }

  lemma {:induction false} ShippedTaskIdsTruthy(v: Variant, today: string)
    ensures var qs := InitialRoadmap(v, today).quarters;
      forall i, k :: 0 <= i < |qs| && 0 <= k < |qs[i].tasks| ==> qs[i].tasks[k].id != ""
  {
  }

  lemma {:induction false} ShippedTaskIdsDistinct(v: Variant, today: string)
    ensures var qs := InitialRoadmap(v, today).quarters;
      forall i, k, l :: 0 <= i < |qs| && 0 <= k < l < |qs[i].tasks| ==> qs[i].tasks[k].id != qs[i].tasks[l].id
  {
  }


  datatype Page = Page(variant: Variant, data: Roadmap, storage: Medium<Roadmap>)

  /** The save-on-change effect: the roadmap is written under the page's
      key, and no other key is touched. */
  function Persist(v: Variant, storage: Medium<Roadmap>, data: Roadmap): (s: Medium<Roadmap>)
    ensures s.Keys == storage.Keys + {StorageKey(v)}
    ensures Parse(s[StorageKey(v)]) == Some(data)
    ensures forall k :: k in storage && k != StorageKey(v) ==> s[k] == storage[k]
  {
    storage[StorageKey(v) := Stringify(data)]
  }

  /** Stored text that is present and non-empty, if any. */
  function Stored(v: Variant, storage: Medium<Roadmap>): Option<Text<Roadmap>> {
    if StorageKey(v) in storage && TextTruthy(storage[StorageKey(v)]) then Some(storage[StorageKey(v)]) else None
  }

  /** Mounting a page. Stored text that parses is shown; a missing or empty
      entry leaves the shipped roadmap. Text that does not parse makes the
      original page throw while rendering (`None`: its lazy initial state
      calls `JSON.parse` unguarded), while the enhanced page catches the
      error and keeps the shipped roadmap. Either way the shown roadmap is
      then written back. */
  function Mount(v: Variant, storage: Medium<Roadmap>, today: string): (r: Option<Page>)
    ensures r.None? <==> v.Updated? && Stored(v, storage).Some? && Stored(v, storage).value.Malformed?
    ensures r.Some? ==>
      && r.value.variant == v
      && r.value.storage == Persist(v, storage, r.value.data)
      && (Stored(v, storage).Some? && Stored(v, storage).value.Encoded? ==> r.value.data == Stored(v, storage).value.value)
      && (!(Stored(v, storage).Some? && Stored(v, storage).value.Encoded?) ==> r.value.data == InitialRoadmap(v, today))
  {
    match Stored(v, storage)
    case None => Some(Page(v, InitialRoadmap(v, today), Persist(v, storage, InitialRoadmap(v, today))))
    case Some(Encoded(data)) => Some(Page(v, data, Persist(v, storage, data)))
    case Some(Malformed(_)) =>
      if v.Updated? then None
      else Some(Page(v, InitialRoadmap(v, today), Persist(v, storage, InitialRoadmap(v, today))))
  }

  /** A change of quarters through the page: the new quarters are shown,
      `updateLastUpdated` stamps the date, and the save effect writes the
      result back. */
  function Commit(p: Page, quarters: seq<Quarter>, today: string): (r: Page)
    ensures r.variant == p.variant
    ensures r.data == Roadmap(today, quarters)
    ensures r.storage == Persist(p.variant, p.storage, r.data)
  {
    var data := Roadmap(today, quarters);
    Page(p.variant, data, Persist(p.variant, p.storage, data))
  }

  /** `saveTask(taskData)`: the page's own upsert, then the stamp. */
  function SaveTask(p: Page, d: TaskData, today: string): (r: Page)
    ensures r.data.lastUpdated == today && r.variant == p.variant
    ensures p.variant.Updated? ==> r.data.quarters == SaveTaskUpdated(p.data.quarters, d)
    ensures p.variant.Enhanced? ==> r.data.quarters == SaveTaskEnhanced(p.data.quarters, d)
    ensures r.storage == Persist(p.variant, p.storage, r.data)
  {
    Commit(p, if p.variant.Updated? then SaveTaskUpdated(p.data.quarters, d) else SaveTaskEnhanced(p.data.quarters, d), today)
  }

  /** `deleteTask(taskData)`: the task's id goes from the task's quarter,
      then the stamp. */
  function DeleteTask(p: Page, d: TaskData, today: string): (r: Page)
    ensures r.data == Roadmap(today, RoadmapTasks.DeleteTask(p.data.quarters, d.quarterId, d.id))
    ensures r.variant == p.variant && r.storage == Persist(p.variant, p.storage, r.data)
  {
    Commit(p, RoadmapTasks.DeleteTask(p.data.quarters, d.quarterId, d.id), today)
  }

  /** The delete button on a task card of the original page: deletes at
      once, without confirmation, from the quarter the card sits in. Only
      the original page's cards have this button (the enhanced page's cards
      offer only Edit), so only that page reaches this handler. */
  function CardDelete(p: Page, t: Task, quarterId: string, today: string): (r: Page)
    ensures r.data == Roadmap(today, RoadmapTasks.DeleteTask(p.data.quarters, Some(quarterId), Some(t.id)))
    ensures r.storage == Persist(p.variant, p.storage, r.data)
  {
    DeleteTask(p, TaskData(Some(t.id), t.title, t.description, t.category, t.progress, Some(quarterId)), today)
  }

  /** `onUpdateQuarters`: a quarter-manager handler that hands over a new
      quarter list replaces the quarters and stamps the date; one that hands
      over nothing leaves the page as it was. */
  function ManageQuarters(p: Page, a: QuarterManager.Action, today: string): (r: Page)
    ensures a.update.None? ==> r == p
    ensures a.update.Some? ==> r.data == Roadmap(today, a.update.value)
    ensures a.update.Some? ==> r.storage == Persist(p.variant, p.storage, r.data)
  {
    match a.update
    case None => p
    case Some(qs) => Commit(p, qs, today)
  }

  /** The props each page gives the task dialog; the original page's are the
      corrected ones (see `TaskEditModal.UpdatedDialogNeverOpens`). */
  function DialogProps(v: Variant): TaskEditModal.Props {
    if v.Updated? then TaskEditModal.UpdatedProps else TaskEditModal.EnhancedProps
  }

  /** Submitting the dialog: a blank title saves nothing; otherwise the
      page's `saveTask` runs on what the dialog hands over. */
  function DialogSave(p: Page, seed: TaskEditModal.Seed, f: TaskEditModal.Form, today: string): (r: Page)
    ensures TaskEditModal.Submit(seed, f).None? ==> r == p
    ensures TaskEditModal.Submit(seed, f).Some? ==> r == SaveTask(p, TaskEditModal.Submit(seed, f).value, today)
  {
    match TaskEditModal.Submit(seed, f)
    case None => p
    case Some(d) => SaveTask(p, d, today)
  }

  /** The dialog's delete button: without confirmation nothing changes;
      once confirmed the page deletes the seed's task. A dialog with no
      delete handler would throw (`None`); the original page as written
      gives none, but `DialogProps` models it with the corrected props, which
      include one. */
  function DialogDelete(p: Page, seed: TaskEditModal.Seed, confirmed: bool, today: string): (r: Option<Page>)
    ensures r.Some?
    ensures !(confirmed && TaskEditModal.Deletable(seed)) ==> r == Some(p)
    ensures confirmed && TaskEditModal.Deletable(seed) ==>
      r == Some(DeleteTask(p, TaskData(Some(seed.base.value.id), seed.base.value.title, seed.base.value.description,
                                       seed.base.value.category, seed.base.value.progress, Some(seed.quarterId)), today))
  {
    match TaskEditModal.ConfirmDelete(DialogProps(p.variant), seed, confirmed)
    case NoDelete => Some(p)
    case DeleteCall(d) => Some(DeleteTask(p, d, today))
    case Crash => None
  }

  datatype Imported = Imported(page: Page, ok: bool)

  /** `importConfig`: the chosen file's text, when it parses, replaces the
      roadmap wholesale (the enhanced page then stamps the date) and is
      written back; unparseable text leaves the page as it was, and so does
      choosing no file. */
  function Import(p: Page, file: Option<Text<Roadmap>>, today: string): (r: Imported)
    ensures r.ok <==> file.Some? && Parse(file.value).Some?
    ensures !r.ok ==> r.page == p
    ensures r.ok && p.variant.Updated? ==> r.page.data == Parse(file.value).value
    ensures r.ok && p.variant.Enhanced? ==> r.page.data == Parse(file.value).value.(lastUpdated := today)
    ensures r.ok ==> r.page.variant == p.variant && r.page.storage == Persist(p.variant, p.storage, r.page.data)
  {
    match file
    case None => Imported(p, false)
    case Some(t) =>
      match Parse(t)
      case None => Imported(p, false)
      case Some(data) =>
        var shown := if p.variant.Updated? then data else data.(lastUpdated := today);
        Imported(Page(p.variant, shown, Persist(p.variant, p.storage, shown)), true)
  }

  /** `exportConfig`: the serialized roadmap (the download is browser I/O). */
  function Export(p: Page): (t: Text<Roadmap>)
    ensures Parse(t) == Some(p.data)
  {
    Stringify(p.data)
  }

  /** Importing an exported file into either page shows the exported
      roadmap: exactly on the original page, and with the import date as
      its stamp on the enhanced page. */
  lemma {:induction false} ExportImportRoundTrip(p: Page, q: Page, today: string)
    ensures Import(q, Some(Export(p)), today).ok
    ensures q.variant.Updated? ==> Import(q, Some(Export(p)), today).page.data == p.data
    ensures q.variant.Enhanced? ==>
      Import(q, Some(Export(p)), today).page.data == Roadmap(today, p.data.quarters)
  {
  }

  /** The page's invariant: storage holds, under the page's key, exactly
      the roadmap shown. */
  predicate Mirrored(p: Page) {
    StorageKey(p.variant) in p.storage && p.storage[StorageKey(p.variant)] == Encoded(p.data)
  }

  /** Mounting establishes the invariant and every handler keeps it. */
  lemma {:induction false} MirroredPreserved(p: Page, v: Variant, storage: Medium<Roadmap>, d: TaskData, a: QuarterManager.Action,
                          seed: TaskEditModal.Seed, f: TaskEditModal.Form, confirmed: bool,
                          file: Option<Text<Roadmap>>, today: string)
    requires Mirrored(p)
    ensures Mount(v, storage, today).Some? ==> Mirrored(Mount(v, storage, today).value)
    ensures Mirrored(SaveTask(p, d, today))
    ensures Mirrored(DeleteTask(p, d, today))
    ensures Mirrored(ManageQuarters(p, a, today))
    ensures Mirrored(DialogSave(p, seed, f, today))
    ensures Mirrored(DialogDelete(p, seed, confirmed, today).value)
    ensures Mirrored(Import(p, file, today).page)
  {
    MirroredAfterMount(v, storage, today);
    MirroredAfterTaskEdits(p, d, seed, f, confirmed, today);
    MirroredAfterQuartersAndImport(p, a, file, today);
  }

  lemma {:induction false} MirroredAfterQuartersAndImport(p: Page, a: QuarterManager.Action,
                                                          file: Option<Text<Roadmap>>, today: string)
    requires Mirrored(p)
    ensures Mirrored(ManageQuarters(p, a, today))
    ensures Mirrored(Import(p, file, today).page)
  {
  }

  lemma {:induction false} MirroredAfterMount(v: Variant, storage: Medium<Roadmap>, today: string)
    ensures Mount(v, storage, today).Some? ==> Mirrored(Mount(v, storage, today).value)
  {
  }

  lemma {:induction false} MirroredAfterTaskEdits(p: Page, d: TaskData, seed: TaskEditModal.Seed, f: TaskEditModal.Form,
                                                  confirmed: bool, today: string)
    requires Mirrored(p)
    ensures Mirrored(SaveTask(p, d, today))
    ensures Mirrored(DeleteTask(p, d, today))
    ensures Mirrored(DialogSave(p, seed, f, today))
    ensures Mirrored(DialogDelete(p, seed, confirmed, today).value)
  {
  }

  /** Reloading from the storage a page leaves behind shows the same
      roadmap, stamp included, whatever the date of the reload. */
  lemma {:induction false} ReloadShowsSameRoadmap(p: Page, later: string)
    requires Mirrored(p)
    ensures Mount(p.variant, p.storage, later) == Some(Page(p.variant, p.data, p.storage))
  {
    assert p.storage[StorageKey(p.variant) := Encoded(p.data)] == p.storage;
  }

  /** The two pages keep their documents apart: whatever one page writes,
      the other page mounts exactly as it would have without it. */
  lemma {:induction false} PagesKeepApart(v: Variant, w: Variant, storage: Medium<Roadmap>, data: Roadmap, today: string)
    requires v != w
    ensures Mount(w, Persist(v, storage, data), today).Some? == Mount(w, storage, today).Some?
    ensures Mount(w, Persist(v, storage, data), today).Some? ==>
      Mount(w, Persist(v, storage, data), today).value.data == Mount(w, storage, today).value.data
  {
    assert StorageKey(v) != StorageKey(w);
    assert Stored(w, Persist(v, storage, data)) == Stored(w, storage);
  }

  /** The original page cannot recover from unparseable stored text on its
      own: every mount throws until the entry is removed or replaced, while
      the enhanced page falls back to the shipped roadmap and overwrites the
      entry. */
  lemma {:induction false} MalformedStorage(storage: Medium<Roadmap>, raw: string, today: string)
    requires raw != ""
    ensures Mount(Updated, storage[StorageKey(Updated) := Malformed(raw)], today).None?
    ensures var r := Mount(Enhanced, storage[StorageKey(Enhanced) := Malformed(raw)], today);
      r.Some? && r.value.data == InitialRoadmap(Enhanced, today) && Mirrored(r.value)
  {
  }
}
