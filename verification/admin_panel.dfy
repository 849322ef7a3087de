/** The simple admin panel: the section edit cycle with no guard on save,
    section creation, and title and subtitle edits that merge one field. */
module AdminPanel {
  import opened Wrappers
  import opened Json
  import JsText
  import opened ContentModel
  import opened SectionEditing

  /** `handleEditSection(section)`: the draft copies the title and content
      only; the section's images are not carried. */
  function StartEdit(panel: Panel, s: Section): (r: Action)
    ensures r.call.NoCall? && r.panel.activeTab == panel.activeTab
    ensures r.panel.editor.Editing? && r.panel.editor.sectionId == s.id
    ensures r.panel.editor.draft.title == s.title && r.panel.editor.draft.content == s.content
    ensures r.panel.editor.draft.images.None?
  {
    Action(panel.(editor := Editing(s.id, Draft(s.title, s.content, None))), NoCall)
  }

  /** `handleSaveSection`: always calls `updateSection` with the active tab,
      the slot (`null` when nothing is edited) and the form (`{}` then), and
      clears the slot. */
  function SaveSection(panel: Panel): (r: Action)
    ensures r.panel == Panel(panel.activeTab, Viewing)
    ensures r.call.EditCall? && r.call.edit.MergeSection? && r.call.edit.page == panel.activeTab
    ensures panel.editor.Editing? ==>
              r.call.edit.target == Some(panel.editor.sectionId)
              && r.call.edit.sectionPatch == DraftPatch(panel.editor.draft)
    ensures panel.editor.Viewing? ==>
              r.call.edit.target.None? && r.call.edit.sectionPatch == SectionPatch(None, None, None)
  {
    match panel.editor
    case Editing(id, d) => Action(Panel(panel.activeTab, Viewing), EditCall(MergeSection(panel.activeTab, Some(id), DraftPatch(d))))
    case Viewing => Action(Panel(panel.activeTab, Viewing), EditCall(MergeSection(panel.activeTab, None, SectionPatch(None, None, None))))
  }

  /** Saving with nothing being edited matches no section: on a page with
      sections the content is unchanged; on a page without them the call
      throws, as `updateSection` does. */
  lemma {:induction false} SaveWhileViewing(panel: Panel, c: Content)
    requires panel.editor.Viewing?
    ensures HasSections(c, panel.activeTab) ==> Apply(c, SaveSection(panel).call.edit) == Some(c)
    ensures !HasSections(c, panel.activeTab) ==> Apply(c, SaveSection(panel).call.edit).None?
  {
    if HasSections(c, panel.activeTab) {
      UpdateSectionNoMatch(c, panel.activeTab, None, SectionPatch(None, None, None));
    }
  }

  /** Starting an edit and saving at once leaves the content as it was, when
      every section of the tab with that id is the edited section: the
      images, not being in the draft, are left alone. */
  lemma {:induction false} EditThenSaveKeepsContent(panel: Panel, c: Content, s: Section)
    requires HasSections(c, panel.activeTab)
    requires forall k :: 0 <= k < |c[panel.activeTab].sections.value| &&
                         c[panel.activeTab].sections.value[k].id == s.id
                         ==> c[panel.activeTab].sections.value[k] == s
    ensures Apply(c, SaveSection(StartEdit(panel, s).panel).call.edit) == Some(c)
  {
    var tab := panel.activeTab;
    var patch := DraftPatch(StartEdit(panel, s).panel.editor.draft);
    var secs := c[tab].sections.value;
    var after := UpdateSection(c, tab, Some(s.id), patch).value;
    assert forall k :: 0 <= k < |secs| ==> after[tab].sections.value[k] == secs[k];
    assert after[tab].sections.value == secs;
    assert after[tab] == c[tab];
    assert after == c;
  }

  /** `handleAddSection` at clock value `now`: appends a section with id
      "new-section-" followed by the clock value, a placeholder title and
      text, and no image list, to the active tab. */
  function AddSectionAt(panel: Panel, now: int): (r: Action)
    ensures r.panel == panel
    ensures r.call.EditCall? && r.call.edit.Append? && r.call.edit.page == panel.activeTab
    ensures |r.call.edit.section.id| > 12 && r.call.edit.section.id[..12] == "new-section-"
    ensures JsText.ParseInt(r.call.edit.section.id[12..]) == Some(now)
    ensures r.call.edit.section.title == "New Section"
    ensures r.call.edit.section.content == "Enter your content here..."
    ensures r.call.edit.section.images.None?
  {
    JsText.ParseIntOfIntToString(now);
    var s := Section("new-section-" + JsText.IntToString(now), "New Section", "Enter your content here...", None);
    assert s.id[12..] == JsText.IntToString(now);
    Action(panel, EditCall(Append(panel.activeTab, s)))
  }

  /** `handleUpdateTitle(title)`: merges `{title}` alone into the active tab,
      so its subtitle and sections are kept, and every other page too. */
  function UpdateTitle(panel: Panel, title: string): (r: Action)
    ensures r.panel == panel
    ensures r.call.EditCall? && r.call.edit.MergeDocument? && r.call.edit.page == panel.activeTab
    ensures forall c: Content :: var after := Apply(c, r.call.edit).value;
      && after[panel.activeTab].title == Some(title)
      && after[panel.activeTab].subtitle == Lookup(c, panel.activeTab).subtitle
      && after[panel.activeTab].sections == Lookup(c, panel.activeTab).sections
      && (forall q :: q in c && q != panel.activeTab ==> q in after && after[q] == c[q])
  {
    Action(panel, EditCall(MergeDocument(panel.activeTab, Document(Some(title), None, None))))
  }

  /** `handleUpdateSubtitle(subtitle)`: merges `{subtitle}` alone. */
  function UpdateSubtitle(panel: Panel, subtitle: string): (r: Action)
    ensures r.panel == panel
    ensures r.call.EditCall? && r.call.edit.MergeDocument? && r.call.edit.page == panel.activeTab
    ensures forall c: Content :: var after := Apply(c, r.call.edit).value;
      && after[panel.activeTab].subtitle == Some(subtitle)
      && after[panel.activeTab].title == Lookup(c, panel.activeTab).title
      && after[panel.activeTab].sections == Lookup(c, panel.activeTab).sections
      && (forall q :: q in c && q != panel.activeTab ==> q in after && after[q] == c[q])
  {
    Action(panel, EditCall(MergeDocument(panel.activeTab, Document(None, Some(subtitle), None))))
  }
}
