/** The state both admin panels keep: the active tab and the single
    `editingSection` slot with its draft (`editForm`). A handler yields the
    new panel state and the call it makes into the content context. */
module SectionEditing {
  import opened Wrappers
  import opened Json
  import opened ContentModel

  /** The tabs both panels show, by page name. */
  const ContentTabs: seq<string> := ["technicalWhitepaper", "architectureOverview", "xandeumIntegration", "financialFeatures"]

  /** `editForm` while a section is being edited; the simple panel never
      sets `images`. */
  datatype Draft = Draft(title: string, content: string, images: Option<seq<Image>>)

  /** `editingSection` together with `editForm`: nothing is being edited
      (`null` and `{}`), or the section with this id is. */
  datatype Editor = Viewing | Editing(sectionId: string, draft: Draft)

  datatype Panel = Panel(activeTab: string, editor: Editor)

  /** The state on mount: the first tab, nothing being edited. */
  const InitialPanel := Panel(ContentTabs[0], Viewing)

  /** The panel after a handler and the context call the handler made. */
  datatype Action = Action(panel: Panel, call: Call)

  /** The section merge a draft amounts to: `{title, content}` plus `images`
      when the draft has them. */
  function DraftPatch(d: Draft): SectionPatch {
    SectionPatch(Some(d.title), Some(d.content), d.images)
  }

  /** Selecting a tab; the editing slot is kept as it is. */
  function SelectTab(panel: Panel, tab: string): (r: Action)
    ensures r.panel.activeTab == tab && r.panel.editor == panel.editor && r.call.NoCall?
  {
    Action(panel.(activeTab := tab), NoCall)
  }

  /** Typing into the draft's title or content field: the draft changes and
      nothing is saved. The fields are only shown while editing. */
  function EditDraft(panel: Panel, title: Option<string>, content: Option<string>): (r: Action)
    ensures r.call.NoCall? && r.panel.activeTab == panel.activeTab
    ensures panel.editor.Viewing? ==> r.panel == panel
    ensures panel.editor.Editing? ==>
      && r.panel.editor.Editing? && r.panel.editor.sectionId == panel.editor.sectionId
      && r.panel.editor.draft.title == title.GetOr(panel.editor.draft.title)
      && r.panel.editor.draft.content == content.GetOr(panel.editor.draft.content)
      && r.panel.editor.draft.images == panel.editor.draft.images
  {
    match panel.editor
    case Viewing => Action(panel, NoCall)
    case Editing(id, d) =>
      Action(panel.(editor := Editing(id, d.(title := title.GetOr(d.title), content := content.GetOr(d.content)))), NoCall)
  }

  /** Cancelling an edit: the slot is cleared and no content call is made. */
  function CancelEdit(panel: Panel): (r: Action)
    ensures r.panel == Panel(panel.activeTab, Viewing) && r.call.NoCall?
  {
    Action(Panel(panel.activeTab, Viewing), NoCall)
  }

  /** `handleDeleteSection(id)`: deletes from the active tab only when the
      confirmation dialog is accepted. */
  function DeleteSectionConfirmed(panel: Panel, id: string, confirmed: bool): (r: Action)
    ensures r.panel == panel
    ensures r.call.NoCall? <==> !confirmed
    ensures confirmed ==> r.call == EditCall(Delete(panel.activeTab, id))
  {
    Action(panel, if confirmed then EditCall(Delete(panel.activeTab, id)) else NoCall)
  }

  /** `handleReset`: resets the content only when confirmed. */
  function ResetConfirmed(panel: Panel, confirmed: bool): (r: Action)
    ensures r.panel == panel
    ensures confirmed ==> r.call.ResetCall?
    ensures !confirmed ==> r.call.NoCall?
  {
    Action(panel, if confirmed then ResetCall else NoCall)
  }

  /** Cancelling makes no context call, so the provider is left exactly as it
      was, whatever was being edited. */
  lemma {:induction false} CancelLeavesContent(panel: Panel, p: Provider)
    ensures Dispatch(p, CancelEdit(panel).call) == Some(Reply(p, true))
  {
  }

  /** A delete that was not confirmed leaves the provider as it was; a
      confirmed one on a page with sections removes exactly that id. */
  lemma {:induction false} DeleteConfirmation(panel: Panel, p: Provider, id: string, confirmed: bool)
    ensures !confirmed ==> Dispatch(p, DeleteSectionConfirmed(panel, id, confirmed).call) == Some(Reply(p, true))
    ensures confirmed && HasSections(p.content, panel.activeTab) ==>
      var r := Dispatch(p, DeleteSectionConfirmed(panel, id, confirmed).call);
      && r.Some?
      && r.value.provider.content[panel.activeTab].sections
           == Some(RemoveId(p.content[panel.activeTab].sections.value, id))
  {
  }

  /** `handleImport` reading the file: the chosen file's text is handed to
      the context (no file chosen, no call). */
  function ImportFile(panel: Panel, fileText: Option<Text<Content>>): (r: Action)
    ensures r.panel == panel
    ensures fileText.Some? ==> r.call == ImportCall(fileText.value)
    ensures fileText.None? ==> r.call.NoCall?
  {
    Action(panel, match fileText case Some(t) => ImportCall(t) case None => NoCall)
  }

  /** Importing a file a context exported shows that content;
      importing unparseable text reports failure and changes nothing. */
  lemma {:induction false} ImportFileOutcome(panel: Panel, source: Provider, p: Provider, raw: string)
    ensures var r := Dispatch(p, ImportFile(panel, Some(Export(source))).call);
      r.Some? && r.value.ok && r.value.provider.content == source.content
    ensures Dispatch(p, ImportFile(panel, Some(Malformed(raw))).call) == Some(Reply(p, false))
  {
  }
}
