/** The image-capable admin panel: the section edit cycle guarded by a
    truthy `editingSection`, section creation, the draft's image list, the
    title and subtitle fields, and import. */
module EnhancedAdminPanel {
  import opened Wrappers
  import opened Json
  import JsText
  import opened ContentModel
  import opened SectionEditing

  /** `handleEditSection(section)`: the slot takes the section's id and the
      draft its title, content and images, with absent images as []. */
  function StartEdit(panel: Panel, s: Section): (r: Action)
    ensures r.call.NoCall? && r.panel.activeTab == panel.activeTab
    ensures r.panel.editor.Editing? && r.panel.editor.sectionId == s.id
    ensures r.panel.editor.draft.title == s.title && r.panel.editor.draft.content == s.content
    ensures r.panel.editor.draft.images.Some?
    ensures s.images.Some? ==> r.panel.editor.draft.images == s.images
    ensures s.images.None? ==> r.panel.editor.draft.images == Some([])
  {
    Action(panel.(editor := Editing(s.id, Draft(s.title, s.content, Some(s.images.GetOr([]))))), NoCall)
  }

  /** Whether the `if (editingSection)` guard passes: a section is being
      edited and its id is not the empty string. */
  predicate Armed(panel: Panel) {
    panel.editor.Editing? && panel.editor.sectionId != ""
  }

  /** `handleSaveSection`: with the guard passing, the draft is merged into
      the sections of the active tab with the edited id and the slot is
      cleared; otherwise nothing happens at all (a section whose id is ""
      stays in the editing state). */
  function SaveSection(panel: Panel): (r: Action)
    ensures !Armed(panel) ==> r == Action(panel, NoCall)
    ensures Armed(panel) ==>
      && r.panel == Panel(panel.activeTab, Viewing)
      && r.call == EditCall(MergeSection(panel.activeTab, Some(panel.editor.sectionId), DraftPatch(panel.editor.draft)))
  {
    if Armed(panel) then
      Action(Panel(panel.activeTab, Viewing),
             EditCall(MergeSection(panel.activeTab, Some(panel.editor.sectionId), DraftPatch(panel.editor.draft))))
    else Action(panel, NoCall)
  }

  /** Starting an edit of a section and saving it at once gives the section
      back unchanged when it already had an image list and every section of
      the tab with its id is that section; one without images gains []. */
  lemma {:induction false} EditThenSaveKeepsSection(panel: Panel, p: Provider, s: Section)
    requires s.id != ""
    requires HasSections(p.content, panel.activeTab)
    requires forall k :: 0 <= k < |p.content[panel.activeTab].sections.value| &&
                         p.content[panel.activeTab].sections.value[k].id == s.id
                         ==> p.content[panel.activeTab].sections.value[k] == s
    ensures var call := SaveSection(StartEdit(panel, s).panel).call;
      && call.EditCall?
      && Apply(p.content, call.edit).Some?
      && (s.images.Some? ==> Apply(p.content, call.edit) == Some(p.content))
      && (s.images.None? ==> PatchSection(s, call.edit.sectionPatch) == s.(images := Some([])))
  {
    var tab := panel.activeTab;
    var call := SaveSection(StartEdit(panel, s).panel).call;
    var patch := DraftPatch(StartEdit(panel, s).panel.editor.draft);
    assert call.edit == MergeSection(tab, Some(s.id), patch);
    if s.images.Some? {
      var secs := p.content[tab].sections.value;
      var after := UpdateSection(p.content, tab, Some(s.id), patch).value;
      assert forall k :: 0 <= k < |secs| ==> after[tab].sections.value[k] == secs[k];
      assert after[tab].sections.value == secs;
      assert after[tab] == p.content[tab];
      assert after == p.content;
    }
  }

  /** `handleAddSection` at clock value `now`: appends a section with id
      "section_" followed by the clock value, a placeholder title and text,
      and an empty image list, to the active tab. */
  function AddSectionAt(panel: Panel, now: int): (r: Action)
    ensures r.panel == panel
    ensures r.call.EditCall? && r.call.edit.Append? && r.call.edit.page == panel.activeTab
    ensures |r.call.edit.section.id| > 8 && r.call.edit.section.id[..8] == "section_"
    ensures JsText.ParseInt(r.call.edit.section.id[8..]) == Some(now)
    ensures r.call.edit.section.title == "New Section"
    ensures r.call.edit.section.content == "Enter your content here..."
    ensures r.call.edit.section.images == Some([])
  {
    JsText.ParseIntOfIntToString(now);
    var s := Section("section_" + JsText.IntToString(now), "New Section", "Enter your content here...", Some([]));
    assert s.id[8..] == JsText.IntToString(now);
    Action(panel, EditCall(Append(panel.activeTab, s)))
  }

  /** `handleImageUpload(url, name)` at clock value `now`: with the guard
      passing, a non-empty url appends exactly one image to the draft and an
      empty url leaves its images as they were (an absent list becomes []);
      otherwise nothing changes. No content call is made. */
  function UploadImage(panel: Panel, url: string, name: string, now: int): (r: Action)
    ensures r.call.NoCall? && r.panel.activeTab == panel.activeTab
    ensures !Armed(panel) ==> r.panel == panel
    ensures Armed(panel) ==>
      var before := panel.editor.draft.images.GetOr([]);
      && r.panel.editor.Editing? && r.panel.editor.sectionId == panel.editor.sectionId
      && r.panel.editor.draft.title == panel.editor.draft.title
      && r.panel.editor.draft.content == panel.editor.draft.content
      && r.panel.editor.draft.images.Some?
      && (url == "" ==> r.panel.editor.draft.images.value == before)
      && (url != "" ==> r.panel.editor.draft.images.value == before + [Image(now, url, name)])
  {
    if Armed(panel) then
      var d := panel.editor.draft;
      var images := d.images.GetOr([]) + (if url != "" then [Image(now, url, name)] else []);
      Action(panel.(editor := Editing(panel.editor.sectionId, d.(images := Some(images)))), NoCall)
    else Action(panel, NoCall)
  }

  /** The images whose id differs from `id`, in order. */
  function WithoutImage(images: seq<Image>, id: int): (r: seq<Image>)
    ensures |r| <= |images|
    ensures forall k :: 0 <= k < |r| ==> r[k].id != id
    ensures forall m :: m in r <==> m in images && m.id != id
  {
    if |images| == 0 then []
    else if images[0].id == id then WithoutImage(images[1..], id)
    else [images[0]] + WithoutImage(images[1..], id)
  }

  lemma {:induction false} WithoutImageConcat(a: seq<Image>, b: seq<Image>, id: int)
    ensures WithoutImage(a + b, id) == WithoutImage(a, id) + WithoutImage(b, id)
  {
    if |a| > 0 {
      assert (a + b)[0] == a[0];
      assert (a + b)[1..] == a[1..] + b;
      WithoutImageConcat(a[1..], b, id);
      if a[0].id != id {
        assert [a[0]] + (WithoutImage(a[1..], id) + WithoutImage(b, id))
            == ([a[0]] + WithoutImage(a[1..], id)) + WithoutImage(b, id);
      }
    } else {
      assert a + b == b;
    }
  }

  lemma {:induction false} WithoutImageNoMatch(images: seq<Image>, id: int)
    requires forall k :: 0 <= k < |images| ==> images[k].id != id
    ensures WithoutImage(images, id) == images
  {
    if |images| > 0 {
      WithoutImageNoMatch(images[1..], id);
    }
  }

  /** `handleRemoveImage(id)`: with the guard passing, every image with that
      id leaves the draft and the others stay in order; otherwise nothing
      changes. No content call is made. */
  function RemoveImage(panel: Panel, id: int): (r: Action)
    ensures r.call.NoCall? && r.panel.activeTab == panel.activeTab
    ensures !Armed(panel) ==> r.panel == panel
    ensures Armed(panel) ==>
      && r.panel.editor.Editing? && r.panel.editor.sectionId == panel.editor.sectionId
      && r.panel.editor.draft.title == panel.editor.draft.title
      && r.panel.editor.draft.content == panel.editor.draft.content
      && r.panel.editor.draft.images == Some(WithoutImage(panel.editor.draft.images.GetOr([]), id))
  {
    if Armed(panel) then
      var d := panel.editor.draft;
      Action(panel.(editor := Editing(panel.editor.sectionId, d.(images := Some(WithoutImage(d.images.GetOr([]), id))))), NoCall)
    else Action(panel, NoCall)
  }

  /** Removing an image right after uploading it (by the clock value that
      became its id) restores the draft, provided no image already had that
      id. */
  lemma {:induction false} RemoveUndoesUpload(panel: Panel, url: string, name: string, now: int)
    requires Armed(panel)
    requires forall k :: 0 <= k < |panel.editor.draft.images.GetOr([])| ==> panel.editor.draft.images.GetOr([])[k].id != now
    ensures RemoveImage(UploadImage(panel, url, name, now).panel, now).panel
            == panel.(editor := panel.editor.(draft := panel.editor.draft.(images := Some(panel.editor.draft.images.GetOr([])))))
  {
    var before := panel.editor.draft.images.GetOr([]);
    WithoutImageNoMatch(before, now);
    if url != "" {
      WithoutImageConcat(before, [Image(now, url, name)], now);
      assert WithoutImage([Image(now, url, name)], now) == [];
      assert WithoutImage(before + [Image(now, url, name)], now) == before;
    } else {
      assert before + [] == before;
    }
  }

  /** The document shown for the active tab (`content[tab] || {title: '',
      subtitle: '', sections: []}`). */
  function Current(c: Content, tab: string): Document {
    if tab in c then c[tab] else Document(Some(""), Some(""), Some([]))
  }

  /** The title field: the whole shown document, with the new title, is
      merged into the active tab. */
  function UpdateTitle(panel: Panel, c: Content, title: string): (r: Action)
    ensures r.panel == panel
    ensures r.call.EditCall? && r.call.edit.MergeDocument? && r.call.edit.page == panel.activeTab
    ensures var after := Apply(c, r.call.edit).value[panel.activeTab];
      && after.title == Some(title)
      && (panel.activeTab in c ==> after.subtitle == c[panel.activeTab].subtitle
                                   && after.sections == c[panel.activeTab].sections)
      && (panel.activeTab !in c ==> after.subtitle == Some("") && after.sections == Some([]))
  {
    Action(panel, EditCall(MergeDocument(panel.activeTab, Current(c, panel.activeTab).(title := Some(title)))))
  }

  /** The subtitle field, likewise. */
  function UpdateSubtitle(panel: Panel, c: Content, subtitle: string): (r: Action)
    ensures r.panel == panel
    ensures r.call.EditCall? && r.call.edit.MergeDocument? && r.call.edit.page == panel.activeTab
    ensures var after := Apply(c, r.call.edit).value[panel.activeTab];
      && after.subtitle == Some(subtitle)
      && (panel.activeTab in c ==> after.title == c[panel.activeTab].title
                                   && after.sections == c[panel.activeTab].sections)
      && (panel.activeTab !in c ==> after.title == Some("") && after.sections == Some([]))
  {
    Action(panel, EditCall(MergeDocument(panel.activeTab, Current(c, panel.activeTab).(subtitle := Some(subtitle)))))
  }

  /** The text `importContent` receives from `handleImport`: the file object
      itself, which `JSON.parse` converts to the string "[object File]". */
  const FileObjectText := "[object File]"

  /** `handleImport` as written: a chosen file is handed to the context as
      the file object, not its text. */
  function ImportAsWritten(panel: Panel, fileChosen: bool): (r: Action)
    ensures r.panel == panel
    ensures fileChosen ==> r.call == ImportCall(Malformed(FileObjectText))
    ensures !fileChosen ==> r.call.NoCall?
  {
    Action(panel, if fileChosen then ImportCall(Malformed(FileObjectText)) else NoCall)
  }

  /** As written, import never changes anything: with a file chosen the call
      returns false and the provider is unchanged, for every file. */
  lemma {:induction false} ImportAsWrittenNeverImports(panel: Panel, p: Provider, fileChosen: bool)
    ensures Dispatch(p, ImportAsWritten(panel, fileChosen).call).Some?
    ensures Dispatch(p, ImportAsWritten(panel, fileChosen).call).value.provider == p
    ensures fileChosen ==> !Dispatch(p, ImportAsWritten(panel, fileChosen).call).value.ok
  {
  }
}
