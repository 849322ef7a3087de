/** The task dialog shared by both roadmap pages: the form it loads from the
    task being edited, the clamped progress it submits, the blank-title
    guard, and the confirmed delete. */
module TaskEditModal {
  import opened Wrappers
  import JsText
  import opened RoadmapTasks

  /** `editingTask`: a stored task with the id of the quarter it is shown in
      (`{...task, quarterId}`), or only the quarter id for a new task
      (`{quarterId}`). */
  datatype Seed = Seed(base: Option<Task>, quarterId: string)

  /** `openEditModal(task, quarterId)`: the dialog shows the task's fields,
      and whatever is submitted from it saves under the task's id in that
      quarter. */
  function EditSeed(t: Task, quarterId: string): (s: Seed)
    ensures LoadForm(s).title == t.title && LoadForm(s).description == t.description
    ensures LoadForm(s).progress == JsText.Number(t.progress)
    ensures forall f :: Submit(s, f).Some? ==>
              Submit(s, f).value.id == Some(t.id) && Submit(s, f).value.quarterId == Some(quarterId)
  {
    Seed(Some(t), quarterId)
  }

  /** `openAddModal(quarterId)`: the dialog starts from the blank form, and
      whatever is submitted from it carries no id, so the page appends it
      to that quarter as a new task. */
  function AddSeed(quarterId: string): (s: Seed)
    ensures LoadForm(s) == BlankForm
    ensures forall f :: Submit(s, f).Some? ==>
              Submit(s, f).value.id.None? && Submit(s, f).value.quarterId == Some(quarterId)
  {
    Seed(None, quarterId)
  }

  /** The form; the progress field holds the number loaded from the task or
      the text the number input last reported. */
  datatype Form = Form(title: string, description: string, category: string, progress: JsText.Value)

  const DefaultCategory := "Foundation"

  /** The form before any task is loaded. */
  const BlankForm := Form("", "", DefaultCategory, JsText.Number(0))

  /** The categories the enhanced page offers (`Object.keys(categoryColors)`). */
  const Categories: seq<string> := ["Foundation", "Financial", "Frontend", "Analytics", "Security", "Xandeum"]

  /** The form loaded from the seed: every field falls back to the blank
      form's value when the task has a falsy one, and a new task gets the
      blank form outright. */
  function LoadForm(seed: Seed): (f: Form)
    ensures seed.base.None? ==> f == BlankForm
    ensures seed.base.Some? ==>
      && f.title == seed.base.value.title
      && f.description == seed.base.value.description
      && f.progress == JsText.Number(seed.base.value.progress)
      && (seed.base.value.category != "" ==> f.category == seed.base.value.category)
      && (seed.base.value.category == "" ==> f.category == DefaultCategory)
  {
    match seed.base
    case None => BlankForm
    case Some(t) => Form(t.title, t.description, if t.category == "" then DefaultCategory else t.category, JsText.Number(t.progress))
  }

  /** `parseInt(formData.progress) || 0`: NaN becomes 0. */
  function ProgressValue(p: JsText.Value): int {
    JsText.ParseIntValue(p).GetOr(0)
  }

  /** `Math.max(0, Math.min(100, …))` of the progress value: always a
      percentage; a value already in range is kept, anything below is 0 and
      anything above is 100. */
  function ClampProgress(p: JsText.Value): (r: int)
    ensures 0 <= r <= 100
    ensures 0 <= ProgressValue(p) <= 100 ==> r == ProgressValue(p)
    ensures ProgressValue(p) < 0 ==> r == 0
    ensures ProgressValue(p) > 100 ==> r == 100
  {
    var v := ProgressValue(p);
    if v < 0 then 0 else if v > 100 then 100 else v
  }

  /** Typing the decimal spelling of a percentage submits that percentage;
      text with no leading digits submits 0. */
  lemma {:induction false} TypedProgress(i: int, s: string)
    ensures 0 <= i <= 100 ==> ClampProgress(JsText.Str(JsText.IntToString(i))) == i
    ensures JsText.ParseInt(s).None? ==> ClampProgress(JsText.Str(s)) == 0
  {
    JsText.ParseIntOfIntToString(i);
  }

  /** `handleSubmit`: nothing is saved while the title is blank; otherwise
      the seed's id and quarter id travel with the form's fields and the
      clamped progress. The title is saved as typed, untrimmed. */
  function Submit(seed: Seed, f: Form): (r: Option<TaskData>)
    ensures r.None? <==> JsText.Trim(f.title) == ""
    ensures r.Some? ==>
      && r.value.id == (if seed.base.Some? then Some(seed.base.value.id) else None)
      && r.value.quarterId == Some(seed.quarterId)
      && r.value.title == f.title && r.value.description == f.description && r.value.category == f.category
      && r.value.progress == ClampProgress(f.progress)
      && 0 <= r.value.progress <= 100
  {
    if JsText.Trim(f.title) == "" then None
    else
      var id := match seed.base case Some(t) => Some(t.id) case None => None;
      Some(TaskData(id, f.title, f.description, f.category, ClampProgress(f.progress), Some(seed.quarterId)))
  }

  /** A title is rejected exactly when it is made of whitespace only. */
  lemma {:induction false} SubmitBlankIffAllSpace(seed: Seed, f: Form)
    ensures Submit(seed, f).None? <==> JsText.AllSpace(f.title)
  {
    JsText.TrimEmptyIffAllSpace(f.title);
  }

  /** Opening a stored task and submitting the form untouched hands back the
      same task, tagged with its quarter: when its title is not blank, its
      category is set and its progress is a percentage. */
  lemma {:induction false} OpenThenSubmitKeepsTask(t: Task, quarterId: string)
    requires JsText.Trim(t.title) != "" && t.category != "" && 0 <= t.progress <= 100
    ensures Submit(EditSeed(t, quarterId), LoadForm(EditSeed(t, quarterId)))
         == Some(TaskData(Some(t.id), t.title, t.description, t.category, t.progress, Some(quarterId)))
  {
  }

  /** What the delete button leads to. */
  datatype DeleteOutcome = NoDelete | DeleteCall(data: TaskData) | Crash

  /** The props a page passes: the category list (absent: `undefined`) and
      whether an `onDelete` handler is given. */
  datatype Props = Props(categories: Option<seq<string>>, hasOnDelete: bool)

  /** Rendering the open dialog: the category select maps over the list, so
      without one the render throws (`None`); with one, the dialog shows the
      form loaded from the seed. */
  function Open(props: Props, seed: Seed): (r: Option<Form>)
    ensures r.Some? <==> props.categories.Some?
    ensures r.Some? ==> r.value == LoadForm(seed)
  {
    if props.categories.None? then None else Some(LoadForm(seed))
  }

  /** The delete button is shown only for a task with a truthy id. */
  predicate Deletable(seed: Seed) {
    seed.base.Some? && seed.base.value.id != ""
  }

  /** `handleDelete`: without confirmation nothing happens; once confirmed
      the seed goes to `onDelete`, which throws when the page gave none. */
  function ConfirmDelete(props: Props, seed: Seed, confirmed: bool): (r: DeleteOutcome)
    ensures !confirmed || !Deletable(seed) ==> r.NoDelete?
    ensures confirmed && Deletable(seed) && !props.hasOnDelete ==> r.Crash?
    ensures confirmed && Deletable(seed) && props.hasOnDelete ==>
      && r.DeleteCall?
      && r.data.quarterId == Some(seed.quarterId)
      && r.data.id == Some(seed.base.value.id)
  {
    if !confirmed || !Deletable(seed) then NoDelete
    else if !props.hasOnDelete then Crash
    else
      var t := seed.base.value;
      DeleteCall(TaskData(Some(t.id), t.title, t.description, t.category, t.progress, Some(seed.quarterId)))
  }

  /** What the enhanced page passes: its category list and `deleteTask`. */
  const EnhancedProps := Props(Some(Categories), true)

  /** What the original page passes, as written: neither a category list nor
      a delete handler. */
  const UpdatedPropsAsWritten := Props(None, false)

  /** As written, the original page's dialog throws whenever it is opened,
      for a new task and for an existing one alike. */
  lemma {:induction false} UpdatedDialogNeverOpens(seed: Seed)
    ensures Open(UpdatedPropsAsWritten, seed).None?
    ensures Deletable(seed) ==> ConfirmDelete(UpdatedPropsAsWritten, seed, true).Crash?
  {
  }

  /** The props the original page evidently means to pass: its own category
      list, the same as the enhanced page's, and its `deleteTask`. */
  const UpdatedProps := Props(Some(Categories), true)

  /** With those props the dialog opens on the seed's form, and a confirmed
      delete hands the seed to the page's `deleteTask`, as on the enhanced
      page. */
  lemma {:induction false} UpdatedDialogOpens(seed: Seed, confirmed: bool)
    ensures Open(UpdatedProps, seed) == Some(LoadForm(seed))
    ensures ConfirmDelete(UpdatedProps, seed, confirmed) == ConfirmDelete(EnhancedProps, seed, confirmed)
    ensures confirmed && Deletable(seed) ==> ConfirmDelete(UpdatedProps, seed, confirmed).DeleteCall?
  {
  }
}
