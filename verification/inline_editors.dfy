/** The two click-to-edit fields: a percentage editor and a text editor.
    Each keeps the value being typed and a validity flag, and reports a
    save (with the parsed or trimmed value) or a cancel to its parent. */
module InlineEditors {
  import opened Wrappers
  import JsText

  /** The keys the editors react to; every other key is `Other`. */
  datatype Key = Enter(ctrl: bool) | Escape | Other

  /** What a handler reports to the parent: nothing, `onSave(value)` or
      `onCancel()`. */
  datatype Report<T> = Silent | Saved(value: T) | Cancelled

  // ---- progress ----

  /** `validateProgress(val)`: `parseInt` gives a number from 0 to 100. */
  predicate ValidProgress(v: JsText.Value) {
    var n := JsText.ParseIntValue(v);
    n.Some? && 0 <= n.value <= 100
  }

  /** The editor's `value` and `isValid`. */
  datatype ProgressEditor = ProgressEditor(value: JsText.Value, valid: bool)

  /** The state on mount: the prop's number, marked valid whatever it is.
      A later change of the prop replaces the value and keeps the flag. */
  function ShowProgress(progress: int): (e: ProgressEditor)
    ensures e.value == JsText.Number(progress) && e.valid
  {
    ProgressEditor(JsText.Number(progress), true)
  }

  /** `handleChange`: the typed text is kept, valid or not, and validated. */
  function TypeProgress(text: string): (e: ProgressEditor)
    ensures e.value == JsText.Str(text)
    ensures e.valid <==> JsText.ParseInt(text).Some? && 0 <= JsText.ParseInt(text).value <= 100
  {
    ProgressEditor(JsText.Str(text), ValidProgress(JsText.Str(text)))
  }

  /** `handleSave`: the parsed percentage goes to the parent only when the
      flag and a fresh validation both pass; otherwise nothing happens. */
  function SaveProgress(e: ProgressEditor): (r: Report<int>)
    ensures r.Saved? || r.Silent?
    ensures r.Saved? <==> e.valid && ValidProgress(e.value)
    ensures r.Saved? ==> 0 <= r.value <= 100 && Some(r.value) == JsText.ParseIntValue(e.value)
  {
    if e.valid && ValidProgress(e.value) then Saved(JsText.ParseIntValue(e.value).value) else Silent
  }

  /** `handleCancel`: the prop's number is restored and marked valid, and the
      parent is told. */
  function CancelProgress(progress: int): (r: (ProgressEditor, Report<int>))
    ensures r.0 == ShowProgress(progress) && r.1.Cancelled?
  {
    (ShowProgress(progress), Cancelled)
  }

  /** `handleKeyDown`: Enter (with or without Ctrl) saves, Escape cancels,
      any other key does nothing. */
  function ProgressKey(e: ProgressEditor, progress: int, key: Key): (r: (ProgressEditor, Report<int>))
    ensures key.Enter? ==> r == (e, SaveProgress(e))
    ensures key.Escape? ==> r == CancelProgress(progress)
    ensures key.Other? ==> r == (e, Silent)
  {
    match key
    case Enter(_) => (e, SaveProgress(e))
    case Escape => CancelProgress(progress)
    case Other => (e, Silent)
  }

  /** Typing the decimal spelling of a number and saving hands the parent
      that number exactly when it is a percentage. */
  lemma {:induction false} TypeThenSaveProgress(n: int)
    ensures 0 <= n <= 100 ==> SaveProgress(TypeProgress(JsText.IntToString(n))) == Saved(n)
    ensures !(0 <= n <= 100) ==> SaveProgress(TypeProgress(JsText.IntToString(n))) == Silent
  {
    JsText.ParseIntOfIntToString(n);
  }

  /** Cancelling and then saving hands the parent its own progress back,
      when that is a percentage, and nothing otherwise. */
  lemma {:induction false} CancelThenSaveProgress(progress: int)
    ensures SaveProgress(CancelProgress(progress).0)
         == if 0 <= progress <= 100 then Saved(progress) else Silent
  {
  }

  // ---- text ----

  /** The `maxLength` prop: `null` (the default) or a number; only a
      truthy number limits the length. */
  predicate Limited(maxLength: Option<int>) {
    maxLength.Some? && maxLength.value != 0
  }

  /** `validateInput(val)`: not longer than a truthy `maxLength`, and not
      blank once trimmed. */
  function ValidText(s: string, maxLength: Option<int>): (b: bool)
    ensures b <==> (!Limited(maxLength) || |s| <= maxLength.value) && !JsText.AllSpace(s)
  {
    JsText.TrimEmptyIffAllSpace(s);
    if Limited(maxLength) && |s| > maxLength.value then false
    else |JsText.Trim(s)| > 0
  }

  /** The editor's `inputValue` and `isValid`. */
  datatype TextEditor = TextEditor(input: string, valid: bool)

  /** The state on mount: the prop's text, marked valid. A later change of
      the prop replaces the text and keeps the flag. */
  function ShowText(value: string): (e: TextEditor)
    ensures e.input == value && e.valid
  {
    TextEditor(value, true)
  }

  /** `handleChange`: the typed text is kept and validated. */
  function TypeText(text: string, maxLength: Option<int>): (e: TextEditor)
    ensures e.input == text && (e.valid <==> ValidText(text, maxLength))
  {
    TextEditor(text, ValidText(text, maxLength))
  }

  /** `handleSave`: the trimmed text goes to the parent only when the flag
      and a fresh validation both pass. What is saved is never blank, has no
      whitespace at either end, and respects a truthy length limit. */
  function SaveText(e: TextEditor, maxLength: Option<int>): (r: Report<string>)
    ensures r.Saved? || r.Silent?
    ensures r.Saved? <==> e.valid && ValidText(e.input, maxLength)
    ensures r.Saved? ==>
      && r.value == JsText.Trim(e.input)
      && r.value != ""
      && !JsText.IsSpace(r.value[0]) && !JsText.IsSpace(r.value[|r.value| - 1])
      && (Limited(maxLength) ==> |r.value| <= maxLength.value)
  {
    if e.valid && ValidText(e.input, maxLength) then Saved(JsText.Trim(e.input)) else Silent
  }

  /** `handleCancel`: the prop's text is restored and marked valid, and the
      parent is told. */
  function CancelText(value: string): (r: (TextEditor, Report<string>))
    ensures r.0 == ShowText(value) && r.1.Cancelled?
  {
    (ShowText(value), Cancelled)
  }

  /** `handleKeyDown`: a single-line editor saves on Enter; a multi-line one
      only on Ctrl+Enter, so a plain Enter there is typing; Escape cancels. */
  function TextKey(e: TextEditor, value: string, maxLength: Option<int>, multiline: bool, key: Key)
    : (r: (TextEditor, Report<string>))
    ensures key.Enter? && (!multiline || key.ctrl) ==> r == (e, SaveText(e, maxLength))
    ensures key.Enter? && multiline && !key.ctrl ==> r == (e, Silent)
    ensures key.Escape? ==> r == CancelText(value)
    ensures key.Other? ==> r == (e, Silent)
  {
    match key
    case Enter(ctrl) => if !multiline || ctrl then (e, SaveText(e, maxLength)) else (e, Silent)
    case Escape => CancelText(value)
    case Other => (e, Silent)
  }

  /** Saving is stable: an editor showing the saved text, marked valid,
      hands back the same text when saved at once. */
  lemma {:induction false} SaveTextStable(e: TextEditor, maxLength: Option<int>)
    requires SaveText(e, maxLength).Saved?
    ensures SaveText(ShowText(SaveText(e, maxLength).value), maxLength) == SaveText(e, maxLength)
  {
    var t := JsText.Trim(e.input);
    JsText.TrimIdempotent(e.input);
    JsText.TrimEmptyIffAllSpace(t);
  }

  /** A blank entry is never saved, however it is submitted. */
  lemma {:induction false} BlankTextNeverSaved(text: string, maxLength: Option<int>, multiline: bool, key: Key, value: string)
    requires JsText.AllSpace(text)
    ensures !TextKey(TypeText(text, maxLength), value, maxLength, multiline, key).1.Saved?
  {
  }
}
