# Xandeum finance roadmap: a Dafny model of the editing and persistence core

This project models the logic of a React single-page app. The app shows a
product roadmap and four documentation pages, and an administrator can edit
both in the browser. The model covers four parts of its source.

- **The persistence service and the `usePersistence` hook.**
  - Shallow schema validation.
  - `save` with its metadata envelope, and `load` that strips it again.
  - `remove`, and the per-key debounce table.
  - Backup, restore, and migration to the remote backend (which is never
    reachable).
  - The hook's state machine: load on mount, save, debounced auto-save,
    manual save and remove. The singleton service is built by the first
    configuration only.
- **The content context.** A map from page name to a document (title,
  subtitle, sections), changed by the four editing operations, plus reset,
  import and export. The provider mirrors the content into browser storage
  under one key.
- **The roadmap.**
  - Quarters of tasks, and the slug id `generateTaskId` gives a new task.
  - Both roadmap pages: the original `RoadmapPageUpdated` and
    `RoadmapPageEnhanced`, whose `saveTask` differs.
  - The quarter manager (rename, add, delete).
  - The task dialog (form loading, progress clamping, blank-title guard,
    confirmed delete).
  - The page's mount, import, export and storage mirroring.
- **The editors.**
  - The two content admin panels' section-editing state machines
    (`EnhancedAdminPanel`, `AdminPanel`).
  - The inline progress and text editors.

The model uses these conventions.

- Event handlers are pure transitions from one state to the next.
- The clock, today's date, `window.confirm` answers and host faults are
  parameters.
- A JavaScript exception that escapes a handler is `None` (or `Crash`).
- `JSON.stringify`/`JSON.parse` are abstracted as a `Text` that is either
  the encoding of a value or malformed raw text.
- `localStorage` is a map from key to `Text`.

## Model

| member | source | states |
|---|---|---|
| PersistenceService.Construct | src/services/persistenceService.js:5-36 | The service is remote only when remote mode was asked for without settings; remote with settings drops to local storage at once; absent storage type and debounce time default to local and 1000 |
| PersistenceService.ShippedConfigsAreLocal | src/services/persistenceService.js:314-327 | Both shipped configurations end up on local storage, with debounce times 1000 and 2000 |
| PersistenceService.FieldsMatch | src/services/persistenceService.js:61-67 | The schema loop passes exactly when every listed field is present with its `typeof` kind |
| PersistenceService.ValidateData | src/services/persistenceService.js:55-70 | Validation passes exactly for truthy values of `typeof` "object" (records and arrays) whose schema fields all have the declared kind |
| PersistenceService.ExtraFieldsIgnored | src/services/persistenceService.js:55-70 | A record that validates still validates with extra fields added |
| PersistenceService.SaveLocal | src/services/persistenceService.js:73-82 | Without a host fault the serialized value is stored under the key; with one the store is untouched and the fault is reported |
| PersistenceService.LoadLocal | src/services/persistenceService.js:84-96 | An absent key gives the default; stored text gives the value it encodes, and malformed text gives a parse failure carrying the default |
| PersistenceService.RemoveLocal | src/services/persistenceService.js:98-106 | Without a fault the key is gone; with one the store is untouched and the call reports failure |
| PersistenceService.Envelope | src/services/persistenceService.js:163-170 | The saved record has every spread field of the data plus `_metadata` with the clock value and version |
| PersistenceService.Strip | src/services/persistenceService.js:189-193 | A loaded record never has a truthy `_metadata`; values without one pass unchanged |
| PersistenceService.Save | src/services/persistenceService.js:155-177 | Save writes exactly when validation passes (or is off), the service is local and the host does not fault; a write stores the envelope; a remote save rejects |
| PersistenceService.Load | src/services/persistenceService.js:179-196 | Load rejects exactly in remote mode; locally it gives the stored value (or default) with the metadata stripped, or a parse failure |
| PersistenceService.Remove | src/services/persistenceService.js:198-216 | Remove always resolves; it succeeds exactly when local and faultless, and then the key is gone |
| PersistenceService.SaveThenLoad | src/services/persistenceService.js:155-196 | Right after a successful save of a record without `_metadata`, load returns that record unchanged |
| PersistenceService.SavedArrayLoadsAsRecord | src/services/persistenceService.js:163-193 | Every array, whatever its items, passes validation and is written, but loads back as the record keyed "0", "1", … holding its items, never as the array |
| PersistenceService.RemoveThenLoad | src/services/persistenceService.js:84-96 | After a successful remove, load falls back to the default |
| PersistenceService.DebouncedSave | src/services/persistenceService.js:39-52 | The timer table keeps one timer per key, due one debounce time later, replacing the pending one; other keys keep theirs |
| PersistenceService.BackupData | src/services/persistenceService.js:219-234 | The backup holds exactly the keys whose load succeeds, each with the loaded value; in remote mode any key rejects the call |
| PersistenceService.Backup | src/services/persistenceService.js:219-234 | The snapshot carries the clock value and the service's storage type, and exists exactly when the data part does |
| PersistenceService.Restore | src/services/persistenceService.js:236-244 | A restore replies for every backed-up key, or rejects leaving the store as it was |
| PersistenceService.RestoreOutcome | src/services/persistenceService.js:236-244 | A restore rejects exactly in remote mode with some object entry; otherwise each entry is written exactly when it is an object, and nothing else changes |
| PersistenceService.RestoreStep | src/services/persistenceService.js:239-241 | Saving one more entry extends the restored part of the store by that entry |
| PersistenceService.EnumeratesWithoutLast | src/services/persistenceService.js:239 | Dropping the last key of the entry order leaves an order of the remaining entries |
| PersistenceService.BackupRestoreRoundTrip | src/services/persistenceService.js:219-244 | Every record a backup took loads back unchanged after the restore |
| PersistenceService.Migrate | src/services/persistenceService.js:247-265 | Remote mode refuses; locally the call rejects exactly when some key holds a truthy parseable value, and otherwise resolves to no results |
| PersistenceService.MigrateLocal | src/services/persistenceService.js:252-264 | The local loop rejects exactly when a sendable key exists, since the remote save has no client |
| Debounce.Schedule | src/services/persistenceService.js:39-52 | Scheduling replaces the key's pending timer with one due a delay later and leaves other keys alone |
| Debounce.Fire | src/services/persistenceService.js:46-49 | A due timer runs its job exactly once and is removed; otherwise nothing changes |
| Debounce.BurstKeepsLast | src/hooks/usePersistence.js:83-91 | After a burst of requests one timer is pending for the key, holding the last job, due one delay after the last request |
| Debounce.BurstFiresLastJobOnce | src/hooks/usePersistence.js:83-91 | Firing after a burst runs only the last job, and a second firing runs nothing |
| PersistenceHook.Initialize | src/hooks/usePersistence.js:6-14 | The first call builds the service from its configuration; every later call returns that instance |
| PersistenceHook.FirstConfigurationWins | src/hooks/usePersistence.js:9-14 | A second configuration is ignored: the service is the one built from the first |
| PersistenceHook.Start | src/hooks/usePersistence.js:25-29 | The hook starts with the initial value, loading, with no error and nothing pending |
| PersistenceHook.LoadOnMount | src/hooks/usePersistence.js:35-58 | Loading clears the flag; the error is cleared exactly when the load succeeds; a truthy loaded value is shown, anything else falls back to the initial value |
| PersistenceHook.SaveData | src/hooks/usePersistence.js:61-80 | The save resolves true exactly when the service writes; a write stores the envelope; a failure records an error and leaves the store |
| PersistenceHook.UpdateData | src/hooks/usePersistence.js:94-104 | New data is shown at once; with auto-save off nothing is written; with debouncing only a timer is scheduled; otherwise it is saved at once |
| PersistenceHook.TimerFires | src/hooks/usePersistence.js:88-90 | A due timer saves the data it was scheduled with and is removed; otherwise nothing changes |
| PersistenceHook.ManualSave | src/hooks/usePersistence.js:107-109 | The manual save resolves true exactly when the data shown is valid, storage is local and the host does not fail; it then writes that data and clears the error, and otherwise leaves the store and records an error; data and pending timers are kept |
| PersistenceHook.ManualSaveThenRemount | src/hooks/usePersistence.js:107-109 | A record saved by hand is shown, without error, by the next mount's load |
| PersistenceHook.RemoveData | src/hooks/usePersistence.js:112-126 | Remove succeeds exactly when local and faultless, and then the key is gone and the initial value is shown; a failure keeps the data and records an error; a pending debounced save is not cancelled |
| PersistenceHook.PendingSaveOutlivesRemove | src/hooks/usePersistence.js:112-126 | A debounced save scheduled before a successful remove still fires and writes the key again with the scheduled data |
| PersistenceHook.DebouncedBurstWritesNothing | src/hooks/usePersistence.js:83-104 | While a debounced burst of updates lasts, the store is not written, and one save of the last data is pending |
| PersistenceHook.DebouncedBurstSavesLast | src/hooks/usePersistence.js:83-104 | When the burst's timer fires, the store holds the last data of the burst |
| PersistenceHook.RoadmapHook | src/hooks/usePersistence.js:150-156 | The roadmap hook uses key "roadmapData" with the roadmap schema, debounced auto-save |
| PersistenceHook.ContentHook | src/hooks/usePersistence.js:159-165 | The content hook uses key "xandeum-content" with the content schema, debounced auto-save |
| PersistenceHook.RoadmapHookRejectsMalformed | src/services/persistenceService.js:300-304 | The roadmap hook never writes a record missing `quarters` or whose `lastUpdated` is not a string |
| PersistenceHook.SupabaseHook | src/hooks/usePersistence.js:168-181 | The remote hook keeps the key and initial value and every caller option, and only forces the storage configuration to the remote one |
| PersistenceHook.SupabaseHookStaysLocal | src/hooks/usePersistence.js:168-181 | The remote hook's service always stores locally, whether it builds the singleton or finds a local one |
| ContentModel.UpdateContent | src/contexts/ContentContext.jsx:136-144 | Merging a document replaces exactly the fields present in the patch, keeps the others, creates a missing page and leaves other pages alone |
| ContentModel.UpdateContentIdempotent | src/contexts/ContentContext.jsx:136-144 | Merging the same fields twice equals merging them once |
| ContentModel.UpdateContentWithOwnFields | src/contexts/ContentContext.jsx:136-144 | Merging a page's own document into it changes nothing |
| ContentModel.PatchSection | src/contexts/ContentContext.jsx:152 | A section merge keeps the section's id |
| ContentModel.UpdateSection | src/contexts/ContentContext.jsx:146-156 | The section merge throws exactly when the page or its sections are missing; otherwise only sections with the target id change, in place, and everything else is kept |
| ContentModel.UpdateSectionNoMatch | src/contexts/ContentContext.jsx:151-153 | With no section of the target id the content is unchanged |
| ContentModel.UpdateSectionIdempotent | src/contexts/ContentContext.jsx:146-156 | Applying a section merge twice equals applying it once |
| ContentModel.AddSection | src/contexts/ContentContext.jsx:158-166 | The section is appended after the old ones, which stay a prefix; it throws exactly when the page or its sections are missing |
| ContentModel.RemoveId | src/contexts/ContentContext.jsx:173 | The kept sections are exactly those of another id, in order |
| ContentModel.RemoveIdConcat | src/contexts/ContentContext.jsx:173 | Filtering a concatenation filters each part |
| ContentModel.RemoveIdNoMatch | src/contexts/ContentContext.jsx:173 | A list without the id is left as it is |
| ContentModel.DeleteSection | src/contexts/ContentContext.jsx:168-176 | Deleting drops every section with the id and keeps the rest in order; it throws exactly when the page or its sections are missing |
| ContentModel.DeleteUndoesAdd | src/contexts/ContentContext.jsx:158-176 | Deleting a freshly added section by its fresh id gives the content back |
| ContentModel.Persist | src/contexts/ContentContext.jsx:132-134 | The save effect writes the content under "xandeum-content", parseable back to it, and touches no other key |
| ContentModel.Mount | src/contexts/ContentContext.jsx:120-134 | Non-empty stored text that parses replaces the defaults; anything else keeps them; the shown content is then written back |
| ContentModel.Change | src/contexts/ContentContext.jsx:136-176 | An edit through the context shows the edited content and stores it, and fails exactly when the operation throws |
| ContentModel.Reset | src/contexts/ContentContext.jsx:178-181 | Reset shows the defaults; the key is removed and stays removed only if the content was already the default object |
| ContentModel.Import | src/contexts/ContentContext.jsx:195-204 | Import yields true exactly when the text parses, and then shows and stores the parsed content; otherwise nothing changes |
| ContentModel.Export | src/contexts/ContentContext.jsx:183-193 | The exported file parses back to exactly the provider's content |
| ContentModel.ExportImportRoundTrip | src/contexts/ContentContext.jsx:183-204 | Importing an exported file into any provider shows exactly the exported content |
| ContentModel.MirroredPreserved | src/contexts/ContentContext.jsx:120-204 | Mount, every edit, reset and import keep storage equal to what is shown, except right after resetting untouched defaults |
| ContentModel.ReloadShowsSameContent | src/contexts/ContentContext.jsx:120-134 | Reloading from the storage the provider leaves behind shows the same content |
| ContentModel.ResetThenReload | src/contexts/ContentContext.jsx:178-181 | After a reset a reload shows the defaults |
| ContentModel.Dispatch | src/contexts/ContentContext.jsx:206-217 | A call into the context reaches the matching operation: an edit gives `Change`'s provider or throws with it, a reset gives `Reset` and true, an import gives `Import`'s provider and result; only edits can throw |
| SectionEditing.SelectTab | src/components/EnhancedAdminPanel.jsx:209 | Choosing a tab changes only the active tab and calls nothing |
| SectionEditing.EditDraft | src/components/EnhancedAdminPanel.jsx:264-270 | Typing changes only the typed field of an open draft |
| SectionEditing.CancelEdit | src/components/EnhancedAdminPanel.jsx:64-67 | Cancel closes the editor and calls nothing |
| SectionEditing.CancelLeavesContent | src/components/AdminPanel.jsx:58-61 | Cancelling leaves the content as it was |
| SectionEditing.DeleteSectionConfirmed | src/components/EnhancedAdminPanel.jsx:79-83 | A delete is issued exactly when confirmed, on the active tab |
| SectionEditing.DeleteConfirmation | src/components/AdminPanel.jsx:72-76 | Without confirmation the content is unchanged; with it the section is deleted from the active tab |
| SectionEditing.ResetConfirmed | src/components/EnhancedAdminPanel.jsx:113-117 | Reset is issued exactly when confirmed |
| SectionEditing.ImportFile | src/components/AdminPanel.jsx:86-100 | A chosen file's text goes to import; no file calls nothing |
| SectionEditing.ImportFileOutcome | src/components/AdminPanel.jsx:86-100 | Importing an exported file shows its content; malformed text reports false and changes nothing |
| EnhancedAdminPanel.StartEdit | src/components/EnhancedAdminPanel.jsx:47-54 | The draft starts from the section's title, content and images (an empty list when it has none) |
| EnhancedAdminPanel.SaveSection | src/components/EnhancedAdminPanel.jsx:56-62 | Saving with no open section does nothing; otherwise the draft is merged into the section and the editor closes |
| EnhancedAdminPanel.EditThenSaveKeepsSection | src/components/EnhancedAdminPanel.jsx:47-62 | Opening a section and saving the untouched draft leaves the content as it was |
| EnhancedAdminPanel.AddSectionAt | src/components/EnhancedAdminPanel.jsx:69-77 | The new section is keyed "section_" followed by the clock value, with the placeholder text and no images |
| EnhancedAdminPanel.UploadImage | src/components/EnhancedAdminPanel.jsx:85-93 | An upload appends an image keyed by the clock value to an open draft; a missing URL or a closed editor changes nothing |
| EnhancedAdminPanel.WithoutImage | src/components/EnhancedAdminPanel.jsx:97 | The kept images are exactly those of another id, in order |
| EnhancedAdminPanel.WithoutImageConcat | src/components/EnhancedAdminPanel.jsx:97 | Filtering a concatenation filters each part |
| EnhancedAdminPanel.WithoutImageNoMatch | src/components/EnhancedAdminPanel.jsx:97 | A list without the id is left as it is |
| EnhancedAdminPanel.RemoveImage | src/components/EnhancedAdminPanel.jsx:95-100 | Removing drops every image with the id from an open draft; a closed editor is unchanged |
| EnhancedAdminPanel.RemoveUndoesUpload | src/components/EnhancedAdminPanel.jsx:85-100 | Removing the image just uploaded by its id gives the draft back |
| EnhancedAdminPanel.UpdateTitle | src/components/EnhancedAdminPanel.jsx:229 | The title edit merges the whole current document with the new title: the page gets that title and keeps its subtitle and sections as they were (absent ones stay absent); a page not yet in the content gets an empty subtitle and no sections |
| EnhancedAdminPanel.UpdateSubtitle | src/components/EnhancedAdminPanel.jsx:238 | The subtitle edit merges the whole current document with the new subtitle: the page gets that subtitle and keeps its title and sections as they were; a page not yet in the content gets an empty title and no sections |
| EnhancedAdminPanel.ImportAsWritten | src/components/EnhancedAdminPanel.jsx:106-111 | As written, the import hands the file object itself to the context, whose text is "[object File]" |
| EnhancedAdminPanel.ImportAsWrittenNeverImports | src/components/EnhancedAdminPanel.jsx:106-111 | As written, importing never changes the content and reports failure |
| AdminPanel.StartEdit | src/components/AdminPanel.jsx:44-50 | The draft starts from the section's title and content and carries no images |
| AdminPanel.SaveSection | src/components/AdminPanel.jsx:52-56 | Save always issues a section merge and closes the editor; with no open section the target is `null` and the patch is empty |
| AdminPanel.SaveWhileViewing | src/components/AdminPanel.jsx:52-56 | Saving with no open section leaves the content unchanged, or throws when the page has no sections |
| AdminPanel.EditThenSaveKeepsContent | src/components/AdminPanel.jsx:44-56 | Opening a section and saving the untouched draft leaves the content as it was |
| AdminPanel.AddSectionAt | src/components/AdminPanel.jsx:63-70 | The new section is keyed "new-section-" followed by the clock value, with the placeholder text and no images field |
| AdminPanel.UpdateTitle | src/components/AdminPanel.jsx:78-80 | The title edit replaces only the page's title, for any content |
| AdminPanel.UpdateSubtitle | src/components/AdminPanel.jsx:82-84 | The subtitle edit replaces only the page's subtitle, for any content |
| JsText.Trim | src/components/InlineTextEditor.jsx:37 | The trimmed string is a slice with only whitespace cut off, and has no whitespace at either end |
| JsText.TrimEmptyIffAllSpace | src/components/TaskEditModal.jsx:26 | A string trims to nothing exactly when all of it is whitespace |
| JsText.TrimIdempotent | src/components/InlineTextEditor.jsx:48 | Trimming twice equals trimming once |
| JsText.ParseIntValue | src/components/TaskEditModal.jsx:30 | `parseInt` of a form value: a number reads back as itself, text is parsed as typed |
| JsText.ParseInt | src/components/InlineProgressEditor.jsx:29 | `parseInt` succeeds only on text with something after leading white space, and a negative result needs a leading '-' |
| JsText.ParseIntOfIntToString | src/components/InlineProgressEditor.jsx:29-30 | `parseInt` reads back the decimal spelling of every integer |
| Json.ObjectLikeIffTruthyObject | src/services/persistenceService.js:56 | The truthy values with `typeof` "object" are exactly records and arrays |
| Json.IndexEntries | src/services/persistenceService.js:164-165 | Spreading an array gives a record whose keys are exactly the decimal indices "0" … up to its length, each holding the element at that index |
| Json.Stringify | src/contexts/ContentContext.jsx:133 | Parsing a serialized value gives the value back |
| TaskSlug.Lower | src/components/RoadmapPageUpdated.jsx:355 | `toLowerCase()` never shortens the title |
| TaskSlug.LowerOfFixed | src/components/RoadmapPageUpdated.jsx:355 | Text whose characters are all their own lower case is left unchanged |
| TaskSlug.LowerOfAlphabet | src/components/RoadmapPageUpdated.jsx:355 | Text over [a-z0-9-] is left unchanged |
| TaskSlug.LowerChar | src/components/RoadmapPageUpdated.jsx:355 | Lower-casing keeps letters, digits and '-' of [a-z0-9-] as they are and never yields the empty string |
| TaskSlug.Dashes | src/components/RoadmapPageUpdated.jsx:355 | Letters and digits in [a-z0-9] are kept in place and every other character becomes '-' |
| TaskSlug.Collapse | src/components/RoadmapPageUpdated.jsx:355 | After collapsing no "--" is left, and the ends and alphabet are kept |
| TaskSlug.CollapseAppend | src/components/RoadmapPageUpdated.jsx:355 | Where a join puts no two '-' side by side, collapsing the whole is collapsing each part: nothing is dropped across the seam |
| TaskSlug.CollapseDashRun | src/components/RoadmapPageUpdated.jsx:355 | A run of '-' of any length becomes exactly one '-' |
| TaskSlug.TrimDashes | src/components/RoadmapPageUpdated.jsx:355 | Stripping one '-' from each end never lengthens the id |
| TaskSlug.TrimDashesRestores | src/components/RoadmapPageUpdated.jsx:355 | The input is the trimmed id with a '-' put back at each end where the input had one, and nothing else changed |
| TaskSlug.TrimDashesMakesSlug | src/components/RoadmapPageUpdated.jsx:355 | Trimming a collapsed [a-z0-9-] string leaves no '-' at either end and keeps it free of "--" |
| TaskSlug.GenerateTaskId | src/components/RoadmapPageUpdated.jsx:354-356 | Every generated id uses only [a-z0-9-], has no "--" and no '-' at either end |
| TaskSlug.GenerateTaskIdIdempotent | src/components/RoadmapPageEnhanced.jsx:188-190 | Generating an id from a generated id gives it back |
| TaskSlug.GenerateTaskIdKeepsAlnums | src/components/RoadmapPageUpdated.jsx:354-356 | The letters and digits of the id are those of the lower-cased title, in order |
| TaskSlug.GenerateTaskIdEmptyIff | src/components/RoadmapPageUpdated.jsx:354-356 | The id is empty exactly when the lower-cased title has no letter or digit in [a-z0-9] |
| TaskSlug.GenerateTaskIdJoins | src/components/RoadmapPageUpdated.jsx:354-356 | Two ids joined by any run of non-alphanumeric characters that lower-case to themselves give the two ids with exactly one '-' between them |
| TaskSlug.GenerateTaskIdExample | src/components/RoadmapPageEnhanced.jsx:188-190 | Worked example: "a & b" gives "a-b" |
| RoadmapTasks.AsTask | src/components/RoadmapPageUpdated.jsx:373-376 | A new task carries the submitted fields with the given id |
| RoadmapTasks.ReplaceTasks | src/components/RoadmapPageUpdated.jsx:367-369 | Every task with the id is replaced in place; the others are kept |
| RoadmapTasks.RemoveTasks | src/components/RoadmapPageUpdated.jsx:396 | The kept tasks are exactly those of another id |
| RoadmapTasks.RemoveTasksConcat | src/components/RoadmapPageUpdated.jsx:396 | Filtering a concatenation filters each part |
| RoadmapTasks.RemoveTasksNoMatch | src/components/RoadmapPageUpdated.jsx:396 | A list without the id is left as it is |
| RoadmapTasks.NewTask | src/components/RoadmapPageUpdated.jsx:373-376 | A new task's id is the slug of its title |
| RoadmapTasks.UpsertUpdated | src/components/RoadmapPageUpdated.jsx:362-381 | Inside one quarter, the original page replaces in place every task carrying a truthy id the quarter already has, else appends the new task; the quarter's id and name are kept |
| RoadmapTasks.UpsertEnhanced | src/components/RoadmapPageEnhanced.jsx:196-215 | Inside one quarter, the enhanced page, given a truthy id, replaces in place every task with that id and adds nothing even when none matches; only a falsy id appends the new task |
| RoadmapTasks.SaveTaskUpdated | src/components/RoadmapPageUpdated.jsx:358-387 | On the original page a task with a truthy id already in its quarter is replaced; otherwise it is appended under a slug id; other quarters are kept |
| RoadmapTasks.SaveTaskEnhanced | src/components/RoadmapPageEnhanced.jsx:192-221 | On the enhanced page any truthy id means replace, even when no task has it; otherwise the task is appended under a slug id |
| RoadmapTasks.DeleteTask | src/components/RoadmapPageUpdated.jsx:389-403 | Every task with the id leaves the target quarter only; the count and order of quarters are kept |
| RoadmapTasks.UnknownIdVariantsDiffer | src/components/RoadmapPageEnhanced.jsx:197-204 | An unknown truthy id is dropped silently by the enhanced page but appended by the original |
| RoadmapTasks.VariantsAgree | src/components/RoadmapPageUpdated.jsx:362-381 | When the id is absent or known in its quarter, both pages save alike |
| RoadmapTasks.SaveKnownIdIdempotent | src/components/RoadmapPageEnhanced.jsx:192-221 | Saving the same task twice by its id equals saving it once |
| RoadmapTasks.DeleteUndoesAppend | src/components/RoadmapPageEnhanced.jsx:205-237 | Deleting a freshly appended task by its generated id gives the quarters back, on both pages |
| RoadmapTasks.DeleteTaskProperties | src/components/RoadmapPageEnhanced.jsx:223-237 | Deleting is idempotent, and a delete aimed at no quarter changes nothing |
| TaskEditModal.EditSeed | src/components/RoadmapPageEnhanced.jsx:239-242 | Opening the dialog on a task shows its title, description and progress, and any submit saves under the task's id in that quarter |
| TaskEditModal.AddSeed | src/components/RoadmapPageEnhanced.jsx:244-247 | Opening the dialog to add shows the blank form, and any submit carries no id, so it is appended to that quarter |
| TaskEditModal.LoadForm | src/components/TaskEditModal.jsx:6-22 | The form takes the task's fields, with "Foundation" for a falsy category; a new task gets the blank form |
| TaskEditModal.ClampProgress | src/components/TaskEditModal.jsx:30 | Submitted progress is a percentage: in range kept, below 0 gives 0, above 100 gives 100 |
| TaskEditModal.TypedProgress | src/components/TaskEditModal.jsx:30 | A typed percentage is submitted as is; text with no leading number submits 0 |
| TaskEditModal.Submit | src/components/TaskEditModal.jsx:24-34 | Nothing is saved exactly when the title trims to nothing; otherwise the seed's id and quarter travel with the form's fields, and the progress is exactly `ClampProgress` of the form's value |
| TaskEditModal.SubmitBlankIffAllSpace | src/components/TaskEditModal.jsx:26 | A title is rejected exactly when it is all whitespace |
| TaskEditModal.OpenThenSubmitKeepsTask | src/components/TaskEditModal.jsx:13-34 | Opening a stored task and submitting untouched hands back the same task |
| TaskEditModal.Open | src/components/TaskEditModal.jsx:43-103 | The open dialog renders exactly when a category list is given, showing the seed's form |
| TaskEditModal.ConfirmDelete | src/components/TaskEditModal.jsx:36-41 | Delete happens only when confirmed for a task with a truthy id, and throws when the page gave no handler |
| TaskEditModal.UpdatedDialogNeverOpens | src/components/RoadmapPageUpdated.jsx:573-578 | As written, the original page's dialog throws whenever it opens, and its delete would throw |
| TaskEditModal.UpdatedDialogOpens | src/components/RoadmapPageEnhanced.jsx:410-417 | With the category list and delete handler passed, the dialog opens and deletes as on the enhanced page |
| QuarterManager.Edit | src/components/QuarterManager.jsx:9-15 | The form starts from the quarter's own name and id |
| QuarterManager.Rename | src/components/QuarterManager.jsx:19-23 | Every quarter with the target key gets the new name and id and keeps its tasks; others are kept |
| QuarterManager.Save | src/components/QuarterManager.jsx:17-28 | With a truthy target the renamed list goes to the page and the form closes; otherwise nothing happens |
| QuarterManager.Cancel | src/components/QuarterManager.jsx:30-33 | Cancel closes the form and hands over nothing |
| QuarterManager.NewQuarter | src/components/QuarterManager.jsx:36-40 | The new quarter is keyed "q<n+1>-2026" and named "Q<n+1> 2026" for n quarters, with no tasks |
| QuarterManager.Add | src/components/QuarterManager.jsx:35-42 | Adding appends the new quarter at the end |
| QuarterManager.RemoveQuarters | src/components/QuarterManager.jsx:46 | The kept quarters are exactly those of another key |
| QuarterManager.Delete | src/components/QuarterManager.jsx:44-49 | After confirmation every quarter with the key goes; without it nothing happens |
| QuarterManager.RemoveQuartersConcat | src/components/QuarterManager.jsx:46 | Filtering a concatenation filters each part |
| QuarterManager.RemoveQuartersNoMatch | src/components/QuarterManager.jsx:46 | A list without the key is left as it is |
| QuarterManager.DeleteUndoesAdd | src/components/QuarterManager.jsx:35-49 | Deleting the quarter just added by its key gives the list back |
| QuarterManager.EditThenSaveKeepsQuarters | src/components/QuarterManager.jsx:9-28 | Opening a quarter and saving the untouched form gives the same list |
| QuarterManager.RenameBack | src/components/QuarterManager.jsx:17-28 | Renaming to a fresh key and back restores the list |
| QuarterManager.AddAfterDeleteCollides | src/components/QuarterManager.jsx:35-49 | With two quarters, the second keyed "q2-2026", deleting the first and adding one leaves two quarters keyed "q2-2026" |
| RoadmapPages.InitialRoadmap | src/components/RoadmapPageUpdated.jsx:9-252 | The shipped roadmap has 7 quarters on the original page and 3 on the enhanced, stamped with today |
| RoadmapPages.ShippedTasksHaveDistinctIds | src/components/RoadmapPageEnhanced.jsx:9-116 | Every shipped task has a truthy id, unique within its quarter |
| RoadmapPages.Persist | src/components/RoadmapPageEnhanced.jsx:148-151 | The save effect writes the roadmap under the page's own key and touches no other key |
| RoadmapPages.Mount | src/components/RoadmapPageEnhanced.jsx:137-151 | Stored text that parses is shown; missing or empty text keeps the shipped roadmap; malformed text makes the original page throw and the enhanced page keep the shipped roadmap |
| RoadmapPages.Commit | src/components/RoadmapPageUpdated.jsx:347-352 | A change shows the new quarters, stamps today and is stored |
| RoadmapPages.SaveTask | src/components/RoadmapPageUpdated.jsx:358-387 | Each page saves through its own upsert, then stamps the date and stores |
| RoadmapPages.DeleteTask | src/components/RoadmapPageEnhanced.jsx:223-237 | A delete removes the task from its quarter, then stamps and stores |
| RoadmapPages.CardDelete | src/components/RoadmapPageUpdated.jsx:302-304 | The original page's card delete removes the task at once, without confirmation |
| RoadmapPages.ManageQuarters | src/components/RoadmapPageUpdated.jsx:536-542 | A quarter list from the manager replaces the quarters and stamps the date; no list changes nothing |
| RoadmapPages.DialogSave | src/components/RoadmapPageEnhanced.jsx:410-417 | A blank title changes nothing; otherwise the page saves what the dialog submits |
| RoadmapPages.DialogDelete | src/components/RoadmapPageEnhanced.jsx:410-417 | An unconfirmed delete changes nothing; a confirmed one deletes the dialog's task |
| RoadmapPages.Import | src/components/RoadmapPageEnhanced.jsx:171-186 | Text that parses replaces the roadmap (the enhanced page stamps today) and is stored; anything else changes nothing |
| RoadmapPages.Export | src/components/RoadmapPageEnhanced.jsx:160-169 | The exported file parses back to exactly the page's roadmap |
| RoadmapPages.ExportImportRoundTrip | src/components/RoadmapPageEnhanced.jsx:160-186 | Importing an exported roadmap shows it, exactly on the original page and restamped on the enhanced |
| RoadmapPages.MirroredPreserved | src/components/RoadmapPageEnhanced.jsx:137-237 | Mount and every handler keep storage equal to the roadmap shown |
| RoadmapPages.ReloadShowsSameRoadmap | src/components/RoadmapPageUpdated.jsx:334-345 | Reloading from the storage a page leaves shows the same roadmap, stamp included |
| RoadmapPages.PagesKeepApart | src/components/RoadmapPageEnhanced.jsx:138-150 | The two pages use different keys, so one page's writes never change how the other mounts |
| RoadmapPages.MalformedStorage | src/components/RoadmapPageUpdated.jsx:334-337 | Malformed stored text makes the original page throw on every mount, while the enhanced page recovers and overwrites it |
| InlineEditors.ShowProgress | src/components/InlineProgressEditor.jsx:13-14 | The editor starts on the prop's number, marked valid |
| InlineEditors.TypeProgress | src/components/InlineProgressEditor.jsx:28-37 | Typed text is kept and marked valid exactly when it parses to 0..100 |
| InlineEditors.SaveProgress | src/components/InlineProgressEditor.jsx:39-44 | A percentage in 0..100 is reported exactly when the flag and a fresh check pass; otherwise nothing |
| InlineEditors.CancelProgress | src/components/InlineProgressEditor.jsx:46-50 | Cancel restores the prop's number and reports a cancel |
| InlineEditors.ProgressKey | src/components/InlineProgressEditor.jsx:52-60 | Enter saves, Escape cancels, other keys do nothing |
| InlineEditors.TypeThenSaveProgress | src/components/InlineProgressEditor.jsx:28-44 | Typing a number and saving reports it exactly when it is a percentage |
| InlineEditors.CancelThenSaveProgress | src/components/InlineProgressEditor.jsx:39-50 | Cancelling then saving reports the prop's own value when it is a percentage |
| InlineEditors.ValidText | src/components/InlineTextEditor.jsx:35-38 | Text is valid exactly when it is within a truthy length limit and not all whitespace |
| InlineEditors.ShowText | src/components/InlineTextEditor.jsx:16-17 | The editor starts on the prop's text, marked valid |
| InlineEditors.TypeText | src/components/InlineTextEditor.jsx:40-44 | Typed text is kept and validated |
| InlineEditors.SaveText | src/components/InlineTextEditor.jsx:46-50 | What is saved is the trimmed text: never blank, no whitespace at either end, within the limit |
| InlineEditors.CancelText | src/components/InlineTextEditor.jsx:52-56 | Cancel restores the prop's text and reports a cancel |
| InlineEditors.TextKey | src/components/InlineTextEditor.jsx:58-69 | Single-line editors save on Enter, multi-line ones only on Ctrl+Enter; Escape cancels |
| InlineEditors.SaveTextStable | src/components/InlineTextEditor.jsx:46-50 | Saving again what was saved hands back the same text |
| InlineEditors.BlankTextNeverSaved | src/components/InlineTextEditor.jsx:35-69 | Blank input is never saved, whatever key submits it |

## Left out

- `healthCheck` (persistenceService.js:268-296) only probes the host's storage and the remote client; it has no logic beyond what `SaveLocal`/`RemoveLocal` fault parameters already cover.
- The remote backend's bodies (`saveToSupabase`, `loadFromSupabase`, remote `remove`) past their "no client" guard: the client is never created, so only the guard is reachable and modelled.
- `usePersistenceService` (usePersistence.js:184-218) only forwards to `backup`, `restore` and `migrateToSupabase`, which are modelled on the service; `checkHealth` is left out with `healthCheck`.
- The hook's unmount cleanup (usePersistence.js:129-135) only cancels the pending timer; unmounting is not part of the model.
- The `schema` passed to `service.load` in the hook is ignored by `load` in the source, and so in the model.
- JSON is abstract: a stored or imported text is either the encoding of a value of the expected type or malformed. Text that parses to a value of another shape (`null`, a number, a document missing fields) is not modelled, nor are the render errors it would cause.
- Clock values, dates, `window.confirm` answers, host storage faults and chosen files are parameters; `alert`, `console` output, file download and `FileReader` plumbing are browser I/O; export file names are not modelled.
- `pdfGenerator`, the static and editable document pages, `SupabaseConfig`, `ImageUpload`, `InlineCategoryEditor`, `HomePage` and `App` render or wire up the modelled operations and are not part of this model.
- Rendering, React effect ordering and batching: each handler's state updates are applied as one step. The enhanced page's mount shows the stored roadmap after first rendering the shipped one; the model keeps only the final state.
- The `isAdmin` toggle and the panels' show/hide flags only switch views.
- `useContent` throwing outside a provider.
- EnhancedAdminPanel.UploadImage: `push` mutates the draft's image array in place, which can be the section's own array in the content; the model treats the draft as a copy.
- HTML constraint validation (`required`, number `min`/`max`) that a browser applies before the task dialog's `handleSubmit` runs is not modelled; the model follows the handler.
- The inline editors' `handleClick` and focus effects only open the editor and move focus.
- TaskSlug.LowerChar: `toLowerCase` is modelled only as far as it affects [a-z0-9]: ASCII capitals, KELVIN SIGN and LATIN CAPITAL LETTER I WITH DOT ABOVE; every other character is kept, which changes nothing after the dash replacement.
- String lengths count code points rather than UTF-16 code units, so a `maxLength` check on text outside the Basic Multilingual Plane is not modelled exactly.
- Numbers are integers: floats, `NaN` from other sources and numeric edge cases of `parseInt` (exponents, very large values) are not modelled.
- Property enumeration order of records and the prototype chain are not modelled; a schema is a list of fields in declaration order.
- RoadmapPages.DialogSave / RoadmapPages.DialogDelete: the original page is modelled with the corrected dialog props of the second Findings row (`TaskEditModal.UpdatedProps`: the category list and `deleteTask`). As written it passes neither, so its dialog throws when opened (`TaskEditModal.UpdatedDialogNeverOpens`), and no submit or delete through the dialog is reachable on that page.
- PersistenceService.Restore: a host fault during a restore's saves is not modelled (every save is faultless).
- PersistenceService.Restore: every entry is stamped with one clock value `now`, where the source reads the clock afresh for each save; the stamp lives only in `_metadata`, which loading strips, so no loaded value depends on it.

## Findings

| source | as written | input that shows it | evidently intended | confidence | as-written member | corrected member |
|---|---|---|---|---|---|---|
| src/components/EnhancedAdminPanel.jsx:106-111 | `handleImport` hands the `File` object itself to `importContent`, which calls `JSON.parse` on its string form "[object File]" | choosing any file in the enhanced panel's import control | read the file's text first and import that, as `AdminPanel` does at lines 86-100 | not executed | EnhancedAdminPanel.ImportAsWrittenNeverImports | SectionEditing.ImportFileOutcome |
| src/components/RoadmapPageUpdated.jsx:573-578 | the task dialog is mounted without `categories` or `onDelete`, so opening it throws at `categories.map` (TaskEditModal.jsx:99) | clicking Add Task or a card's Edit on the original roadmap page | pass the category list and `deleteTask`, as the enhanced page does at RoadmapPageEnhanced.jsx:410-417 | not executed | TaskEditModal.UpdatedDialogNeverOpens | TaskEditModal.UpdatedDialogOpens |
