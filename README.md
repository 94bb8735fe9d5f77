# TermGenie core, modelled in Dafny

TermGenie lets curators propose new ontology terms, queues the proposals for review, and on
approval merges them into the ontology file and commits that file to a version-control
repository. This project models the logic at the heart of that system and proves what it
promises:

- **The commit-review pipeline** (`OntologyCommitReviewPipeline`): storing a submission,
  approving a batch of history items (mode and credential checks, work folders, the fixed hook
  order per item, skipping committed items, marking items committed, the reload request), and
  the small store operations around it. The Java class becomes `CommitPipeline.Pipeline`, a
  Dafny class whose fields are the store, the environment the hooks see, the temporary entries
  and the reload counter. Each method is proved equal to a function in `CommitModel`, and the
  lemmas in `CommitProperties` prove the pipeline's promises about those functions.
- **The ontology settings parser** (`DefaultOntologyConfiguration`): the `[Ontology]`,
  `[OntologyBranch]` and `[IRIMapping]` sections, field values with `!` comments, and the
  insertion-ordered result map. The reader loops are methods over a `LineReader` and an
  `OntologyMap` (`OntologyLoader`). They are proved equal to recursive functions
  (`OntologyConfiguration`), whose meaning is stated section by section in
  `ConfigurationProperties`.
- **The term-generation service** (`GenerateTermsServiceImpl`): the template cache and its
  fill-on-miss lookups, the sorted template listing, the auto-complete resources, the ordered
  checks of `generateTerms` up to the engine call, and the conversion of generation
  parameters (`GenerateTermsService`).
- **Smaller pieces**:
  - logical-definition rendering, `?key` substitution and relation assembly
    (`TermCreationTools`);
  - the CVS helper's credential choice (`CvsHelper`);
  - per-name Lucene index grouping and suggestion dispatch (`LuceneOnlyClient`);
  - the review mail (`ReviewMail`);
  - the elapsed-time format of the Prova speed test (`TimerFormat`);
  - the Prova fact-base generator (`FactBase`).
- **Shared helpers**:
  - `Wrappers` has `Option` for a nullable reference and `Result` for a call that may throw;
  - `Text` models the Java `String` methods the core uses;
  - `OrderedMap` models a `LinkedHashMap` with string keys.

Collaborators the core only calls are parameters of the model; nothing is assumed about them beyond their types:

- the subclass hooks of the pipeline, the history store and the file system (`Backend`);
- the diff library (`DiffLib`);
- the ontology tools and user-data provider (`Tools`);
- the Manchester parser and the reasoner (`Reasoner`);
- the mail server (`MailHandler.accepts`);
- the Lucene search.

Each is a function of an abstract environment state, so a hook may fail, or change what later
hooks see, in any way a function of that state can.

### Notes on the code's behaviour

- **A failing `checkTargetOntology`** passes on the exception the hook threw, with that
  exception's own rollback flag (`CommitProperties.CheckRejected`).
- **Errors the pipeline raises itself** come from its `error` helpers, which build exceptions
  with `rollback=false`. An unchecked exception escapes without being wrapped: the null patch
  that `createUnifiedDiff` gets back is dereferenced.
- **A failure in a later item of a batch** makes the whole batch throw, and no list of results
  is returned. The items before the failing one stay committed in the store
  (`CommitProperties.CommitThrows`).
- **Missing credentials in `explicit` mode** throw a `CommitException` with rollback
  (`CommitProperties.CommitRejectsEarly`).
- **Work folders**: one lock file and one work folder are created per batch, not per item.
- **`commit(CommitInfo)`** stores the new item first and computes the preview diff afterwards.
  A failing `createDiff` therefore leaves the item stored (`CommitModel.Submit`).
- **The diff/patch round trip** is the diff library's promise and is not assumed here.

## Model

Paths are relative to the repository root. `OntologyCommitReviewPipeline.java` and the other
files are cited by their full path.

| member | source | states |
|---|---|---|
| CommitModel.ModeCheck | TermGenie/TermGenieOntologyCommit/TermGenieOntologyCommit-Core/src/main/java/org/bbop/termgenie/ontology/OntologyCommitReviewPipeline.java:83-93 | The checks pass exactly when `explicit` mode has both a username and a password and `anonymus` mode is supported; every rejection carries rollback |
| CommitModel.StoreUpdate | TermGenie/TermGenieOntologyCommit/TermGenieOntologyCommit-Core/src/main/java/org/bbop/termgenie/ontology/OntologyCommitReviewPipeline.java:433-434 | `store.update` overwrites exactly the record under the item's id and adds no id |
| CommitModel.RetrieveItems | TermGenie/TermGenieOntologyCommit/TermGenieOntologyCommit-Core/src/main/java/org/bbop/termgenie/ontology/OntologyCommitReviewPipeline.java:284-295 | Fails, with the "Could not retrieve commit items from db" error and no rollback, exactly when the store fails or loads nothing; otherwise returns the loaded items, which are not empty |
| CommitModel.Submit | TermGenie/TermGenieOntologyCommit/TermGenieOntologyCommit-Core/src/main/java/org/bbop/termgenie/ontology/OntologyCommitReviewPipeline.java:50-62 | A store failure throws the store-problem error and changes nothing; otherwise the new uncommitted item is stored under a fresh id whatever `createDiff` does, and the result is the awaiting-review success with the terms and the diff, or `createDiff`'s exception |
| CommitModel.GetItem | TermGenie/TermGenieOntologyCommit/TermGenieOntologyCommit-Core/src/main/java/org/bbop/termgenie/ontology/OntologyCommitReviewPipeline.java:110-120 | A store failure throws without rollback; otherwise the stored item under the id, or null when there is none |
| CommitModel.UpdateItem | TermGenie/TermGenieOntologyCommit/TermGenieOntologyCommit-Core/src/main/java/org/bbop/termgenie/ontology/OntologyCommitReviewPipeline.java:123-130 | Throws "Could not update item in db" exactly when the store fails, leaving the state unchanged; otherwise the store is updated with the item |
| CommitModel.CheckRecentCommits | TermGenie/TermGenieOntologyCommit/TermGenieOntologyCommit-Core/src/main/java/org/bbop/termgenie/ontology/OntologyCommitReviewPipeline.java:100-107 | The store's answer, or an empty list when the store fails |
| CommitPipeline.AppendLines | TermGenie/TermGenieOntologyCommit/TermGenieOntologyCommit-Core/src/main/java/org/bbop/termgenie/ontology/OntologyCommitReviewPipeline.java:406-409 | The StringBuilder loop yields every diff line followed by a newline, in order |
| CommitPipeline.Pipeline.constructor | TermGenie/TermGenieOntologyCommit/TermGenieOntologyCommit-Core/src/main/java/org/bbop/termgenie/ontology/OntologyCommitReviewPipeline.java:39-47 | The pipeline starts with the given collaborators and store, no temporary entries, no reloads and an empty trace |
| CommitPipeline.Pipeline.Commit | TermGenie/TermGenieOntologyCommit/TermGenieOntologyCommit-Core/src/main/java/org/bbop/termgenie/ontology/OntologyCommitReviewPipeline.java:76-97 | The result and new state are those of `CommitModel.Commit`; a valid pipeline stays valid and ends with the temporary entries it started with |
| CommitPipeline.Pipeline.CommitInternal | TermGenie/TermGenieOntologyCommit/TermGenieOntologyCommit-Core/src/main/java/org/bbop/termgenie/ontology/OntologyCommitReviewPipeline.java:138-153 | The outer `commitInternal` is `CommitModel.CommitWithFolders`: the batch runs in fresh work folders, which are deleted however it ends |
| CommitPipeline.Pipeline.CreateTempDir | TermGenie/TermGenieOntologyCommit/TermGenieOntologyCommit-Core/src/main/java/org/bbop/termgenie/ontology/OntologyCommitReviewPipeline.java:176-195 | Fails exactly when the lock file or the folder cannot be made; a failed folder leaves nothing behind; on success the lock file and folder of the new run exist and its number is returned |
| CommitPipeline.Pipeline.Clean | TermGenie/TermGenieOntologyCommit/TermGenieOntologyCommit-Core/src/main/java/org/bbop/termgenie/ontology/OntologyCommitReviewPipeline.java:170-173 | Deletes exactly the work folder and lock file of the run; nothing else changes |
| CommitPipeline.Pipeline.CommitItems | TermGenie/TermGenieOntologyCommit/TermGenieOntologyCommit-Core/src/main/java/org/bbop/termgenie/ontology/OntologyCommitReviewPipeline.java:197-282 | The inner `commitInternal` is `CommitModel.CommitItems`: set-up hooks, load, the loop, and a reload request when something was committed |
| CommitPipeline.Pipeline.SetUp | TermGenie/TermGenieOntologyCommit/TermGenieOntologyCommit-Core/src/main/java/org/bbop/termgenie/ontology/OntologyCommitReviewPipeline.java:203-211 | `prepareWorkflow`, `prepareSCM`, `retrieveTargetOntology` and the SCM-target null check, as `CommitModel.SetUp` |
| CommitPipeline.Pipeline.RetrieveItems | TermGenie/TermGenieOntologyCommit/TermGenieOntologyCommit-Core/src/main/java/org/bbop/termgenie/ontology/OntologyCommitReviewPipeline.java:284-295 | Returns what `CommitModel.RetrieveItems` does and changes nothing |
| CommitPipeline.Pipeline.CommitLoop | TermGenie/TermGenieOntologyCommit/TermGenieOntologyCommit-Core/src/main/java/org/bbop/termgenie/ontology/OntologyCommitReviewPipeline.java:214-268 | The loop is `CommitModel.RunItems`, and on normal return the `changed` flag is true exactly when some result is a success |
| CommitPipeline.Pipeline.LoopBody | TermGenie/TermGenieOntologyCommit/TermGenieOntologyCommit-Core/src/main/java/org/bbop/termgenie/ontology/OntologyCommitReviewPipeline.java:219-267 | One iteration is `CommitModel.ProcessItem`, and a normal result is a success exactly when the item was not committed yet |
| CommitPipeline.Pipeline.CommitItem | TermGenie/TermGenieOntologyCommit/TermGenieOntologyCommit-Core/src/main/java/org/bbop/termgenie/ontology/OntologyCommitReviewPipeline.java:223-232 | For an uncommitted item: `updateSCM`, `checkTargetOntology`, `applyChanges` (a `false` throws with rollback) and the rest of the iteration, as `CommitModel.ProcessItem` |
| CommitPipeline.Pipeline.CommitApplied | TermGenie/TermGenieOntologyCommit/TermGenieOntologyCommit-Core/src/main/java/org/bbop/termgenie/ontology/OntologyCommitReviewPipeline.java:235-267 | Write, the three file null checks, diff, patch, repository commit and marking, as `CommitModel.FromWrite` |
| CommitPipeline.Pipeline.CreateUnifiedDiff | TermGenie/TermGenieOntologyCommit/TermGenieOntologyCommit-Core/src/main/java/org/bbop/termgenie/ontology/OntologyCommitReviewPipeline.java:390-416 | A read failure throws the diff error, a null patch the NullPointerException of the caller; otherwise the unified diff text and the patch |
| CommitPipeline.Pipeline.CreatePatchedFile | TermGenie/TermGenieOntologyCommit/TermGenieOntologyCommit-Core/src/main/java/org/bbop/termgenie/ontology/OntologyCommitReviewPipeline.java:418-427 | A failure to read, patch or write becomes the single patched-file error without rollback; otherwise the patched lines are written |
| CommitPipeline.Pipeline.FinalizeCommitHistory | TermGenie/TermGenieOntologyCommit/TermGenieOntologyCommit-Core/src/main/java/org/bbop/termgenie/ontology/OntologyCommitReviewPipeline.java:429-439 | The item is stored marked committed, or the store-problem error is thrown with the store unchanged |
| CommitPipeline.Pipeline.Submit | TermGenie/TermGenieOntologyCommit/TermGenieOntologyCommit-Core/src/main/java/org/bbop/termgenie/ontology/OntologyCommitReviewPipeline.java:50-62 | Behaves as `CommitModel.Submit` and keeps the store valid |
| CommitPipeline.Pipeline.GetItem | TermGenie/TermGenieOntologyCommit/TermGenieOntologyCommit-Core/src/main/java/org/bbop/termgenie/ontology/OntologyCommitReviewPipeline.java:110-120 | Returns what `CommitModel.GetItem` does |
| CommitPipeline.Pipeline.UpdateItem | TermGenie/TermGenieOntologyCommit/TermGenieOntologyCommit-Core/src/main/java/org/bbop/termgenie/ontology/OntologyCommitReviewPipeline.java:123-130 | Behaves as `CommitModel.UpdateItem` |
| CommitPipeline.Pipeline.CheckRecentCommits | TermGenie/TermGenieOntologyCommit/TermGenieOntologyCommit-Core/src/main/java/org/bbop/termgenie/ontology/OntologyCommitReviewPipeline.java:100-107 | Returns what `CommitModel.CheckRecentCommits` does |
| CommitProperties.ProcessItemShape | TermGenie/TermGenieOntologyCommit/TermGenieOntologyCommit-Core/src/main/java/org/bbop/termgenie/ontology/OntologyCommitReviewPipeline.java:218-268 | A committed item is skipped with the already-committed result and nothing changes. For any other item the hooks run as a prefix of the fixed order: update, check, apply, write, diff, patch, commit to repository, mark. Each hook runs only after all before it returned. The iteration succeeds exactly when all of them ran, and only then is the item marked committed. A failure leaves the store untouched |
| CommitProperties.ProcessItemResult | TermGenie/TermGenieOntologyCommit/TermGenieOntologyCommit-Core/src/main/java/org/bbop/termgenie/ontology/OntologyCommitReviewPipeline.java:219-266 | A normal result is the already-committed failure for a committed item, and otherwise a success with the item's terms and a diff |
| CommitProperties.ApplyStageShape | TermGenie/TermGenieOntologyCommit/TermGenieOntologyCommit-Core/src/main/java/org/bbop/termgenie/ontology/OntologyCommitReviewPipeline.java:223-232 | Update, check and apply invoke a prefix of the first three hooks (all three when the stage goes on) and leave the store alone |
| CommitProperties.ApplyRejected | TermGenie/TermGenieOntologyCommit/TermGenieOntologyCommit-Core/src/main/java/org/bbop/termgenie/ontology/OntologyCommitReviewPipeline.java:228-232 | A `false` from `applyChanges` throws with rollback right after the first three hooks: nothing is written, diffed or committed, and the store is unchanged |
| CommitProperties.CheckRejected | TermGenie/TermGenieOntologyCommit/TermGenieOntologyCommit-Core/src/main/java/org/bbop/termgenie/ontology/OntologyCommitReviewPipeline.java:223-226 | A failing `checkTargetOntology` ends the item with that hook's exception; the repository is never reached |
| CommitProperties.RunItemsThrowSticks | TermGenie/TermGenieOntologyCommit/TermGenieOntologyCommit-Core/src/main/java/org/bbop/termgenie/ontology/OntologyCommitReviewPipeline.java:218-268 | A failure aborts the loop: a loop that failed on a prefix of the items ends the same way on all of them |
| CommitProperties.RunItemsFrame | TermGenie/TermGenieOntologyCommit/TermGenieOntologyCommit-Core/src/main/java/org/bbop/termgenie/ontology/OntologyCommitReviewPipeline.java:218-268 | The loop keeps the id counter, temporary entries, reloads and store ids, and only adds to the trace |
| CommitProperties.RunItemsResults | TermGenie/TermGenieOntologyCommit/TermGenieOntologyCommit-Core/src/main/java/org/bbop/termgenie/ontology/OntologyCommitReviewPipeline.java:214-268 | On normal return there is one result per item, each the one the item calls for |
| CommitProperties.RunItemsEvents | TermGenie/TermGenieOntologyCommit/TermGenieOntologyCommit-Core/src/main/java/org/bbop/termgenie/ontology/OntologyCommitReviewPipeline.java:218-268 | Every hook the loop invokes belongs to an item that was not committed yet |
| CommitProperties.RunItemsStore | TermGenie/TermGenieOntologyCommit/TermGenieOntologyCommit-Core/src/main/java/org/bbop/termgenie/ontology/OntologyCommitReviewPipeline.java:218-268 | On normal return every item is marked committed. On a failure, the loop failed at some item that was not yet committed: the items before it returned normally and that item threw. Exactly the items before it are marked, and those marks are not undone |
| CommitProperties.RunItemsAllCommitted | TermGenie/TermGenieOntologyCommit/TermGenieOntologyCommit-Core/src/main/java/org/bbop/termgenie/ontology/OntologyCommitReviewPipeline.java:219-222 | A loop over items that are all committed changes nothing and reports each one as already committed |
| CommitProperties.MarkAllSpec | TermGenie/TermGenieOntologyCommit/TermGenieOntologyCommit-Core/src/main/java/org/bbop/termgenie/ontology/OntologyCommitReviewPipeline.java:433-434 | Marking items read from the store sets exactly their records to committed and changes nothing else |
| CommitProperties.LoadItemsSpec | TermGenie/TermGenieOntologyCommit/TermGenieOntologyCommit-Core/src/main/java/org/bbop/termgenie/ontology/OntologyCommitReviewPipeline.java:284-290 | The loaded items: each is the stored record of a requested id, every stored requested id is loaded, and none is loaded twice |
| CommitProperties.SetUpShape | TermGenie/TermGenieOntologyCommit/TermGenieOntologyCommit-Core/src/main/java/org/bbop/termgenie/ontology/OntologyCommitReviewPipeline.java:203-211 | Setting up invokes a prefix of the three set-up hooks and touches neither the store nor the frame |
| CommitProperties.CommitItemsStore | TermGenie/TermGenieOntologyCommit/TermGenieOntologyCommit-Core/src/main/java/org/bbop/termgenie/ontology/OntologyCommitReviewPipeline.java:197-282 | The inner run leaves a prefix of the loaded items marked committed (all of them on normal return), keeps the frame, and requests no reload when it throws |
| CommitProperties.CommitItemsReturns | TermGenie/TermGenieOntologyCommit/TermGenieOntologyCommit-Core/src/main/java/org/bbop/termgenie/ontology/OntologyCommitReviewPipeline.java:213-281 | On normal return something was loaded, each loaded item got its result, and one reload is requested exactly when some item was committed |
| CommitProperties.CommitItemsEvents | TermGenie/TermGenieOntologyCommit/TermGenieOntologyCommit-Core/src/main/java/org/bbop/termgenie/ontology/OntologyCommitReviewPipeline.java:197-282 | Every hook the inner run invokes is a set-up hook or a hook of a loaded item that was not committed yet |
| CommitProperties.CommitWithFoldersUnfold | TermGenie/TermGenieOntologyCommit/TermGenieOntologyCommit-Core/src/main/java/org/bbop/termgenie/ontology/OntologyCommitReviewPipeline.java:138-153 | Once the folders exist, the outer run is the inner run followed by deleting the folders |
| CommitProperties.CommitUnfold | TermGenie/TermGenieOntologyCommit/TermGenieOntologyCommit-Core/src/main/java/org/bbop/termgenie/ontology/OntologyCommitReviewPipeline.java:76-153 | Past the early checks, `commit` is the inner run in new folders that are deleted afterwards. Otherwise it invokes no hook, touches neither the store nor the reloads, and throws for a non-empty list |
| CommitProperties.CommitRejectsEarly | TermGenie/TermGenieOntologyCommit/TermGenieOntologyCommit-Core/src/main/java/org/bbop/termgenie/ontology/OntologyCommitReviewPipeline.java:79-96 | An empty list gives exactly the one ERROR result. A rejected mode or missing credentials throw with rollback. In both cases nothing is created, invoked or stored |
| CommitProperties.CommitItemsKeepsStore | TermGenie/TermGenieOntologyCommit/TermGenieOntologyCommit-Core/src/main/java/org/bbop/termgenie/ontology/OntologyCommitReviewPipeline.java:197-282 | The inner run keeps the store's ids and keeps each record filed under its own id |
| CommitProperties.CommitRestoresTemp | TermGenie/TermGenieOntologyCommit/TermGenieOntologyCommit-Core/src/main/java/org/bbop/termgenie/ontology/OntologyCommitReviewPipeline.java:144-195 | However `commit` ends, the temporary entries are as before it (no lock file or work folder is left behind), and the store stays valid |
| CommitProperties.MarkLoaded | TermGenie/TermGenieOntologyCommit/TermGenieOntologyCommit-Core/src/main/java/org/bbop/termgenie/ontology/OntologyCommitReviewPipeline.java:429-439 | Marking the loaded items sets exactly the stored records of the requested ids to committed |
| CommitProperties.CommitItemsOk | TermGenie/TermGenieOntologyCommit/TermGenieOntologyCommit-Core/src/main/java/org/bbop/termgenie/ontology/OntologyCommitReviewPipeline.java:197-282 | On normal return, one result per loaded item, exactly the requested records marked committed, and a reload exactly when some item was committed |
| CommitProperties.CommitReturns | TermGenie/TermGenieOntologyCommit/TermGenieOntologyCommit-Core/src/main/java/org/bbop/termgenie/ontology/OntologyCommitReviewPipeline.java:76-282 | When `commit` returns normally: one result per stored requested item, exactly those records now marked committed and nothing else changed, and one reload exactly when some item succeeded |
| CommitProperties.CommitItemsThrow | TermGenie/TermGenieOntologyCommit/TermGenieOntologyCommit-Core/src/main/java/org/bbop/termgenie/ontology/OntologyCommitReviewPipeline.java:197-282 | When the inner run throws, no reload is requested. A failure before the loop leaves the store as it was. Otherwise the loop failed at some loaded item, the items before it having returned normally, and exactly the stored records of the items before it are marked committed |
| CommitProperties.CommitThrows | TermGenie/TermGenieOntologyCommit/TermGenieOntologyCommit-Core/src/main/java/org/bbop/termgenie/ontology/OntologyCommitReviewPipeline.java:197-282 | When `commit` throws, no reload is requested. A failure before the loop (early checks, folders, set-up, loading) leaves the store as it was. A failure in the loop happened at some item, the items before it having returned normally, and exactly the records of the items before it stay marked committed |
| CommitProperties.CommitItemsSkips | TermGenie/TermGenieOntologyCommit/TermGenieOntologyCommit-Core/src/main/java/org/bbop/termgenie/ontology/OntologyCommitReviewPipeline.java:218-222 | Every hook of the inner run is a set-up hook or a hook of a requested record that was not committed |
| CommitProperties.CommitSkipsCommitted | TermGenie/TermGenieOntologyCommit/TermGenieOntologyCommit-Core/src/main/java/org/bbop/termgenie/ontology/OntologyCommitReviewPipeline.java:218-222 | Every hook `commit` invokes is a set-up hook or a hook of a requested item that was not yet committed |
| CommitProperties.CommittedItemsUntouched | TermGenie/TermGenieOntologyCommit/TermGenieOntologyCommit-Core/src/main/java/org/bbop/termgenie/ontology/OntologyCommitReviewPipeline.java:219-222 | No hook of an already committed item is ever invoked |
| CommitProperties.CommitItemsAllCommitted | TermGenie/TermGenieOntologyCommit/TermGenieOntologyCommit-Core/src/main/java/org/bbop/termgenie/ontology/OntologyCommitReviewPipeline.java:219-222 | An inner run over committed items leaves store and reloads alone, invokes at most the set-up hooks, and reports each item as already committed |
| CommitProperties.CommitAllCommitted | TermGenie/TermGenieOntologyCommit/TermGenieOntologyCommit-Core/src/main/java/org/bbop/termgenie/ontology/OntologyCommitReviewPipeline.java:219-222 | A batch whose requested records are all committed commits nothing. No item hook runs, store and reloads are unchanged, and every result says already committed |
| CommitProperties.CommitAgain | TermGenie/TermGenieOntologyCommit/TermGenieOntologyCommit-Core/src/main/java/org/bbop/termgenie/ontology/OntologyCommitReviewPipeline.java:219-222 | Re-approving the ids of a batch that returned normally commits nothing more, whatever the hooks and environment are the second time |
| CvsHelper.CreateScm | TermGenie/TermGenieOntologyCommit/TermGenieOntologyCommit-CVS/src/main/java/org/bbop/termgenie/ontology/cvs/CvsHelperPassword.java:36-50 | The client gets the configured root and the given folder, the configured password in `internal` mode and the caller's password in every other mode |
| CvsHelper.ModeCheckWithHelper | TermGenie/TermGenieOntologyCommit/TermGenieOntologyCommit-CVS/src/main/java/org/bbop/termgenie/ontology/cvs/CvsHelperPassword.java:52-70 | With this helper's mode, username and password, the pipeline's checks pass exactly when a password is configured, and otherwise fail with the password message; the mode is never anonymous |
| CvsHelper.ScmPasswordIsConfigured | TermGenie/TermGenieOntologyCommit/TermGenieOntologyCommit-CVS/src/main/java/org/bbop/termgenie/ontology/cvs/CvsHelperPassword.java:41-47 | The client created with the helper's own mode and password always gets the configured password |
| CvsHelper.CommitWithoutPassword | TermGenie/TermGenieOntologyCommit/TermGenieOntologyCommit-CVS/src/main/java/org/bbop/termgenie/ontology/cvs/CvsHelperPassword.java:58-70 | Without a configured password, every non-empty batch throws the password exception with rollback and leaves the state unchanged |
| OntologyConfiguration.AddSupport | TermGenie/TermGenieCore/src/main/java/org/bbop/termgenie/ontology/DefaultOntologyConfiguration.java:55-63 | A null value is ignored and any other one appended; nothing else changes |
| OntologyConfiguration.AddRequires | TermGenie/TermGenieCore/src/main/java/org/bbop/termgenie/ontology/DefaultOntologyConfiguration.java:65-73 | A null value is ignored and any other one appended; nothing else changes |
| OntologyConfiguration.CreateBranch | TermGenie/TermGenieCore/src/main/java/org/bbop/termgenie/ontology/DefaultOntologyConfiguration.java:96-103 | The branch has the parent's name, source, supports and requires, marked with the sub-ontology name and parent id |
| OntologyConfiguration.GetValuePlain | TermGenie/TermGenieCore/src/main/java/org/bbop/termgenie/ontology/DefaultOntologyConfiguration.java:265-273 | Without a ` !` marker the value is the trimmed rest of the line after the prefix |
| OntologyConfiguration.GetValueCommented | TermGenie/TermGenieCore/src/main/java/org/bbop/termgenie/ontology/DefaultOntologyConfiguration.java:267-271 | A value followed by ` !` and a comment is cut before the marker and trimmed |
| OntologyConfiguration.GetValueLeadingMarker | TermGenie/TermGenieCore/src/main/java/org/bbop/termgenie/ontology/DefaultOntologyConfiguration.java:267-268 | A marker at index 0 of the value is not a comment: the whole value is kept and trimmed |
| OntologyLoader.LineReader.ReadLine | TermGenie/TermGenieCore/src/main/java/org/bbop/termgenie/ontology/DefaultOntologyConfiguration.java:165 | The next line and one step forward, or null at the end of the input with the position kept |
| OntologyLoader.OntologyMap.Put | TermGenie/TermGenieCore/src/main/java/org/bbop/termgenie/ontology/DefaultOntologyConfiguration.java:208 | `put` on the LinkedHashMap replaces the value of a known name in place or appends a new entry |
| OntologyLoader.OntologyMap.Get | TermGenie/TermGenieCore/src/main/java/org/bbop/termgenie/ontology/DefaultOntologyConfiguration.java:243 | `get` returns the value under the name, or null |
| OntologyLoader.ParseIriMapperConfig | TermGenie/TermGenieCore/src/main/java/org/bbop/termgenie/ontology/DefaultOntologyConfiguration.java:192-199 | Reads one line: a `localfile:` line gives the mapper of its trimmed rest, any other line null, and a missing line the NullPointerException |
| OntologyLoader.ParseOntology | TermGenie/TermGenieCore/src/main/java/org/bbop/termgenie/ontology/DefaultOntologyConfiguration.java:201-232 | The reader loop leaves the map and the position that `ParseOntologyFrom` describes (see `ConfigurationProperties.OntologySection` for what that is) |
| OntologyLoader.ParseOntologyBranch | TermGenie/TermGenieCore/src/main/java/org/bbop/termgenie/ontology/DefaultOntologyConfiguration.java:234-263 | The reader loop leaves the map and the position that `ParseBranchFrom` describes (see `ConfigurationProperties.BranchSection`) |
| OntologyLoader.LoadOntologyConfiguration | TermGenie/TermGenieCore/src/main/java/org/bbop/termgenie/ontology/DefaultOntologyConfiguration.java:157-190 | The top-level loop returns the mapper and the ordered map of `Load`, or the exception of a missing IRI mapping line |
| ConfigurationProperties.BlockEnd | TermGenie/TermGenieCore/src/main/java/org/bbop/termgenie/ontology/DefaultOntologyConfiguration.java:204-213 | A section ends at the first line whose trimmed length is at most one, or at the end of the input |
| ConfigurationProperties.OntologySectionFrom | TermGenie/TermGenieCore/src/main/java/org/bbop/termgenie/ontology/DefaultOntologyConfiguration.java:204-231 | An ontology section ends at the first short line, which is consumed, or at the end of the input. The ontology it leaves is stored under its name in either case |
| ConfigurationProperties.OntologySection | TermGenie/TermGenieCore/src/main/java/org/bbop/termgenie/ontology/DefaultOntologyConfiguration.java:201-232 | Without a `name: ` line a section adds nothing, so fields before any name are ignored. Otherwise the ontology of the last `name: ` line is put under that name, with the last source after that line and the supports and requires after it, in order. An earlier unfinished ontology is dropped |
| ConfigurationProperties.BranchSectionFrom | TermGenie/TermGenieCore/src/main/java/org/bbop/termgenie/ontology/DefaultOntologyConfiguration.java:239-262 | A branch section adds its branch only at a terminating short line; cut off by the end of the input it adds nothing |
| ConfigurationProperties.BranchSection | TermGenie/TermGenieCore/src/main/java/org/bbop/termgenie/ontology/DefaultOntologyConfiguration.java:234-263 | A branch is added only when it ends with a short line, has a name, ontology and parent, and names an ontology already in the map. It is put under its own name, copies that ontology's name, source, supports and requires, and carries the last name and parent read |
| ConfigurationProperties.LoadWithoutSections | TermGenie/TermGenieCore/src/main/java/org/bbop/termgenie/ontology/DefaultOntologyConfiguration.java:165-177 | Lines without a section header add nothing and leave the mapper as it is |
| ConfigurationProperties.LoadKeepsOrder | TermGenie/TermGenieCore/src/main/java/org/bbop/termgenie/ontology/DefaultOntologyConfiguration.java:162-177 | A successful load keeps the names already in the map in their places, puts the new names after them, and has no name twice |
| ConfigurationProperties.IriMappingSection | TermGenie/TermGenieCore/src/main/java/org/bbop/termgenie/ontology/DefaultOntologyConfiguration.java:173-175 | An `[IRIMapping]` header on the last line makes the load fail. Otherwise the next line alone decides the mapper, replacing any earlier one, and that line is consumed whatever it holds |
| OrderedMap.PutGet | TermGenie/TermGenieCore/src/main/java/org/bbop/termgenie/ontology/DefaultOntologyConfiguration.java:162 | After `put`, the key maps to the new value, every other key maps to what it did before, and the keys stay unique |
| OrderedMap.PutKeys | TermGenie/TermGenieCore/src/main/java/org/bbop/termgenie/ontology/DefaultOntologyConfiguration.java:162 | `put` keeps the iteration order: a new key goes last and an existing key stays in its place |
| Text.IndexOfSpec | TermGenie/TermGenieCore/src/main/java/org/bbop/termgenie/ontology/DefaultOntologyConfiguration.java:267 | `indexOf` gives the first occurrence, and -1 exactly when there is none |
| Text.TrimSpec | TermGenie/TermGenieCore/src/main/java/org/bbop/termgenie/ontology/DefaultOntologyConfiguration.java:271 | `trim` keeps a contiguous part that neither starts nor ends with white space, and drops only white space |
| GenerateTermsService.CreateJsonTermTemplate | TermGenie/WebApplications/TermGenieJQuery/src/main/java/org/bbop/termgenie/services/GenerateTermsServiceImpl.java:361-367 | The JSON template carries the template's name, display name, description, hint and categories |
| GenerateTermsService.JsonTemplates | TermGenie/WebApplications/TermGenieJQuery/src/main/java/org/bbop/termgenie/services/GenerateTermsServiceImpl.java:138-141 | One converted template per template, in order |
| GenerateTermsService.SortByNameSorted | TermGenie/WebApplications/TermGenieJQuery/src/main/java/org/bbop/termgenie/services/GenerateTermsServiceImpl.java:339-346 | Sorting yields the names in ascending `compareTo` order and holds exactly the given templates |
| Text.CompareToAntisymmetric | TermGenie/WebApplications/TermGenieJQuery/src/main/java/org/bbop/termgenie/services/GenerateTermsServiceImpl.java:345 | `compareTo` is antisymmetric and is zero only for equal strings |
| Text.CompareToTransitive | TermGenie/WebApplications/TermGenieJQuery/src/main/java/org/bbop/termgenie/services/GenerateTermsServiceImpl.java:345 | Being at most zero under `compareTo` is transitive |
| GenerateTermsService.NamedValuesGet | TermGenie/WebApplications/TermGenieJQuery/src/main/java/org/bbop/termgenie/services/GenerateTermsServiceImpl.java:447-456 | The per-ontology index holds no name twice and finds, under each name, the last template of that name |
| GenerateTermsService.TemplatesOf | TermGenie/WebApplications/TermGenieJQuery/src/main/java/org/bbop/termgenie/services/GenerateTermsServiceImpl.java:462-468 | `getTemplates` is null exactly for an ontology that is not cached, and otherwise lists one template per index entry |
| GenerateTermsService.TemplateOf | TermGenie/WebApplications/TermGenieJQuery/src/main/java/org/bbop/termgenie/services/GenerateTermsServiceImpl.java:470-476 | `getTemplate` is null for an ontology that is not cached |
| GenerateTermsService.Filled | TermGenie/WebApplications/TermGenieJQuery/src/main/java/org/bbop/termgenie/services/GenerateTermsServiceImpl.java:299-305 | After a lookup the ontology is cached, and no other ontology is added |
| GenerateTermsService.LookupAfterFill | TermGenie/WebApplications/TermGenieJQuery/src/main/java/org/bbop/termgenie/services/GenerateTermsServiceImpl.java:309-323 | A second lookup changes nothing. After a lookup, a name's template is the cached one for a cached ontology, and for a fresh ontology the last requested template of that name |
| GenerateTermsService.Requested | TermGenie/WebApplications/TermGenieJQuery/src/main/java/org/bbop/termgenie/services/GenerateTermsServiceImpl.java:331-337 | `requestTemplates` returns the tools' list, or an empty list for null; never null |
| GenerateTermsService.AvailableSorted | TermGenie/WebApplications/TermGenieJQuery/src/main/java/org/bbop/termgenie/services/GenerateTermsServiceImpl.java:125-144 | The listing is empty for a null name. Otherwise it is sorted by name and is a permutation of the listed templates, converted |
| GenerateTermsService.EntriesSpec | TermGenie/WebApplications/TermGenieJQuery/src/main/java/org/bbop/termgenie/services/GenerateTermsServiceImpl.java:85-94 | Each entry comes from a record with that screen name and value, and there is none exactly when every value is null |
| GenerateTermsService.AutoCompleteSpec | TermGenie/WebApplications/TermGenieJQuery/src/main/java/org/bbop/termgenie/services/GenerateTermsServiceImpl.java:77-122 | Only `xref` and `orcid` have entries. An answer is never empty, and there is none exactly when the user data is missing or every value in it is null |
| GenerateTermsService.TermIds | TermGenie/WebApplications/TermGenieJQuery/src/main/java/org/bbop/termgenie/services/GenerateTermsServiceImpl.java:420-427 | The term ids of the identifiers, in order |
| GenerateTermsService.ParametersOf | TermGenie/WebApplications/TermGenieJQuery/src/main/java/org/bbop/termgenie/services/GenerateTermsServiceImpl.java:404-418 | Fails exactly for a null term map. Otherwise every term field maps to its ids in order, and the string values are the string map, or empty for a null one |
| GenerateTermsService.CheckFromSplit | TermGenie/WebApplications/TermGenieJQuery/src/main/java/org/bbop/termgenie/services/GenerateTermsServiceImpl.java:172-195 | With the ontology cached, the loop stops at the first input with a problem; otherwise it collects every input's validation errors, in order |
| GenerateTermsService.CheckInputs | TermGenie/WebApplications/TermGenieJQuery/src/main/java/org/bbop/termgenie/services/GenerateTermsServiceImpl.java:171-195 | The whole loop stops at the first problem, judged against the cache as the first lookup leaves it, and otherwise returns all validation errors; the cache gains at most the requested ontology |
| GenerateTermsService.TasksInOrder | TermGenie/WebApplications/TermGenieJQuery/src/main/java/org/bbop/termgenie/services/GenerateTermsServiceImpl.java:283-295 | Inputs that passed the checks become one task each, in order, with the template the cache holds under their name |
| GenerateTermsService.TasksShape | TermGenie/WebApplications/TermGenieJQuery/src/main/java/org/bbop/termgenie/services/GenerateTermsServiceImpl.java:201-225 | Building the tasks either hands tasks on or fails with the internal-error message |
| GenerateTermsService.GenerateTermsChecks | TermGenie/WebApplications/TermGenieJQuery/src/main/java/org/bbop/termgenie/services/GenerateTermsServiceImpl.java:157-199 | The checks run in the order `GenerateTermsServiceImpl` tests them: missing name, missing parameters, unknown manager (none of these touches the cache), then the first bad input, then all validation errors together. Only a request that passes them all reaches the engine |
| GenerateTermsService.TemplateCache.constructor | TermGenie/WebApplications/TermGenieJQuery/src/main/java/org/bbop/termgenie/services/GenerateTermsServiceImpl.java:436-438 | A new cache holds no ontology |
| GenerateTermsService.TemplateCache.Put | TermGenie/WebApplications/TermGenieJQuery/src/main/java/org/bbop/termgenie/services/GenerateTermsServiceImpl.java:447-456 | The ontology's index is replaced by the name index of the templates; no other ontology changes |
| GenerateTermsService.TemplateCache.GetTemplates | TermGenie/WebApplications/TermGenieJQuery/src/main/java/org/bbop/termgenie/services/GenerateTermsServiceImpl.java:462-468 | Returns `TemplatesOf` the cache |
| GenerateTermsService.TemplateCache.GetTemplate | TermGenie/WebApplications/TermGenieJQuery/src/main/java/org/bbop/termgenie/services/GenerateTermsServiceImpl.java:470-476 | Returns `TemplateOf` the cache |
| GenerateTermsService.TermService.constructor | TermGenie/WebApplications/TermGenieJQuery/src/main/java/org/bbop/termgenie/services/GenerateTermsServiceImpl.java:63-73 | The service keeps the injected ontology tools and the template cache it was given, and has made no request yet |
| GenerateTermsService.TermService.RequestTemplates | TermGenie/WebApplications/TermGenieJQuery/src/main/java/org/bbop/termgenie/services/GenerateTermsServiceImpl.java:331-337 | Returns `Requested` and records the request |
| GenerateTermsService.TermService.GetTermTemplates | TermGenie/WebApplications/TermGenieJQuery/src/main/java/org/bbop/termgenie/services/GenerateTermsServiceImpl.java:297-307 | Requests templates only when the ontology is not cached, caches them, and returns the cached list on a hit or the requested list on a miss |
| GenerateTermsService.TermService.GetTermTemplate | TermGenie/WebApplications/TermGenieJQuery/src/main/java/org/bbop/termgenie/services/GenerateTermsServiceImpl.java:309-323 | Requests templates only when the ontology is not cached, leaves it cached, and returns the cached template under the name |
| GenerateTermsService.TermService.AvailableTermTemplates | TermGenie/WebApplications/TermGenieJQuery/src/main/java/org/bbop/termgenie/services/GenerateTermsServiceImpl.java:125-144 | Returns `Available`; a null name leaves the cache alone, and any other name leaves that ontology cached |
| GenerateTermsService.TermService.GetAutoCompleteResource | TermGenie/WebApplications/TermGenieJQuery/src/main/java/org/bbop/termgenie/services/GenerateTermsServiceImpl.java:77-122 | Returns `AutoComplete` |
| GenerateTermsService.TermService.GenerateTerms | TermGenie/WebApplications/TermGenieJQuery/src/main/java/org/bbop/termgenie/services/GenerateTermsServiceImpl.java:150-205 | The response and the cache it leaves are those of `GenerateResponse` |
| GenerateTermsService.TermService.CreateGenerationTasks | TermGenie/WebApplications/TermGenieJQuery/src/main/java/org/bbop/termgenie/services/GenerateTermsServiceImpl.java:283-295 | The tasks, or the internal error, and the cache, as `TasksFrom` |
| GenerateTermsService.CollectEntries | TermGenie/WebApplications/TermGenieJQuery/src/main/java/org/bbop/termgenie/services/GenerateTermsServiceImpl.java:84-94 | The loop yields the `Entries` of the user data |
| GenerateTermsService.GetTerms | TermGenie/WebApplications/TermGenieJQuery/src/main/java/org/bbop/termgenie/services/GenerateTermsServiceImpl.java:420-427 | The loop yields the term ids in order |
| GenerateTermsService.TermValues | TermGenie/WebApplications/TermGenieJQuery/src/main/java/org/bbop/termgenie/services/GenerateTermsServiceImpl.java:407-410 | Whatever order the keys come in, each term field maps to its ids |
| GenerateTermsService.StringValues | TermGenie/WebApplications/TermGenieJQuery/src/main/java/org/bbop/termgenie/services/GenerateTermsServiceImpl.java:411-416 | The loop copies the string map exactly |
| GenerateTermsService.CreateTermGenerationParameters | TermGenie/WebApplications/TermGenieJQuery/src/main/java/org/bbop/termgenie/services/GenerateTermsServiceImpl.java:404-418 | Returns `ParametersOf` |
| TermCreationTools.SubstitutedNoPlaceholder | TermGenie/TermGenieRulesDynamic/src/main/java/org/bbop/termgenie/rules/TermCreationToolsMDef.java:83-90 | An expression in which no parameter's `?key` occurs is unchanged |
| TermCreationTools.NoParameters | TermGenie/TermGenieRulesDynamic/src/main/java/org/bbop/termgenie/rules/TermCreationToolsMDef.java:83-90 | With no parameters the expression is unchanged |
| TermCreationTools.ReplaceSegments | TermGenie/TermGenieRulesDynamic/src/main/java/org/bbop/termgenie/rules/TermCreationToolsMDef.java:87 | One `replaceAll` of `?k` on an expression of literal text and placeholders turns exactly the placeholders of `k` into the value, when no other placeholder is a prefix of `?k` or extends it |
| TermCreationTools.FullExpressionInstantiates | TermGenie/TermGenieRulesDynamic/src/main/java/org/bbop/termgenie/rules/TermCreationToolsMDef.java:83-90 | For any expression of literal text and placeholders, in any parameter order, every placeholder of a parameter becomes the value `map.get` gives for its key and all else stays as written. This holds when text, keys and values have no `?` of their own and no key in use is a proper prefix of another |
| TermCreationTools.QuestionMarkBeforePlaceholder | TermGenie/TermGenieRulesDynamic/src/main/java/org/bbop/termgenie/rules/TermCreationToolsMDef.java:86-88 | A `?` in the literal text just before a placeholder breaks the instantiation: `"??a"` with `a` set to `b` and `b` set to `X` gives `X`, where replacing each placeholder by its value gives `?b` |
| TermCreationTools.QuestionMarkInValue | TermGenie/TermGenieRulesDynamic/src/main/java/org/bbop/termgenie/rules/TermCreationToolsMDef.java:86-88 | A value that is a later parameter's placeholder is replaced again: `"?a ?b"` with `a` set to `?b` and `b` set to `X` gives `X X`, where replacing each placeholder by its value gives `?b X` |
| TermCreationTools.SubstituteSingle | TermGenie/TermGenieRulesDynamic/src/main/java/org/bbop/termgenie/rules/TermCreationToolsMDef.java:86-88 | A single `?key` placeholder, in text with no other `?`, is replaced by the parameter's value |
| Text.ReplaceAllAbsent | TermGenie/TermGenieRulesDynamic/src/main/java/org/bbop/termgenie/rules/TermCreationToolsMDef.java:87 | `replaceAll` leaves a string without the pattern unchanged |
| Text.ReplaceAllFirst | TermGenie/TermGenieRulesDynamic/src/main/java/org/bbop/termgenie/rules/TermCreationToolsMDef.java:87 | `replaceAll` copies the text before the first occurrence, replaces it, and goes on after it |
| TermCreationTools.RenderFewDefinitions | TermGenie/TermGenieRulesDynamic/src/main/java/org/bbop/termgenie/rules/TermCreationToolsMDef.java:68-81 | No definitions render as the empty string, and one as its quoted full expression |
| TermCreationTools.RenderEnds | TermGenie/TermGenieRulesDynamic/src/main/java/org/bbop/termgenie/rules/TermCreationToolsMDef.java:68-81 | Several definitions render starting with the first quoted expression and ending with the last, so there is no separator at either end |
| TermCreationTools.NoDefinitions | TermGenie/TermGenieRulesDynamic/src/main/java/org/bbop/termgenie/rules/TermCreationToolsMDef.java:98-100 | Null or empty definitions give `InferredRelations.EMPTY` and apply no change |
| TermCreationTools.EquivalencesApplied | TermGenie/TermGenieRulesDynamic/src/main/java/org/bbop/termgenie/rules/TermCreationToolsMDef.java:107-118 | When every definition parses, each adds its equivalence axiom in order. Otherwise the first that does not parse is reported, and the definitions after it add nothing |
| TermCreationTools.RelationAxioms | TermGenie/TermGenieRulesDynamic/src/main/java/org/bbop/termgenie/rules/TermCreationToolsMDef.java:133-145 | The returned class relations are exactly the inferred ones (none for null) plus the declaration of the new class |
| TermCreationTools.ChangeTracker.Apply | TermGenie/TermGenieRulesDynamic/src/main/java/org/bbop/termgenie/rules/TermCreationToolsMDef.java:113 | The axiom is appended to the applied changes |
| TermCreationTools.TermCreationToolsMDef.constructor | TermGenie/TermGenieRulesDynamic/src/main/java/org/bbop/termgenie/rules/TermCreationToolsMDef.java:51-65 | The tools keep the reasoner and parser of the target ontology they were given |
| TermCreationTools.TermCreationToolsMDef.RenderLogicalDefinition | TermGenie/TermGenieRulesDynamic/src/main/java/org/bbop/termgenie/rules/TermCreationToolsMDef.java:68-81 | The indexed StringBuilder loop yields the quoted full expressions joined by `", "` |
| TermCreationTools.TermCreationToolsMDef.GetFullExpression | TermGenie/TermGenieRulesDynamic/src/main/java/org/bbop/termgenie/rules/TermCreationToolsMDef.java:83-90 | The loop applies one `replaceAll` per parameter in map order, giving `FullExpression` |
| TermCreationTools.TermCreationToolsMDef.CreateRelations | TermGenie/TermGenieRulesDynamic/src/main/java/org/bbop/termgenie/rules/TermCreationToolsMDef.java:93-146 | The result and the changes applied to the tracker are those of `CreatedRelations`: declaration, label, one equivalence per definition, the reasoner, and the declaration added to the inferred relations |
| LuceneOnlyClient.GroupComplete | TermGenie/TermGenieSolr/src/main/java/org/bbop/termgenie/solr/LuceneOnlyClient.java:30-38 | Every ontology is in the group of its own name, and a name's group is non-empty exactly when some ontology carries that name |
| LuceneOnlyClient.GroupsPartition | TermGenie/TermGenieSolr/src/main/java/org/bbop/termgenie/solr/LuceneOnlyClient.java:30-38 | The groups of two names share no ontology, and together they hold every ontology |
| LuceneOnlyClient.LastManager | TermGenie/TermGenieSolr/src/main/java/org/bbop/termgenie/solr/LuceneOnlyClient.java:27-29 | A name's manager is a given manager of that name (the last one), and there is none exactly when no manager has that name |
| LuceneOnlyClient.NameManagers | TermGenie/TermGenieSolr/src/main/java/org/bbop/termgenie/solr/LuceneOnlyClient.java:27-29 | The first loop maps exactly the managers' names, each to its last manager |
| LuceneOnlyClient.GroupOntologies | TermGenie/TermGenieSolr/src/main/java/org/bbop/termgenie/solr/LuceneOnlyClient.java:30-38 | The second loop maps exactly the ontologies' names, each to its group in input order |
| LuceneOnlyClient.CreateIndices | TermGenie/TermGenieSolr/src/main/java/org/bbop/termgenie/solr/LuceneOnlyClient.java:23-49 | Fails, naming an ontology name without a manager, exactly when such a name exists. Otherwise there is one index per distinct ontology name, over that name's group and with its last manager; managers without ontologies get no index |
| LuceneOnlyClient.Client.SuggestTerms | TermGenie/TermGenieSolr/src/main/java/org/bbop/termgenie/solr/LuceneOnlyClient.java:52-58 | Null when there is no index for the ontology's name; otherwise that index's answer, which may itself be null |
| LuceneOnlyClient.NewClient | TermGenie/TermGenieSolr/src/main/java/org/bbop/termgenie/solr/LuceneOnlyClient.java:18-21 | The constructor succeeds exactly when every ontology's name has a manager. It then holds one index per name, each over that name's group with that name's last manager, and the given search |
| LuceneOnlyClient.SuggestionIndex | TermGenie/TermGenieSolr/src/main/java/org/bbop/termgenie/solr/LuceneOnlyClient.java:40-55 | A suggestion for a given ontology is answered by its name's index, which covers exactly ontologies of that name and uses that name's manager |
| ReviewMail.ReviewMailWording | TermGenie/TermGenieMail/src/main/java/org/bbop/termgenie/mail/review/DefaultReviewMailHandler.java:46-53 | The plural subject exactly for more than one term, the singular one otherwise; the mail goes to the item's address from the configured sender |
| ReviewMail.ReviewMailBody | TermGenie/TermGenieMail/src/main/java/org/bbop/termgenie/mail/review/DefaultReviewMailHandler.java:54-58 | The body starts with the intro matching the term count, and its length is the intro's plus each OBO text and its newline |
| ReviewMail.SingleTermBody | TermGenie/TermGenieMail/src/main/java/org/bbop/termgenie/mail/review/DefaultReviewMailHandler.java:50-58 | One term gives the singular intro, its OBO text and a newline |
| ReviewMail.AppendTerms | TermGenie/TermGenieMail/src/main/java/org/bbop/termgenie/mail/review/DefaultReviewMailHandler.java:55-58 | The loop appends each term's OBO text and a newline, in term order |
| ReviewMail.MailHandler.SendEmail | TermGenie/TermGenieMail/src/main/java/org/bbop/termgenie/mail/review/DefaultReviewMailHandler.java:62 | The mail is sent exactly when the server accepts it; otherwise the EmailException is reported |
| ReviewMail.DefaultReviewMailHandler.constructor | TermGenie/TermGenieMail/src/main/java/org/bbop/termgenie/mail/review/DefaultReviewMailHandler.java:30-38 | The handler keeps its mail handler, sender address and name |
| ReviewMail.DefaultReviewMailHandler.HandleReviewMail | TermGenie/TermGenieMail/src/main/java/org/bbop/termgenie/mail/review/DefaultReviewMailHandler.java:41-66 | The review mail is sent when the server accepts it. Otherwise exactly one warning naming the address is logged, and the caller sees no failure |
| TimerFormat.RemBounds | TermGenie/TermGenieProva/src/main/java/org/bbop/experiments/ProvaAsserterSpeedTestFromFile.java:74-79 | Java's `/` and `%` on `long`: Euclidean for a non-negative dividend, truncated with the dividend's sign for a negative one |
| TimerFormat.FieldsRecombine | TermGenie/TermGenieProva/src/main/java/org/bbop/experiments/ProvaAsserterSpeedTestFromFile.java:74-79 | Hours, minutes, seconds and milliseconds always recombine to the elapsed time, negative or not |
| TimerFormat.FieldsBoundsNonNegative | TermGenie/TermGenieProva/src/main/java/org/bbop/experiments/ProvaAsserterSpeedTestFromFile.java:74-79 | For a non-negative time, minutes and seconds are below 60 and milliseconds below 1000; the hours are the whole hours, not capped |
| TimerFormat.FieldsBoundsNegative | TermGenie/TermGenieProva/src/main/java/org/bbop/experiments/ProvaAsserterSpeedTestFromFile.java:74-79 | For a negative time every field is zero or negative and above minus its unit |
| TimerFormat.FormatRoundTrip | TermGenie/TermGenieProva/src/main/java/org/bbop/experiments/ProvaAsserterSpeedTestFromFile.java:72-82 | A non-negative time prints as `H:MM:SS.mmm` (hours at least two digits), and the four digit groups read back as the fields, which recombine to the time |
| Text.ZeroPaddedNonNegative | TermGenie/TermGenieProva/src/main/java/org/bbop/experiments/ProvaAsserterSpeedTestFromFile.java:74 | `%0Nd` on a non-negative value gives digits only, at least N of them, that read back as the value |
| FactBase.LineWriter.WriteLine | TermGenie/TermGenieProva/src/main/java/org/bbop/experiments/SimpleFactBaseGenerator.java:52-54 | `append` followed by `newLine` adds exactly one line |
| FactBase.Parent | TermGenie/TermGenieProva/src/main/java/org/bbop/experiments/SimpleFactBaseGenerator.java:56 | The parent `i / 2` of a term above 1 is at least 1 and below `i` |
| FactBase.CreateFactbase | TermGenie/TermGenieProva/src/main/java/org/bbop/experiments/SimpleFactBaseGenerator.java:47-62 | The loop writes exactly `FactLines(start, end)` after what the writer held |
| FactBase.WriteFacts | TermGenie/TermGenieProva/src/main/java/org/bbop/experiments/SimpleFactBaseGenerator.java:51-59 | One iteration writes the term fact and, for `i > 1`, the subclass fact |
| FactBase.FactLinesLength | TermGenie/TermGenieProva/src/main/java/org/bbop/experiments/SimpleFactBaseGenerator.java:50-61 | There are `end - start + 1` lines, plus one for each term above 1 |
| FactBase.FactLinesPrefix | TermGenie/TermGenieProva/src/main/java/org/bbop/experiments/SimpleFactBaseGenerator.java:50-61 | The facts of a shorter range are a prefix of those of a longer one, so terms come in increasing order |
| FactBase.FactLinesAt | TermGenie/TermGenieProva/src/main/java/org/bbop/experiments/SimpleFactBaseGenerator.java:50-59 | Each term's fact stands at its offset. Its subclass fact follows exactly when `i > 1`; otherwise the next term's fact follows, or the output ends |
| Text.ParseNatToString | TermGenie/TermGenieProva/src/main/java/org/bbop/experiments/SimpleFactBaseGenerator.java:51 | The printed decimal digits read back as the number |
| FactBase.GenerateRules | TermGenie/TermGenieProva/src/main/java/org/bbop/experiments/SimpleFactBaseGenerator.java:22-45 | Writes exactly the fixed rule block, whatever the writer held |
| FactBase.WriteTermRules | TermGenie/TermGenieProva/src/main/java/org/bbop/experiments/SimpleFactBaseGenerator.java:23-30 | Two empty lines and the three term-part rules |
| FactBase.WriteTransitiveRelations | TermGenie/TermGenieProva/src/main/java/org/bbop/experiments/SimpleFactBaseGenerator.java:31-35 | An empty line and the two transitivity facts |
| FactBase.WriteClosureRules | TermGenie/TermGenieProva/src/main/java/org/bbop/experiments/SimpleFactBaseGenerator.java:36-40 | An empty line and the two closure rules |
| FactBase.WriteInverseRule | TermGenie/TermGenieProva/src/main/java/org/bbop/experiments/SimpleFactBaseGenerator.java:41-44 | An empty line, the superclass rule and a last empty line |

## Left out

**Collaborators, I/O and concurrency**

- The subclass hooks and `createDiff`: these are abstract in the Java code. They are function fields of `Backend` over an environment state, with no behaviour assumed.
- The diff library: the diff, unified-diff and patch functions are `DiffLib` fields. The round trip between diff and patch is not assumed, because it is the library's promise.
- File I/O: reading and writing files becomes `readLines`/`writeLines` over the environment. Temporary file names become run numbers.
- `deleteQuietly`: deleting the temporary entries is taken to succeed, because its failures are silent in `FileUtils.deleteQuietly`.
- The reload thread: starting it is modelled as a reload counter, because thread scheduling is concurrency.
- The `synchronized` blocks around the template cache and the configuration: accesses are sequential in the model.
- Logging: only the warning of the review mail handler is kept, as a list. Everywhere else logging has no effect on results.

**Parts of the pipeline not modelled**

- `getItemsForReview`: a pass-through to a store query whose answer the pipeline does not process.
- CommitPipeline.Pipeline.Commit: a null id list cannot occur, because a Dafny sequence is never null. The empty list is modelled.
- The order of `store.load`: it is taken as the order of the ids, with duplicates and unknown ids dropped. The store interface leaves this order to the store.
- `CommitHistoryTools.create`, the date and `translate`: the new item carries the submitted terms, message, user and e-mail, and the success result carries the item's terms.
- The cause of an exception: a `CommitException` carries only its message and rollback flag.
- Unchecked exceptions thrown by hooks: not modelled. The one unchecked exception of the core itself, the dereferenced null patch, is modelled.
- Helper methods with no Java counterpart: CommitPipeline.Pipeline.CallHook, SetUp, CommitLoop, LoopBody, CommitItem and CommitApplied split the Java method bodies so that each proof stays small.
- FactBase.WriteTermRules, WriteTransitiveRelations, WriteClosureRules and WriteInverseRule have no Java counterpart of their own: they are the four groups of lines of the one `generateRules` method, split only so that each proof stays small, and `FactBase.GenerateRules` writes them in order.

**Strings**

- A Dafny string is a sequence of Unicode scalar values, where a Java string is a sequence of UTF-16 code units. For characters beyond U+FFFF, `compareTo` (and so the sorted template listing), `indexOf` positions and string lengths in the model differ from Java's.

**Ontology configuration**

- ConfiguredOntology: it is a value. `getUniqueName()` is the name it was created with.
- `createOntology`, `toString` and `main`: these print or wrap and are outside the parsing logic.
- The `getConfiguration` singleton: not modelled.
- Reading the settings file: the file is given as its lines, so the IOException → RuntimeException path cannot occur.

**Term-generation service**

- `generateTerms` past the hand-over of the tasks: the term generation engine, the empty-candidates message and `GenerateJsonResponse` are not modelled.
- `generateTerms` arguments: the session id, the HTTP session and the process state are unused.
- Error responses: they are symbols of `Message`. Only the unknown-template message carries what it reports.
- `createJsonTemplateField` and template fields: a template keeps only its name, display name, description, hint and categories.
- `FieldValidatorTool.validateParameters` is the `validate` field of `Tools`.
- The `HashMap` inside `TemplateCache`: it is taken to iterate in insertion order. This is one of the orders a `HashMap` may have.
- GenerateTermsService.SortByNameSorted: proves sortedness and permutation but not the stability of `Collections.sort`. Equal names keep an order, but which order is not stated.

**Term creation tools**

- OWL API axiom construction: axioms are a small datatype.
- The Manchester parser: it is a function that may fail.
- The reasoner task: it is a function that may report an invalid reasoner. `updateBuffered`, `dispose` and the process-state messages are not modelled.
- Other fields of `InferredRelations`: not modelled.
- TermCreationTools.FullExpressionInstantiates: the placeholders are proved replaced only when text, keys and values have no `?` of their own and no key in use is a proper prefix of another. Outside that, replacements made one after the other can produce or swallow placeholders (`QuestionMarkBeforePlaceholder` for a `?` in the text, `QuestionMarkInValue` for one in a value).
- `replaceAll`: a literal left-to-right replacement, because parameter keys and values are taken to hold no regular-expression metacharacters.

**Lucene client, mail and timer**

- `BasicLuceneClient.create` is a value holding the group and the manager. `suggestTerms` of an index is a function parameter that returns an `Option`, so an existing index may answer null as well as a list.
- LuceneOnlyClient.CreateIndices: when several names lack a manager, which one the exception names depends on `HashMap` order and is left open.
- The mail server: it is the `accepts` function.
- `Timer.getStop`, the clock and `main` of the speed test: not modelled, because they are I/O.

**Fact-base generator**

- FactBase.CreateFactbase: requires `endCount < Integer.MAX_VALUE`. At that value the `int` counter wraps and the Java loop never terminates, which a terminating method cannot express.
- The `main` of the fact-base generator: not modelled, because it opens a file and writes a header.
