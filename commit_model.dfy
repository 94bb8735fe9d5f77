/**
 * The commit-review pipeline (OntologyCommitReviewPipeline) as functions over a snapshot of
 * everything it touches: the commit history store, the state the subclass hooks work on, the
 * temporary work folders, the reload requests, and a trace of the hooks it invoked.
 *
 * The abstract hooks of the Java class, the store's failures and the file system are the
 * fields of a `Backend`: deterministic functions of an environment state `W` that the
 * subclass owns, so every behaviour of a real subclass is one choice of `W` and `Backend`.
 * The diff library is a `DiffLib` over an opaque patch type `P`.
 */
module CommitModel {
  import opened Wrappers
  import opened Text

  type Lines = seq<string>

  /** CommitInfo.CommitMode (TermGenie spells the last one `anonymus`). */
  datatype CommitMode = Internal | Explicit | Anonymus

  /** A term of a commit history item: its id, its label and its OBO rendering. */
  datatype CommittedTerm = CommittedTerm(id: string, name: string, obo: string)

  /** A CommitHistoryItem: the id the store gave it, whether it has been committed, the terms,
      the commit message, who saved it and the submitter's e-mail address. */
  datatype HistoryItem = HistoryItem(id: int, committed: bool, terms: seq<CommittedTerm>,
                                     message: string, savedBy: string, email: string)

  /** A CommitException: its message and whether the caller must roll back. */
  datatype CommitException = CommitException(message: string, rollback: bool)

  /** What escapes a call: a CommitException, or an unchecked exception (a NullPointerException). */
  datatype Failure = Checked(exception: CommitException) | Unchecked(message: string)

  /** A CommitResult. `Error` is the shared constant CommitResult.ERROR. */
  datatype CommitResult =
    | Error
    | CommitResult(success: bool, message: Option<string>, terms: Option<seq<CommittedTerm>>, diff: Option<string>)

  /** The files of the workflow data: the checked-out file, the file read for the diff, the
      file the modified ontology was written to, and the file the patch is written to. */
  datatype FileRole = ScmTarget | Target | ModifiedTarget | ModifiedScmTarget

  /** A temporary entry created by `createTempDir`: the lock file and the work folder of one run. */
  datatype TempEntry = LockFile(run: nat) | WorkFolder(run: nat)

  /** The invocation of a hook or a pipeline step, recorded when it starts. */
  datatype Event =
    | PrepareWorkflow | PrepareScm | RetrieveTarget
    | UpdateScm(item: int) | CheckTarget(item: int) | ApplyChanges(item: int)
    | WriteModified(item: int) | CreateDiff(item: int) | CreatePatched(item: int)
    | CommitToRepository(item: int) | MarkCommitted(item: int)

  /** The subclass and the collaborators the pipeline calls, as functions of the environment
      state. A `Throw` is a CommitException thrown by a hook, a `None` from `readLines` or
      `writeLines` an I/O exception, and a `true` from a `...Fails` field a
      CommitHistoryStoreException (or, for `lockFails`/`mkdirFails`, a temp-file error). */
  datatype Backend<!W> = Backend(
    ontologyName: string,
    supportAnonymus: bool,
    mode: CommitMode,
    username: Option<string>,
    password: Option<string>,
    lockFails: W -> bool,
    mkdirFails: W -> bool,
    prepareWorkflow: (nat, W) -> Result<W, CommitException>,
    prepareScm: (CommitMode, Option<string>, Option<string>, W) -> Result<W, CommitException>,
    retrieveTargetOntology: W -> Result<W, CommitException>,
    fileSet: (FileRole, W) -> bool,
    readLines: (FileRole, W) -> Option<Lines>,
    writeLines: (FileRole, Lines, W) -> Option<W>,
    updateScm: W -> Result<W, CommitException>,
    checkTargetOntology: W -> Result<W, CommitException>,
    applyChanges: (seq<CommittedTerm>, W) -> Result<(bool, W), CommitException>,
    createModifiedTargetFile: (string, W) -> Result<W, CommitException>,
    commitToRepository: (string, string, W) -> Result<W, CommitException>,
    createDiff: (HistoryItem, W) -> Result<Option<string>, CommitException>,
    loadFails: W -> bool,
    updateFails: (HistoryItem, W) -> bool,
    addFails: W -> bool,
    recentCommits: (seq<string>, W) -> Option<seq<(string, string)>>)

  /** The diff library: `DiffUtils.diff` (which may return null), `generateUnifiedDiff` and
      `DiffUtils.patch` (which may throw). */
  datatype DiffLib<!P> = DiffLib(
    diff: (Lines, Lines) -> Option<P>,
    unified: (string, string, Lines, P, int) -> Lines,
    patch: (Lines, P) -> Option<Lines>)

  /** Everything the pipeline reads or changes. */
  datatype State<W> = State(
    history: map<int, HistoryItem>,
    nextId: int,
    world: W,
    temp: set<TempEntry>,
    nextTemp: nat,
    reloads: nat,
    trace: seq<Event>)

  /** The store files each item under its own id, ids below `nextId`, and temporary entries
      carry run numbers below `nextTemp`. */
  predicate Valid<W>(st: State<W>) {
    && (forall k | k in st.history :: st.history[k].id == k && k < st.nextId)
    && (forall e | e in st.temp :: e.run < st.nextTemp)
  }

  /** The result of one call: its value or failure, and the state after it. */
  datatype Outcome<T, W> = Outcome(result: Result<T, Failure>, state: State<W>)

  /** A step of the per-item sequence: continue with a state, or stop with a failure. */
  datatype Step<W> = Continue(state: State<W>) | Stop(failure: Failure, state: State<W>)

  /** The diff step: the diff text and the patch, or a failure. */
  datatype DiffStep<W, P> = Diffed(text: string, patch: P, state: State<W>) | DiffStopped(failure: Failure, state: State<W>)

  // ---------------------------------------------------------------- messages

  function Fail(message: string): Failure {
    Checked(CommitException(message, false))
  }

  const AlreadyCommitted: CommitResult :=
    CommitResult(false, Some("The item has already been marked as committed"), None, None)
  const ApplyFailed: Failure := Checked(CommitException("Could not apply changes to ontology.", true))
  const NullPointer: Failure := Unchecked("NullPointerException")
  const SubmittedMessage: string := "Your commit has been stored and awaits review by the ontology editors."

  function StoreProblem(ontologyName: string): Failure {
    Fail("Problems handling commit history for ontology: " + ontologyName)
  }

  // ---------------------------------------------------------------- mode checks

  /** The checks `commit(List)` makes on the commit mode and the credentials. */
  function ModeCheck(mode: CommitMode, username: Option<string>, password: Option<string>,
                     supportAnonymus: bool): (r: Option<CommitException>)
    ensures r.Some? ==> r.value.rollback
    ensures r.None? <==> (mode == Explicit ==> username.Some? && password.Some?)
                         && (mode == Anonymus ==> supportAnonymus)
  {
    if mode == Explicit then
      if username.None? then Some(CommitException("If explicit mode is selected, an username is required.", true))
      else if password.None? then Some(CommitException("If explicit mode is selected, a password is required.", true))
      else None
    else if mode == Anonymus && !supportAnonymus then
      Some(CommitException("Anonymus mode is not supported for the commit.", true))
    else None
  }

  // ---------------------------------------------------------------- store

  /** `store.load(ids)`: the stored items with the given ids, each once, in the order of the ids. */
  function LoadItems(ids: seq<int>, history: map<int, HistoryItem>): seq<HistoryItem>
  {
    if ids == [] then []
    else
      var last := ids[|ids| - 1];
      LoadItems(ids[..|ids| - 1], history)
      + if last in history && last !in ids[..|ids| - 1] then [history[last]] else []
  }

  /** `store.update(item)`: the stored record with the item's id is overwritten; an item the
      store does not hold is not added. */
  function StoreUpdate(history: map<int, HistoryItem>, item: HistoryItem): (h: map<int, HistoryItem>)
    ensures h.Keys == history.Keys
    ensures forall k | k in h :: h[k] == if k == item.id then item else history[k]
  {
    if item.id in history then history[item.id := item] else history
  }

  // ---------------------------------------------------------------- per item

  /** The hooks one uncommitted item goes through, in order. */
  function ItemOrder(id: int): seq<Event> {
    [UpdateScm(id), CheckTarget(id), ApplyChanges(id), WriteModified(id),
     CreateDiff(id), CreatePatched(id), CommitToRepository(id), MarkCommitted(id)]
  }

  function Record<W>(st: State<W>, e: Event): State<W> {
    st.(trace := st.trace + [e])
  }

  /** Invokes a hook whose outcome on the current environment state is `r`. */
  function Invoke<W>(st: State<W>, e: Event, r: Result<W, CommitException>): Step<W> {
    match r
    case Ok(w) => Continue(Record(st, e).(world := w))
    case Throw(x) => Stop(Checked(x), Record(st, e))
  }

  /** `updateSCM`, `checkTargetOntology` and `applyChanges`; a `false` from the last throws
      with rollback. */
  function ApplyStage<W>(b: Backend<W>, item: HistoryItem, st: State<W>): Step<W> {
    var s1 := Invoke(st, UpdateScm(item.id), b.updateScm(st.world));
    if s1.Stop? then s1 else
    var s2 := Invoke(s1.state, CheckTarget(item.id), b.checkTargetOntology(s1.state.world));
    if s2.Stop? then s2 else
    var st3 := Record(s2.state, ApplyChanges(item.id));
    match b.applyChanges(item.terms, s2.state.world)
    case Throw(x) => Stop(Checked(x), st3)
    case Ok(r) => if r.0 then Continue(st3.(world := r.1)) else Stop(ApplyFailed, st3.(world := r.1))
  }

  /** `createModifiedTargetFile`, then the three null checks on the workflow data. */
  function WriteStage<W>(b: Backend<W>, item: HistoryItem, st: State<W>): Step<W> {
    var s := Invoke(st, WriteModified(item.id), b.createModifiedTargetFile(item.savedBy, st.world));
    if s.Stop? then s
    else if !b.fileSet(Target, s.state.world) then Stop(Fail("target file is null"), s.state)
    else if !b.fileSet(ModifiedTarget, s.state.world) then Stop(Fail("modified target file is null"), s.state)
    else if !b.fileSet(ModifiedScmTarget, s.state.world) then Stop(Fail("modified scm target file is null"), s.state)
    else s
  }

  /** `createUnifiedDiff(target, modified, "original", "termgenie-changes")` and the use of its
      result: a null patch makes it return null, which the caller dereferences. */
  function DiffStage<W, P>(b: Backend<W>, d: DiffLib<P>, item: HistoryItem, st: State<W>): DiffStep<W, P> {
    var st1 := Record(st, CreateDiff(item.id));
    match b.readLines(Target, st.world)
    case None => DiffStopped(Fail("Could not create diff for commit."), st1)
    case Some(original) =>
      match b.readLines(ModifiedTarget, st.world)
      case None => DiffStopped(Fail("Could not create diff for commit."), st1)
      case Some(revised) =>
        match d.diff(original, revised)
        case None => DiffStopped(NullPointer, st1)
        case Some(p) => Diffed(Unlines(d.unified("original", "termgenie-changes", original, p, 0)), p, st1)
  }

  /** `createPatchedFile`: every exception it meets becomes one CommitException without rollback. */
  function PatchStage<W, P>(b: Backend<W>, d: DiffLib<P>, item: HistoryItem, p: P, st: State<W>): Step<W> {
    var st1 := Record(st, CreatePatched(item.id));
    var failed := Stop(Fail("Could not create patched file for commit"), st1);
    match b.readLines(ScmTarget, st.world)
    case None => failed
    case Some(original) =>
      match d.patch(original, p)
      case None => failed
      case Some(patched) =>
        match b.writeLines(ModifiedScmTarget, patched, st.world)
        case None => failed
        case Some(w) => Continue(st1.(world := w))
  }

  /** `finalizeCommitHistory`: the item is marked committed and written back to the store. */
  function FinalizeStage<W>(b: Backend<W>, item: HistoryItem, st: State<W>): Step<W> {
    var st1 := Record(st, MarkCommitted(item.id));
    var marked := item.(committed := true);
    if b.updateFails(marked, st.world) then Stop(StoreProblem(b.ontologyName), st1)
    else Continue(st1.(history := StoreUpdate(st.history, marked)))
  }

  /** One iteration of the loop of `commitInternal` over the loaded items. */
  function ProcessItem<W, P>(b: Backend<W>, d: DiffLib<P>, item: HistoryItem, st: State<W>): Outcome<CommitResult, W> {
    if item.committed then Outcome(Ok(AlreadyCommitted), st)
    else match ApplyStage(b, item, st)
      case Stop(f, s) => Outcome(Throw(f), s)
      case Continue(s) => FromWrite(b, d, item, s)
  }

  /** The rest of the iteration once the changes are applied: write the file and check it. */
  function FromWrite<W, P>(b: Backend<W>, d: DiffLib<P>, item: HistoryItem, st: State<W>): Outcome<CommitResult, W> {
    match WriteStage(b, item, st)
    case Stop(f, s) => Outcome(Throw(f), s)
    case Continue(s) => FromDiff(b, d, item, s)
  }

  /** ... create the diff. */
  function FromDiff<W, P>(b: Backend<W>, d: DiffLib<P>, item: HistoryItem, st: State<W>): Outcome<CommitResult, W> {
    match DiffStage(b, d, item, st)
    case DiffStopped(f, s) => Outcome(Throw(f), s)
    case Diffed(text, p, s) => FromPatch(b, d, item, text, p, s)
  }

  /** ... write the patched file. */
  function FromPatch<W, P>(b: Backend<W>, d: DiffLib<P>, item: HistoryItem, text: string, p: P, st: State<W>): Outcome<CommitResult, W> {
    match PatchStage(b, d, item, p, st)
    case Stop(f, s) => Outcome(Throw(f), s)
    case Continue(s) => FromRepository(b, item, text, s)
  }

  /** ... commit to the repository with the item's message and the diff. */
  function FromRepository<W>(b: Backend<W>, item: HistoryItem, text: string, st: State<W>): Outcome<CommitResult, W> {
    match Invoke(st, CommitToRepository(item.id), b.commitToRepository(item.message, text, st.world))
    case Stop(f, s) => Outcome(Throw(f), s)
    case Continue(s) => FromFinalize(b, item, text, s)
  }

  /** ... and mark the item committed in the store. */
  function FromFinalize<W>(b: Backend<W>, item: HistoryItem, text: string, st: State<W>): Outcome<CommitResult, W> {
    match FinalizeStage(b, item, st)
    case Stop(f, s) => Outcome(Throw(f), s)
    case Continue(s) => Outcome(Ok(CommitResult(true, None, Some(item.terms), Some(text))), s)
  }

  /** Whether some result is a success (the `changed` flag of the loop). */
  predicate AnySuccess(results: seq<CommitResult>) {
    exists r | r in results :: r.CommitResult? && r.success
  }

  /** The loop over the loaded items: the first failure aborts it, with the effects of the items
      before it kept. */
  function RunItems<W, P>(b: Backend<W>, d: DiffLib<P>, items: seq<HistoryItem>, st: State<W>): Outcome<seq<CommitResult>, W>
  {
    if items == [] then Outcome(Ok([]), st)
    else
      var prev := RunItems(b, d, items[..|items| - 1], st);
      if prev.result.Throw? then prev
      else
        var o := ProcessItem(b, d, items[|items| - 1], prev.state);
        match o.result
        case Throw(f) => Outcome(Throw(f), o.state)
        case Ok(r) => Outcome(Ok(prev.result.value + [r]), o.state)
  }

  // ---------------------------------------------------------------- batch

  /** `retrieveItems(ids)`: a store failure or nothing found is an error without rollback. */
  function RetrieveItems<W>(b: Backend<W>, ids: seq<int>, st: State<W>): (r: Result<seq<HistoryItem>, Failure>)
    ensures r.Ok? ==> r.value == LoadItems(ids, st.history) && r.value != []
    ensures r.Throw? <==> b.loadFails(st.world) || LoadItems(ids, st.history) == []
    ensures r.Throw? ==> r.error == Fail("Could not retrieve commit items from db")
  {
    if b.loadFails(st.world) then Throw(Fail("Could not retrieve commit items from db"))
    else
      var items := LoadItems(ids, st.history);
      if items == [] then Throw(Fail("Could not retrieve commit items from db")) else Ok(items)
  }

  /** The hooks that set a batch up: `prepareWorkflow` with the work folder of run `run`,
      `prepareSCM`, `retrieveTargetOntology`, and the check that the SCM target file is set. */
  function SetUp<W>(b: Backend<W>, run: nat, st: State<W>): Step<W> {
    var s1 := Invoke(st, PrepareWorkflow, b.prepareWorkflow(run, st.world));
    if s1.Stop? then s1 else
    var s2 := Invoke(s1.state, PrepareScm, b.prepareScm(b.mode, b.username, b.password, s1.state.world));
    if s2.Stop? then s2 else
    var s3 := Invoke(s2.state, RetrieveTarget, b.retrieveTargetOntology(s2.state.world));
    if s3.Stop? then s3
    else if !b.fileSet(ScmTarget, s3.state.world) then Stop(Fail("scm target file is null"), s3.state)
    else s3
  }

  /** The inner `commitInternal`: set up, load the items, run the loop, and request a reload
      when some item was committed. */
  function CommitItems<W, P>(b: Backend<W>, d: DiffLib<P>, ids: seq<int>, run: nat, st: State<W>): Outcome<seq<CommitResult>, W>
  {
    match SetUp(b, run, st)
    case Stop(f, s) => Outcome(Throw(f), s)
    case Continue(s) =>
      match RetrieveItems(b, ids, s)
      case Throw(f) => Outcome(Throw(f), s)
      case Ok(items) =>
        var o := RunItems(b, d, items, s);
        if o.result.Ok? && AnySuccess(o.result.value) then Outcome(o.result, o.state.(reloads := o.state.reloads + 1))
        else o
  }

  /** The entries `createTempDir` creates for run `n`. */
  function Folders(n: nat): set<TempEntry> {
    {LockFile(n), WorkFolder(n)}
  }

  /** The outer `commitInternal`: create the work folders (a failure deletes what was created),
      run the batch, and delete the folders again however the batch ends. */
  function CommitWithFolders<W, P>(b: Backend<W>, d: DiffLib<P>, ids: seq<int>, st: State<W>): Outcome<seq<CommitResult>, W>
  {
    var n := st.nextTemp;
    if b.lockFails(st.world) then Outcome(Throw(Fail("Could not create temporary work dir.")), st)
    else if b.mkdirFails(st.world) then
      Outcome(Throw(Fail("Could not create temporary work dir.")), st.(temp := st.temp + {LockFile(n)} - Folders(n), nextTemp := n + 1))
    else
      var o := CommitItems(b, d, ids, n, st.(temp := st.temp + Folders(n), nextTemp := n + 1));
      Outcome(o.result, o.state.(temp := o.state.temp - Folders(n)))
  }

  /** `commit(List<Integer> historyIds)`. */
  function Commit<W, P>(b: Backend<W>, d: DiffLib<P>, ids: seq<int>, st: State<W>): Outcome<seq<CommitResult>, W>
  {
    if ids == [] then Outcome(Ok([Error]), st)
    else match ModeCheck(b.mode, b.username, b.password, b.supportAnonymus)
      case Some(e) => Outcome(Throw(Checked(e)), st)
      case None => CommitWithFolders(b, d, ids, st)
  }

  // ---------------------------------------------------------------- other entry points

  /** The item `commit(CommitInfo)` stores: a fresh id and not yet committed. */
  function NewItem<W>(st: State<W>, terms: seq<CommittedTerm>, message: string, savedBy: string, email: string): HistoryItem {
    HistoryItem(st.nextId, false, terms, message, savedBy, email)
  }

  /** `commit(CommitInfo)`: the new item is stored first and the preview diff computed after,
      so a failing `createDiff` leaves the item stored. */
  function Submit<W>(b: Backend<W>, terms: seq<CommittedTerm>, message: string, savedBy: string,
                     email: string, st: State<W>): (o: Outcome<CommitResult, W>)
    ensures b.addFails(st.world) ==> o == Outcome(Throw(StoreProblem(b.ontologyName)), st)
    ensures !b.addFails(st.world) ==>
      var item := NewItem(st, terms, message, savedBy, email);
      && o.state == st.(history := st.history[item.id := item], nextId := st.nextId + 1)
      && (o.result.Ok? <==> b.createDiff(item, st.world).Ok?)
      && (o.result.Ok? ==> o.result.value == CommitResult(true, Some(SubmittedMessage), Some(terms), b.createDiff(item, st.world).value))
      && (o.result.Throw? ==> o.result.error == Checked(b.createDiff(item, st.world).error))
  {
    if b.addFails(st.world) then Outcome(Throw(StoreProblem(b.ontologyName)), st)
    else
      var item := NewItem(st, terms, message, savedBy, email);
      var st1 := st.(history := st.history[item.id := item], nextId := st.nextId + 1);
      match b.createDiff(item, st.world)
      case Throw(x) => Outcome(Throw(Checked(x)), st1)
      case Ok(diff) => Outcome(Ok(CommitResult(true, Some(SubmittedMessage), Some(terms), diff)), st1)
  }

  /** `getItem(itemId)`: the item when exactly one is loaded, null otherwise. */
  function GetItem<W>(b: Backend<W>, itemId: int, st: State<W>): (r: Result<Option<HistoryItem>, CommitException>)
    ensures b.loadFails(st.world) ==> r.Throw? && !r.error.rollback
    ensures !b.loadFails(st.world) ==> r == Ok(if itemId in st.history then Some(st.history[itemId]) else None)
  {
    if b.loadFails(st.world) then
      Throw(CommitException("Could not retrieve item with id: '" + IntToString(itemId) + "' from store", false))
    else
      var items := LoadItems([itemId], st.history);
      assert [itemId][..0] == [];
      assert items == LoadItems([], st.history) + if itemId in st.history then [st.history[itemId]] else [];
      if |items| == 1 then Ok(Some(items[0])) else Ok(None)
  }

  /** `updateItem(item)`. */
  function UpdateItem<W>(b: Backend<W>, item: HistoryItem, st: State<W>): (o: Outcome<(), W>)
    ensures b.updateFails(item, st.world) <==> o.result.Throw?
    ensures o.result.Throw? ==> o.state == st && o.result.error == Fail("Could not update item in db")
    ensures o.result.Ok? ==> o.state == st.(history := StoreUpdate(st.history, item))
  {
    if b.updateFails(item, st.world) then Outcome(Throw(Fail("Could not update item in db")), st)
    else Outcome(Ok(()), st.(history := StoreUpdate(st.history, item)))
  }

  /** `checkRecentCommits(labels)`: advisory, so a store failure gives an empty answer. */
  function CheckRecentCommits<W>(b: Backend<W>, labels: seq<string>, st: State<W>): (r: seq<(string, string)>)
    ensures b.recentCommits(labels, st.world).None? ==> r == []
    ensures b.recentCommits(labels, st.world).Some? ==> r == b.recentCommits(labels, st.world).value
  {
    match b.recentCommits(labels, st.world)
    case None => []
    case Some(pairs) => pairs
  }
}
