/**
 * OntologyCommitReviewPipeline as an object: the commit history store, the environment the
 * subclass hooks work on, the temporary work folders and the reload requests are fields that
 * its methods update step by step. Each method is proved to leave the object exactly in the
 * state, and to return exactly the value, that the function of CommitModel with the same name
 * gives; what those functions promise is proved in CommitProperties.
 */
module CommitPipeline {
  import opened Wrappers
  import opened Text
  import opened CommitModel
  import CommitProperties

  /** The StringBuilder loop of `createUnifiedDiff`: each line followed by a newline. */
  method AppendLines(lines: seq<string>) returns (s: string)
    ensures s == Unlines(lines)
  {
    s := "";
    var i := 0;
    while i < |lines|
      invariant 0 <= i <= |lines|
      invariant s == Unlines(lines[..i])
    {
      assert lines[..i + 1][..i] == lines[..i];
      s := s + lines[i] + "\n";
      i := i + 1;
    }
    assert lines[..|lines|] == lines;
  }

  class Pipeline<W, P> {
    /** The subclass hooks, the store's failure behaviour and the configuration. */
    const backend: Backend<W>
    /** The diff library. */
    const diffs: DiffLib<P>
    /** The commit history store, and the id it gives the next item it stores. */
    var history: map<int, HistoryItem>
    var nextId: int
    /** What the subclass hooks and the file system see and change. */
    var world: W
    /** The temporary lock files and work folders that exist, and the next run number. */
    var temp: set<TempEntry>
    var nextTemp: nat
    /** How many reloads of the managed ontology have been started. */
    var reloads: nat
    /** The hooks invoked so far. */
    ghost var trace: seq<Event>

    ghost function Snapshot(): State<W>
      reads this
    {
      State(history, nextId, world, temp, nextTemp, reloads, trace)
    }

    ghost predicate Valid()
      reads this
    {
      CommitModel.Valid(Snapshot())
    }

    constructor (backend: Backend<W>, diffs: DiffLib<P>, history: map<int, HistoryItem>, nextId: int, world: W)
      ensures this.backend == backend && this.diffs == diffs
      ensures Snapshot() == State(history, nextId, world, {}, 0, 0, [])
    {
      this.backend := backend;
      this.diffs := diffs;
      this.history := history;
      this.nextId := nextId;
      this.world := world;
      this.temp := {};
      this.nextTemp := 0;
      this.reloads := 0;
      this.trace := [];
    }

    /** Invokes the hook `e` whose outcome on the current environment is `r`. */
    method CallHook(ghost e: Event, r: Result<W, CommitException>) returns (f: Option<Failure>)
      modifies this
      ensures var s := CommitModel.Invoke(old(Snapshot()), e, r);
        && Snapshot() == s.state && (f.None? <==> s.Continue?) && (f.Some? ==> f.value == s.failure)
    {
      trace := trace + [e];
      match r
      case Ok(w) =>
        world := w;
        f := None;
      case Throw(x) =>
        f := Some(Checked(x));
    }

    /** `commit(List<Integer> historyIds)`. */
    method Commit(ids: seq<int>) returns (r: Result<seq<CommitResult>, Failure>)
      modifies this
      ensures Outcome(r, Snapshot()) == CommitModel.Commit(backend, diffs, ids, old(Snapshot()))
      ensures old(Valid()) ==> Valid() && temp == old(temp)
    {
      ghost var s0 := Snapshot();
      if ids == [] {
        return Ok([Error]);
      }
      var check := ModeCheck(backend.mode, backend.username, backend.password, backend.supportAnonymus);
      if check.Some? {
        return Throw(Checked(check.value));
      }
      r := CommitInternal(ids);
      if CommitModel.Valid(s0) {
        CommitProperties.CommitRestoresTemp(backend, diffs, ids, s0);
      }
    }

    /** The outer `commitInternal`: create the work folders, run the batch in them, and clean
        them up however the batch ends. */
    method CommitInternal(ids: seq<int>) returns (r: Result<seq<CommitResult>, Failure>)
      modifies this
      ensures Outcome(r, Snapshot()) == CommitWithFolders(backend, diffs, ids, old(Snapshot()))
    {
      ghost var s0 := Snapshot();
      var folders := CreateTempDir();
      if folders.Throw? {
        return Throw(folders.error);
      }
      assert Snapshot() == CommitProperties.Opened(s0);
      CommitProperties.CommitWithFoldersUnfold(backend, diffs, ids, s0);
      r := CommitItems(ids, folders.value);
      Clean(folders.value);
    }

    /** `createTempDir`: a lock file and a work folder named after it; when the folder cannot be
        made, what was created is deleted again. The result is the run number of the pair. */
    method CreateTempDir() returns (r: Result<nat, Failure>)
      modifies this
      ensures backend.lockFails(old(world)) ==> r.Throw? && Snapshot() == old(Snapshot())
      ensures !backend.lockFails(old(world)) ==> Snapshot() == old(Snapshot()).(
        temp := if backend.mkdirFails(old(world)) then old(temp) + {LockFile(old(nextTemp))} - Folders(old(nextTemp))
                else old(temp) + Folders(old(nextTemp)),
        nextTemp := old(nextTemp) + 1)
      ensures r.Throw? <==> backend.lockFails(old(world)) || backend.mkdirFails(old(world))
      ensures r.Throw? ==> r.error == Fail("Could not create temporary work dir.")
      ensures r.Ok? ==> r.value == old(nextTemp)
    {
      if backend.lockFails(world) {
        return Throw(Fail("Could not create temporary work dir."));
      }
      var n := nextTemp;
      temp := temp + {LockFile(n)};
      nextTemp := n + 1;
      if backend.mkdirFails(world) {
        temp := temp - {LockFile(n)};
        temp := temp - {WorkFolder(n)};
        return Throw(Fail("Could not create temporary work dir."));
      }
      temp := temp + {WorkFolder(n)};
      return Ok(n);
    }

    /** `WorkFolders.clean`: deletes the work folder and the lock file of run `n`. */
    method Clean(n: nat)
      modifies this
      ensures Snapshot() == old(Snapshot()).(temp := old(temp) - Folders(n))
    {
      temp := temp - {WorkFolder(n)};
      temp := temp - {LockFile(n)};
    }

    /** The inner `commitInternal`, with the work folder of run `run`. */
    method CommitItems(ids: seq<int>, run: nat) returns (r: Result<seq<CommitResult>, Failure>)
      modifies this
      ensures Outcome(r, Snapshot()) == CommitModel.CommitItems(backend, diffs, ids, run, old(Snapshot()))
    {
      var f := SetUp(run);
      if f.Some? { return Throw(f.value); }
      var loaded := RetrieveItems(ids);
      if loaded.Throw? {
        return Throw(loaded.error);
      }
      var items := loaded.value;
      ghost var s1 := Snapshot();
      var results, changed := CommitLoop(items);
      if results.Ok? && changed {
        reloads := reloads + 1;
      }
      r := results;
      assert RunItems(backend, diffs, items, s1).result == results;
    }

    /** The loop over the loaded items, with its `changed` flag. */
    method CommitLoop(items: seq<HistoryItem>) returns (r: Result<seq<CommitResult>, Failure>, changed: bool)
      modifies this
      ensures Outcome(r, Snapshot()) == RunItems(backend, diffs, items, old(Snapshot()))
      ensures r.Ok? ==> changed == AnySuccess(r.value)
    {
      ghost var s0 := Snapshot();
      var results: seq<CommitResult> := [];
      changed := false;
      var k := 0;
      while k < |items|
        invariant 0 <= k <= |items|
        invariant Outcome(Ok(results), Snapshot()) == RunItems(backend, diffs, items[..k], s0)
        invariant changed == AnySuccess(results)
      {
        var item := items[k];
        ghost var mid := Snapshot();
        ghost var before := results;
        var one := LoopBody(item);
        CommitProperties.RunItemsExtend(backend, diffs, items, k, s0, before, mid, one, Snapshot());
        if one.Throw? {
          CommitProperties.RunItemsThrowSticks(backend, diffs, items, k + 1, s0);
          return Throw(one.error), changed;
        }
        results := results + [one.value];
        CommitProperties.AnySuccessAppend(before, one.value);
        if !item.committed {
          changed := true;
        }
        k := k + 1;
      }
      assert items[..|items|] == items;
      return Ok(results), changed;
    }

    /** The body of the loop: an item already committed gets the already-committed result;
        any other one is committed, and its result is a success. */
    method LoopBody(item: HistoryItem) returns (r: Result<CommitResult, Failure>)
      modifies this
      ensures Outcome(r, Snapshot()) == ProcessItem(backend, diffs, item, old(Snapshot()))
      ensures r.Ok? ==> (r.value.CommitResult? && r.value.success) == !item.committed
    {
      if item.committed {
        return Ok(AlreadyCommitted);
      }
      ghost var s0 := Snapshot();
      r := CommitItem(item);
      CommitProperties.ProcessItemResult(backend, diffs, item, s0);
    }

    /** `prepareWorkflow`, `prepareSCM`, `retrieveTargetOntology` and the check that the SCM
        target file is set. */
    method SetUp(run: nat) returns (f: Option<Failure>)
      modifies this
      ensures var s := CommitModel.SetUp(backend, run, old(Snapshot()));
        && Snapshot() == s.state && (f.None? <==> s.Continue?) && (f.Some? ==> f.value == s.failure)
    {
      f := CallHook(PrepareWorkflow, backend.prepareWorkflow(run, world));
      if f.Some? { return; }
      f := CallHook(PrepareScm, backend.prepareScm(backend.mode, backend.username, backend.password, world));
      if f.Some? { return; }
      f := CallHook(RetrieveTarget, backend.retrieveTargetOntology(world));
      if f.Some? { return; }
      if !backend.fileSet(ScmTarget, world) {
        return Some(Fail("scm target file is null"));
      }
    }

    /** `retrieveItems(historyIds)`: `store.load`, failing when the store fails or finds nothing. */
    method RetrieveItems(ids: seq<int>) returns (r: Result<seq<HistoryItem>, Failure>)
      ensures r == CommitModel.RetrieveItems(backend, ids, Snapshot())
    {
      if backend.loadFails(world) {
        return Throw(Fail("Could not retrieve commit items from db"));
      }
      var load := LoadItems(ids, history);
      if load == [] {
        return Throw(Fail("Could not retrieve commit items from db"));
      }
      return Ok(load);
    }

    /** The body of the loop for an item that is not yet committed. */
    method CommitItem(item: HistoryItem) returns (r: Result<CommitResult, Failure>)
      requires !item.committed
      modifies this
      ensures Outcome(r, Snapshot()) == ProcessItem(backend, diffs, item, old(Snapshot()))
    {
      var f := CallHook(UpdateScm(item.id), backend.updateScm(world));
      if f.Some? { return Throw(f.value); }
      f := CallHook(CheckTarget(item.id), backend.checkTargetOntology(world));
      if f.Some? { return Throw(f.value); }
      trace := trace + [ApplyChanges(item.id)];
      var applied := backend.applyChanges(item.terms, world);
      if applied.Throw? { return Throw(Checked(applied.error)); }
      world := applied.value.1;
      if !applied.value.0 { return Throw(ApplyFailed); }
      ghost var s1 := Snapshot();
      assert ProcessItem(backend, diffs, item, old(Snapshot())) == FromWrite(backend, diffs, item, s1);
      r := CommitApplied(item);
    }

    /** The rest of the loop body once the changes are applied: write the modified ontology,
        check the files, diff, patch, commit and mark the item committed. */
    method CommitApplied(item: HistoryItem) returns (r: Result<CommitResult, Failure>)
      modifies this
      ensures Outcome(r, Snapshot()) == FromWrite(backend, diffs, item, old(Snapshot()))
    {
      var f := CallHook(WriteModified(item.id), backend.createModifiedTargetFile(item.savedBy, world));
      if f.Some? { return Throw(f.value); }
      if !backend.fileSet(Target, world) { return Throw(Fail("target file is null")); }
      if !backend.fileSet(ModifiedTarget, world) { return Throw(Fail("modified target file is null")); }
      if !backend.fileSet(ModifiedScmTarget, world) { return Throw(Fail("modified scm target file is null")); }
      ghost var s1 := Snapshot();
      assert FromWrite(backend, diffs, item, old(Snapshot())) == FromDiff(backend, diffs, item, s1);
      var pair := CreateUnifiedDiff(item);
      if pair.Throw? { return Throw(pair.error); }
      var (text, patch) := pair.value;
      ghost var s2 := Snapshot();
      assert FromDiff(backend, diffs, item, s1) == FromPatch(backend, diffs, item, text, patch, s2);
      f := CreatePatchedFile(item, patch);
      if f.Some? { return Throw(f.value); }
      ghost var s3 := Snapshot();
      assert FromPatch(backend, diffs, item, text, patch, s2) == FromRepository(backend, item, text, s3);
      f := CallHook(CommitToRepository(item.id), backend.commitToRepository(item.message, text, world));
      if f.Some? { return Throw(f.value); }
      ghost var s4 := Snapshot();
      assert FromRepository(backend, item, text, s3) == FromFinalize(backend, item, text, s4);
      f := FinalizeCommitHistory(item);
      if f.Some? { return Throw(f.value); }
      return Ok(CommitResult(true, None, Some(item.terms), Some(text)));
    }

    /** `createUnifiedDiff(targetFile, modifiedTargetFile, "original", "termgenie-changes")`
        together with the caller's use of its result; `item` names the recorded step. A null
        patch makes the method return null, and the caller's dereference throws. */
    method CreateUnifiedDiff(item: HistoryItem) returns (r: Result<(string, P), Failure>)
      modifies this
      ensures var s := DiffStage(backend, diffs, item, old(Snapshot()));
        && Snapshot() == s.state && (r.Ok? <==> s.Diffed?)
        && (r.Ok? ==> r.value == (s.text, s.patch)) && (r.Throw? ==> r.error == s.failure)
    {
      trace := trace + [CreateDiff(item.id)];
      var originalLines := backend.readLines(Target, world);
      if originalLines.None? { return Throw(Fail("Could not create diff for commit.")); }
      var revisedLines := backend.readLines(ModifiedTarget, world);
      if revisedLines.None? { return Throw(Fail("Could not create diff for commit.")); }
      var patch := diffs.diff(originalLines.value, revisedLines.value);
      if patch.None? { return Throw(NullPointer); }
      var diff := diffs.unified("original", "termgenie-changes", originalLines.value, patch.value, 0);
      var text := AppendLines(diff);
      return Ok((text, patch.value));
    }

    /** `createPatchedFile(data, patch)`; `item` names the recorded step. */
    method CreatePatchedFile(item: HistoryItem, patch: P) returns (f: Option<Failure>)
      modifies this
      ensures var s := PatchStage(backend, diffs, item, patch, old(Snapshot()));
        && Snapshot() == s.state && (f.None? <==> s.Continue?) && (f.Some? ==> f.value == s.failure)
    {
      trace := trace + [CreatePatched(item.id)];
      var originalLines := backend.readLines(ScmTarget, world);
      if originalLines.None? { return Some(Fail("Could not create patched file for commit")); }
      var patched := diffs.patch(originalLines.value, patch);
      if patched.None? { return Some(Fail("Could not create patched file for commit")); }
      var written := backend.writeLines(ModifiedScmTarget, patched.value, world);
      if written.None? { return Some(Fail("Could not create patched file for commit")); }
      world := written.value;
      return None;
    }

    /** `finalizeCommitHistory(item)`. */
    method FinalizeCommitHistory(item: HistoryItem) returns (f: Option<Failure>)
      modifies this
      ensures var s := FinalizeStage(backend, item, old(Snapshot()));
        && Snapshot() == s.state && (f.None? <==> s.Continue?) && (f.Some? ==> f.value == s.failure)
    {
      trace := trace + [MarkCommitted(item.id)];
      var marked := item.(committed := true);
      if backend.updateFails(marked, world) {
        return Some(StoreProblem(backend.ontologyName));
      }
      if marked.id in history {
        history := history[marked.id := marked];
      }
      return None;
    }

    /** `commit(CommitInfo)`: store the new item, then compute the preview diff. */
    method Submit(terms: seq<CommittedTerm>, message: string, savedBy: string, email: string)
      returns (r: Result<CommitResult, Failure>)
      modifies this
      ensures Outcome(r, Snapshot()) == CommitModel.Submit(backend, terms, message, savedBy, email, old(Snapshot()))
      ensures old(Valid()) ==> Valid()
    {
      if backend.addFails(world) {
        return Throw(StoreProblem(backend.ontologyName));
      }
      var item := HistoryItem(nextId, false, terms, message, savedBy, email);
      history := history[nextId := item];
      nextId := nextId + 1;
      var diff := backend.createDiff(item, world);
      if diff.Throw? {
        return Throw(Checked(diff.error));
      }
      return Ok(CommitResult(true, Some(SubmittedMessage), Some(terms), diff.value));
    }

    /** `getItem(itemId)`. */
    method GetItem(itemId: int) returns (r: Result<Option<HistoryItem>, CommitException>)
      ensures r == CommitModel.GetItem(backend, itemId, Snapshot())
    {
      if backend.loadFails(world) {
        return Throw(CommitException("Could not retrieve item with id: '" + IntToString(itemId) + "' from store", false));
      }
      var items := LoadItems([itemId], history);
      if |items| == 1 {
        return Ok(Some(items[0]));
      }
      return Ok(None);
    }

    /** `updateItem(item)`. */
    method UpdateItem(item: HistoryItem) returns (r: Result<(), Failure>)
      modifies this
      ensures Outcome(r, Snapshot()) == CommitModel.UpdateItem(backend, item, old(Snapshot()))
    {
      if backend.updateFails(item, world) {
        return Throw(Fail("Could not update item in db"));
      }
      if item.id in history {
        history := history[item.id := item];
      }
      return Ok(());
    }

    /** `checkRecentCommits(labels)`. */
    method CheckRecentCommits(labels: seq<string>) returns (r: seq<(string, string)>)
      ensures r == CommitModel.CheckRecentCommits(backend, labels, Snapshot())
    {
      var found := backend.recentCommits(labels, world);
      if found.None? {
        return [];
      }
      return found.value;
    }
  }
}
