/**
 * What the commit-review pipeline promises, proved about the functions of CommitModel.
 */
module CommitProperties {
  import opened Wrappers
  import opened CommitModel

  /** The id counter, the temporary entries and the reload requests are as before. */
  predicate SameFrame<W>(st: State<W>, st2: State<W>) {
    st2.nextId == st.nextId && st2.temp == st.temp && st2.nextTemp == st.nextTemp && st2.reloads == st.reloads
  }

  /** The events added to the trace between two states. */
  function NewEvents<W>(st: State<W>, st2: State<W>): seq<Event>
    requires |st.trace| <= |st2.trace|
  {
    st2.trace[|st.trace|..]
  }

  // ---------------------------------------------------------------- one item

  /** How the iteration for an uncommitted item ends when it is taken up at hook `k` of the
      fixed order: it invokes a prefix of the remaining hooks (so a hook runs only after all
      hooks before it returned normally); it succeeds exactly when all of them ran, and then the
      item is marked committed in the store and the result carries its terms and a diff; when it
      fails the store is untouched. */
  predicate ItemShape<W>(item: HistoryItem, k: nat, st: State<W>, o: Outcome<CommitResult, W>)
    requires k <= 8
  {
    && SameFrame(st, o.state)
    && st.trace <= o.state.trace && NewEvents(st, o.state) <= ItemOrder(item.id)[k..]
    && (o.result.Throw? ==> o.state.history == st.history)
    && (o.result.Ok? ==>
          && o.state.trace == st.trace + ItemOrder(item.id)[k..]
          && o.state.history == StoreUpdate(st.history, item.(committed := true))
          && o.result.value.CommitResult? && o.result.value.success
          && o.result.value.message.None? && o.result.value.terms == Some(item.terms)
          && o.result.value.diff.Some?)
  }

  /** One more event in front of a prefix of the remaining order is a prefix of the order from
      one step earlier. */
  lemma PrefixStep(t0: seq<Event>, t1: seq<Event>, t2: seq<Event>, order: seq<Event>, k: nat)
    requires k < |order|
    requires t1 == t0 + [order[k]] && t1 <= t2 && t2[|t1|..] <= order[k + 1..]
    ensures t0 <= t2 && t2[|t0|..] <= order[k..]
    ensures t2 == t1 + order[k + 1..] ==> t2 == t0 + order[k..]
  {
    assert t2[|t0|..] == [order[k]] + t2[|t1|..];
    assert order[k..] == [order[k]] + order[k + 1..];
  }

  /** A stage that invokes hook `k` of the order and continues, followed by a rest that has
      `ItemShape` from hook `k + 1`, has `ItemShape` from hook `k`. */
  lemma ShapeStep<W>(item: HistoryItem, k: nat, st: State<W>, s: State<W>, o: Outcome<CommitResult, W>)
    requires k < 8
    requires SameFrame(st, s) && s.history == st.history && s.trace == st.trace + [ItemOrder(item.id)[k]]
    requires ItemShape(item, k + 1, s, o)
    ensures ItemShape(item, k, st, o)
  {
    PrefixStep(st.trace, s.trace, o.state.trace, ItemOrder(item.id), k);
  }

  /** A stage that stops after invoking a prefix of the order from hook `k` ends the item with
      `ItemShape` from hook `k`. */
  lemma ShapeStop<W>(item: HistoryItem, k: nat, st: State<W>, o: Outcome<CommitResult, W>)
    requires k < 8
    requires SameFrame(st, o.state) && o.state.history == st.history && o.result.Throw?
    requires st.trace <= o.state.trace && NewEvents(st, o.state) <= ItemOrder(item.id)[k..]
    ensures ItemShape(item, k, st, o)
  {
  }

  /** An item already committed is skipped untouched; any other one follows `ItemShape` from the
      first hook. */
  lemma ProcessItemShape<W, P>(b: Backend<W>, d: DiffLib<P>, item: HistoryItem, st: State<W>)
    ensures item.committed ==> ProcessItem(b, d, item, st) == Outcome(Ok(AlreadyCommitted), st)
    ensures !item.committed ==> ItemShape(item, 0, st, ProcessItem(b, d, item, st))
  {
    if !item.committed {
      var s1 := ApplyStage(b, item, st);
      var o := ProcessItem(b, d, item, st);
      ApplyStageShape(b, item, st);
      if s1.Continue? {
        FromWriteShape(b, d, item, s1.state);
        assert o == FromWrite(b, d, item, s1.state);
        ShapeJoin(item, st, s1.state, o);
      } else {
        ShapePrefixStop(item, st, o);
      }
    }
  }

  /** The first three hooks, all returned normally, followed by a rest with `ItemShape` from
      hook 3, give `ItemShape` from the first hook. */
  lemma ShapeJoin<W>(item: HistoryItem, st: State<W>, s: State<W>, o: Outcome<CommitResult, W>)
    requires SameFrame(st, s) && s.history == st.history && s.trace == st.trace + ItemOrder(item.id)[..3]
    requires ItemShape(item, 3, s, o)
    ensures ItemShape(item, 0, st, o)
  {
    var order := ItemOrder(item.id);
    var t0, t1, t2 := st.trace, s.trace, o.state.trace;
    assert t2[|t0|..] == order[..3] + t2[|t1|..];
    assert order == order[..3] + order[3..];
  }

  /** A stage that stops within the first three hooks ends the item with `ItemShape` from the
      first hook. */
  lemma ShapePrefixStop<W>(item: HistoryItem, st: State<W>, o: Outcome<CommitResult, W>)
    requires SameFrame(st, o.state) && o.state.history == st.history && o.result.Throw?
    requires st.trace <= o.state.trace && NewEvents(st, o.state) <= ItemOrder(item.id)[..3]
    ensures ItemShape(item, 0, st, o)
  {
    assert ItemOrder(item.id)[..3] <= ItemOrder(item.id);
  }

  /** The result of an iteration that returns normally is the one `ResultFor` names. */
  lemma ProcessItemResult<W, P>(b: Backend<W>, d: DiffLib<P>, item: HistoryItem, st: State<W>)
    ensures ProcessItem(b, d, item, st).result.Ok? ==> ResultFor(item, ProcessItem(b, d, item, st).result.value)
  {
    ProcessItemShape(b, d, item, st);
  }

  lemma FromWriteShape<W, P>(b: Backend<W>, d: DiffLib<P>, item: HistoryItem, st: State<W>)
    ensures ItemShape(item, 3, st, FromWrite(b, d, item, st))
  {
    var s := WriteStage(b, item, st);
    var o := FromWrite(b, d, item, st);
    assert s.state == Record(st, WriteModified(item.id)) || s.state.trace == st.trace + [WriteModified(item.id)];
    if s.Continue? {
      FromDiffShape(b, d, item, s.state);
      assert o == FromDiff(b, d, item, s.state);
      ShapeStep(item, 3, st, s.state, o);
    } else {
      ShapeStop(item, 3, st, o);
    }
  }

  lemma FromDiffShape<W, P>(b: Backend<W>, d: DiffLib<P>, item: HistoryItem, st: State<W>)
    ensures ItemShape(item, 4, st, FromDiff(b, d, item, st))
  {
    var s := DiffStage(b, d, item, st);
    var o := FromDiff(b, d, item, st);
    if s.Diffed? {
      FromPatchShape(b, d, item, s.text, s.patch, s.state);
      assert o == FromPatch(b, d, item, s.text, s.patch, s.state);
      ShapeStep(item, 4, st, s.state, o);
    } else {
      ShapeStop(item, 4, st, o);
    }
  }

  lemma FromPatchShape<W, P>(b: Backend<W>, d: DiffLib<P>, item: HistoryItem, text: string, p: P, st: State<W>)
    ensures ItemShape(item, 5, st, FromPatch(b, d, item, text, p, st))
  {
    var s := PatchStage(b, d, item, p, st);
    var o := FromPatch(b, d, item, text, p, st);
    if s.Continue? {
      FromRepositoryShape(b, item, text, s.state);
      assert o == FromRepository(b, item, text, s.state);
      ShapeStep(item, 5, st, s.state, o);
    } else {
      ShapeStop(item, 5, st, o);
    }
  }

  lemma FromRepositoryShape<W>(b: Backend<W>, item: HistoryItem, text: string, st: State<W>)
    ensures ItemShape(item, 6, st, FromRepository(b, item, text, st))
  {
    var s := Invoke(st, CommitToRepository(item.id), b.commitToRepository(item.message, text, st.world));
    var o := FromRepository(b, item, text, st);
    if s.Continue? {
      FromFinalizeShape(b, item, text, s.state);
      assert o == FromFinalize(b, item, text, s.state);
      ShapeStep(item, 6, st, s.state, o);
    } else {
      ShapeStop(item, 6, st, o);
    }
  }

  lemma FromFinalizeShape<W>(b: Backend<W>, item: HistoryItem, text: string, st: State<W>)
    ensures ItemShape(item, 7, st, FromFinalize(b, item, text, st))
  {
    assert ItemOrder(item.id)[7..] == [MarkCommitted(item.id)];
  }

  /** `updateSCM`, `checkTargetOntology` and `applyChanges` invoke a prefix of the first three
      hooks, all three when the stage continues, and leave the store alone. */
  lemma ApplyStageShape<W>(b: Backend<W>, item: HistoryItem, st: State<W>)
    ensures var s := ApplyStage(b, item, st);
      && SameFrame(st, s.state) && s.state.history == st.history
      && st.trace <= s.state.trace && NewEvents(st, s.state) <= ItemOrder(item.id)[..3]
      && (s.Continue? ==> s.state.trace == st.trace + ItemOrder(item.id)[..3])
  {
    var order := ItemOrder(item.id);
    assert [UpdateScm(item.id)] == order[..1];
    assert [UpdateScm(item.id), CheckTarget(item.id)] == order[..2];
    assert [UpdateScm(item.id), CheckTarget(item.id), ApplyChanges(item.id)] == order[..3];
  }

  /** A `false` from `applyChanges`, after `updateSCM` and `checkTargetOntology` returned normally,
      aborts with a rollback before anything is written, diffed or committed. */
  lemma ApplyRejected<W, P>(b: Backend<W>, d: DiffLib<P>, item: HistoryItem, st: State<W>, w1: W, w2: W, w3: W)
    requires !item.committed
    requires b.updateScm(st.world) == Ok(w1) && b.checkTargetOntology(w1) == Ok(w2)
    requires b.applyChanges(item.terms, w2) == Ok((false, w3))
    ensures var o := ProcessItem(b, d, item, st);
      && o.result == Throw(ApplyFailed) && ApplyFailed.exception.rollback
      && o.state == st.(world := w3, trace := st.trace + ItemOrder(item.id)[..3])
  {
    assert [UpdateScm(item.id), CheckTarget(item.id), ApplyChanges(item.id)] == ItemOrder(item.id)[..3];
  }

  /** A failing `checkTargetOntology` ends the item with that exception: the repository is not
      reached and the store is untouched. */
  lemma CheckRejected<W, P>(b: Backend<W>, d: DiffLib<P>, item: HistoryItem, st: State<W>, w1: W, x: CommitException)
    requires !item.committed
    requires b.updateScm(st.world) == Ok(w1) && b.checkTargetOntology(w1) == Throw(x)
    ensures var o := ProcessItem(b, d, item, st);
      && o.result == Throw(Checked(x))
      && o.state == st.(world := w1, trace := st.trace + [UpdateScm(item.id), CheckTarget(item.id)])
      && CommitToRepository(item.id) !in o.state.trace[|st.trace|..]
  {
  }

  // ---------------------------------------------------------------- the loop

  /** The result the loop records for an item: the already-committed failure for a committed
      item, a success with its terms and a diff otherwise. */
  predicate ResultFor(item: HistoryItem, r: CommitResult) {
    if item.committed then r == AlreadyCommitted
    else r.CommitResult? && r.success && r.message.None? && r.terms == Some(item.terms) && r.diff.Some?
  }

  /** The store after the items up to the end have been committed, skipping those that already were. */
  function MarkAll(history: map<int, HistoryItem>, items: seq<HistoryItem>): map<int, HistoryItem>
  {
    if items == [] then history
    else
      var prev := MarkAll(history, items[..|items| - 1]);
      var last := items[|items| - 1];
      if last.committed then prev else StoreUpdate(prev, last.(committed := true))
  }

  /** A failure stops the loop: a run that failed on a prefix of the items fails the same way on
      all of them. */
  lemma {:induction false} RunItemsThrowSticks<W, P>(b: Backend<W>, d: DiffLib<P>, items: seq<HistoryItem>, k: nat, st: State<W>)
    requires k <= |items| && RunItems(b, d, items[..k], st).result.Throw?
    ensures RunItems(b, d, items, st) == RunItems(b, d, items[..k], st)
    decreases |items|
  {
    if k < |items| {
      var pre := items[..|items| - 1];
      assert pre[..k] == items[..k];
      RunItemsThrowSticks(b, d, pre, k, st);
    } else {
      assert items[..k] == items;
    }
  }

  /** The loop leaves the id counter, the temporary entries and the reloads alone, keeps the
      store's ids, and only adds to the trace. */
  lemma {:induction false} RunItemsFrame<W, P>(b: Backend<W>, d: DiffLib<P>, items: seq<HistoryItem>, st: State<W>)
    ensures var o := RunItems(b, d, items, st);
      SameFrame(st, o.state) && o.state.history.Keys == st.history.Keys && st.trace <= o.state.trace
    decreases |items|
  {
    if items != [] {
      var pre := items[..|items| - 1];
      RunItemsFrame(b, d, pre, st);
      var prev := RunItems(b, d, pre, st);
      if prev.result.Ok? {
        ProcessItemShape(b, d, items[|items| - 1], prev.state);
      }
    }
  }

  /** When the loop returns normally there is one result per item, each the one `ResultFor` names. */
  lemma {:induction false} RunItemsResults<W, P>(b: Backend<W>, d: DiffLib<P>, items: seq<HistoryItem>, st: State<W>)
    ensures var o := RunItems(b, d, items, st);
      o.result.Ok? ==> ResultsFor(items, o.result.value)
    decreases |items|
  {
    if items != [] {
      var pre := items[..|items| - 1];
      RunItemsResults(b, d, pre, st);
      var prev := RunItems(b, d, pre, st);
      if prev.result.Ok? {
        var last := items[|items| - 1];
        ProcessItemResult(b, d, last, prev.state);
        var o := ProcessItem(b, d, last, prev.state);
        if o.result.Ok? {
          ResultsExtend(pre, last, prev.result.value, o.result.value);
          assert pre + [last] == items;
        }
      }
    }
  }

  /** One result per item, each the one `ResultFor` names. */
  predicate ResultsFor(items: seq<HistoryItem>, results: seq<CommitResult>) {
    |results| == |items| && forall j | 0 <= j < |items| :: ResultFor(items[j], results[j])
  }

  lemma ResultsExtend(items: seq<HistoryItem>, item: HistoryItem, results: seq<CommitResult>, r: CommitResult)
    requires ResultsFor(items, results) && ResultFor(item, r)
    ensures ResultsFor(items + [item], results + [r])
  {
    forall j | 0 <= j < |items| + 1 ensures ResultFor((items + [item])[j], (results + [r])[j]) {
      if j < |items| {
        assert (items + [item])[j] == items[j];
      }
    }
  }

  /** Some result is a success after appending one exactly when one was before or the new one is. */
  lemma AnySuccessAppend(results: seq<CommitResult>, r: CommitResult)
    ensures AnySuccess(results + [r]) == (AnySuccess(results) || (r.CommitResult? && r.success))
  {
    if AnySuccess(results + [r]) && !(r.CommitResult? && r.success) {
      var x :| x in results + [r] && x.CommitResult? && x.success;
      assert x in results;
    }
    if AnySuccess(results) {
      var x :| x in results && x.CommitResult? && x.success;
      assert x in results + [r];
    }
  }

  /** One more turn of the loop: after the items before `k` returned `results` in state `mid`,
      item `k` decides how the loop over the items up to `k` ends. */
  lemma RunItemsExtend<W, P>(b: Backend<W>, d: DiffLib<P>, items: seq<HistoryItem>, k: nat, st: State<W>,
                             results: seq<CommitResult>, mid: State<W>, r: Result<CommitResult, Failure>, after: State<W>)
    requires k < |items|
    requires RunItems(b, d, items[..k], st) == Outcome(Ok(results), mid)
    requires ProcessItem(b, d, items[k], mid) == Outcome(r, after)
    ensures r.Ok? ==> RunItems(b, d, items[..k + 1], st) == Outcome(Ok(results + [r.value]), after)
    ensures r.Throw? ==> RunItems(b, d, items[..k + 1], st) == Outcome(Throw(r.error), after)
  {
    assert items[..k + 1][..k] == items[..k] && items[..k + 1][k] == items[k];
  }

  /** The loop over items with one more item at the end: a failure before it stands, and
      otherwise the last item runs from the state the others left. */
  lemma RunItemsUnfold<W, P>(b: Backend<W>, d: DiffLib<P>, items: seq<HistoryItem>, st: State<W>)
    requires items != []
    ensures var prev := RunItems(b, d, items[..|items| - 1], st);
      && (prev.result.Throw? ==> RunItems(b, d, items, st) == prev)
      && (prev.result.Ok? ==> RunItems(b, d, items, st).state == ProcessItem(b, d, items[|items| - 1], prev.state).state)
  {
  }

  /** Events of the earlier items followed by a prefix of the last item's hooks (none when it
      was committed) are all hooks of items that were not yet committed. */
  lemma EventsExtend(pre: seq<HistoryItem>, last: HistoryItem, t0: seq<Event>, t1: seq<Event>, t2: seq<Event>)
    requires t0 <= t1 <= t2
    requires forall e | e in t1[|t0|..] :: ItemEventOf(pre, e)
    requires last.committed ==> t2 == t1
    requires !last.committed ==> t2[|t1|..] <= ItemOrder(last.id)
    ensures forall e | e in t2[|t0|..] :: ItemEventOf(pre + [last], e)
  {
    var items := pre + [last];
    assert t2[|t0|..] == t1[|t0|..] + t2[|t1|..];
    forall e | e in t2[|t0|..] ensures ItemEventOf(items, e) {
      if e in t1[|t0|..] {
        var j :| 0 <= j < |pre| && !pre[j].committed && e in ItemOrder(pre[j].id);
        assert items[j] == pre[j];
      } else {
        assert items[|pre|] == last;
      }
    }
  }

  /** Every hook the loop invokes belongs to an item that was not yet committed. */
  lemma {:induction false} RunItemsEvents<W, P>(b: Backend<W>, d: DiffLib<P>, items: seq<HistoryItem>, st: State<W>)
    ensures var o := RunItems(b, d, items, st);
      && st.trace <= o.state.trace
      && forall e | e in NewEvents(st, o.state) :: ItemEventOf(items, e)
    decreases |items|
  {
    if items != [] {
      var pre := items[..|items| - 1];
      var last := items[|items| - 1];
      assert items == pre + [last];
      RunItemsEvents(b, d, pre, st);
      RunItemsUnfold(b, d, items, st);
      var prev := RunItems(b, d, pre, st);
      if prev.result.Ok? {
        var o := ProcessItem(b, d, last, prev.state);
        ProcessItemShape(b, d, last, prev.state);
        assert ItemOrder(last.id)[0..] == ItemOrder(last.id);
        EventsExtend(pre, last, st.trace, prev.state.trace, o.state.trace);
      } else {
        EventsExtend(pre, last, st.trace, prev.state.trace, prev.state.trace);
      }
    }
  }

  /** The loop over `items` from `st` fails at item `j`: the items before it return normally,
      and item `j` throws. */
  predicate FailsAt<W, P>(b: Backend<W>, d: DiffLib<P>, items: seq<HistoryItem>, st: State<W>, j: int) {
    && 0 <= j < |items|
    && RunItems(b, d, items[..j], st).result.Ok?
    && RunItems(b, d, items[..j + 1], st).result.Throw?
  }

  /** The store after the loop: when it returns normally every item is marked committed; when
      it fails at some item, that item was not yet committed and exactly the items before it
      are marked. */
  lemma {:induction false} RunItemsStore<W, P>(b: Backend<W>, d: DiffLib<P>, items: seq<HistoryItem>, st: State<W>)
    ensures var o := RunItems(b, d, items, st);
      && (o.result.Ok? ==> o.state.history == MarkAll(st.history, items))
      && (o.result.Throw? ==> exists j :: FailsAt(b, d, items, st, j) && !items[j].committed
                                       && o.state.history == MarkAll(st.history, items[..j]))
    decreases |items|
  {
    if items != [] {
      var pre := items[..|items| - 1];
      var last := items[|items| - 1];
      RunItemsStore(b, d, pre, st);
      var prev := RunItems(b, d, pre, st);
      if prev.result.Throw? {
        var j :| FailsAt(b, d, pre, st, j) && !pre[j].committed
                 && prev.state.history == MarkAll(st.history, pre[..j]);
        assert pre[..j] == items[..j];
        assert pre[..j + 1] == items[..j + 1];
      } else {
        ProcessItemShape(b, d, last, prev.state);
        var o := RunItems(b, d, items, st);
        if o.result.Throw? {
          assert items[..|items| - 1] == pre;
          assert items[..|items| - 1 + 1] == items;
          assert !last.committed;
        }
      }
    }
  }

  // ---------------------------------------------------------------- the store

  /** Some item has id `k`. */
  predicate Touched(items: seq<HistoryItem>, k: int) {
    exists j | 0 <= j < |items| :: items[j].id == k
  }

  /** Items as the store returned them: each is the stored record under its own id. */
  predicate FromStore(history: map<int, HistoryItem>, items: seq<HistoryItem>) {
    forall j | 0 <= j < |items| :: items[j].id in history && history[items[j].id] == items[j]
  }

  /** Marking items read from the store sets exactly their records to committed and changes
      nothing else. */
  lemma {:induction false} MarkAllSpec(history: map<int, HistoryItem>, items: seq<HistoryItem>)
    requires FromStore(history, items)
    ensures MarkAll(history, items).Keys == history.Keys
    ensures forall k | k in history ::
      MarkAll(history, items)[k] == if Touched(items, k) then history[k].(committed := true) else history[k]
  {
    if items != [] {
      var pre := items[..|items| - 1];
      var last := items[|items| - 1];
      assert FromStore(history, pre) by {
        forall j | 0 <= j < |pre| ensures pre[j].id in history && history[pre[j].id] == pre[j] {
          assert pre[j] == items[j];
        }
      }
      MarkAllSpec(history, pre);
      forall k | k in history
        ensures MarkAll(history, items)[k] == if Touched(items, k) then history[k].(committed := true) else history[k]
      {
        if Touched(pre, k) {
          var j :| 0 <= j < |pre| && pre[j].id == k;
          assert items[j].id == k;
        }
        if Touched(items, k) && k != last.id {
          var j :| 0 <= j < |items| && items[j].id == k;
          assert pre[j].id == k;
        }
        if k == last.id {
          assert Touched(items, k) by { assert items[|items| - 1].id == k; }
        }
      }
    }
  }

  /** Items loaded for `ids`: each is the stored record of one of the ids, every stored id is
      loaded, and none twice. */
  predicate Loaded(ids: seq<int>, history: map<int, HistoryItem>, items: seq<HistoryItem>) {
    && FromStore(history, items)
    && (forall j | 0 <= j < |items| :: items[j].id in ids)
    && (forall k | k in ids && k in history :: Touched(items, k))
    && (forall i, j | 0 <= i < j < |items| :: items[i].id != items[j].id)
  }

  /** `store.load` over a store that files each record under its own id: each loaded item is
      the stored record of one of the ids, every stored id is loaded, and none twice. */
  lemma {:induction false} LoadItemsSpec(ids: seq<int>, history: map<int, HistoryItem>)
    requires forall k | k in history :: history[k].id == k
    ensures Loaded(ids, history, LoadItems(ids, history))
  {
    if ids != [] {
      var pre := ids[..|ids| - 1];
      LoadItemsSpec(pre, history);
      LoadedStep(ids, history, LoadItems(pre, history));
    }
  }

  /** Loading one more id adds its record when the store has it and it was not loaded before. */
  lemma LoadedStep(ids: seq<int>, history: map<int, HistoryItem>, before: seq<HistoryItem>)
    requires ids != [] && forall k | k in history :: history[k].id == k
    requires Loaded(ids[..|ids| - 1], history, before)
    ensures var last := ids[|ids| - 1];
      Loaded(ids, history, before + if last in history && last !in ids[..|ids| - 1] then [history[last]] else [])
  {
    var pre := ids[..|ids| - 1];
    var last := ids[|ids| - 1];
    var items := before + if last in history && last !in pre then [history[last]] else [];
    forall k | k in ids && k in history ensures Touched(items, k) {
      if k in pre {
        var j :| 0 <= j < |before| && before[j].id == k;
        assert items[j] == before[j];
      } else {
        assert k == last;
        assert items[|items| - 1].id == k;
      }
    }
    forall j | 0 <= j < |items| ensures items[j].id in ids {
      if j < |before| {
        assert items[j] == before[j];
      }
    }
    assert FromStore(history, items);
  }

  // ---------------------------------------------------------------- the batch

  /** The hooks invoked while setting a batch up, in order. */
  function SetUpOrder(): seq<Event> {
    [PrepareWorkflow, PrepareScm, RetrieveTarget]
  }

  /** Setting up invokes a prefix of the set-up hooks and touches neither the store nor the
      frame. */
  lemma SetUpShape<W>(b: Backend<W>, run: nat, st: State<W>)
    ensures var s := SetUp(b, run, st);
      && SameFrame(st, s.state) && s.state.history == st.history
      && st.trace <= s.state.trace && NewEvents(st, s.state) <= SetUpOrder()
  {
    assert [PrepareWorkflow] == SetUpOrder()[..1];
    assert [PrepareWorkflow, PrepareScm] == SetUpOrder()[..2];
  }

  /** A loop over items that are all committed changes nothing and reports each as already
      committed. */
  lemma {:induction false} RunItemsAllCommitted<W, P>(b: Backend<W>, d: DiffLib<P>, items: seq<HistoryItem>, st: State<W>)
    requires forall j | 0 <= j < |items| :: items[j].committed
    ensures var o := RunItems(b, d, items, st);
      o.state == st && o.result.Ok? && |o.result.value| == |items|
      && forall r | r in o.result.value :: r == AlreadyCommitted
  {
    if items != [] {
      var pre := items[..|items| - 1];
      assert forall j | 0 <= j < |pre| :: pre[j] == items[j];
      RunItemsAllCommitted(b, d, pre, st);
      assert ProcessItem(b, d, items[|items| - 1], st) == Outcome(Ok(AlreadyCommitted), st);
    }
  }

  /** The store the inner `commitInternal` leaves: the items loaded before the one it stopped
      at are marked committed, and all of them when it returns normally; the frame is kept. */
  lemma CommitItemsStore<W, P>(b: Backend<W>, d: DiffLib<P>, ids: seq<int>, run: nat, st: State<W>)
    ensures var o := CommitItems(b, d, ids, run, st);
      var items := LoadItems(ids, st.history);
      && o.state.nextId == st.nextId && o.state.temp == st.temp && o.state.nextTemp == st.nextTemp
      && st.trace <= o.state.trace
      && (o.result.Ok? ==> o.state.history == MarkAll(st.history, items))
      && (o.result.Throw? ==> o.state.reloads == st.reloads)
    ensures exists j :: (0 <= j <= |LoadItems(ids, st.history)|
      && CommitItems(b, d, ids, run, st).state.history == MarkAll(st.history, LoadItems(ids, st.history)[..j]))
  {
    var s := SetUp(b, run, st);
    SetUpShape(b, run, st);
    var items := LoadItems(ids, st.history);
    var o := CommitItems(b, d, ids, run, st);
    assert items[..0] == [] && items[..|items|] == items;
    if s.Continue? && RetrieveItems(b, ids, s.state).Ok? {
      RunItemsStore(b, d, items, s.state);
      RunItemsFrame(b, d, items, s.state);
      var r := RunItems(b, d, items, s.state);
      assert o.state.history == r.state.history;
      if r.result.Ok? {
        assert o.state.history == MarkAll(st.history, items[..|items|]);
      } else {
        var j :| FailsAt(b, d, items, s.state, j) && !items[j].committed
                 && r.state.history == MarkAll(s.state.history, items[..j]);
        assert o.state.history == MarkAll(st.history, items[..j]);
      }
    } else {
      assert o.state.history == st.history == MarkAll(st.history, []);
      var j := 0;
      assert 0 <= j <= |items| && o.state.history == MarkAll(st.history, items[..j]);
    }
  }

  /** The inner `commitInternal` when it returns normally: the loaded items each got their
      result, and one reload is requested exactly when some item was committed. */
  lemma CommitItemsReturns<W, P>(b: Backend<W>, d: DiffLib<P>, ids: seq<int>, run: nat, st: State<W>)
    ensures var o := CommitItems(b, d, ids, run, st);
      var items := LoadItems(ids, st.history);
      o.result.Ok? ==> && items != [] && ResultsFor(items, o.result.value)
                       && o.state.reloads == st.reloads + (if AnySuccess(o.result.value) then 1 else 0)
  {
    var s := SetUp(b, run, st);
    SetUpShape(b, run, st);
    if s.Continue? && RetrieveItems(b, ids, s.state).Ok? {
      var items := LoadItems(ids, st.history);
      RunItemsResults(b, d, items, s.state);
      RunItemsFrame(b, d, items, s.state);
    }
  }

  /** Every hook the inner `commitInternal` invokes is a set-up hook or belongs to a loaded item
      that was not yet committed. */
  lemma CommitItemsEvents<W, P>(b: Backend<W>, d: DiffLib<P>, ids: seq<int>, run: nat, st: State<W>)
    ensures var o := CommitItems(b, d, ids, run, st);
      && st.trace <= o.state.trace
      && forall e | e in NewEvents(st, o.state) :: e in SetUpOrder() || ItemEventOf(LoadItems(ids, st.history), e)
  {
    var s := SetUp(b, run, st);
    SetUpShape(b, run, st);
    var o := CommitItems(b, d, ids, run, st);
    var items := LoadItems(ids, st.history);
    if s.Continue? && RetrieveItems(b, ids, s.state).Ok? {
      RunItemsEvents(b, d, items, s.state);
      var r := RunItems(b, d, items, s.state);
      assert o.state.trace == r.state.trace;
      EventsSplit(st.trace, s.state.trace, o.state.trace, SetUpOrder(), items);
    } else {
      assert o.state.trace == s.state.trace;
    }
  }

  /** `e` is one of the hooks of an item that was not yet committed. */
  predicate ItemEventOf(items: seq<HistoryItem>, e: Event) {
    exists j | 0 <= j < |items| :: !items[j].committed && e in ItemOrder(items[j].id)
  }

  lemma EventsSplit(t0: seq<Event>, t1: seq<Event>, t2: seq<Event>, first: seq<Event>, items: seq<HistoryItem>)
    requires t0 <= t1 <= t2 && t1[|t0|..] <= first
    requires forall e | e in t2[|t1|..] :: ItemEventOf(items, e)
    ensures forall e | e in t2[|t0|..] :: e in first || ItemEventOf(items, e)
  {
    assert t2[|t0|..] == t1[|t0|..] + t2[|t1|..];
  }

  // ---------------------------------------------------------------- commit(List<Integer>)

  /** `commit` goes past its early checks: the list is not empty, the mode and credentials are
      accepted, and the work folders could be created. */
  predicate Proceeds<W>(b: Backend<W>, ids: seq<int>, st: State<W>) {
    && ids != [] && ModeCheck(b.mode, b.username, b.password, b.supportAnonymus).None?
    && !b.lockFails(st.world) && !b.mkdirFails(st.world)
  }

  /** The state once the work folders of the next run exist. */
  function Opened<W>(st: State<W>): State<W> {
    st.(temp := st.temp + Folders(st.nextTemp), nextTemp := st.nextTemp + 1)
  }

  /** The outer `commitInternal` once the work folders exist: the inner run in them, with the
      folders deleted afterwards. */
  lemma CommitWithFoldersUnfold<W, P>(b: Backend<W>, d: DiffLib<P>, ids: seq<int>, st: State<W>)
    requires !b.lockFails(st.world) && !b.mkdirFails(st.world)
    ensures var inner := CommitItems(b, d, ids, st.nextTemp, Opened(st));
      CommitWithFolders(b, d, ids, st) == Outcome(inner.result, inner.state.(temp := inner.state.temp - Folders(st.nextTemp)))
  {
  }

  /** How `commit` relates to the inner `commitInternal`: past the early checks it is the inner
      run with the work folders deleted afterwards; otherwise it neither invokes a hook nor
      touches the store, and a non-empty list throws. */
  lemma CommitUnfold<W, P>(b: Backend<W>, d: DiffLib<P>, ids: seq<int>, st: State<W>)
    ensures Proceeds(b, ids, st) ==>
      var inner := CommitItems(b, d, ids, st.nextTemp, Opened(st));
      Commit(b, d, ids, st) == Outcome(inner.result, inner.state.(temp := inner.state.temp - Folders(st.nextTemp)))
    ensures !Proceeds(b, ids, st) ==>
      var o := Commit(b, d, ids, st);
      && o.state.history == st.history && o.state.reloads == st.reloads && o.state.trace == st.trace
      && o.state.nextId == st.nextId && (ids != [] ==> o.result.Throw?)
  {
  }

  /** An empty id list gives the single ERROR result; a rejected mode or missing credentials
      throw with rollback; in both cases nothing is created, invoked or stored. */
  lemma CommitRejectsEarly<W, P>(b: Backend<W>, d: DiffLib<P>, ids: seq<int>, st: State<W>)
    ensures ids == [] ==> Commit(b, d, ids, st) == Outcome(Ok([Error]), st)
    ensures ids != [] && ModeCheck(b.mode, b.username, b.password, b.supportAnonymus).Some? ==>
      var o := Commit(b, d, ids, st);
      o.state == st && o.result.Throw? && o.result.error.Checked? && o.result.error.exception.rollback
  {
  }

  /** Records read from a store whose keys are their ids, partly marked committed, keep that
      store valid. */
  lemma MarkPrefixValid(history: map<int, HistoryItem>, nextId: int, items: seq<HistoryItem>, j: nat)
    requires forall k | k in history :: history[k].id == k && k < nextId
    requires FromStore(history, items) && j <= |items|
    ensures var h := MarkAll(history, items[..j]);
      h.Keys == history.Keys && forall k | k in h :: h[k].id == k && k < nextId
  {
    assert FromStore(history, items[..j]) by {
      forall i | 0 <= i < j ensures items[..j][i].id in history && history[items[..j][i].id] == items[..j][i] {
        assert items[..j][i] == items[i];
      }
    }
    MarkAllSpec(history, items[..j]);
  }

  /** The inner `commitInternal` keeps the id counter and the temporary entries, keeps the store's
      ids and files each record under its own id, and only adds to the trace. */
  lemma CommitItemsKeepsStore<W, P>(b: Backend<W>, d: DiffLib<P>, ids: seq<int>, run: nat, st: State<W>)
    requires forall k | k in st.history :: st.history[k].id == k && k < st.nextId
    ensures var o := CommitItems(b, d, ids, run, st);
      && o.state.nextId == st.nextId && o.state.temp == st.temp && o.state.nextTemp == st.nextTemp
      && o.state.history.Keys == st.history.Keys
      && (forall k | k in o.state.history :: o.state.history[k].id == k && k < o.state.nextId)
      && st.trace <= o.state.trace
  {
    CommitItemsStore(b, d, ids, run, st);
    var items := LoadItems(ids, st.history);
    LoadItemsSpec(ids, st.history);
    var j :| 0 <= j <= |items| && CommitItems(b, d, ids, run, st).state.history == MarkAll(st.history, items[..j]);
    MarkPrefixValid(st.history, st.nextId, items, j);
  }

  /** However `commit` ends, the temporary entries are as they were (a folder pair created
      for the run is deleted again), the store keeps its ids and stays valid, and the trace
      only grows. */
  lemma CommitRestoresTemp<W, P>(b: Backend<W>, d: DiffLib<P>, ids: seq<int>, st: State<W>)
    requires Valid(st)
    ensures var o := Commit(b, d, ids, st);
      && o.state.temp == st.temp && Valid(o.state)
      && o.state.nextId == st.nextId && o.state.history.Keys == st.history.Keys
      && st.trace <= o.state.trace
  {
    var n := st.nextTemp;
    var o := Commit(b, d, ids, st);
    assert LockFile(n) !in st.temp && WorkFolder(n) !in st.temp;
    CommitUnfold(b, d, ids, st);
    if Proceeds(b, ids, st) {
      var st1 := Opened(st);
      CommitItemsKeepsStore(b, d, ids, n, st1);
      var inner := CommitItems(b, d, ids, n, st1);
      assert o.state == inner.state.(temp := inner.state.temp - Folders(n));
      assert o.state.temp == st.temp;
    }
  }

  /** Marking the items loaded for `ids` sets exactly the stored records of the ids to committed. */
  lemma MarkLoaded(ids: seq<int>, history: map<int, HistoryItem>)
    requires forall k | k in history :: history[k].id == k
    ensures var h := MarkAll(history, LoadItems(ids, history));
      && h.Keys == history.Keys
      && forall k | k in history :: h[k] == if k in ids then history[k].(committed := true) else history[k]
  {
    LoadItemsSpec(ids, history);
    MarkAllSpec(history, LoadItems(ids, history));
  }

  /** Marking a prefix of items read from the store sets exactly their records to committed. */
  lemma MarkPrefix(history: map<int, HistoryItem>, items: seq<HistoryItem>, j: nat)
    requires FromStore(history, items) && j <= |items|
    ensures var h := MarkAll(history, items[..j]);
      && h.Keys == history.Keys
      && forall k | k in history :: h[k] == if Touched(items[..j], k) then history[k].(committed := true) else history[k]
  {
    assert FromStore(history, items[..j]) by {
      forall i | 0 <= i < j ensures items[..j][i].id in history && history[items[..j][i].id] == items[..j][i] {
        assert items[..j][i] == items[i];
      }
    }
    MarkAllSpec(history, items[..j]);
  }

  /** The inner `commitInternal` when it returns normally: one result per loaded item, exactly
      the stored records of the ids marked committed, and a reload exactly when some item was
      committed. */
  lemma CommitItemsOk<W, P>(b: Backend<W>, d: DiffLib<P>, ids: seq<int>, run: nat, st: State<W>)
    requires forall k | k in st.history :: st.history[k].id == k
    ensures var o := CommitItems(b, d, ids, run, st);
      o.result.Ok? ==>
        && ResultsFor(LoadItems(ids, st.history), o.result.value)
        && o.state.history.Keys == st.history.Keys
        && (forall k | k in st.history ::
              o.state.history[k] == if k in ids then st.history[k].(committed := true) else st.history[k])
        && o.state.reloads == st.reloads + (if AnySuccess(o.result.value) then 1 else 0)
  {
    CommitItemsStore(b, d, ids, run, st);
    CommitItemsReturns(b, d, ids, run, st);
    MarkLoaded(ids, st.history);
  }

  /** When `commit` returns normally for a non-empty id list: one result per record the store
      holds for the ids, each the one `ResultFor` names; exactly those records are now marked
      committed and nothing else in the store changed; and one reload is requested exactly
      when some item was committed. */
  lemma CommitReturns<W, P>(b: Backend<W>, d: DiffLib<P>, ids: seq<int>, st: State<W>)
    requires Valid(st) && ids != []
    ensures var o := Commit(b, d, ids, st);
      o.result.Ok? ==>
        && ResultsFor(LoadItems(ids, st.history), o.result.value)
        && o.state.history.Keys == st.history.Keys
        && (forall k | k in st.history ::
              o.state.history[k] == if k in ids then st.history[k].(committed := true) else st.history[k])
        && o.state.reloads == st.reloads + (if AnySuccess(o.result.value) then 1 else 0)
  {
    var n := st.nextTemp;
    var o := Commit(b, d, ids, st);
    CommitUnfold(b, d, ids, st);
    if Proceeds(b, ids, st) {
      var st1 := Opened(st);
      CommitItemsOk(b, d, ids, n, st1);
      var inner := CommitItems(b, d, ids, n, st1);
      assert o.result == inner.result && o.state.history == inner.state.history && o.state.reloads == inner.state.reloads;
    }
  }

  /** `h` is `history` with exactly the stored records of the first `j` items marked committed. */
  predicate MarkedPrefix(history: map<int, HistoryItem>, h: map<int, HistoryItem>, items: seq<HistoryItem>, j: int) {
    && 0 <= j <= |items| && h.Keys == history.Keys
    && forall k | k in history ::
         h[k] == if Touched(items[..j], k) then history[k].(committed := true) else history[k]
  }

  /** The state the loop of the inner `commitInternal` starts from, when the set-up hooks and
      the loading of the items succeed. */
  function LoopStart<W>(b: Backend<W>, ids: seq<int>, run: nat, st: State<W>): Option<State<W>> {
    var s := SetUp(b, run, st);
    if s.Continue? && RetrieveItems(b, ids, s.state).Ok? then Some(s.state) else None
  }

  /** The inner `commitInternal` when it throws: no reload. When it failed before the loop the
      store is unchanged; otherwise the loop failed at some item, and exactly the stored records
      of the items loaded before that one are marked committed. */
  lemma CommitItemsThrow<W, P>(b: Backend<W>, d: DiffLib<P>, ids: seq<int>, run: nat, st: State<W>)
    requires forall k | k in st.history :: st.history[k].id == k
    ensures var o := CommitItems(b, d, ids, run, st);
      var items := LoadItems(ids, st.history);
      o.result.Throw? ==>
        && o.state.reloads == st.reloads
        && o.state.history.Keys == st.history.Keys
        && match LoopStart(b, ids, run, st)
           case None => o.state.history == st.history
           case Some(s) => exists j :: FailsAt(b, d, items, s, j) && MarkedPrefix(st.history, o.state.history, items, j)
  {
    var items := LoadItems(ids, st.history);
    var o := CommitItems(b, d, ids, run, st);
    LoadItemsSpec(ids, st.history);
    CommitItemsStore(b, d, ids, run, st);
    var s := SetUp(b, run, st);
    SetUpShape(b, run, st);
    if o.result.Throw? && s.Continue? && RetrieveItems(b, ids, s.state).Ok? {
      RunItemsStore(b, d, items, s.state);
      var j :| FailsAt(b, d, items, s.state, j) && !items[j].committed
               && o.state.history == MarkAll(s.state.history, items[..j]);
      MarkPrefix(st.history, items, j);
      assert MarkedPrefix(st.history, o.state.history, items, j);
    }
  }

  /** Where the loop of `commit` starts, when the early checks pass and the work folders exist. */
  function BatchStart<W>(b: Backend<W>, ids: seq<int>, st: State<W>): Option<State<W>> {
    if Proceeds(b, ids, st) then LoopStart(b, ids, st.nextTemp, Opened(st)) else None
  }

  /** When `commit` throws, no reload is requested. A failure before the loop leaves the store
      unchanged; a failure in the loop at some item leaves exactly the items loaded before it
      marked committed, so the earlier commits of the batch are not undone. */
  lemma CommitThrows<W, P>(b: Backend<W>, d: DiffLib<P>, ids: seq<int>, st: State<W>)
    requires Valid(st)
    ensures var o := Commit(b, d, ids, st);
      var items := LoadItems(ids, st.history);
      o.result.Throw? ==>
        && o.state.reloads == st.reloads
        && o.state.history.Keys == st.history.Keys
        && match BatchStart(b, ids, st)
           case None => o.state.history == st.history
           case Some(s) => exists j :: FailsAt(b, d, items, s, j) && MarkedPrefix(st.history, o.state.history, items, j)
  {
    var n := st.nextTemp;
    var o := Commit(b, d, ids, st);
    CommitUnfold(b, d, ids, st);
    if Proceeds(b, ids, st) {
      var st1 := Opened(st);
      CommitItemsThrow(b, d, ids, n, st1);
      var inner := CommitItems(b, d, ids, n, st1);
      assert o.result == inner.result && o.state.history == inner.state.history && o.state.reloads == inner.state.reloads;
    }
  }

  /** The hooks of runs for two different items are different calls. */
  lemma ItemOrderOwner(a: int, c: int, e: Event)
    requires e in ItemOrder(a) && e in ItemOrder(c)
    ensures a == c
  {
  }

  /** `e` is a hook of a requested record that was not yet committed. */
  predicate RequestedEvent(ids: seq<int>, history: map<int, HistoryItem>, e: Event) {
    exists k | k in ids && k in history :: !history[k].committed && e in ItemOrder(k)
  }

  /** Every hook the inner `commitInternal` invokes is a set-up hook or a hook of a requested
      record that was not yet committed. */
  lemma CommitItemsSkips<W, P>(b: Backend<W>, d: DiffLib<P>, ids: seq<int>, run: nat, st: State<W>)
    requires forall k | k in st.history :: st.history[k].id == k
    ensures var o := CommitItems(b, d, ids, run, st);
      && st.trace <= o.state.trace
      && forall e | e in NewEvents(st, o.state) :: e in SetUpOrder() || RequestedEvent(ids, st.history, e)
  {
    CommitItemsEvents(b, d, ids, run, st);
    var o := CommitItems(b, d, ids, run, st);
    var items := LoadItems(ids, st.history);
    LoadItemsSpec(ids, st.history);
    forall e | e in NewEvents(st, o.state) && e !in SetUpOrder()
      ensures RequestedEvent(ids, st.history, e)
    {
      assert ItemEventOf(items, e);
      var j :| 0 <= j < |items| && !items[j].committed && e in ItemOrder(items[j].id);
      var k := items[j].id;
      assert k in ids && k in st.history && !st.history[k].committed && e in ItemOrder(k);
    }
  }

  /** Every hook `commit` invokes is a set-up hook or a hook of a requested item that was not
      yet committed: no item hook runs for a record that is already committed. */
  lemma CommitSkipsCommitted<W, P>(b: Backend<W>, d: DiffLib<P>, ids: seq<int>, st: State<W>)
    requires Valid(st)
    ensures var o := Commit(b, d, ids, st);
      && st.trace <= o.state.trace
      && (forall e | e in NewEvents(st, o.state) :: e in SetUpOrder() || RequestedEvent(ids, st.history, e))
  {
    var n := st.nextTemp;
    var o := Commit(b, d, ids, st);
    CommitUnfold(b, d, ids, st);
    if Proceeds(b, ids, st) {
      var st1 := Opened(st);
      CommitItemsSkips(b, d, ids, n, st1);
      var inner := CommitItems(b, d, ids, n, st1);
      assert o.state.trace == inner.state.trace;
      assert NewEvents(st, o.state) == NewEvents(st1, inner.state);
    } else {
      assert NewEvents(st, o.state) == [];
    }
  }

  /** A hook of an item that is already committed is never invoked. */
  lemma CommittedItemsUntouched<W, P>(b: Backend<W>, d: DiffLib<P>, ids: seq<int>, st: State<W>, k: int, e: Event)
    requires Valid(st) && k in st.history && st.history[k].committed && e in ItemOrder(k)
    ensures var o := Commit(b, d, ids, st); st.trace <= o.state.trace && e !in NewEvents(st, o.state)
  {
    CommitSkipsCommitted(b, d, ids, st);
    if e in NewEvents(st, Commit(b, d, ids, st).state) {
      assert e !in SetUpOrder();
      assert RequestedEvent(ids, st.history, e);
      var k2 :| k2 in ids && k2 in st.history && !st.history[k2].committed && e in ItemOrder(k2);
      ItemOrderOwner(k, k2, e);
    }
  }

  /** The records the store holds for `ids`, all committed, load as committed items. */
  lemma LoadedCommitted(ids: seq<int>, history: map<int, HistoryItem>)
    requires forall k | k in history :: history[k].id == k
    requires forall k | k in ids && k in history :: history[k].committed
    ensures forall j | 0 <= j < |LoadItems(ids, history)| :: LoadItems(ids, history)[j].committed
  {
    var items := LoadItems(ids, history);
    LoadItemsSpec(ids, history);
    forall j | 0 <= j < |items| ensures items[j].committed {
      assert items[j].id in ids && history[items[j].id] == items[j];
    }
  }

  /** The inner `commitInternal` over items that are all committed already leaves the store and
      the reloads alone, invokes at most the set-up hooks, and reports each item as already
      committed. */
  lemma CommitItemsAllCommitted<W, P>(b: Backend<W>, d: DiffLib<P>, ids: seq<int>, run: nat, st: State<W>)
    requires forall j | 0 <= j < |LoadItems(ids, st.history)| :: LoadItems(ids, st.history)[j].committed
    ensures var o := CommitItems(b, d, ids, run, st);
      && o.state.history == st.history && o.state.reloads == st.reloads
      && st.trace <= o.state.trace && NewEvents(st, o.state) <= SetUpOrder()
      && (o.result.Ok? ==> forall r | r in o.result.value :: r == AlreadyCommitted)
  {
    var s := SetUp(b, run, st);
    SetUpShape(b, run, st);
    if s.Continue? && RetrieveItems(b, ids, s.state).Ok? {
      var items := LoadItems(ids, st.history);
      RunItemsAllCommitted(b, d, items, s.state);
      var r := RunItems(b, d, items, s.state);
      assert !AnySuccess(r.result.value);
    }
  }

  /** A batch whose requested records are all committed already commits nothing: no item hook
      runs, the store and the reloads are unchanged, and each result says the item was already
      committed. */
  lemma CommitAllCommitted<W, P>(b: Backend<W>, d: DiffLib<P>, ids: seq<int>, st: State<W>)
    requires Valid(st)
    requires forall k | k in ids && k in st.history :: st.history[k].committed
    ensures var o := Commit(b, d, ids, st);
      && o.state.history == st.history && o.state.reloads == st.reloads
      && st.trace <= o.state.trace && (forall e | e in NewEvents(st, o.state) :: e in SetUpOrder())
      && (ids != [] && o.result.Ok? ==> forall r | r in o.result.value :: r == AlreadyCommitted)
  {
    var n := st.nextTemp;
    var o := Commit(b, d, ids, st);
    CommitUnfold(b, d, ids, st);
    if Proceeds(b, ids, st) {
      var st1 := Opened(st);
      LoadedCommitted(ids, st.history);
      CommitItemsAllCommitted(b, d, ids, n, st1);
      var inner := CommitItems(b, d, ids, n, st1);
      assert o.result == inner.result && o.state.history == inner.state.history && o.state.reloads == inner.state.reloads;
      assert NewEvents(st, o.state) == NewEvents(st1, inner.state);
    } else {
      assert NewEvents(st, o.state) == [];
    }
  }

  /** Approving the same ids again after `commit` returned normally commits nothing more, whatever
      the configuration, the hooks and the environment are the second time: no item hook runs, the
      store and the reloads stay as they are, and every result says the item was already committed. */
  lemma CommitAgain<W, P>(b: Backend<W>, d: DiffLib<P>, ids: seq<int>, st: State<W>, b2: Backend<W>, d2: DiffLib<P>, w: W)
    requires Valid(st) && ids != [] && Commit(b, d, ids, st).result.Ok?
    ensures var st1 := Commit(b, d, ids, st).state.(world := w);
      var o := Commit(b2, d2, ids, st1);
      && o.state.history == st1.history && o.state.reloads == st1.reloads
      && st1.trace <= o.state.trace && (forall e | e in NewEvents(st1, o.state) :: e in SetUpOrder())
      && (o.result.Ok? ==> forall r | r in o.result.value :: r == AlreadyCommitted)
  {
    var st1 := Commit(b, d, ids, st).state.(world := w);
    CommitRestoresTemp(b, d, ids, st);
    CommitReturns(b, d, ids, st);
    assert Valid(st1);
    CommitAllCommitted(b2, d2, ids, st1);
  }
}
