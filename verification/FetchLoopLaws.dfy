/** What every batch keeps: the counts, the abort rule, the meaning of a resumed run, and the stored histories. */
module FetchLoopLaws {
  import opened Wrappers
  import opened BarHistory
  import opened IncrementalRefresh
  import opened RefreshExactness
  import opened RefreshRuns
  import opened FetchLoop

  // ---- counting and the abort rule ----

  function Count(log: seq<Entry>, kind: Kind): nat {
    if log == [] then 0 else Count(log[..|log| - 1], kind) + if log[|log| - 1].kind == kind then 1 else 0
  }

  function FailedSymbols(log: seq<Entry>): seq<int> {
    if log == [] then [] else
      FailedSymbols(log[..|log| - 1]) + if log[|log| - 1].kind == Failure then [log[|log| - 1].symbol] else []
  }

  predicate Attempted(e: Entry) {
    e.kind != Current && e.kind != Resumed
  }

  /** The entries of symbols the loop tried to fetch. */
  function Attempts(log: seq<Entry>): seq<Entry> {
    if log == [] then [] else
      Attempts(log[..|log| - 1]) + if Attempted(log[|log| - 1]) then [log[|log| - 1]] else []
  }

  /** How many attempts in a row have failed last. */
  function Trailing(log: seq<Entry>): nat {
    if log == [] then 0
    else if !Attempted(log[|log| - 1]) then Trailing(log[..|log| - 1])
    else if log[|log| - 1].kind == Failure then Trailing(log[..|log| - 1]) + 1
    else 0
  }

  ghost predicate LastAllFailed(attempts: seq<Entry>, n: nat) {
    n <= |attempts| && forall i | |attempts| - n <= i < |attempts| :: attempts[i].kind == Failure
  }

  lemma {:induction false} TrailingMeans(log: seq<Entry>, n: nat)
    ensures n <= Trailing(log) <==> LastAllFailed(Attempts(log), n)
    decreases |log|
  {
    if log != [] {
      var init, last := log[..|log| - 1], log[|log| - 1];
      TrailingMeans(init, n);
      if last.kind == Failure && n > 0 {
        TrailingMeans(init, n - 1);
        OneMoreFailure(Attempts(init), last, n);
      } else if Attempted(last) {
        assert Attempts(log)[|Attempts(log)| - 1] == last;
      } else {
        assert Attempts(log) == Attempts(init);
      }
    }
  }

  lemma OneMoreFailure(attempts: seq<Entry>, last: Entry, n: nat)
    requires last.kind == Failure && n > 0
    ensures LastAllFailed(attempts + [last], n) <==> LastAllFailed(attempts, n - 1)
  {
    var all := attempts + [last];
    if LastAllFailed(all, n) {
      assert forall i | |attempts| - (n - 1) <= i < |attempts| :: all[i] == attempts[i];
    }
  }

  ghost predicate Consistent(s: BatchState, st: Settings) {
    && s.success == Count(s.log, Updated)
    && s.skipped == Count(s.log, Current) + Count(s.log, Resumed) + Count(s.log, Unchanged)
    && s.failures == FailedSymbols(s.log)
    && s.consecutive == Trailing(s.log)
    && (s.aborted <==> st.maxConsecutive > 0 && Trailing(s.log) >= st.maxConsecutive)
    && FilesReadable(s.files)
  }

  lemma {:induction false} Appended(log: seq<Entry>, e: Entry)
    ensures forall k: Kind :: Count(log + [e], k) == Count(log, k) + if e.kind == k then 1 else 0
    ensures FailedSymbols(log + [e]) == FailedSymbols(log) + if e.kind == Failure then [e.symbol] else []
    ensures Trailing(log + [e]) ==
            if !Attempted(e) then Trailing(log) else if e.kind == Failure then Trailing(log) + 1 else 0
  {
    assert (log + [e])[..|log|] == log;
  }

  /** Every processed symbol adds exactly one row, and nothing the loop counts drifts from the log. */
  lemma StepIsConsistent(s: BatchState, item: Item, st: Settings, checkpoint: map<int, Kind>)
    requires Consistent(s, st) && !s.aborted
    ensures Consistent(StepState(s, item, st, checkpoint), st)
    ensures exists kind: Kind :: StepState(s, item, st, checkpoint).log == s.log + [Entry(item.symbol, kind)]
  {
    var after := StepState(s, item, st, checkpoint);
    StepKeepsReadable(s, item, st, checkpoint);
    StepLogs(s, item, st, checkpoint);
    Appended(s.log, after.log[|s.log|]);
  }

  lemma StepLogs(s: BatchState, item: Item, st: Settings, checkpoint: map<int, Kind>)
    requires FilesReadable(s.files)
    ensures var log := StepState(s, item, st, checkpoint).log;
      |log| == |s.log| + 1 && log == s.log + [log[|s.log|]] && log[|s.log|].symbol == item.symbol
      && log == s.log + [Entry(item.symbol, log[|s.log|].kind)]
  {
  }

  /** The log of a run names a prefix of the items, one row each, all of them unless the run aborts. */
  ghost predicate LogsPrefix(before: seq<Entry>, log: seq<Entry>, items: seq<Item>, complete: bool) {
    && |before| <= |log| <= |before| + |items| && log[..|before|] == before
    && (forall i | 0 <= i < |log| - |before| :: log[|before| + i].symbol == items[i].symbol)
    && (complete ==> |log| == |before| + |items|)
  }

  lemma {:induction false} RunIsConsistent(s: BatchState, items: seq<Item>, st: Settings, checkpoint: map<int, Kind>)
    requires Consistent(s, st)
    ensures Consistent(RunItems(s, items, st, checkpoint), st)
    ensures LogsPrefix(s.log, RunItems(s, items, st, checkpoint).log, items,
                       !RunItems(s, items, st, checkpoint).aborted)
    decreases |items|
  {
    if items != [] && !s.aborted {
      var next := StepState(s, items[0], st, checkpoint);
      StepIsConsistent(s, items[0], st, checkpoint);
      StepLogs(s, items[0], st, checkpoint);
      RunIsConsistent(next, items[1..], st, checkpoint);
      PrefixExtends(s.log, next.log, RunItems(next, items[1..], st, checkpoint).log, items,
                    !RunItems(next, items[1..], st, checkpoint).aborted);
    }
  }

  lemma PrefixExtends(before: seq<Entry>, next: seq<Entry>, log: seq<Entry>, items: seq<Item>, complete: bool)
    requires items != [] && |next| == |before| + 1 && next[..|before|] == before
    requires next[|before|].symbol == items[0].symbol
    requires LogsPrefix(next, log, items[1..], complete)
    ensures LogsPrefix(before, log, items, complete)
  {
    assert log[..|before|] == next[..|before|];
    assert log[|before|] == log[..|next|][|before|];
    forall i | 0 <= i < |log| - |before| ensures log[|before| + i].symbol == items[i].symbol {
      if i > 0 {
        assert log[|next| + (i - 1)].symbol == items[1..][i - 1].symbol;
      }
    }
  }

  /** So many failures in a row that the loop has to stop. */
  ghost predicate MustStop(log: seq<Entry>, maxConsecutive: int) {
    maxConsecutive > 0 && LastAllFailed(Attempts(log), maxConsecutive)
  }

  lemma AbortedIff(s: BatchState, st: Settings)
    requires Consistent(s, st)
    ensures s.aborted <==> MustStop(s.log, st.maxConsecutive)
  {
    if st.maxConsecutive > 0 {
      TrailingMeans(s.log, st.maxConsecutive);
    }
  }

  /** From its first rows on, the log went on only where it did not have to stop. */
  ghost predicate GoesOnWithin(first: nat, log: seq<Entry>, maxConsecutive: int) {
    first <= |log| && forall k | first <= k < |log| :: !MustStop(log[..k], maxConsecutive)
  }

  lemma GoesOnBefore(before: seq<Entry>, log: seq<Entry>, maxConsecutive: int)
    requires |before| < |log| && log[..|before|] == before && !MustStop(before, maxConsecutive)
    requires GoesOnWithin(|before| + 1, log, maxConsecutive)
    ensures GoesOnWithin(|before|, log, maxConsecutive)
  {
  }

  /** The loop never goes on after it has to stop. */
  lemma {:induction false} RunStopsInTime(s: BatchState, items: seq<Item>, st: Settings, checkpoint: map<int, Kind>)
    requires Consistent(s, st)
    ensures GoesOnWithin(|s.log|, RunItems(s, items, st, checkpoint).log, st.maxConsecutive)
    decreases |items|
  {
    if items != [] && !s.aborted {
      var next := StepState(s, items[0], st, checkpoint);
      StepIsConsistent(s, items[0], st, checkpoint);
      StepLogs(s, items[0], st, checkpoint);
      RunStopsInTime(next, items[1..], st, checkpoint);
      RunIsConsistent(next, items[1..], st, checkpoint);
      AbortedIff(s, st);
      var log := RunItems(next, items[1..], st, checkpoint).log;
      assert log[..|s.log|] == log[..|next.log|][..|s.log|] == s.log;
      GoesOnBefore(s.log, log, st.maxConsecutive);
    }
  }

  lemma {:induction false} CountsCover(log: seq<Entry>)
    ensures Count(log, Updated) + Count(log, Current) + Count(log, Resumed) + Count(log, Unchanged)
            + |FailedSymbols(log)| == |log|
  {
    if log != [] {
      CountsCover(log[..|log| - 1]);
    }
  }

  /** Every batch: the counts add up to the processed symbols, it stops at the first moment the last N attempts have all
      failed and aborts exactly then, and no session is left open. */
  lemma EveryBatch(earlier: seq<Entry>, files: map<int, seq<Bar>>, items: seq<Item>, st: Settings)
    requires FilesReadable(files)
    ensures var s := Batch(earlier, files, items, st);
      && s.success + s.skipped + |s.failures| == |s.log|
      && LogsPrefix([], s.log, items, !s.aborted)
      && s.failures == FailedSymbols(s.log)
      && (s.aborted <==> MustStop(s.log, st.maxConsecutive))
      && (forall k | 0 <= k < |s.log| :: !MustStop(s.log[..k], st.maxConsecutive))
      && !s.active
      && (ExitCode(s) == 0 <==> Count(s.log, Failure) == 0)
  {
    var checkpoint := if st.resume then LatestKinds(earlier) else map[];
    assert Consistent(Fresh(files), st);
    RunIsConsistent(Fresh(files), items, st, checkpoint);
    var s := Batch(earlier, files, items, st);
    CountsCover(s.log);
    FailuresCounted(s.log);
    RunStopsInTime(Fresh(files), items, st, checkpoint);
    AbortedIff(RunItems(Fresh(files), items, st, checkpoint), st);
    if s.aborted {
      TrailingMeans(s.log, st.maxConsecutive);
      AbortHasFailure(s.log, st.maxConsecutive);
    }
  }

  lemma {:induction false} FailuresCounted(log: seq<Entry>)
    ensures |FailedSymbols(log)| == Count(log, Failure)
  {
    if log != [] {
      FailuresCounted(log[..|log| - 1]);
    }
  }

  lemma {:induction false} AbortHasFailure(log: seq<Entry>, n: int)
    requires 0 < n <= Trailing(log)
    ensures Count(log, Failure) > 0
  {
    var init, last := log[..|log| - 1], log[|log| - 1];
    if last.kind != Failure {
      AbortHasFailure(init, n);
    }
  }

  // ---- checkpoint resume ----

  /** A checkpoint can only add a skip to a forced run: otherwise the stored file alone already skips. */
  lemma CheckpointSkipNeedsForce(row: Option<Kind>, existing: Option<seq<Bar>>, st: Settings)
    requires existing.Some? ==> existing.value != []
    requires CheckpointSkips(row, existing, st) && !ShouldSkip(existing, st.cfg, st.end)
    ensures st.cfg.force
  {
  }

  /** A forced run that skips a symbol by its checkpoint row replaces that row, so the next forced run fetches it. */
  lemma {:induction false} ForcedSkipIsForgotten(earlier: seq<Entry>, s: BatchState, item: Item, st: Settings)
    requires FilesReadable(s.files) && st.resume
    requires !ShouldSkip(FileOf(s.files, item.symbol), st.cfg, st.end)
    requires CheckpointSkips(CheckpointRow(LatestKinds(earlier), item.symbol), FileOf(s.files, item.symbol), st)
    ensures var after := StepState(s, item, st, LatestKinds(earlier));
      && after.files == s.files
      && CheckpointRow(LatestKinds(after.log), item.symbol) == Some(Resumed)
      && !SkipsBeforehand(after, item, st, LatestKinds(after.log))
  {
    var after := StepState(s, item, st, LatestKinds(earlier));
    CheckpointSkipNeedsForce(CheckpointRow(LatestKinds(earlier), item.symbol), FileOf(s.files, item.symbol), st);
    assert after.log == s.log + [Entry(item.symbol, Resumed)];
    assert after.log[..|s.log|] == s.log;
  }

  // ---- resuming a full download ----

  /** A full, unforced download that keeps whatever is already stored. */
  ghost predicate PlainFull(st: Settings) {
    !st.cfg.incremental && !st.cfg.force && st.cfg.minExistingEnd.None?
  }

  lemma PlainStep(s: BatchState, item: Item, st: Settings, checkpoint: map<int, Kind>)
    requires FilesReadable(s.files) && PlainFull(st)
    ensures var after := StepState(s, item, st, checkpoint);
      var kind := after.log[|s.log|].kind;
      && (kind == Current <==> item.symbol in s.files)
      && (item.symbol in after.files <==> kind == Current || kind == Updated)
      && (forall t | t != item.symbol :: t in after.files <==> t in s.files)
  {
    var existing := FileOf(s.files, item.symbol);
    AbsorbedFile(existing, item.provider.bars, st.start, st.end, st.cfg);
    FetchOfMissing(existing, item.provider, st);
  }

  lemma FetchOfMissing(existing: Option<seq<Bar>>, provider: Provider, st: Settings)
    requires PlainFull(st) && Readable(existing)
    ensures existing.None? ==>
      var (r, file) := Fetch(existing, provider, st.start, st.end, st.cfg);
      (r.Ok? ==> r.value.Fetched? && file.Some?) && (r.Err? ==> file.None?)
  {
  }

  ghost predicate SymbolsDiffer(items: seq<Item>) {
    forall i, j | 0 <= i < j < |items| :: items[i].symbol != items[j].symbol
  }

  ghost predicate Names(items: seq<Item>, symbol: int) {
    exists i :: 0 <= i < |items| && items[i].symbol == symbol
  }

  /** A row says whether its symbol was stored before, and whether it is stored now. */
  ghost predicate RowExplains(e: Entry, before: map<int, seq<Bar>>, after: map<int, seq<Bar>>) {
    && (e.kind == Current <==> e.symbol in before)
    && (e.symbol in after <==> e.kind == Current || e.kind == Updated)
  }

  /** Every row of a plain full run explains its symbol; symbols without a row keep what they had. */
  ghost predicate RowsExplain(rows: seq<Entry>, before: map<int, seq<Bar>>, after: map<int, seq<Bar>>) {
    && (forall e | e in rows :: RowExplains(e, before, after))
    && (forall t | (forall e | e in rows :: e.symbol != t) :: t in after <==> t in before)
  }

  ghost function NewRows(s: BatchState, items: seq<Item>, st: Settings, checkpoint: map<int, Kind>): seq<Entry>
    requires FilesReadable(s.files)
    decreases |items|
  {
    if items == [] || s.aborted then [] else
      StepKeepsReadable(s, items[0], st, checkpoint);
      var next := StepState(s, items[0], st, checkpoint);
      StepLogs(s, items[0], st, checkpoint);
      [next.log[|s.log|]] + NewRows(next, items[1..], st, checkpoint)
  }

  lemma {:induction false} NewRowsAreLogged(s: BatchState, items: seq<Item>, st: Settings, checkpoint: map<int, Kind>)
    requires FilesReadable(s.files)
    ensures RunItems(s, items, st, checkpoint).log == s.log + NewRows(s, items, st, checkpoint)
    decreases |items|
  {
    if items != [] && !s.aborted {
      var next := StepState(s, items[0], st, checkpoint);
      StepKeepsReadable(s, items[0], st, checkpoint);
      StepLogs(s, items[0], st, checkpoint);
      NewRowsAreLogged(next, items[1..], st, checkpoint);
      Regroup(s.log, next.log[|s.log|], NewRows(next, items[1..], st, checkpoint));
    }
  }

  lemma Regroup(log: seq<Entry>, e: Entry, rows: seq<Entry>)
    ensures (log + [e]) + rows == log + ([e] + rows)
  {
  }

  lemma {:induction false} NewRowsAreNamed(s: BatchState, items: seq<Item>, st: Settings, checkpoint: map<int, Kind>)
    requires FilesReadable(s.files)
    ensures forall e | e in NewRows(s, items, st, checkpoint) :: Names(items, e.symbol)
    decreases |items|
  {
    if items != [] && !s.aborted {
      var next := StepState(s, items[0], st, checkpoint);
      StepKeepsReadable(s, items[0], st, checkpoint);
      StepLogs(s, items[0], st, checkpoint);
      NewRowsAreNamed(next, items[1..], st, checkpoint);
      NamesExtend(items, next.log[|s.log|], NewRows(next, items[1..], st, checkpoint));
    }
  }

  lemma NamesExtend(items: seq<Item>, e: Entry, rows: seq<Entry>)
    requires items != [] && items[0].symbol == e.symbol
    requires forall f | f in rows :: Names(items[1..], f.symbol)
    ensures forall f | f in [e] + rows :: Names(items, f.symbol)
  {
    forall f | f in [e] + rows ensures Names(items, f.symbol) {
      if f in rows {
        var i :| 0 <= i < |items[1..]| && items[1..][i].symbol == f.symbol;
        assert items[i + 1].symbol == f.symbol;
      }
    }
  }

  /** One more row at the front of a run that explains itself. */
  lemma ExplainOneMore(e: Entry, rows: seq<Entry>, before: map<int, seq<Bar>>, next: map<int, seq<Bar>>,
                       after: map<int, seq<Bar>>)
    requires RowExplains(e, before, next) && RowsExplain(rows, next, after)
    requires forall t | t != e.symbol :: t in next <==> t in before
    requires forall f | f in rows :: f.symbol != e.symbol
    ensures RowsExplain([e] + rows, before, after)
  {
    var all := [e] + rows;
    forall f | f in all ensures RowExplains(f, before, after) {
      if f in rows {
        assert RowExplains(f, next, after);
      } else {
        assert f == e;
      }
    }
    forall t | forall f | f in all :: f.symbol != t ensures t in after <==> t in before {
      assert e in all;
      assert forall f | f in rows :: f in all;
    }
  }

  lemma {:induction false} PlainRun(s: BatchState, items: seq<Item>, st: Settings, checkpoint: map<int, Kind>)
    requires FilesReadable(s.files) && PlainFull(st) && SymbolsDiffer(items)
    ensures RowsExplain(NewRows(s, items, st, checkpoint), s.files, RunItems(s, items, st, checkpoint).files)
    decreases |items|
  {
    if items != [] && !s.aborted {
      var next := StepState(s, items[0], st, checkpoint);
      StepKeepsReadable(s, items[0], st, checkpoint);
      StepLogs(s, items[0], st, checkpoint);
      PlainStep(s, items[0], st, checkpoint);
      PlainRun(next, items[1..], st, checkpoint);
      NewRowsAreNamed(next, items[1..], st, checkpoint);
      OthersDiffer(items);
      ExplainOneMore(next.log[|s.log|], NewRows(next, items[1..], st, checkpoint), s.files, next.files,
                     RunItems(next, items[1..], st, checkpoint).files);
    }
  }

  lemma OthersDiffer(items: seq<Item>)
    requires SymbolsDiffer(items) && items != []
    ensures SymbolsDiffer(items[1..]) && !Names(items[1..], items[0].symbol)
  {
  }

  /** A repeated full download leaves alone exactly the symbols the earlier one had or stored, and retries all others it
      reaches. */
  lemma RerunRetriesWhatIsMissing(earlier: seq<Entry>, files: map<int, seq<Bar>>, first: seq<Item>, second: seq<Item>,
                                  st: Settings, e: Entry)
    requires FilesReadable(files) && PlainFull(st) && SymbolsDiffer(first) && SymbolsDiffer(second)
    requires FilesReadable(Batch(earlier, files, first, st).files)
    ensures var one := Batch(earlier, files, first, st);
      var two := Batch(earlier + one.log, one.files, second, st);
      e in two.log ==>
        (e.kind == Current <==> e.symbol in files || Entry(e.symbol, Updated) in one.log)
  {
    var cp1 := if st.resume then LatestKinds(earlier) else map[];
    PlainRun(Fresh(files), first, st, cp1);
    NewRowsAreLogged(Fresh(files), first, st, cp1);
    var one := Batch(earlier, files, first, st);
    var cp2 := if st.resume then LatestKinds(earlier + one.log) else map[];
    PlainRun(Fresh(one.files), second, st, cp2);
    NewRowsAreLogged(Fresh(one.files), second, st, cp2);
    StoredAfter(one.log, files, one.files, e.symbol);
  }

  lemma StoredAfter(rows: seq<Entry>, before: map<int, seq<Bar>>, after: map<int, seq<Bar>>, symbol: int)
    requires RowsExplain(rows, before, after)
    ensures symbol in after <==> symbol in before || Entry(symbol, Updated) in rows
  {
    if e :| e in rows && e.symbol == symbol {
      assert RowExplains(e, before, after);
      assert e == Entry(symbol, e.kind);
    }
  }

  // ---- the stored histories over whole batches ----

  /** Each symbol's provider serves a part of one growing history, and every stored file is an exact prefix of it. */
  ghost predicate FilesExact(files: map<int, seq<Bar>>, histories: map<int, map<int, RawBar>>) {
    FilesReadable(files) && forall t | t in files && t in histories :: Exact(Some(files[t]), histories[t])
  }

  ghost predicate ServedFrom(item: Item, histories: map<int, map<int, RawBar>>, now: int) {
    && item.symbol in histories && ValidBars(histories[item.symbol]) && SessionsEndAtClose(histories[item.symbol])
    && item.provider.bars == KnownAt(histories[item.symbol], now)
  }

  lemma StepKeepsFilesExact(s: BatchState, item: Item, st: Settings, checkpoint: map<int, Kind>,
                            histories: map<int, map<int, RawBar>>, now: int)
    requires FilesExact(s.files, histories) && ServedFrom(item, histories, now) && st.end == Day(now)
    ensures FilesExact(StepState(s, item, st, checkpoint).files, histories)
  {
    var file := FileOf(s.files, item.symbol);
    var attempt := Attempt(now, item.provider, st.start, st.cfg);
    StepKeepsReadable(s, item, st, checkpoint);
    AttemptKeepsExact(file, histories[item.symbol], attempt);
    StepFile(s, item, st, checkpoint);
  }

  /** A step leaves the file alone or stores what the fetch stored. */
  lemma StepFile(s: BatchState, item: Item, st: Settings, checkpoint: map<int, Kind>)
    requires FilesReadable(s.files)
    ensures var fetched := Fetch(FileOf(s.files, item.symbol), item.provider, st.start, st.end, st.cfg).1;
      var files := StepState(s, item, st, checkpoint).files;
      files == s.files || (fetched.Some? && files == s.files[item.symbol := fetched.value])
  {
    var (r, file) := Fetch(FileOf(s.files, item.symbol), item.provider, st.start, st.end, st.cfg);
    AnsweredFile(s.(active := true), item.symbol, r, file, st);
  }

  lemma AnsweredFile(s: BatchState, symbol: int, r: Result<Outcome, FetchError>, file: Option<seq<Bar>>, st: Settings)
    ensures var files := Answered(s, symbol, r, file, st).files;
      files == s.files || (file.Some? && files == s.files[symbol := file.value])
  {
  }

  lemma {:induction false} RunKeepsFilesExact(s: BatchState, items: seq<Item>, st: Settings, checkpoint: map<int, Kind>,
                                              histories: map<int, map<int, RawBar>>, now: int)
    requires FilesExact(s.files, histories) && st.end == Day(now)
    requires forall item | item in items :: ServedFrom(item, histories, now)
    ensures FilesExact(RunItems(s, items, st, checkpoint).files, histories)
    decreases |items|
  {
    if items != [] && !s.aborted {
      StepKeepsFilesExact(s, items[0], st, checkpoint, histories, now);
      RunKeepsFilesExact(StepState(s, items[0], st, checkpoint), items[1..], st, checkpoint, histories, now);
    }
  }

  datatype Session = Session(now: int, items: seq<Item>, st: Settings)

  /** Batch after batch, each reading the log of the ones before. */
  ghost function Sessions(files: map<int, seq<Bar>>, log: seq<Entry>, sessions: seq<Session>): map<int, seq<Bar>>
    requires FilesReadable(files)
    decreases |sessions|
  {
    if sessions == [] then files else
      var b := Batch(log, files, sessions[0].items, sessions[0].st);
      BatchReadable(log, files, sessions[0].items, sessions[0].st);
      Sessions(b.files, log + b.log, sessions[1..])
  }

  lemma {:induction false} RunReadable(s: BatchState, items: seq<Item>, st: Settings, checkpoint: map<int, Kind>)
    requires FilesReadable(s.files)
    ensures FilesReadable(RunItems(s, items, st, checkpoint).files)
    decreases |items|
  {
    if items != [] && !s.aborted {
      StepKeepsReadable(s, items[0], st, checkpoint);
      RunReadable(StepState(s, items[0], st, checkpoint), items[1..], st, checkpoint);
    }
  }

  lemma BatchReadable(log: seq<Entry>, files: map<int, seq<Bar>>, items: seq<Item>, st: Settings)
    requires FilesReadable(files)
    ensures FilesReadable(Batch(log, files, items, st).files)
  {
    RunReadable(Fresh(files), items, st, if st.resume then LatestKinds(log) else map[]);
  }

  // ---- no bar is invented ----

  ghost predicate FilesWithin(files: map<int, seq<Bar>>, known: iset<(int, Bar)>) {
    FilesReadable(files) && forall t | t in files :: forall b | b in files[t] :: (t, b) in known
  }

  ghost predicate ItemWithin(item: Item, known: iset<(int, Bar)>) {
    ValidBars(item.provider.bars) && forall b: Bar | Serves(item.provider, b) :: (item.symbol, b) in known
  }

  lemma StepStaysWithin(s: BatchState, item: Item, st: Settings, checkpoint: map<int, Kind>, known: iset<(int, Bar)>)
    requires FilesWithin(s.files, known) && ItemWithin(item, known)
    ensures FilesWithin(StepState(s, item, st, checkpoint).files, known)
  {
    var noon := st.end * SECONDS_PER_DAY;
    assert Day(noon) == st.end;
    StepKeepsReadable(s, item, st, checkpoint);
    AttemptStoresServed(FileOf(s.files, item.symbol), Attempt(noon, item.provider, st.start, st.cfg));
    StepFile(s, item, st, checkpoint);
  }

  lemma {:induction false} RunStaysWithin(s: BatchState, items: seq<Item>, st: Settings, checkpoint: map<int, Kind>,
                                          known: iset<(int, Bar)>)
    requires FilesWithin(s.files, known) && forall item | item in items :: ItemWithin(item, known)
    ensures FilesWithin(RunItems(s, items, st, checkpoint).files, known)
    decreases |items|
  {
    if items != [] && !s.aborted {
      StepStaysWithin(s, items[0], st, checkpoint, known);
      RunStaysWithin(StepState(s, items[0], st, checkpoint), items[1..], st, checkpoint, known);
    }
  }

  lemma {:induction false} SeriesStaysWithin(files: map<int, seq<Bar>>, log: seq<Entry>, sessions: seq<Session>,
                                             known: iset<(int, Bar)>)
    requires FilesWithin(files, known)
    requires forall b | b in sessions :: forall item | item in b.items :: ItemWithin(item, known)
    ensures FilesWithin(Sessions(files, log, sessions), known)
    decreases |sessions|
  {
    if sessions != [] {
      var b := sessions[0];
      RunStaysWithin(Fresh(files), b.items, b.st, if b.st.resume then LatestKinds(log) else map[], known);
      var after := Batch(log, files, b.items, b.st);
      SeriesStaysWithin(after.files, log + after.log, sessions[1..], known);
    }
  }

  ghost predicate Offered(sessions: seq<Session>, symbol: int, b: Bar) {
    exists session, item ::
      session in sessions && item in session.items && item.symbol == symbol && Serves(item.provider, b)
  }

  /** Over any series of batches and whatever the providers answer, a stored bar was stored for its symbol before or was
      served as it is by a provider of that symbol. */
  lemma {:induction false} EveryStoredBarWasServed(files: map<int, seq<Bar>>, log: seq<Entry>, sessions: seq<Session>,
                                                   symbol: int, b: Bar)
    requires FilesReadable(files)
    requires forall session | session in sessions :: forall item | item in session.items ::
      ValidBars(item.provider.bars)
    requires symbol in Sessions(files, log, sessions) && b in Sessions(files, log, sessions)[symbol]
    ensures (symbol in files && b in files[symbol]) || Offered(sessions, symbol, b)
  {
    var known := iset x: (int, Bar) | (x.0 in files && x.1 in files[x.0]) || Offered(sessions, x.0, x.1);
    forall session | session in sessions ensures forall item | item in session.items :: ItemWithin(item, known) {
      forall item | item in session.items ensures ItemWithin(item, known) {
        forall c: Bar | Serves(item.provider, c) ensures (item.symbol, c) in known {
          assert Offered(sessions, item.symbol, c);
        }
      }
    }
    SeriesStaysWithin(files, log, sessions, known);
  }

  // ---- a history that only grows ----

  /** Over any series of batches against growing histories, with any mix of failures, aborts, modes and skips, no stored
      file ever has a gap or a wrong bar. */
  lemma {:induction false} EverySeriesKeepsFilesExact(files: map<int, seq<Bar>>, log: seq<Entry>,
                                                      sessions: seq<Session>,
                                                      histories: map<int, map<int, RawBar>>)
    requires FilesExact(files, histories)
    requires forall b | b in sessions ::
      b.st.end == Day(b.now) && forall item | item in b.items :: ServedFrom(item, histories, b.now)
    ensures FilesExact(Sessions(files, log, sessions), histories)
    decreases |sessions|
  {
    if sessions != [] {
      var b := sessions[0];
      RunKeepsFilesExact(Fresh(files), b.items, b.st,
                         if b.st.resume then LatestKinds(log) else map[], histories, b.now);
      var after := Batch(log, files, b.items, b.st);
      EverySeriesKeepsFilesExact(after.files, log + after.log, sessions[1..], histories);
    }
  }
}
