/** The batch loop of the minute-bar fetcher: one pass over the symbols with a login session, a checkpoint log, and
    an abort after too many failures in a row. */
module FetchLoop {
  import opened Wrappers
  import opened BarHistory
  import opened IncrementalRefresh

  /** One symbol to process: what the provider would answer for it, and whether a login attempted now would succeed. */
  datatype Item = Item(symbol: int, provider: Provider, loginAnswers: bool)

  datatype Settings = Settings(cfg: Config, start: int, end: int, resume: bool, relogin: bool, maxConsecutive: int)

  /** Why a row was logged; the first three are written with status skipped. */
  datatype Kind = Current | Resumed | Unchanged | Updated | Failure

  datatype Entry = Entry(symbol: int, kind: Kind)

  datatype BatchState = BatchState(
    success: nat, skipped: nat, failures: seq<int>, consecutive: nat, aborted: bool, active: bool,
    log: seq<Entry>, files: map<int, seq<Bar>>)

  function FileOf(files: map<int, seq<Bar>>, symbol: int): Option<seq<Bar>> {
    if symbol in files then Some(files[symbol]) else None
  }

  ghost predicate FilesReadable(files: map<int, seq<Bar>>) {
    forall s | s in files :: files[s] != []
  }

  // ---- the checkpoint log ----

  /** The last row of each symbol. */
  function LatestKinds(log: seq<Entry>): map<int, Kind> {
    if log == [] then map[] else LatestKinds(log[..|log| - 1])[log[|log| - 1].symbol := log[|log| - 1].kind]
  }

  method LoadCheckpoint(log: seq<Entry>) returns (latest: map<int, Kind>)
    ensures latest == LatestKinds(log)
  {
    latest := map[];
    for i := 0 to |log|
      invariant latest == LatestKinds(log[..i])
    {
      assert log[..i + 1][..i] == log[..i];
      latest := latest[log[i].symbol := log[i].kind];
    }
    assert log[..|log|] == log;
  }

  lemma {:induction false} LastRowWins(log: seq<Entry>, symbol: int)
    ensures symbol in LatestKinds(log) <==> exists i :: 0 <= i < |log| && log[i].symbol == symbol
    ensures symbol in LatestKinds(log) ==>
      exists i :: 0 <= i < |log| && log[i] == Entry(symbol, LatestKinds(log)[symbol])
                  && forall j | i < j < |log| :: log[j].symbol != symbol
  {
    if log != [] {
      var init, last := log[..|log| - 1], log[|log| - 1];
      LastRowWins(init, symbol);
      if last.symbol == symbol {
        assert log[|log| - 1] == Entry(symbol, LatestKinds(log)[symbol]);
      } else if symbol in LatestKinds(init) {
        var i :| 0 <= i < |init| && init[i] == Entry(symbol, LatestKinds(init)[symbol])
                 && forall j | i < j < |init| :: init[j].symbol != symbol;
        assert log[i] == Entry(symbol, LatestKinds(log)[symbol]);
        assert forall j | i < j < |log| :: log[j].symbol != symbol;
      }
    }
  }

  function ResumeTarget(st: Settings): Option<int> {
    if st.cfg.minExistingEnd.Some? then st.cfg.minExistingEnd
    else if st.cfg.incremental then Some(st.end) else None
  }

  function CheckpointSkips(row: Option<Kind>, existing: Option<seq<Bar>>, st: Settings): bool
    requires existing.Some? ==> existing.value != []
  {
    && row == Some(Updated) && ResumeTarget(st).Some?
    && existing.Some? && Day(Latest(existing.value)) >= ResumeTarget(st).value
  }

  function CheckpointRow(checkpoint: map<int, Kind>, symbol: int): Option<Kind> {
    if symbol in checkpoint then Some(checkpoint[symbol]) else None
  }

  // ---- one symbol ----

  function Logged(s: BatchState, symbol: int, kind: Kind): BatchState {
    s.(log := s.log + [Entry(symbol, kind)])
  }

  function Failing(s: BatchState, symbol: int, st: Settings): BatchState {
    Logged(s, symbol, Failure).(
      failures := s.failures + [symbol],
      consecutive := s.consecutive + 1,
      active := s.active && !st.relogin,
      aborted := st.maxConsecutive > 0 && s.consecutive + 1 >= st.maxConsecutive)
  }

  function Answered(s: BatchState, symbol: int, r: Result<Outcome, FetchError>, file: Option<seq<Bar>>,
                    st: Settings): BatchState {
    match r
    case Err(_) => Failing(s, symbol, st)
    case Ok(Skipped(_)) => Logged(s, symbol, Unchanged).(skipped := s.skipped + 1, consecutive := 0)
    case Ok(Fetched(_, _, _, _, _)) =>
      Logged(s, symbol, Updated).(
        success := s.success + 1, consecutive := 0,
        files := if file.Some? then s.files[symbol := file.value] else s.files)
  }

  ghost predicate SkipsBeforehand(s: BatchState, item: Item, st: Settings, checkpoint: map<int, Kind>)
    requires FilesReadable(s.files)
  {
    var existing := FileOf(s.files, item.symbol);
    || ShouldSkip(existing, st.cfg, st.end)
    || (st.resume && CheckpointSkips(CheckpointRow(checkpoint, item.symbol), existing, st))
  }

  ghost function StepState(s: BatchState, item: Item, st: Settings, checkpoint: map<int, Kind>): BatchState
    requires FilesReadable(s.files)
  {
    var existing := FileOf(s.files, item.symbol);
    if ShouldSkip(existing, st.cfg, st.end) then Logged(s, item.symbol, Current).(skipped := s.skipped + 1)
    else if st.resume && CheckpointSkips(CheckpointRow(checkpoint, item.symbol), existing, st) then
      Logged(s, item.symbol, Resumed).(skipped := s.skipped + 1)
    else if !s.active && !item.loginAnswers then Failing(s, item.symbol, st)
    else
      var (r, file) := Fetch(existing, item.provider, st.start, st.end, st.cfg);
      Answered(s.(active := true), item.symbol, r, file, st)
  }

  lemma AnsweredKeepsReadable(s: BatchState, symbol: int, r: Result<Outcome, FetchError>, file: Option<seq<Bar>>,
                              st: Settings)
    requires FilesReadable(s.files) && Readable(file)
    ensures FilesReadable(Answered(s, symbol, r, file, st).files)
  {
  }

  lemma StepKeepsReadable(s: BatchState, item: Item, st: Settings, checkpoint: map<int, Kind>)
    requires FilesReadable(s.files)
    ensures FilesReadable(StepState(s, item, st, checkpoint).files)
  {
    var existing := FileOf(s.files, item.symbol);
    AbsorbedFile(existing, item.provider.bars, st.start, st.end, st.cfg);
    var fetched := Fetch(existing, item.provider, st.start, st.end, st.cfg);
    assert Readable(fetched.1);
    AnsweredKeepsReadable(s.(active := true), item.symbol, fetched.0, fetched.1, st);
  }

  ghost function RunItems(s: BatchState, items: seq<Item>, st: Settings, checkpoint: map<int, Kind>): BatchState
    requires FilesReadable(s.files)
    decreases |items|
  {
    if items == [] || s.aborted then s
    else
      StepKeepsReadable(s, items[0], st, checkpoint);
      RunItems(StepState(s, items[0], st, checkpoint), items[1..], st, checkpoint)
  }

  /** The whole batch: the loop, then the session reset that always runs. */
  ghost function Batch(log: seq<Entry>, files: map<int, seq<Bar>>, items: seq<Item>, st: Settings): BatchState
    requires FilesReadable(files)
  {
    RunItems(Fresh(files), items, st, if st.resume then LatestKinds(log) else map[]).(active := false)
  }

  function Fresh(files: map<int, seq<Bar>>): BatchState {
    BatchState(0, 0, [], 0, false, false, [], files)
  }

  function ExitCode(s: BatchState): int {
    if s.aborted then 2 else if s.failures != [] then 1 else 0
  }

  // ---- the loop as it runs ----

  class Fetcher {
    var success: nat
    var skipped: nat
    var failures: seq<int>
    var consecutive: nat
    var aborted: bool
    var active: bool
    var log: seq<Entry>
    var files: map<int, seq<Bar>>

    ghost function State(): BatchState
      reads this
    {
      BatchState(success, skipped, failures, consecutive, aborted, active, log, files)
    }

    constructor (stored: map<int, seq<Bar>>)
      ensures State() == Fresh(stored)
    {
      success, skipped, failures, consecutive, aborted, active, log, files := 0, 0, [], 0, false, false, [], stored;
    }

    method EnsureLogin(answers: bool) returns (ok: bool)
      modifies this`active
      ensures ok == (old(active) || answers)
      ensures active == ok
    {
      if active {
        return true;
      }
      active := answers;
      return answers;
    }

    method ResetSession()
      modifies this`active
      ensures !active
    {
      active := false;
    }

    method Append(symbol: int, kind: Kind)
      modifies this`log
      ensures log == old(log) + [Entry(symbol, kind)]
    {
      log := log + [Entry(symbol, kind)];
    }

    method Fail(symbol: int, st: Settings)
      modifies this
      ensures State() == Failing(old(State()), symbol, st)
    {
      failures := failures + [symbol];
      Append(symbol, Failure);
      consecutive := consecutive + 1;
      if st.relogin {
        ResetSession();
      }
      aborted := st.maxConsecutive > 0 && consecutive >= st.maxConsecutive;
    }

    /** Queries the provider; only ever called with a session. */
    method FetchNow(item: Item, st: Settings)
      requires active && FilesReadable(files) && ValidBars(item.provider.bars)
      modifies this
      ensures State() == old(
        var (r, file) := Fetch(FileOf(files, item.symbol), item.provider, st.start, st.end, st.cfg);
        Answered(State(), item.symbol, r, file, st))
    {
      var r, file := FetchSymbol(FileOf(files, item.symbol), item.provider, st.start, st.end, st.cfg);
      Record(item.symbol, r, file, st);
    }

    method Record(symbol: int, r: Result<Outcome, FetchError>, file: Option<seq<Bar>>, st: Settings)
      modifies this
      ensures State() == Answered(old(State()), symbol, r, file, st)
    {
      match r {
        case Err(_) => Fail(symbol, st);
        case Ok(Skipped(_)) =>
          Append(symbol, Unchanged);
          skipped := skipped + 1;
          consecutive := 0;
        case Ok(Fetched(_, _, _, _, _)) =>
          files := if file.Some? then files[symbol := file.value] else files;
          Append(symbol, Updated);
          success := success + 1;
          consecutive := 0;
      }
    }

    method Process(item: Item, st: Settings, checkpoint: map<int, Kind>)
      requires FilesReadable(files) && ValidBars(item.provider.bars) && !aborted
      modifies this
      ensures State() == old(StepState(State(), item, st, checkpoint))
    {
      var existing := FileOf(files, item.symbol);
      if ShouldSkip(existing, st.cfg, st.end) {
        skipped := skipped + 1;
        Append(item.symbol, Current);
        return;
      }
      if st.resume && CheckpointSkips(CheckpointRow(checkpoint, item.symbol), existing, st) {
        skipped := skipped + 1;
        Append(item.symbol, Resumed);
        return;
      }
      var ok := EnsureLogin(item.loginAnswers);
      if ok {
        FetchNow(item, st);
      } else {
        Fail(item.symbol, st);
      }
    }

    method Run(items: seq<Item>, earlier: seq<Entry>, st: Settings) returns (exitCode: int)
      requires FilesReadable(files) && State() == Fresh(files)
      requires forall item | item in items :: ValidBars(item.provider.bars)
      modifies this
      ensures State() == Batch(earlier, old(files), items, st)
      ensures exitCode == ExitCode(State())
    {
      var checkpoint: map<int, Kind> := map[];
      if st.resume {
        checkpoint := LoadCheckpoint(earlier);
      }
      ghost var whole := RunItems(State(), items, st, checkpoint);
      var i := 0;
      assert items[0..] == items;
      while i < |items| && !aborted
        invariant 0 <= i <= |items| && FilesReadable(files)
        invariant RunItems(State(), items[i..], st, checkpoint) == whole
        decreases |items| - i
      {
        StepKeepsReadable(State(), items[i], st, checkpoint);
        assert items[i..][1..] == items[i + 1..];
        Process(items[i], st, checkpoint);
        i := i + 1;
      }
      ResetSession();
      exitCode := if aborted then 2 else if failures != [] then 1 else 0;
    }
  }
}
