/** Fetching one symbol: the skip rule, the restart date, and the refresh of a stored history. */
module IncrementalRefresh {
  import opened Wrappers
  import opened FiniteSums
  import opened BarHistory

  datatype Config = Config(incremental: bool, force: bool, minExistingEnd: Option<int>, minRows: int, chunkDays: int)

  datatype Outcome =
    | Skipped(rows: nat)
    | Fetched(incrementally: bool, rows: nat, first: int, last: int, fetchStart: int)

  datatype FetchError = QueryFailed | EmptyResponse | NothingLeft | TooFewRows

  /** A stored file that can be read is never empty. */
  ghost predicate Readable(existing: Option<seq<Bar>>) {
    existing.Some? ==> existing.value != []
  }

  function Latest(bars: seq<Bar>): (latest: int)
    requires bars != []
    ensures exists b :: b in bars && b.time == latest
    ensures forall b | b in bars :: b.time <= latest
  {
    if |bars| == 1 then bars[0].time else
      var rest := Latest(bars[1..]);
      assert bars == [bars[0]] + bars[1..];
      if bars[0].time > rest then bars[0].time else rest
  }

  function ShouldSkip(existing: Option<seq<Bar>>, cfg: Config, target: int): bool
    requires existing.Some? ==> existing.value != []
  {
    if cfg.force || existing.None? then false
    else if cfg.minExistingEnd.Some? then Day(Latest(existing.value)) >= cfg.minExistingEnd.value
    else if cfg.incremental then Day(Latest(existing.value)) >= target
    else true
  }

  function RestartDay(latest: int, end: int): int {
    if Day(latest) >= end then Day(latest)
    else if Clock(latest) >= SESSION_CLOSE then Day(latest) + 1
    else Day(latest)
  }

  // ---- what one fetch does, on maps ----

  ghost function Refreshed(existing: seq<Bar>, bars: map<int, RawBar>, end: int): map<int, Bar>
    requires existing != []
  {
    LastBars(existing) + Served(bars, RestartDay(Latest(existing), end), end)
  }

  function IsRefresh(existing: Option<seq<Bar>>, cfg: Config): bool {
    cfg.incremental && existing.Some? && !cfg.force
  }

  function FetchStart(existing: Option<seq<Bar>>, start: int, end: int, cfg: Config): int
    requires existing.Some? ==> existing.value != []
  {
    if IsRefresh(existing, cfg) then RestartDay(Latest(existing.value), end) else start
  }

  /** The bars a fetch is about to store. */
  ghost function NewBars(existing: Option<seq<Bar>>, bars: map<int, RawBar>, start: int, end: int,
                         cfg: Config): map<int, Bar>
    requires Readable(existing)
  {
    if IsRefresh(existing, cfg) then Refreshed(existing.value, bars, end) else Served(bars, start, end)
  }

  /** What happens once every window of the query has answered. */
  ghost function Absorbed(existing: Option<seq<Bar>>, bars: map<int, RawBar>, start: int, end: int, cfg: Config)
    : (Result<Outcome, FetchError>, Option<seq<Bar>>)
    requires Readable(existing)
  {
    var from := FetchStart(existing, start, end, cfg);
    if Window(bars, from, end) == map[] then
      if IsRefresh(existing, cfg) && |existing.value| >= cfg.minRows then (Ok(Skipped(|existing.value|)), existing)
      else (Err(EmptyResponse), existing)
    else if Served(bars, from, end) == map[] then (Err(NothingLeft), existing)
    else Stored(existing, InTimeOrder(NewBars(existing, bars, start, end, cfg)), from, cfg)
  }

  function Stored(existing: Option<seq<Bar>>, stored: seq<Bar>, from: int, cfg: Config)
    : (Result<Outcome, FetchError>, Option<seq<Bar>>)
  {
    if stored == [] || |stored| < cfg.minRows then (Err(TooFewRows), existing)
    else (Ok(Fetched(IsRefresh(existing, cfg), |stored|, stored[0].time, stored[|stored| - 1].time, from)),
          Some(stored))
  }

  /** The outcome of one fetch and the file it leaves behind. */
  ghost function Fetch(existing: Option<seq<Bar>>, provider: Provider, start: int, end: int, cfg: Config)
    : (Result<Outcome, FetchError>, Option<seq<Bar>>)
    requires Readable(existing)
  {
    if ShouldSkip(existing, cfg, end) then (Ok(Skipped(|existing.value|)), existing)
    else if !AllAnswer(provider, Chunks(FetchStart(existing, start, end, cfg), end, Step(cfg.chunkDays))) then
      (Err(QueryFailed), existing)
    else Absorbed(existing, provider.bars, start, end, cfg)
  }

  lemma EmptyInTimeOrder<T>(m: map<int, T>)
    ensures InTimeOrder(m) == [] <==> m == map[]
  {
    if |m.Keys| == 0 {
      assert forall t :: t !in m;
    }
  }

  lemma StoredIsNotEmpty(existing: Option<seq<Bar>>, bars: map<int, RawBar>, start: int, end: int, cfg: Config)
    requires Readable(existing)
    requires Served(bars, FetchStart(existing, start, end, cfg), end) != map[]
    ensures InTimeOrder(NewBars(existing, bars, start, end, cfg)) != []
  {
    var served := Served(bars, FetchStart(existing, start, end, cfg), end);
    var stored := NewBars(existing, bars, start, end, cfg);
    EmptyInTimeOrder(stored);
    EmptyInTimeOrder(served);
    var t := Pick(served.Keys);
    assert t in stored;
  }

  method FetchSymbol(existing: Option<seq<Bar>>, provider: Provider, start: int, end: int, cfg: Config)
    returns (r: Result<Outcome, FetchError>, file: Option<seq<Bar>>)
    requires Readable(existing) && ValidBars(provider.bars)
    ensures (r, file) == Fetch(existing, provider, start, end, cfg)
  {
    if ShouldSkip(existing, cfg, end) {
      return Ok(Skipped(|existing.value|)), existing;
    }
    var from := FetchStart(existing, start, end, cfg);
    var frame := QuerySymbol(provider, from, end, cfg.chunkDays);
    if frame.Err? {
      return Err(QueryFailed), existing;
    }
    r, file := Absorb(existing, frame.value, provider.bars, start, end, cfg);
  }

  /** Normalises the answered rows and rewrites the file unless too little is left. */
  method Absorb(existing: Option<seq<Bar>>, frame: seq<RawBar>, ghost bars: map<int, RawBar>, start: int, end: int,
                cfg: Config)
    returns (r: Result<Outcome, FetchError>, file: Option<seq<Bar>>)
    requires Readable(existing) && ValidBars(bars)
    requires frame == InTimeOrder(Window(bars, FetchStart(existing, start, end, cfg), end))
    ensures (r, file) == Absorbed(existing, bars, start, end, cfg)
  {
    var refresh := IsRefresh(existing, cfg);
    var from := FetchStart(existing, start, end, cfg);
    EmptyInTimeOrder(Window(bars, from, end));
    if frame == [] && refresh && |existing.value| >= cfg.minRows {
      return Ok(Skipped(|existing.value|)), existing;
    }
    NormalizedQuery(bars, from, end);
    EmptyInTimeOrder(Served(bars, from, end));
    var normalized := Normalize(frame);
    match normalized {
      case Err(NoRows) => return Err(EmptyResponse), existing;
      case Err(_) => return Err(NothingLeft), existing;
      case Ok(incoming) =>
        StoredBars(existing, bars, start, end, cfg);
        StoredIsNotEmpty(existing, bars, start, end, cfg);
        r, file := Store(existing, incoming, from, cfg, InTimeOrder(NewBars(existing, bars, start, end, cfg)));
    }
  }

  method Store(existing: Option<seq<Bar>>, incoming: seq<Bar>, from: int, cfg: Config, ghost expected: seq<Bar>)
    returns (r: Result<Outcome, FetchError>, file: Option<seq<Bar>>)
    requires expected != []
    requires expected == if IsRefresh(existing, cfg) then MergeBars(existing.value, incoming) else incoming
    ensures (r, file) == Stored(existing, expected, from, cfg)
  {
    var refresh := IsRefresh(existing, cfg);
    var stored := if refresh then MergeBars(existing.value, incoming) else incoming;
    if |stored| < cfg.minRows {
      return Err(TooFewRows), existing;
    }
    return Ok(Fetched(refresh, |stored|, stored[0].time, stored[|stored| - 1].time, from)), Some(stored);
  }

  /** Merging the stored bars with the normalised answer stores exactly the new bars in time order. */
  lemma StoredBars(existing: Option<seq<Bar>>, bars: map<int, RawBar>, start: int, end: int, cfg: Config)
    requires Readable(existing) && ValidBars(bars)
    ensures var incoming := InTimeOrder(Served(bars, FetchStart(existing, start, end, cfg), end));
      (if IsRefresh(existing, cfg) then MergeBars(existing.value, incoming) else incoming)
      == InTimeOrder(NewBars(existing, bars, start, end, cfg))
  {
    var served := Served(bars, FetchStart(existing, start, end, cfg), end);
    LastBarsOfSeries(served);
    if IsRefresh(existing, cfg) {
      MergeIsOverride(existing.value, InTimeOrder(served));
    }
  }

  /** A failed fetch leaves the file alone; one that answers stores the new bars, unless nothing was served. */
  lemma AbsorbedFile(existing: Option<seq<Bar>>, bars: map<int, RawBar>, start: int, end: int, cfg: Config)
    requires Readable(existing)
    ensures var (r, file) := Absorbed(existing, bars, start, end, cfg);
      && (r.Err? ==> file == existing)
      && (r.Ok? ==> file == if Window(bars, FetchStart(existing, start, end, cfg), end) == map[] then existing
                            else Some(InTimeOrder(NewBars(existing, bars, start, end, cfg))))
      && (file != existing ==> Served(bars, FetchStart(existing, start, end, cfg), end) != map[])
      && Readable(file)
  {
  }
}
