/** Minute-bar histories: date chunks, chunked queries, normalisation and the override merge. A timestamp is a
    number of seconds, a date the number of whole days in it. The provider is a map from timestamp to row together
    with the date windows on which a query fails. */
module BarHistory {
  import opened Wrappers
  import opened FiniteSums
  import opened Ordering

  const SECONDS_PER_DAY := 86400
  const SESSION_CLOSE := 54000

  function Day(time: int): int {
    time / SECONDS_PER_DAY
  }

  function Clock(time: int): int {
    time % SECONDS_PER_DAY
  }

  lemma DayMonotone(t: int, u: int)
    requires t <= u
    ensures Day(t) <= Day(u)
    ensures Day(t) == Day(u) && t < u ==> Clock(t) < Clock(u)
  {
  }

  datatype RawBar = RawBar(
    time: int,
    open: Option<real>, high: Option<real>, low: Option<real>, close: Option<real>,
    volume: Option<real>, amount: Option<real>)

  datatype Bar = Bar(
    time: int, open: real, high: real, low: real, close: real, volume: Option<real>, amount: Option<real>)

  datatype Provider = Provider(bars: map<int, RawBar>, failing: set<(int, int)>)

  datatype QueryError = WindowFailed | NoRows | NothingUsable

  ghost predicate ValidBars(bars: map<int, RawBar>) {
    forall t | t in bars :: bars[t].time == t
  }

  // ---- sequences in time order ----

  /** The values of a time-indexed map, earliest first. */
  function InTimeOrder<T>(m: map<int, T>): (s: seq<T>)
    ensures |s| == |m.Keys|
  {
    var times := SortedSeq(m.Keys);
    assert forall i | 0 <= i < |times| :: times[i] in times;
    seq(|times|, i requires 0 <= i < |times| => m[times[i]])
  }

  /** s lists exactly the values of m, earliest first. */
  ghost predicate IsSeries<T>(s: seq<T>, time: T -> int, m: map<int, T>) {
    && (forall i, j | 0 <= i < j < |s| :: time(s[i]) < time(s[j]))
    && (forall x | x in s :: time(x) in m && m[time(x)] == x)
    && (forall t | t in m :: m[t] in s && time(m[t]) == t)
  }

  function Times<T>(s: seq<T>, time: T -> int): (times: seq<int>)
    ensures |times| == |s| && forall i | 0 <= i < |s| :: times[i] == time(s[i])
  {
    seq(|s|, i requires 0 <= i < |s| => time(s[i]))
  }

  lemma SeriesTimes<T>(s: seq<T>, time: T -> int, m: map<int, T>)
    requires IsSeries(s, time, m)
    ensures Times(s, time) == SortedSeq(m.Keys)
  {
    var times := Times(s, time);
    forall t ensures t in times <==> t in m.Keys {
      if t in times {
        var i :| 0 <= i < |times| && times[i] == t;
        assert s[i] in s;
      }
      if t in m.Keys {
        var i :| 0 <= i < |s| && s[i] == m[t];
        assert times[i] == t;
      }
    }
    SortedSetUnique(times, SortedSeq(m.Keys), m.Keys);
  }

  lemma SeriesUnique<T>(s: seq<T>, time: T -> int, m: map<int, T>)
    requires IsSeries(s, time, m)
    ensures s == InTimeOrder(m)
  {
    SeriesTimes(s, time, m);
    forall i | 0 <= i < |s| ensures s[i] == InTimeOrder(m)[i] {
      assert s[i] in s && Times(s, time)[i] == time(s[i]);
    }
  }

  lemma OrderedValue<T>(m: map<int, T>, i: nat)
    requires i < |SortedSeq(m.Keys)|
    ensures |InTimeOrder(m)| == |SortedSeq(m.Keys)|
    ensures SortedSeq(m.Keys)[i] in m && InTimeOrder(m)[i] == m[SortedSeq(m.Keys)[i]]
  {
    assert SortedSeq(m.Keys)[i] in SortedSeq(m.Keys);
  }

  lemma EveryValueListed<T>(m: map<int, T>, t: int)
    requires t in m
    ensures m[t] in InTimeOrder(m)
  {
    var times := SortedSeq(m.Keys);
    assert t in times;
    var i :| 0 <= i < |times| && times[i] == t;
    OrderedValue(m, i);
  }

  lemma SeriesOfMap<T>(time: T -> int, m: map<int, T>)
    requires forall t | t in m :: time(m[t]) == t
    ensures IsSeries(InTimeOrder(m), time, m)
  {
    var s, times := InTimeOrder(m), SortedSeq(m.Keys);
    forall i | 0 <= i < |times|
      ensures |s| == |times| && times[i] in m && s[i] == m[times[i]] && time(s[i]) == times[i]
    {
      OrderedValue(m, i);
    }
    forall t | t in m ensures m[t] in s {
      EveryValueListed(m, t);
    }
  }

  // ---- date chunks ----

  function Step(chunkDays: int): nat {
    (if chunkDays < 1 then 1 else chunkDays) - 1
  }

  /** The windows abut, fill start..end exactly, and all but the last have the full width. */
  ghost predicate Tiles(windows: seq<(int, int)>, start: int, end: int, step: int) {
    && (windows == [] <==> start > end)
    && (windows != [] ==> windows[0].0 == start && windows[|windows| - 1].1 == end)
    && (forall i | 0 <= i < |windows| :: windows[i].0 <= windows[i].1 <= windows[i].0 + step)
    && (forall i, j | 0 <= i < j < |windows| && j == i + 1 ::
          windows[j].0 == windows[i].1 + 1 && windows[i].1 == windows[i].0 + step)
  }

  function Chunks(start: int, end: int, step: int): seq<(int, int)>
    requires step >= 0
    decreases end + 1 - start
  {
    if start > end then [] else
      var last := if start + step < end then start + step else end;
      [(start, last)] + Chunks(last + 1, end, step)
  }

  method DateChunks(start: int, end: int, chunkDays: int) returns (windows: seq<(int, int)>)
    ensures windows == Chunks(start, end, Step(chunkDays))
    ensures Tiles(windows, start, end, Step(chunkDays))
  {
    windows := [];
    var step := Step(chunkDays);
    var current := start;
    while current <= end
      invariant windows + Chunks(current, end, step) == Chunks(start, end, step)
      decreases end + 1 - current
    {
      var chunkEnd := if current + step < end then current + step else end;
      ChunksStep(windows, current, end, step);
      windows := windows + [(current, chunkEnd)];
      current := chunkEnd + 1;
    }
    assert Chunks(current, end, step) == [];
    ChunksTile(start, end, step);
  }

  lemma ChunksStep(windows: seq<(int, int)>, current: int, end: int, step: nat)
    requires current <= end
    ensures var last := if current + step < end then current + step else end;
      windows + Chunks(current, end, step) == windows + [(current, last)] + Chunks(last + 1, end, step)
  {
  }

  lemma {:induction false} ChunksTile(start: int, end: int, step: nat)
    ensures Tiles(Chunks(start, end, step), start, end, step)
    decreases end + 1 - start
  {
    if start <= end {
      var last := if start + step < end then start + step else end;
      ChunksTile(last + 1, end, step);
      PrependTile(Chunks(last + 1, end, step), start, last, end, step);
    }
  }

  lemma PrependTile(rest: seq<(int, int)>, start: int, last: int, end: int, step: nat)
    requires start <= last <= end && (last == start + step || (last == end && last <= start + step))
    requires Tiles(rest, last + 1, end, step)
    ensures Tiles([(start, last)] + rest, start, end, step)
  {
    var windows := [(start, last)] + rest;
    assert forall i | 0 < i < |windows| :: windows[i] == rest[i - 1];
  }

  ghost predicate InWindow(w: (int, int), day: int) {
    w.0 <= day <= w.1
  }

  lemma {:induction false} TilesIncrease(windows: seq<(int, int)>, start: int, end: int, step: int, i: nat, j: nat)
    requires Tiles(windows, start, end, step) && i < j < |windows|
    ensures windows[i].1 < windows[j].0
    decreases j - i
  {
    if i + 1 < j {
      TilesIncrease(windows, start, end, step, i, j - 1);
      assert windows[j].0 == windows[j - 1].1 + 1;
    }
  }

  lemma {:induction false} TilesReach(windows: seq<(int, int)>, start: int, end: int, step: int, k: nat, day: int)
    requires Tiles(windows, start, end, step) && k < |windows|
    requires start <= day <= windows[k].1
    ensures exists i :: 0 <= i <= k && InWindow(windows[i], day)
  {
    if day >= windows[k].0 {
      assert InWindow(windows[k], day);
    } else {
      assert k > 0;
      TilesReach(windows, start, end, step, k - 1, day);
    }
  }

  /** Every day from start to end lies in exactly one window, and no window holds any other day. */
  lemma ChunksPartition(windows: seq<(int, int)>, start: int, end: int, step: int, day: int)
    requires Tiles(windows, start, end, step)
    ensures start <= day <= end <==> exists i :: 0 <= i < |windows| && InWindow(windows[i], day)
    ensures forall i, j | 0 <= i < |windows| && 0 <= j < |windows| ::
      InWindow(windows[i], day) && InWindow(windows[j], day) ==> i == j
  {
    if start <= day <= end {
      TilesReach(windows, start, end, step, |windows| - 1, day);
    }
    forall i | 0 <= i < |windows| && InWindow(windows[i], day) ensures start <= day <= end {
      if 0 < i {
        TilesIncrease(windows, start, end, step, 0, i);
      }
      if i < |windows| - 1 {
        TilesIncrease(windows, start, end, step, i, |windows| - 1);
      }
    }
    forall i, j | 0 <= i < |windows| && 0 <= j < |windows| && InWindow(windows[i], day) && InWindow(windows[j], day)
      ensures i == j
    {
      if i < j {
        TilesIncrease(windows, start, end, step, i, j);
      } else if j < i {
        TilesIncrease(windows, start, end, step, j, i);
      }
    }
  }

  // ---- chunked queries ----

  function Window(bars: map<int, RawBar>, start: int, end: int): map<int, RawBar> {
    map t | t in bars && start <= Day(t) <= end :: bars[t]
  }

  const RAW_TIME: RawBar -> int := (r: RawBar) => r.time
  const BAR_TIME: Bar -> int := (b: Bar) => b.time

  predicate ListsTime(rows: seq<RawBar>, t: int) {
    exists r :: r in rows && r.time == t
  }

  function DropDuplicates(rows: seq<RawBar>): seq<RawBar> {
    if rows == [] then []
    else if ListsTime(rows[1..], rows[0].time) then DropDuplicates(rows[1..])
    else [rows[0]] + DropDuplicates(rows[1..])
  }

  ghost predicate TimesIncrease(rows: seq<RawBar>) {
    forall i, j | 0 <= i < j < |rows| :: rows[i].time < rows[j].time
  }

  lemma FirstIsEarliest(rows: seq<RawBar>)
    requires rows != [] && TimesIncrease(rows)
    ensures TimesIncrease(rows[1..]) && !ListsTime(rows[1..], rows[0].time)
    ensures forall r | r in rows[1..] :: rows[0].time < r.time
  {
    forall r | r in rows[1..] ensures rows[0].time < r.time {
      var i :| 0 <= i < |rows[1..]| && rows[1..][i] == r;
      assert rows[i + 1] == r;
    }
  }

  lemma {:induction false} NothingToDrop(rows: seq<RawBar>)
    requires TimesIncrease(rows)
    ensures DropDuplicates(rows) == rows
  {
    if rows != [] {
      FirstIsEarliest(rows);
      NothingToDrop(rows[1..]);
    }
  }

  /** A series of earlier times followed by one of later times. */
  lemma SeriesJoin<T>(a: seq<T>, b: seq<T>, time: T -> int, first: map<int, T>, second: map<int, T>, whole: map<int, T>)
    requires IsSeries(a, time, first) && IsSeries(b, time, second)
    requires forall t, u | t in first && u in second :: t < u
    requires forall t | t in first :: t in whole && whole[t] == first[t]
    requires forall t | t in second :: t in whole && whole[t] == second[t]
    requires forall t | t in whole :: t in first || t in second
    ensures IsSeries(a + b, time, whole)
  {
    var s := a + b;
    forall i, j | 0 <= i < j < |s| ensures time(s[i]) < time(s[j]) {
      if i < |a| <= j {
        assert a[i] in a && b[j - |a|] in b;
      }
    }
    forall x | x in s ensures time(x) in whole && whole[time(x)] == x {
      assert x in a || x in b;
    }
  }

  /** Adjacent windows answered one after the other read like one window. */
  lemma WindowsJoin(bars: map<int, RawBar>, start: int, middle: int, end: int)
    requires ValidBars(bars) && start <= middle + 1 && middle <= end
    ensures InTimeOrder(Window(bars, start, middle)) + InTimeOrder(Window(bars, middle + 1, end))
         == InTimeOrder(Window(bars, start, end))
  {
    var first, second, whole := Window(bars, start, middle), Window(bars, middle + 1, end), Window(bars, start, end);
    SeriesOfMap(RAW_TIME, first);
    SeriesOfMap(RAW_TIME, second);
    forall t, u | t in first && u in second ensures t < u {
      EarlierDay(t, u);
    }
    SeriesJoin(InTimeOrder(first), InTimeOrder(second), RAW_TIME, first, second, whole);
    SeriesUnique(InTimeOrder(first) + InTimeOrder(second), RAW_TIME, whole);
  }

  lemma EarlierDay(t: int, u: int)
    requires Day(t) < Day(u)
    ensures t < u
  {
  }

  ghost predicate AllAnswer(provider: Provider, windows: seq<(int, int)>) {
    forall w | w in windows :: w !in provider.failing
  }

  /** The frames of a query, concatenated in window order. */
  function Frames(provider: Provider, windows: seq<(int, int)>): seq<RawBar> {
    if windows == [] then [] else
      Frames(provider, windows[..|windows| - 1])
      + InTimeOrder(Window(provider.bars, windows[|windows| - 1].0, windows[|windows| - 1].1))
  }

  lemma {:induction false} FramesStep(provider: Provider, windows: seq<(int, int)>, k: nat)
    requires k < |windows|
    ensures Frames(provider, windows[..k + 1]) ==
            Frames(provider, windows[..k]) + InTimeOrder(Window(provider.bars, windows[k].0, windows[k].1))
  {
    assert windows[..k + 1][..k] == windows[..k];
  }

  lemma {:induction false} FramesJoin(provider: Provider, windows: seq<(int, int)>, start: int, end: int, step: int,
                                      k: nat)
    requires ValidBars(provider.bars) && Tiles(windows, start, end, step) && k < |windows|
    ensures Frames(provider, windows[..k + 1]) == InTimeOrder(Window(provider.bars, start, windows[k].1))
  {
    FramesStep(provider, windows, k);
    if k == 0 {
      assert windows[..0] == [];
    } else {
      FramesJoin(provider, windows, start, end, step, k - 1);
      TilesStart(windows, start, end, step, k);
      WindowsJoin(provider.bars, start, windows[k - 1].1, windows[k].1);
    }
  }

  lemma TilesStart(windows: seq<(int, int)>, start: int, end: int, step: int, k: nat)
    requires Tiles(windows, start, end, step) && 0 < k < |windows|
    ensures start <= windows[k - 1].1 && windows[k].0 == windows[k - 1].1 + 1
  {
    if 1 < k {
      TilesIncrease(windows, start, end, step, 0, k - 1);
    }
  }

  lemma {:induction false} FramesFill(provider: Provider, windows: seq<(int, int)>, start: int, end: int, step: int)
    requires ValidBars(provider.bars) && Tiles(windows, start, end, step)
    ensures Frames(provider, windows) == InTimeOrder(Window(provider.bars, start, end))
  {
    if windows == [] {
      EmptyWindow(provider.bars, start, end);
    } else {
      FramesJoin(provider, windows, start, end, step, |windows| - 1);
      assert windows[..|windows| - 1 + 1] == windows;
    }
  }

  lemma RowsIncrease(bars: map<int, RawBar>, start: int, end: int)
    requires ValidBars(bars)
    ensures TimesIncrease(InTimeOrder(Window(bars, start, end)))
  {
    var rows := InTimeOrder(Window(bars, start, end));
    SeriesOfMap(RAW_TIME, Window(bars, start, end));
    forall i, j | 0 <= i < j < |rows| ensures rows[i].time < rows[j].time {
      assert RAW_TIME(rows[i]) < RAW_TIME(rows[j]);
    }
  }

  /** Chunking is invisible: the concatenated frames are the rows of one query over the whole range. */
  lemma {:induction false} ChunkingIsInvisible(provider: Provider, windows: seq<(int, int)>, start: int, end: int,
                                               step: int)
    requires ValidBars(provider.bars) && Tiles(windows, start, end, step)
    ensures Frames(provider, windows) == InTimeOrder(Window(provider.bars, start, end))
    ensures DropDuplicates(Frames(provider, windows)) == Frames(provider, windows)
  {
    FramesFill(provider, windows, start, end, step);
    RowsIncrease(provider.bars, start, end);
    NothingToDrop(Frames(provider, windows));
  }

  lemma EmptyWindow(bars: map<int, RawBar>, start: int, end: int)
    requires start > end
    ensures InTimeOrder(Window(bars, start, end)) == []
  {
    assert Window(bars, start, end) == map[];
  }

  method QuerySymbol(provider: Provider, start: int, end: int, chunkDays: int)
    returns (r: Result<seq<RawBar>, QueryError>)
    requires ValidBars(provider.bars)
    ensures r.Ok? <==> AllAnswer(provider, Chunks(start, end, Step(chunkDays)))
    ensures r.Ok? ==> r.value == InTimeOrder(Window(provider.bars, start, end))
  {
    var chunks := DateChunks(start, end, chunkDays);
    var frames := QueryWindows(provider, chunks);
    if frames.Err? {
      return Err(frames.error);
    }
    ChunkingIsInvisible(provider, chunks, start, end, Step(chunkDays));
    return Ok(DropDuplicates(frames.value));
  }

  method QueryWindows(provider: Provider, chunks: seq<(int, int)>) returns (r: Result<seq<RawBar>, QueryError>)
    ensures r.Ok? <==> AllAnswer(provider, chunks)
    ensures r.Ok? ==> r.value == Frames(provider, chunks)
  {
    var rows: seq<RawBar> := [];
    for i := 0 to |chunks|
      invariant AllAnswer(provider, chunks[..i])
      invariant rows == Frames(provider, chunks[..i])
    {
      if chunks[i] in provider.failing {
        assert chunks[i] in chunks;
        return Err(WindowFailed);
      }
      FramesStep(provider, chunks, i);
      assert chunks[..i + 1] == chunks[..i] + [chunks[i]];
      rows := rows + InTimeOrder(Window(provider.bars, chunks[i].0, chunks[i].1));
    }
    assert chunks[..|chunks|] == chunks;
    return Ok(rows);
  }

  // ---- normalisation ----

  predicate Usable(r: RawBar) {
    && r.open.Some? && r.high.Some? && r.low.Some? && r.close.Some?
    && r.close.value > 0.0 && r.high.value > 0.0 && r.low.value > 0.0
  }

  function Normal(r: RawBar): Bar
    requires Usable(r)
  {
    var amount := if r.amount.Some? then r.amount
                  else if r.volume.Some? then Some(r.close.value * r.volume.value) else None;
    Bar(r.time, r.open.value, r.high.value, r.low.value, r.close.value, r.volume, amount)
  }

  function UsableBars(rows: seq<RawBar>): seq<Bar> {
    if rows == [] then []
    else if Usable(rows[0]) then [Normal(rows[0])] + UsableBars(rows[1..])
    else UsableBars(rows[1..])
  }

  const TIME_KEY: Bar -> Key := (b: Bar) => Key(0.0, 0, b.time)

  function Normalize(rows: seq<RawBar>): Result<seq<Bar>, QueryError> {
    if rows == [] then Err(NoRows)
    else if UsableBars(rows) == [] then Err(NothingUsable)
    else Ok(Sort(UsableBars(rows), TIME_KEY))
  }

  /** The usable bars of a date range, normalised. */
  function Served(bars: map<int, RawBar>, start: int, end: int): map<int, Bar> {
    map t | t in bars && start <= Day(t) <= end && Usable(bars[t]) :: Normal(bars[t])
  }

  lemma {:induction false} KeptRows(rows: seq<RawBar>, b: Bar)
    ensures b in UsableBars(rows) <==> exists r :: r in rows && Usable(r) && Normal(r) == b
  {
    if rows != [] {
      KeptRows(rows[1..], b);
      assert forall r | r in rows[1..] :: r in rows;
    }
  }

  lemma {:induction false} KeptIncreases(rows: seq<RawBar>)
    requires TimesIncrease(rows)
    ensures forall i, j | 0 <= i < j < |UsableBars(rows)| :: UsableBars(rows)[i].time < UsableBars(rows)[j].time
  {
    if rows != [] {
      FirstIsEarliest(rows);
      KeptIncreases(rows[1..]);
      forall b | b in UsableBars(rows[1..]) ensures rows[0].time < b.time {
        KeptRows(rows[1..], b);
      }
    }
  }

  /** Normalising the rows of a query yields the usable bars of its range in time order. */
  lemma NormalizedQuery(bars: map<int, RawBar>, start: int, end: int)
    requires ValidBars(bars)
    ensures UsableBars(InTimeOrder(Window(bars, start, end))) == InTimeOrder(Served(bars, start, end))
    ensures Sort(UsableBars(InTimeOrder(Window(bars, start, end))), TIME_KEY) == InTimeOrder(Served(bars, start, end))
  {
    var window, served := Window(bars, start, end), Served(bars, start, end);
    var rows := InTimeOrder(window);
    var kept := UsableBars(rows);
    SeriesOfMap(RAW_TIME, window);
    KeptIncreases(rows);
    forall b | b in kept ensures BAR_TIME(b) in served && served[BAR_TIME(b)] == b {
      KeptIsServed(bars, start, end, b);
    }
    forall t | t in served ensures served[t] in kept && BAR_TIME(served[t]) == t {
      ServedIsKept(bars, start, end, t);
    }
    SeriesUnique(kept, BAR_TIME, served);
    IncreasingIsSorted(kept);
  }

  lemma KeptIsServed(bars: map<int, RawBar>, start: int, end: int, b: Bar)
    requires ValidBars(bars) && b in UsableBars(InTimeOrder(Window(bars, start, end)))
    ensures BAR_TIME(b) in Served(bars, start, end) && Served(bars, start, end)[BAR_TIME(b)] == b
  {
    var rows := InTimeOrder(Window(bars, start, end));
    SeriesOfMap(RAW_TIME, Window(bars, start, end));
    KeptRows(rows, b);
    var r :| r in rows && Usable(r) && Normal(r) == b;
    assert RAW_TIME(r) in Window(bars, start, end);
  }

  lemma ServedIsKept(bars: map<int, RawBar>, start: int, end: int, t: int)
    requires ValidBars(bars) && t in Served(bars, start, end)
    ensures Served(bars, start, end)[t] in UsableBars(InTimeOrder(Window(bars, start, end)))
    ensures BAR_TIME(Served(bars, start, end)[t]) == t
  {
    var window := Window(bars, start, end);
    SeriesOfMap(RAW_TIME, window);
    assert t in window && window[t] in InTimeOrder(window);
    KeptRows(InTimeOrder(window), Served(bars, start, end)[t]);
  }

  lemma {:induction false} IncreasingIsSorted(bars: seq<Bar>)
    requires forall i, j | 0 <= i < j < |bars| :: BAR_TIME(bars[i]) < BAR_TIME(bars[j])
    ensures Sort(bars, TIME_KEY) == bars
  {
    forall x, y | x in bars && y in bars && TIME_KEY(x) == TIME_KEY(y) ensures x == y {
      var i :| 0 <= i < |bars| && bars[i] == x;
      var j :| 0 <= j < |bars| && bars[j] == y;
      assert BAR_TIME(bars[i]) == BAR_TIME(bars[j]);
      assert i == j;
    }
    assert forall i, j | 0 <= i < j < |bars| :: BAR_TIME(bars[i]) < BAR_TIME(bars[j]);
    SortOfSorted(bars, TIME_KEY);
  }

  // ---- the override merge ----

  /** The last bar of each timestamp. */
  function LastBars(bars: seq<Bar>): map<int, Bar> {
    if bars == [] then map[]
    else if bars[0].time in LastBars(bars[1..]) then LastBars(bars[1..])
    else LastBars(bars[1..])[bars[0].time := bars[0]]
  }

  function KeepLast(bars: seq<Bar>): seq<Bar> {
    if bars == [] then []
    else if exists b :: b in bars[1..] && b.time == bars[0].time then KeepLast(bars[1..])
    else [bars[0]] + KeepLast(bars[1..])
  }

  function MergeBars(existing: seq<Bar>, incoming: seq<Bar>): seq<Bar> {
    Sort(KeepLast(existing + incoming), TIME_KEY)
  }

  lemma {:induction false} LastBarsKeys(bars: seq<Bar>, t: int)
    ensures t in LastBars(bars) <==> exists b :: b in bars && b.time == t
    ensures t in LastBars(bars) ==> LastBars(bars)[t].time == t && LastBars(bars)[t] in bars
  {
    if bars != [] {
      LastBarsKeys(bars[1..], t);
      LastBarsKeys(bars[1..], bars[0].time);
      assert forall b | b in bars[1..] :: b in bars;
      assert forall b | b in bars :: b == bars[0] || b in bars[1..];
    }
  }

  lemma {:induction false} KeepLastMembers(bars: seq<Bar>, b: Bar)
    ensures b in KeepLast(bars) <==> b.time in LastBars(bars) && LastBars(bars)[b.time] == b
  {
    if bars != [] {
      KeepLastMembers(bars[1..], b);
      LastBarsKeys(bars[1..], bars[0].time);
      LastBarsKeys(bars[1..], b.time);
    }
  }

  ghost predicate TimesDiffer(bars: seq<Bar>) {
    forall i, j | 0 <= i < j < |bars| :: bars[i].time != bars[j].time
  }

  lemma {:induction false} KeepLastDiffers(bars: seq<Bar>)
    ensures TimesDiffer(KeepLast(bars))
  {
    if bars != [] {
      KeepLastDiffers(bars[1..]);
      LastBarsKeys(bars[1..], bars[0].time);
      forall b | b in KeepLast(bars[1..]) ensures b.time in LastBars(bars[1..]) {
        KeepLastMembers(bars[1..], b);
      }
    }
  }

  lemma SortedTimes(bars: seq<Bar>, sorted: seq<Bar>)
    requires TimesDiffer(bars) && multiset(sorted) == multiset(bars) && Sorted(sorted, TIME_KEY)
    ensures forall i, j | 0 <= i < j < |sorted| :: BAR_TIME(sorted[i]) < BAR_TIME(sorted[j])
  {
    forall x, y | x in bars && y in bars && TIME_KEY(x) == TIME_KEY(y) ensures x == y {
    }
    forall i, j | 0 <= i < j < |bars| ensures bars[i] != bars[j] {
      assert bars[i].time != bars[j].time;
    }
    PermutationDistinct(bars, sorted);
    SameMembers(bars, sorted);
    forall i, j | 0 <= i < j < |sorted| ensures BAR_TIME(sorted[i]) < BAR_TIME(sorted[j]) {
      assert AtMost(TIME_KEY(sorted[i]), TIME_KEY(sorted[j]));
      assert sorted[i] in bars && sorted[j] in bars && sorted[i] != sorted[j];
    }
  }

  lemma {:induction false} LastBarsConcat(a: seq<Bar>, b: seq<Bar>)
    ensures LastBars(a + b) == LastBars(a) + LastBars(b)
  {
    if a == [] {
      assert a + b == b;
    } else {
      LastBarsConcat(a[1..], b);
      assert (a + b)[1..] == a[1..] + b;
      assert (a + b)[0] == a[0];
    }
  }

  /** Merging is overriding: the incoming bar wins, and the result is in time order without duplicates. */
  lemma {:induction false} MergeIsOverride(existing: seq<Bar>, incoming: seq<Bar>)
    ensures MergeBars(existing, incoming) == InTimeOrder(LastBars(existing) + LastBars(incoming))
  {
    var all := existing + incoming;
    var kept, merged, last := KeepLast(all), MergeBars(existing, incoming), LastBars(all);
    KeepLastDiffers(all);
    SortedTimes(kept, merged);
    SameMembers(kept, merged);
    forall b | b in merged ensures BAR_TIME(b) in last && last[BAR_TIME(b)] == b {
      KeepLastMembers(all, b);
    }
    forall t | t in last ensures last[t] in merged && BAR_TIME(last[t]) == t {
      LastBarsKeys(all, t);
      KeepLastMembers(all, last[t]);
    }
    SeriesUnique(merged, BAR_TIME, last);
    LastBarsConcat(existing, incoming);
  }

  /** A series without duplicates is recovered from the map it lists. */
  lemma LastBarsOfSeries(m: map<int, Bar>)
    requires forall t | t in m :: m[t].time == t
    ensures LastBars(InTimeOrder(m)) == m
  {
    var s := InTimeOrder(m);
    SeriesOfMap(BAR_TIME, m);
    var last := LastBars(s);
    forall t ensures t in last <==> t in m {
      LastBarsKeys(s, t);
      if t in m {
        assert m[t] in s;
      }
    }
    forall t | t in last && t in m ensures last[t] == m[t] {
      LastBarsKeys(s, t);
      assert last[t] in s && BAR_TIME(last[t]) == t;
    }
    SameMap(last, m);
  }
}
