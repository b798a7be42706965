/** When refreshing a stored file gives the file a complete refetch would have written. A refresh replaces what it
    queries and keeps the rest, so everything turns on the days before its restart day: it never
    looks at them again. */
module RefreshExactness {
  import opened Wrappers
  import opened FiniteSums
  import opened BarHistory
  import opened IncrementalRefresh

  lemma {:induction false} LatestIsStored(file: seq<Bar>)
    requires file != []
    ensures Latest(file) in LastBars(file)
    ensures forall t | t in LastBars(file) :: t <= Latest(file)
  {
    LastBarsKeys(file, Latest(file));
    forall t | t in LastBars(file) ensures t <= Latest(file) {
      LastBarsKeys(file, t);
    }
  }

  lemma RestartBounds(latest: int, end: int)
    ensures Day(latest) <= RestartDay(latest, end) <= Day(latest) + 1
    ensures RestartDay(latest, end) == Day(latest) + 1 <==> Day(latest) < end && Clock(latest) >= SESSION_CLOSE
  {
  }

  /** What the query of a refresh brings back. */
  ghost function Requeried(file: seq<Bar>, bars: map<int, RawBar>, end: int): map<int, Bar>
    requires file != []
  {
    Served(bars, RestartDay(Latest(file), end), end)
  }

  /** Every stored bar is replaced by the query or is the one a refetch would store. */
  ghost predicate KeepsServedBars(file: seq<Bar>, bars: map<int, RawBar>, start: int, end: int)
    requires file != []
  {
    forall t | t in LastBars(file) && t !in Requeried(file, bars, end) ::
      t in Served(bars, start, end) && Served(bars, start, end)[t] == LastBars(file)[t]
  }

  /** A served bar of a day the refresh does not query again is not in the file. */
  ghost predicate HasHole(file: seq<Bar>, bars: map<int, RawBar>, start: int, end: int)
    requires file != []
  {
    exists t :: t in Served(bars, start, end) && Day(t) < RestartDay(Latest(file), end) && t !in LastBars(file)
  }

  /** Whatever the file holds and the provider serves now: the exact condition for a refresh to give
      the refetched bars. */
  lemma {:induction false} RefreshIsRefetchIff(file: seq<Bar>, bars: map<int, RawBar>, start: int, end: int)
    requires file != []
    ensures Refreshed(file, bars, end) == Served(bars, start, end)
            <==> && start <= Day(Latest(file)) && KeepsServedBars(file, bars, start, end)
                 && !HasHole(file, bars, start, end)
  {
    var refreshed, served := Refreshed(file, bars, end), Served(bars, start, end);
    LatestIsStored(file);
    RestartBounds(Latest(file), end);
    if refreshed == served {
      assert Latest(file) in refreshed;
      forall t | t in LastBars(file) && t !in Requeried(file, bars, end)
        ensures t in served && served[t] == LastBars(file)[t]
      {
        assert t in refreshed;
      }
      forall t | t in served && Day(t) < RestartDay(Latest(file), end) ensures t in LastBars(file) {
        assert t in refreshed;
      }
    } else if start <= Day(Latest(file)) && KeepsServedBars(file, bars, start, end) && !HasHole(file, bars, start, end)
    {
      forall t ensures t in refreshed <==> t in served {
      }
      SameMap(refreshed, served);
    }
  }

  /** The provider still serves every stored bar as it is stored. */
  ghost predicate StillServed(file: seq<Bar>, bars: map<int, RawBar>) {
    forall t | t in LastBars(file) :: t in bars && Usable(bars[t]) && Normal(bars[t]) == LastBars(file)[t]
  }

  ghost predicate Within(file: seq<Bar>, start: int, end: int) {
    forall t | t in LastBars(file) :: start <= Day(t) <= end
  }

  /** If nothing stored was withdrawn or corrected, a refresh is a refetch exactly when the file lies in the range and
      has no hole. */
  lemma RefreshOfServedIff(file: seq<Bar>, bars: map<int, RawBar>, start: int, end: int)
    requires file != [] && StillServed(file, bars)
    ensures Refreshed(file, bars, end) == Served(bars, start, end)
            <==> Within(file, start, end) && !HasHole(file, bars, start, end)
  {
    RefreshIsRefetchIff(file, bars, start, end);
    LatestIsStored(file);
    RestartBounds(Latest(file), end);
    if Refreshed(file, bars, end) == Served(bars, start, end) {
      forall t | t in LastBars(file) ensures start <= Day(t) <= end {
        assert t in Refreshed(file, bars, end);
      }
    }
  }

  // ---- files without a hole ----

  /** The usable bars from a first day up to an instant. */
  function UpTo(bars: map<int, RawBar>, start: int, cut: int): map<int, Bar> {
    map t | t in bars && start <= Day(t) && t <= cut && Usable(bars[t]) :: Normal(bars[t])
  }

  /** The file holds exactly what the provider serves from the first day up to the file's last bar. */
  ghost predicate ExactPrefix(file: seq<Bar>, bars: map<int, RawBar>, start: int) {
    file != [] && file == InTimeOrder(UpTo(bars, start, Latest(file)))
  }

  /** The stored day is over, the next fetch skips it, yet the provider has later bars of that day. */
  ghost predicate LosesLateBars(bars: map<int, RawBar>, latest: int, end: int) {
    && Day(latest) < end && Clock(latest) >= SESSION_CLOSE
    && exists t :: t in bars && Usable(bars[t]) && Day(t) == Day(latest) && t > latest
  }

  lemma UpToTimes(bars: map<int, RawBar>, start: int, cut: int)
    requires ValidBars(bars)
    ensures forall t | t in UpTo(bars, start, cut) :: UpTo(bars, start, cut)[t].time == t
  {
  }

  lemma {:induction false} ExactLatest(file: seq<Bar>, bars: map<int, RawBar>, start: int)
    requires ValidBars(bars) && ExactPrefix(file, bars, start)
    ensures LastBars(file) == UpTo(bars, start, Latest(file))
    ensures Latest(file) in UpTo(bars, start, Latest(file))
  {
    UpToTimes(bars, start, Latest(file));
    LastBarsOfSeries(UpTo(bars, start, Latest(file)));
    LatestIsStored(file);
  }

  /** The only hole of an exact prefix is a late bar. */
  lemma {:induction false} HoleIsLateBar(file: seq<Bar>, bars: map<int, RawBar>, start: int, end: int)
    requires ValidBars(bars) && ExactPrefix(file, bars, start)
    ensures HasHole(file, bars, start, end) <==> LosesLateBars(bars, Latest(file), end)
  {
    var latest := Latest(file);
    ExactLatest(file, bars, start);
    RestartBounds(latest, end);
    if HasHole(file, bars, start, end) {
      var t :| t in Served(bars, start, end) && Day(t) < RestartDay(latest, end) && t !in LastBars(file);
      DayMonotone(latest, t);
    }
    if LosesLateBars(bars, latest, end) {
      var t :| t in bars && Usable(bars[t]) && Day(t) == Day(latest) && t > latest;
      assert t in Served(bars, start, end);
    }
  }

  /** A refresh of an exact prefix is a refetch exactly when the file does not reach past the end date and no late bar
      is lost. */
  lemma {:induction false} ExactPrefixRefreshIff(file: seq<Bar>, bars: map<int, RawBar>, start: int, end: int)
    requires ValidBars(bars) && ExactPrefix(file, bars, start)
    ensures Refreshed(file, bars, end) == Served(bars, start, end)
            <==> Day(Latest(file)) <= end && !LosesLateBars(bars, Latest(file), end)
  {
    ExactLatest(file, bars, start);
    HoleIsLateBar(file, bars, start, end);
    RefreshOfServedIff(file, bars, start, end);
    forall t | t in LastBars(file) ensures start <= Day(t) <= Day(Latest(file)) {
      DayMonotone(t, Latest(file));
    }
  }

  /** No bar is stamped after the close of its session. */
  ghost predicate SessionsEndAtClose(bars: map<int, RawBar>) {
    forall t | t in bars && Usable(bars[t]) :: Clock(t) <= SESSION_CLOSE
  }

  lemma NothingIsLate(bars: map<int, RawBar>, latest: int, end: int)
    requires SessionsEndAtClose(bars)
    ensures !LosesLateBars(bars, latest, end)
  {
    forall t | t in bars && Usable(bars[t]) && Day(t) == Day(latest) && t > latest
      ensures Clock(latest) < SESSION_CLOSE
    {
      DayMonotone(latest, t);
    }
  }

  // ---- what a provider may change without harm ----

  /** The provider has neither changed a day before the restart day nor withdrawn a bar since. */
  ghost predicate NoNewsBehind(before: map<int, RawBar>, after: map<int, RawBar>, start: int, end: int, restart: int,
                               later: int) {
    && Served(before, start, restart - 1) == Served(after, start, restart - 1)
    && Served(before, restart, end).Keys <= Served(after, restart, later).Keys
  }

  lemma {:induction false} RefetchedLatest(file: seq<Bar>, before: map<int, RawBar>, start: int, end: int)
    requires ValidBars(before) && file != [] && file == InTimeOrder(Served(before, start, end))
    ensures LastBars(file) == Served(before, start, end)
    ensures start <= Day(Latest(file)) <= end && Latest(file) in Served(before, start, end)
  {
    LastBarsOfSeries(Served(before, start, end));
    LatestIsStored(file);
  }

  lemma {:induction false} ChangesShow(file: seq<Bar>, before: map<int, RawBar>, after: map<int, RawBar>, start: int,
                                       end: int, later: int)
    requires file != [] && LastBars(file) == Served(before, start, end) && start <= Day(Latest(file)) <= end
    requires Refreshed(file, after, later) == Served(after, start, later)
    ensures NoNewsBehind(before, after, start, end, RestartDay(Latest(file), later), later)
  {
    var restart := RestartDay(Latest(file), later);
    RestartBounds(Latest(file), later);
    LatestIsStored(file);
    assert Latest(file) in Refreshed(file, after, later);
    SettledDaysAgree(before, after, start, end, restart, later);
    StoredStaysServed(file, before, after, start, end, later);
  }

  lemma {:induction false} StoredStaysServed(file: seq<Bar>, before: map<int, RawBar>, after: map<int, RawBar>,
                                             start: int, end: int, later: int)
    requires file != [] && LastBars(file) == Served(before, start, end) && start <= RestartDay(Latest(file), later)
    requires Refreshed(file, after, later) == Served(after, start, later)
    ensures forall t | t in Served(before, RestartDay(Latest(file), later), end) ::
              t in Served(after, RestartDay(Latest(file), later), later)
  {
    forall t | t in Served(before, RestartDay(Latest(file), later), end)
      ensures t in Served(after, RestartDay(Latest(file), later), later)
    {
      assert t in Refreshed(file, after, later);
      assert t in Served(after, start, later);
    }
  }

  lemma SettledDaysAgree(before: map<int, RawBar>, after: map<int, RawBar>, start: int, end: int, restart: int,
                         later: int)
    requires restart - 1 <= end && restart - 1 <= later
    requires Served(before, start, end) + Served(after, restart, later) == Served(after, start, later)
    ensures Served(before, start, restart - 1) == Served(after, start, restart - 1)
  {
    var all := Served(before, start, end) + Served(after, restart, later);
    var a, b := Served(before, start, restart - 1), Served(after, start, restart - 1);
    forall t ensures t in a <==> t in b {
      assert t in a ==> t in all && t !in Served(after, restart, later);
      assert t in b ==> t in Served(after, start, later) && t !in Served(after, restart, later);
    }
    forall t | t in a && t in b ensures a[t] == b[t] {
      assert t in all && all[t] == Served(before, start, end)[t];
      assert Served(after, start, later)[t] == b[t];
    }
    SameMap(a, b);
  }

  lemma {:induction false} NoNewsReaches(file: seq<Bar>, before: map<int, RawBar>, after: map<int, RawBar>, start: int,
                                         end: int, later: int)
    requires file != [] && LastBars(file) == Served(before, start, end) && start <= Day(Latest(file)) <= end
    requires NoNewsBehind(before, after, start, end, RestartDay(Latest(file), later), later)
    ensures Day(Latest(file)) <= later && RestartDay(Latest(file), later) - 1 <= later
  {
    RestartBounds(Latest(file), later);
    LatestIsStored(file);
    if RestartDay(Latest(file), later) == Day(Latest(file)) {
      assert Latest(file) in Served(before, RestartDay(Latest(file), later), end);
    }
  }

  lemma {:induction false} NoNewsKeepsBars(file: seq<Bar>, before: map<int, RawBar>, after: map<int, RawBar>,
                                           start: int, end: int, later: int)
    requires file != [] && LastBars(file) == Served(before, start, end) && start <= Day(Latest(file)) <= end
    requires NoNewsBehind(before, after, start, end, RestartDay(Latest(file), later), later)
    ensures KeepsServedBars(file, after, start, later)
  {
    var restart := RestartDay(Latest(file), later);
    NoNewsReaches(file, before, after, start, end, later);
    forall t | t in LastBars(file) && t !in Requeried(file, after, later)
      ensures t in Served(after, start, later) && Served(after, start, later)[t] == LastBars(file)[t]
    {
      assert t !in Served(before, restart, end);
      assert t in Served(before, start, restart - 1);
      assert t in Served(after, start, restart - 1);
    }
  }

  lemma {:induction false} NoNewsNoHole(file: seq<Bar>, before: map<int, RawBar>, after: map<int, RawBar>, start: int,
                                        end: int, later: int)
    requires file != [] && LastBars(file) == Served(before, start, end) && start <= Day(Latest(file)) <= end
    requires NoNewsBehind(before, after, start, end, RestartDay(Latest(file), later), later)
    ensures !HasHole(file, after, start, later)
  {
    var restart := RestartDay(Latest(file), later);
    RestartBounds(Latest(file), later);
    forall t | t in Served(after, start, later) && Day(t) < restart ensures t in LastBars(file) {
      assert t in Served(after, start, restart - 1);
      assert t in Served(before, start, restart - 1);
    }
  }

  /** A refetched file, refreshed later, is the refetch again exactly when nothing changed where the refresh does not
      look. */
  lemma {:induction false} RefetchStaysRefetchIff(file: seq<Bar>, before: map<int, RawBar>, after: map<int, RawBar>,
                                                  start: int, end: int, later: int)
    requires ValidBars(before) && file != [] && file == InTimeOrder(Served(before, start, end))
    ensures Refreshed(file, after, later) == Served(after, start, later)
            <==> NoNewsBehind(before, after, start, end, RestartDay(Latest(file), later), later)
  {
    RefetchedLatest(file, before, start, end);
    if Refreshed(file, after, later) == Served(after, start, later) {
      ChangesShow(file, before, after, start, end, later);
    } else if NoNewsBehind(before, after, start, end, RestartDay(Latest(file), later), later) {
      NoNewsKeepsBars(file, before, after, start, end, later);
      NoNewsNoHole(file, before, after, start, end, later);
      RefreshIsRefetchIff(file, after, start, later);
    }
  }

  // ---- what a whole fetch leaves in the file ----

  /** In time order, one bar per timestamp: the form every fetch writes. */
  ghost predicate Tidy(file: seq<Bar>) {
    file == InTimeOrder(LastBars(file))
  }

  lemma TidyOrder(m: map<int, Bar>)
    requires forall t | t in m :: m[t].time == t
    ensures Tidy(InTimeOrder(m)) && LastBars(InTimeOrder(m)) == m
  {
    LastBarsOfSeries(m);
  }

  /** A tidy file is the one that lists a map exactly when it holds that map. */
  lemma {:induction false} TidyFilesAgreeIff(file: seq<Bar>, m: map<int, Bar>)
    requires Tidy(file) && forall t | t in m :: m[t].time == t
    ensures file == InTimeOrder(m) <==> LastBars(file) == m
  {
    TidyOrder(m);
  }

  lemma RefreshedTimes(file: seq<Bar>, bars: map<int, RawBar>, end: int)
    requires file != [] && ValidBars(bars)
    ensures forall t | t in Refreshed(file, bars, end) :: Refreshed(file, bars, end)[t].time == t
  {
    forall t | t in LastBars(file) ensures LastBars(file)[t].time == t {
      LastBarsKeys(file, t);
    }
  }

  lemma NothingServed(bars: map<int, RawBar>, start: int, end: int)
    requires Window(bars, start, end) == map[]
    ensures Served(bars, start, end) == map[]
  {
    forall t ensures t !in Served(bars, start, end) {
      assert t !in Window(bars, start, end);
    }
  }

  lemma PlusNothing(m: map<int, Bar>, n: map<int, Bar>)
    requires n == map[]
    ensures m + n == m
  {
  }

  /** Whenever a refresh answers, by storing or by skipping an empty answer, the file holds the refreshed bars. */
  lemma RefreshStores(file: seq<Bar>, provider: Provider, start: int, end: int, cfg: Config)
    requires file != [] && ValidBars(provider.bars)
    requires IsRefresh(Some(file), cfg) && !ShouldSkip(Some(file), cfg, end)
    requires Fetch(Some(file), provider, start, end, cfg).0.Ok?
    ensures var after := Fetch(Some(file), provider, start, end, cfg).1;
      after.Some? && LastBars(after.value) == Refreshed(file, provider.bars, end) && (Tidy(file) ==> Tidy(after.value))
  {
    var from := RestartDay(Latest(file), end);
    AbsorbedFile(Some(file), provider.bars, start, end, cfg);
    if Window(provider.bars, from, end) == map[] {
      NothingServed(provider.bars, from, end);
      PlusNothing(LastBars(file), Served(provider.bars, from, end));
    } else {
      RefreshedTimes(file, provider.bars, end);
      TidyOrder(Refreshed(file, provider.bars, end));
    }
  }

  /** A refresh that answers leaves the file a full query from the first day would have written, exactly under the
      conditions of a refetch. */
  lemma {:induction false} RefreshStoresTheRefetchIff(file: seq<Bar>, provider: Provider, start: int, end: int,
                                                      cfg: Config)
    requires file != [] && Tidy(file) && ValidBars(provider.bars)
    requires IsRefresh(Some(file), cfg) && !ShouldSkip(Some(file), cfg, end)
    requires Fetch(Some(file), provider, start, end, cfg).0.Ok?
    ensures Fetch(Some(file), provider, start, end, cfg).1 == Some(InTimeOrder(Served(provider.bars, start, end)))
            <==> && start <= Day(Latest(file)) && KeepsServedBars(file, provider.bars, start, end)
                 && !HasHole(file, provider.bars, start, end)
  {
    RefreshStores(file, provider, start, end, cfg);
    RefreshIsRefetchIff(file, provider.bars, start, end);
    TidyFilesAgreeIff(Fetch(Some(file), provider, start, end, cfg).1.value, Served(provider.bars, start, end));
  }

  // ---- two inputs on which a refresh is not a refetch ----

  function Flat(time: int): RawBar {
    RawBar(time, Some(1.0), Some(1.0), Some(1.0), Some(1.0), Some(0.0), Some(0.0))
  }

  const LATE_DAY: map<int, RawBar> :=
    map[SESSION_CLOSE := Flat(SESSION_CLOSE), SESSION_CLOSE + 300 := Flat(SESSION_CLOSE + 300)]
  const STORED_TO_CLOSE: seq<Bar> := [Normal(Flat(SESSION_CLOSE))]

  lemma OneBar(b: Bar)
    ensures LastBars([b]) == map[b.time := b] && Latest([b]) == b.time && Tidy([b])
  {
    var m := map[b.time := b];
    assert LastBars([b]) == m;
    assert m[BAR_TIME(b)] == b;
    SeriesUnique([b], BAR_TIME, m);
  }

  /** A bar five minutes after the close, of a day already stored up to the close, is lost by every later refresh. */
  lemma LateBarIsLost()
    ensures ValidBars(LATE_DAY) && ExactPrefix(STORED_TO_CLOSE, LATE_DAY, 0)
    ensures Refreshed(STORED_TO_CLOSE, LATE_DAY, 1) != Served(LATE_DAY, 0, 1)
  {
    OneBar(STORED_TO_CLOSE[0]);
    assert SESSION_CLOSE in LATE_DAY;
    SameMap(UpTo(LATE_DAY, 0, SESSION_CLOSE), LastBars(STORED_TO_CLOSE));
    assert SESSION_CLOSE + 300 in LATE_DAY && Usable(LATE_DAY[SESSION_CLOSE + 300]);
    assert LosesLateBars(LATE_DAY, SESSION_CLOSE, 1);
    ExactPrefixRefreshIff(STORED_TO_CLOSE, LATE_DAY, 0, 1);
  }

  const MORNING := 36000
  const FULL_DAY: map<int, RawBar> :=
    map[MORNING := Flat(MORNING), MORNING + 300 := Flat(MORNING + 300), SESSION_CLOSE := Flat(SESSION_CLOSE)]
  const DAY_WITH_HOLE: seq<Bar> := [Normal(Flat(MORNING)), Normal(Flat(SESSION_CLOSE))]

  lemma DayWithHole()
    ensures Latest(DAY_WITH_HOLE) == SESSION_CLOSE
    ensures forall t :: t in LastBars(DAY_WITH_HOLE) <==> t == MORNING || t == SESSION_CLOSE
    ensures LastBars(DAY_WITH_HOLE)[MORNING] == Normal(Flat(MORNING))
    ensures LastBars(DAY_WITH_HOLE)[SESSION_CLOSE] == Normal(Flat(SESSION_CLOSE))
  {
    assert DAY_WITH_HOLE[1..] == [Normal(Flat(SESSION_CLOSE))];
    OneBar(Normal(Flat(SESSION_CLOSE)));
  }

  lemma FullDay()
    ensures ValidBars(FULL_DAY) && SessionsEndAtClose(FULL_DAY)
    ensures forall t :: t in FULL_DAY <==> t == MORNING || t == MORNING + 300 || t == SESSION_CLOSE
    ensures forall t | t in FULL_DAY :: FULL_DAY[t] == Flat(t) && Usable(FULL_DAY[t])
  {
  }

  /** A stored day that misses a bar the provider serves now: nothing stored was withdrawn, corrected or late, yet the
      refresh of the next day leaves the hole. */
  lemma HoleIsNotFilled()
    ensures ValidBars(FULL_DAY) && SessionsEndAtClose(FULL_DAY)
    ensures StillServed(DAY_WITH_HOLE, FULL_DAY) && Within(DAY_WITH_HOLE, 0, 1)
    ensures Refreshed(DAY_WITH_HOLE, FULL_DAY, 1) != Served(FULL_DAY, 0, 1)
  {
    DayWithHole();
    FullDay();
    var t := MORNING + 300;
    assert t in Served(FULL_DAY, 0, 1) && Day(t) < RestartDay(Latest(DAY_WITH_HOLE), 1);
    RefreshOfServedIff(DAY_WITH_HOLE, FULL_DAY, 0, 1);
  }
}
