/** Whole runs of fetch attempts on one symbol. The provider may answer anything at every attempt: late,
    back-filled, corrected or withdrawn bars included. */
module RefreshRuns {
  import opened Wrappers
  import opened FiniteSums
  import opened BarHistory
  import opened IncrementalRefresh
  import opened RefreshExactness

  /** One attempt: when it happens, what the provider answers then, the first day asked for, and its settings. */
  datatype Attempt = Attempt(now: int, provider: Provider, start: int, cfg: Config)

  ghost function Answer(file: Option<seq<Bar>>, a: Attempt): (Result<Outcome, FetchError>, Option<seq<Bar>>)
    requires Readable(file)
  {
    Fetch(file, a.provider, a.start, Day(a.now), a.cfg)
  }

  ghost function After(file: Option<seq<Bar>>, a: Attempt): (after: Option<seq<Bar>>)
    requires Readable(file)
    ensures Readable(after)
  {
    AbsorbedFile(file, a.provider.bars, a.start, Day(a.now), a.cfg);
    Answer(file, a).1
  }

  ghost function AfterAll(file: Option<seq<Bar>>, attempts: seq<Attempt>): (after: Option<seq<Bar>>)
    requires Readable(file)
    ensures Readable(after)
  {
    if attempts == [] then file else After(AfterAll(file, attempts[..|attempts| - 1]), attempts[|attempts| - 1])
  }

  ghost predicate AllValid(attempts: seq<Attempt>) {
    forall a | a in attempts :: ValidBars(a.provider.bars)
  }

  /** The attempt asked the provider and got an answer. */
  ghost predicate Replied(file: Option<seq<Bar>>, a: Attempt)
    requires Readable(file)
  {
    Answer(file, a).0.Ok? && !ShouldSkip(file, a.cfg, Day(a.now))
  }

  lemma NoReplyKeeps(file: Option<seq<Bar>>, a: Attempt)
    requires Readable(file) && !Replied(file, a)
    ensures After(file, a) == file
  {
    AbsorbedFile(file, a.provider.bars, a.start, Day(a.now), a.cfg);
  }

  lemma ReplyIsAbsorbed(file: Option<seq<Bar>>, a: Attempt)
    requires Readable(file) && Replied(file, a)
    ensures Answer(file, a) == Absorbed(file, a.provider.bars, a.start, Day(a.now), a.cfg)
  {
  }

  /** An attempt leaves the file alone, or leaves the new bars of its query in time order. */
  lemma AttemptKeepsOrStores(file: Option<seq<Bar>>, a: Attempt)
    requires Readable(file)
    ensures After(file, a) != file ==>
      && After(file, a) == Some(InTimeOrder(NewBars(file, a.provider.bars, a.start, Day(a.now), a.cfg)))
      && Served(a.provider.bars, FetchStart(file, a.start, Day(a.now), a.cfg), Day(a.now)) != map[]
  {
    if !Replied(file, a) {
      NoReplyKeeps(file, a);
    } else {
      ReplyIsAbsorbed(file, a);
      AbsorbedFile(file, a.provider.bars, a.start, Day(a.now), a.cfg);
    }
  }

  // ---- where a stored bar comes from ----

  ghost predicate Serves(provider: Provider, b: Bar) {
    b.time in provider.bars && Usable(provider.bars[b.time]) && Normal(provider.bars[b.time]) == b
  }

  lemma NewBarsAreServed(file: Option<seq<Bar>>, a: Attempt)
    requires Readable(file) && ValidBars(a.provider.bars)
    ensures var bars := NewBars(file, a.provider.bars, a.start, Day(a.now), a.cfg);
      forall t | t in bars ::
        bars[t].time == t && ((file.Some? && bars[t] in file.value) || Serves(a.provider, bars[t]))
  {
    var bars := NewBars(file, a.provider.bars, a.start, Day(a.now), a.cfg);
    forall t | t in bars
      ensures bars[t].time == t && ((file.Some? && bars[t] in file.value) || Serves(a.provider, bars[t]))
    {
      if IsRefresh(file, a.cfg) {
        LastBarsKeys(file.value, t);
      }
    }
  }

  lemma AttemptStoresServed(file: Option<seq<Bar>>, a: Attempt)
    requires Readable(file) && ValidBars(a.provider.bars)
    ensures After(file, a).Some? ==>
      forall b | b in After(file, a).value :: (file.Some? && b in file.value) || Serves(a.provider, b)
    ensures (file.Some? ==> Tidy(file.value)) ==> After(file, a).Some? ==> Tidy(After(file, a).value)
  {
    AttemptKeepsOrStores(file, a);
    if After(file, a) != file {
      var bars := NewBars(file, a.provider.bars, a.start, Day(a.now), a.cfg);
      NewBarsAreServed(file, a);
      TidyOrder(bars);
      SeriesOfMap(BAR_TIME, bars);
    }
  }

  /** Whatever the provider answers, a stored bar was stored before the run or served as it is by some attempt, and the
      file is always in time order with one bar per timestamp. */
  lemma {:induction false} EveryBarWasServed(file: Option<seq<Bar>>, attempts: seq<Attempt>)
    requires Readable(file) && AllValid(attempts)
    ensures AfterAll(file, attempts).Some? ==>
      forall b | b in AfterAll(file, attempts).value ::
        (file.Some? && b in file.value) || exists a :: a in attempts && Serves(a.provider, b)
    ensures (file.Some? ==> Tidy(file.value)) && AfterAll(file, attempts).Some? ==> Tidy(AfterAll(file, attempts).value)
  {
    if attempts != [] {
      var init, last := attempts[..|attempts| - 1], attempts[|attempts| - 1];
      EveryBarWasServed(file, init);
      AttemptStoresServed(AfterAll(file, init), last);
      forall a | a in init ensures a in attempts {
      }
    }
  }

  // ---- the past is frozen ----

  ghost predicate OnlyRefreshes(attempts: seq<Attempt>) {
    forall a | a in attempts :: a.cfg.incremental && !a.cfg.force
  }

  /** Both files hold the same bars on the days before a day. */
  ghost predicate SamePast(a: seq<Bar>, b: seq<Bar>, day: int) {
    forall t | Day(t) < day ::
      (t in LastBars(a) <==> t in LastBars(b)) && (t in LastBars(a) ==> LastBars(a)[t] == LastBars(b)[t])
  }

  lemma {:induction false} RefreshedPast(file: seq<Bar>, bars: map<int, RawBar>, end: int, t: int)
    requires file != [] && Day(t) < Day(Latest(file))
    ensures t in Refreshed(file, bars, end) <==> t in LastBars(file)
    ensures t in LastBars(file) ==> Refreshed(file, bars, end)[t] == LastBars(file)[t]
  {
    RestartBounds(Latest(file), end);
    assert t !in Served(bars, RestartDay(Latest(file), end), end);
  }

  lemma {:induction false} RefreshedLatest(file: seq<Bar>, bars: map<int, RawBar>, end: int)
    requires file != [] && ValidBars(bars)
    ensures var after := InTimeOrder(Refreshed(file, bars, end));
      after != [] && LastBars(after) == Refreshed(file, bars, end) && Latest(file) <= Latest(after)
  {
    var refreshed := Refreshed(file, bars, end);
    RefreshedTimes(file, bars, end);
    TidyOrder(refreshed);
    LatestIsStored(file);
    assert Latest(file) in refreshed;
    EmptyInTimeOrder(refreshed);
    LatestIsStored(InTimeOrder(refreshed));
  }

  lemma {:induction false} RefreshKeepsPast(file: seq<Bar>, a: Attempt)
    requires file != [] && ValidBars(a.provider.bars) && a.cfg.incremental && !a.cfg.force
    ensures After(Some(file), a).Some? && SamePast(file, After(Some(file), a).value, Day(Latest(file)))
    ensures Latest(file) <= Latest(After(Some(file), a).value)
  {
    AttemptKeepsOrStores(Some(file), a);
    if After(Some(file), a) != Some(file) {
      RefreshedLatest(file, a.provider.bars, Day(a.now));
      forall t | Day(t) < Day(Latest(file))
        ensures t in Refreshed(file, a.provider.bars, Day(a.now)) <==> t in LastBars(file)
        ensures t in LastBars(file) ==> Refreshed(file, a.provider.bars, Day(a.now))[t] == LastBars(file)[t]
      {
        RefreshedPast(file, a.provider.bars, Day(a.now), t);
      }
    }
  }

  /** However often a stored file is refreshed and whatever the provider back-fills or corrects, the days before the
      file's last day never change again. */
  lemma {:induction false} PastIsFrozen(file: seq<Bar>, attempts: seq<Attempt>)
    requires file != [] && AllValid(attempts) && OnlyRefreshes(attempts)
    ensures var after := AfterAll(Some(file), attempts);
      after.Some? && SamePast(file, after.value, Day(Latest(file))) && Latest(file) <= Latest(after.value)
  {
    if attempts != [] {
      var init, last := attempts[..|attempts| - 1], attempts[|attempts| - 1];
      PastIsFrozen(file, init);
      var middle := AfterAll(Some(file), init).value;
      RefreshKeepsPast(middle, last);
      DayMonotone(Latest(file), Latest(middle));
    }
  }

  // ---- when the file stays what a refetch would give ----

  /** What the provider served, and from which to which day, when it last answered. */
  datatype View = View(bars: map<int, RawBar>, start: int, end: int)

  ghost predicate Whole(file: Option<seq<Bar>>, view: View) {
    file.Some? ==> file.value == InTimeOrder(Served(view.bars, view.start, view.end))
  }

  ghost function NextView(file: Option<seq<Bar>>, view: View, a: Attempt): View
    requires Readable(file)
  {
    if !Replied(file, a) then view
    else View(a.provider.bars, if IsRefresh(file, a.cfg) then view.start else a.start, Day(a.now))
  }

  /** An answered refresh meets a provider that changed nothing where it does not look. */
  ghost predicate NoNews(file: Option<seq<Bar>>, view: View, a: Attempt)
    requires Readable(file)
  {
    Replied(file, a) && IsRefresh(file, a.cfg) ==>
      NoNewsBehind(view.bars, a.provider.bars, view.start, view.end,
                   RestartDay(Latest(file.value), Day(a.now)), Day(a.now))
  }

  lemma FullAnswer(file: Option<seq<Bar>>, a: Attempt)
    requires Readable(file) && Replied(file, a) && !IsRefresh(file, a.cfg)
    ensures After(file, a) == Some(InTimeOrder(Served(a.provider.bars, a.start, Day(a.now))))
  {
    ReplyIsAbsorbed(file, a);
    AbsorbedFile(file, a.provider.bars, a.start, Day(a.now), a.cfg);
  }

  lemma {:induction false} RefreshKeepsWholeIff(file: seq<Bar>, view: View, a: Attempt)
    requires file != [] && ValidBars(view.bars) && ValidBars(a.provider.bars)
    requires file == InTimeOrder(Served(view.bars, view.start, view.end))
    requires Replied(Some(file), a) && IsRefresh(Some(file), a.cfg)
    ensures After(Some(file), a) == Some(InTimeOrder(Served(a.provider.bars, view.start, Day(a.now))))
            <==> NoNewsBehind(view.bars, a.provider.bars, view.start, view.end,
                              RestartDay(Latest(file), Day(a.now)), Day(a.now))
  {
    TidyOrder(Served(view.bars, view.start, view.end));
    RefreshStores(file, a.provider, a.start, Day(a.now), a.cfg);
    TidyFilesAgreeIff(After(Some(file), a).value, Served(a.provider.bars, view.start, Day(a.now)));
    RefetchStaysRefetchIff(file, view.bars, a.provider.bars, view.start, view.end, Day(a.now));
  }

  lemma AttemptKeepsWholeIff(file: Option<seq<Bar>>, view: View, a: Attempt)
    requires Readable(file) && ValidBars(view.bars) && ValidBars(a.provider.bars) && Whole(file, view)
    ensures Whole(After(file, a), NextView(file, view, a)) <==> NoNews(file, view, a)
  {
    if !Replied(file, a) {
      NoReplyKeeps(file, a);
    } else if IsRefresh(file, a.cfg) {
      RefreshKeepsWholeIff(file.value, view, a);
      RefreshStores(file.value, a.provider, a.start, Day(a.now), a.cfg);
    } else {
      FullAnswer(file, a);
    }
  }

  ghost function ViewAfter(file: Option<seq<Bar>>, view: View, attempts: seq<Attempt>): View
    requires Readable(file)
  {
    if attempts == [] then view else
      var init, last := attempts[..|attempts| - 1], attempts[|attempts| - 1];
      NextView(AfterAll(file, init), ViewAfter(file, view, init), last)
  }

  ghost predicate Steady(file: Option<seq<Bar>>, view: View, attempts: seq<Attempt>)
    requires Readable(file)
  {
    attempts == [] ||
      var init, last := attempts[..|attempts| - 1], attempts[|attempts| - 1];
      Steady(file, view, init) && NoNews(AfterAll(file, init), ViewAfter(file, view, init), last)
  }

  /** A run over a provider that changes only what the refreshes query keeps the file equal to the refetch of the last
      answer. */
  lemma {:induction false} SteadyRunStaysWhole(file: Option<seq<Bar>>, view: View, attempts: seq<Attempt>)
    requires Readable(file) && ValidBars(view.bars) && AllValid(attempts)
    requires Whole(file, view) && Steady(file, view, attempts)
    ensures Whole(AfterAll(file, attempts), ViewAfter(file, view, attempts))
    ensures ValidBars(ViewAfter(file, view, attempts).bars)
  {
    if attempts != [] {
      var init, last := attempts[..|attempts| - 1], attempts[|attempts| - 1];
      SteadyRunStaysWhole(file, view, init);
      AttemptKeepsWholeIff(AfterAll(file, init), ViewAfter(file, view, init), last);
    }
  }

  // ---- a history that only grows ----

  /** What the provider can serve at an instant. */
  function KnownAt(history: map<int, RawBar>, now: int): map<int, RawBar> {
    map t | t in history && t <= now :: history[t]
  }

  ghost predicate GrowsWith(history: map<int, RawBar>, attempts: seq<Attempt>) {
    forall a | a in attempts :: a.provider.bars == KnownAt(history, a.now)
  }

  ghost predicate Exact(file: Option<seq<Bar>>, history: map<int, RawBar>) {
    file.Some? ==> exists start :: ExactPrefix(file.value, history, start)
  }

  /** What a complete fetch stores at an instant is an exact prefix of the whole history. */
  lemma FullFetchIsExact(history: map<int, RawBar>, now: int, start: int)
    requires ValidBars(history)
    requires Served(KnownAt(history, now), start, Day(now)) != map[]
    ensures ExactPrefix(InTimeOrder(Served(KnownAt(history, now), start, Day(now))), history, start)
  {
    var m := Served(KnownAt(history, now), start, Day(now));
    SameServed(history, now, start);
    UpToTimes(history, start, now);
    ExactFromUpTo(history, start, now);
  }

  lemma SameServed(history: map<int, RawBar>, now: int, start: int)
    ensures Served(KnownAt(history, now), start, Day(now)) == UpTo(history, start, now)
  {
    forall t ensures t in Served(KnownAt(history, now), start, Day(now)) <==> t in UpTo(history, start, now) {
      if t in history && t <= now {
        DayMonotone(t, now);
      }
    }
    SameMap(Served(KnownAt(history, now), start, Day(now)), UpTo(history, start, now));
  }

  lemma ExactFromUpTo(history: map<int, RawBar>, start: int, cut: int)
    requires ValidBars(history) && UpTo(history, start, cut) != map[]
    ensures ExactPrefix(InTimeOrder(UpTo(history, start, cut)), history, start)
  {
    var m := UpTo(history, start, cut);
    UpToTimes(history, start, cut);
    var s := InTimeOrder(m);
    EmptyInTimeOrder(m);
    SeriesOfMap(BAR_TIME, m);
    var latest := Latest(s);
    var b :| b in s && b.time == latest;
    assert BAR_TIME(b) in m;
    forall t ensures t in m <==> t in UpTo(history, start, latest) {
      if t in m {
        assert m[t] in s && BAR_TIME(m[t]) == t;
      }
    }
    SameMap(m, UpTo(history, start, latest));
  }

  /** Refreshing an exact file at any instant leaves an exact file. */
  lemma {:induction false} RefreshIsExact(file: seq<Bar>, history: map<int, RawBar>, start: int, now: int)
    requires ValidBars(history) && SessionsEndAtClose(history) && ExactPrefix(file, history, start)
    ensures var cut := if now > Latest(file) then now else Latest(file);
      Refreshed(file, KnownAt(history, now), Day(now)) == UpTo(history, start, cut)
  {
    ExactLatest(file, history, start);
    var latest := Latest(file);
    var cut := if now > latest then now else latest;
    var known, refreshed := KnownAt(history, now), Refreshed(file, KnownAt(history, now), Day(now));
    forall t ensures t in refreshed <==> t in UpTo(history, start, cut) {
      RefreshHolds(file, history, start, now, t);
    }
    forall t | t in refreshed && t in UpTo(history, start, cut) ensures refreshed[t] == UpTo(history, start, cut)[t] {
    }
    SameMap(refreshed, UpTo(history, start, cut));
  }

  lemma RestartCovers(history: map<int, RawBar>, latest: int, end: int, t: int)
    requires SessionsEndAtClose(history) && t in history && Usable(history[t]) && t > latest
    ensures Day(latest) <= RestartDay(latest, end) <= Day(t)
  {
    DayMonotone(latest, t);
  }

  lemma {:induction false} RefreshHolds(file: seq<Bar>, history: map<int, RawBar>, start: int, now: int, t: int)
    requires ValidBars(history) && SessionsEndAtClose(history) && ExactPrefix(file, history, start)
    ensures var cut := if now > Latest(file) then now else Latest(file);
      t in Refreshed(file, KnownAt(history, now), Day(now)) <==> t in UpTo(history, start, cut)
  {
    ExactLatest(file, history, start);
    if t > Latest(file) {
      HoldsAfter(file, history, start, now, t);
    } else {
      HoldsBefore(file, history, start, now, t);
    }
  }

  lemma {:induction false} HoldsAfter(file: seq<Bar>, history: map<int, RawBar>, start: int, now: int, t: int)
    requires file != [] && LastBars(file) == UpTo(history, start, Latest(file)) && start <= Day(Latest(file))
    requires SessionsEndAtClose(history) && t > Latest(file)
    ensures t in Refreshed(file, KnownAt(history, now), Day(now)) <==> t in UpTo(history, start, now)
  {
    if t in history && Usable(history[t]) && t <= now {
      RestartCovers(history, Latest(file), Day(now), t);
      DayMonotone(t, now);
    }
  }

  lemma {:induction false} HoldsBefore(file: seq<Bar>, history: map<int, RawBar>, start: int, now: int, t: int)
    requires file != [] && LastBars(file) == UpTo(history, start, Latest(file)) && start <= Day(Latest(file))
    requires t <= Latest(file)
    ensures t in Refreshed(file, KnownAt(history, now), Day(now)) <==> t in UpTo(history, start, Latest(file))
  {
    assert RestartDay(Latest(file), Day(now)) >= Day(Latest(file));
  }

  lemma AttemptKeepsExact(file: Option<seq<Bar>>, history: map<int, RawBar>, a: Attempt)
    requires Readable(file) && ValidBars(history) && SessionsEndAtClose(history) && Exact(file, history)
    requires a.provider.bars == KnownAt(history, a.now)
    ensures Exact(After(file, a), history)
  {
    AttemptKeepsOrStores(file, a);
    if After(file, a) != file {
      if IsRefresh(file, a.cfg) {
        var start :| ExactPrefix(file.value, history, start);
        RefreshedFileIsExact(file.value, history, start, a.now);
      } else {
        FullFetchIsExact(history, a.now, a.start);
      }
    }
  }

  lemma RefreshedFileIsExact(file: seq<Bar>, history: map<int, RawBar>, start: int, now: int)
    requires ValidBars(history) && SessionsEndAtClose(history) && ExactPrefix(file, history, start)
    ensures ExactPrefix(InTimeOrder(Refreshed(file, KnownAt(history, now), Day(now))), history, start)
  {
    var cut := if now > Latest(file) then now else Latest(file);
    RefreshIsExact(file, history, start, now);
    ExactLatest(file, history, start);
    assert Latest(file) in UpTo(history, start, cut);
    ExactFromUpTo(history, start, cut);
  }

  /** Over a history that only grows, however often attempts fail, skip, refresh or rewrite, the file never has a gap or
      a wrong bar. */
  lemma {:induction false} EveryRunKeepsExact(file: Option<seq<Bar>>, history: map<int, RawBar>, attempts: seq<Attempt>)
    requires Readable(file) && ValidBars(history) && SessionsEndAtClose(history) && Exact(file, history)
    requires GrowsWith(history, attempts)
    ensures Exact(AfterAll(file, attempts), history)
  {
    if attempts != [] {
      EveryRunKeepsExact(file, history, attempts[..|attempts| - 1]);
      AttemptKeepsExact(AfterAll(file, attempts[..|attempts| - 1]), history, attempts[|attempts| - 1]);
    }
  }
}
