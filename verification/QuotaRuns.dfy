/** Fixed-window quotas over whole runs: what one window admits, what any time
    interval of one window length can admit wherever it starts, and what goes wrong
    when the clock has saturated. */
module QuotaRuns {
  import opened Prelude
  import opened Coordination
  import opened ClockRuns

  /** `units` admitted for a quota at clock value `at`. */
  datatype Admission = Admission(at: u64, units: u64)

  /** Everything `quota` admitted during the run, oldest first. */
  function Admissions(s: State, calls: seq<Call>, quota: string): seq<Admission> {
    if calls == [] then []
    else
      var before := calls[..|calls| - 1];
      Admissions(s, before, quota) + Admitted(Run(s, before), calls[|calls| - 1], quota)
  }

  /** What one call adds: the units of an accepted `consume_quota`. */
  function Admitted(s: State, c: Call, quota: string): seq<Admission> {
    if c.CallConsume? && c.quota == quota && Exec(s, c).reply == Flag(true)
    then [Admission(s.now, c.units)]
    else []
  }

  /** Units admitted at clock values in [from, until). */
  function UnitsIn(history: seq<Admission>, from: int, until: int): nat {
    if history == [] then 0
    else
      var last := history[|history| - 1];
      UnitsIn(history[..|history| - 1], from, until) + if from <= last.at < until then last.units else 0
  }

  /** Units admitted in the half-open interval of `length` seconds starting at `from`. */
  function UnitsWithin(history: seq<Admission>, from: int, length: int): nat {
    UnitsIn(history, from, from + length)
  }

  lemma UnitsInAppend(history: seq<Admission>, a: Admission, from: int, until: int)
    ensures UnitsIn(history + [a], from, until)
         == UnitsIn(history, from, until) + if from <= a.at < until then a.units else 0
  {
    assert (history + [a])[..|history + [a]| - 1] == history;
  }

  lemma {:induction false} UnitsInSplits(history: seq<Admission>, from: int, middle: int, until: int)
    requires from <= middle <= until
    ensures UnitsIn(history, from, until) == UnitsIn(history, from, middle) + UnitsIn(history, middle, until)
  {
    if history != [] {
      UnitsInSplits(history[..|history| - 1], from, middle, until);
    }
  }

  /** A smaller interval admits no more than a larger one. */
  lemma UnitsInMonotone(history: seq<Admission>, from: int, from': int, until: int, until': int)
    requires from' <= from <= until <= until'
    ensures UnitsIn(history, from, until) <= UnitsIn(history, from', until')
  {
    UnitsInSplits(history, from', from, until');
    UnitsInSplits(history, from, until, until');
  }

  lemma {:induction false} NothingAfterTheLast(history: seq<Admission>, now: int, from: int, until: int)
    requires forall i :: 0 <= i < |history| ==> history[i].at <= now
    requires now < from
    ensures UnitsIn(history, from, until) == 0
  {
    if history != [] {
      NothingAfterTheLast(history[..|history| - 1], now, from, until);
    }
  }

  /** The open window of a quota against everything the quota ever admitted. */
  ghost predicate WindowTellsHistory(w: RateWindow, history: seq<Admission>, now: u64) {
    && w.capacity > 0 && w.windowSeconds > 0
    && w.startsAt <= now
    && w.used <= w.capacity
    && (forall i :: 0 <= i < |history| ==> history[i].at <= now && history[i].at < w.startsAt + w.windowSeconds)
    && UnitsIn(history, w.startsAt, now + 1) == w.used
    && UnitsIn(history, w.startsAt - w.windowSeconds, w.startsAt) <= w.capacity
    && (forall from: int :: UnitsWithin(history, from, w.windowSeconds) <= 2 * w.capacity)
  }

  ghost predicate QuotaInv(s: State, history: seq<Admission>, quota: string) {
    if quota in s.rateWindows then WindowTellsHistory(s.rateWindows[quota], history, s.now)
    else history == []
  }

  // ----- what each step does to one quota -----

  lemma OtherCallsLeaveTheWindow(s: State, c: Call, quota: string)
    requires !(c.CallConsume? && c.quota == quota)
    ensures Admitted(s, c, quota) == []
    ensures s.now <= Exec(s, c).state.now
    ensures quota in s.rateWindows <==> quota in Exec(s, c).state.rateWindows
    ensures quota in s.rateWindows ==> Exec(s, c).state.rateWindows[quota] == s.rateWindows[quota]
  {
  }

  lemma PanicsLeaveTheState(s: State, c: Call)
    requires !Asserts(s, c)
    ensures Exec(s, c) == Outcome(s, Panicked)
  {
  }

  lemma ConsumeUpdatesTheWindow(s: State, c: Call)
    requires c.CallConsume? && Asserts(s, c)
    ensures
      var window := WindowAt(s, c.quota, c.capacity, c.windowSeconds);
      var fits := c.units <= SaturatingSub(c.capacity, window.used);
      var s' := Exec(s, c).state;
      && s'.now == s.now
      && c.quota in s'.rateWindows
      && s'.rateWindows[c.quota] == (if fits then window.(used := SaturatingAdd(window.used, c.units)) else window)
      && Exec(s, c).reply == Flag(fits)
      && Admitted(s, c, c.quota) == if fits then [Admission(s.now, c.units)] else []
  {
  }

  lemma TimePasses(w: RateWindow, history: seq<Admission>, now: u64, now': u64)
    requires WindowTellsHistory(w, history, now) && now <= now'
    ensures WindowTellsHistory(w, history, now')
  {
    UnitsInSplits(history, w.startsAt, now + 1, now' + 1);
    NothingAfterTheLast(history, now, now + 1, now' + 1);
  }

  /** The first window of a quota. */
  lemma FirstWindow(capacity: u64, windowSeconds: u64, now: u64)
    requires capacity > 0 && windowSeconds > 0
    ensures WindowTellsHistory(RateWindow(capacity, windowSeconds, now, 0), [], now)
  {
  }

  /** Opening the next window keeps the account as long as the clock is not saturated. */
  lemma NextWindow(w: RateWindow, history: seq<Admission>, now: u64)
    requires WindowTellsHistory(w, history, now)
    requires now < U64_MAX && now >= SaturatingAdd(w.startsAt, w.windowSeconds)
    ensures WindowTellsHistory(w.(startsAt := now, used := 0), history, now)
  {
    NothingAfterTheLast(history, now - 1, now, now + 1);
    UnitsInMonotone(history, now - w.windowSeconds, w.startsAt, now, now + 1);
  }

  /** A grant inside the open window keeps the account. */
  lemma GrantInWindow(w: RateWindow, history: seq<Admission>, now: u64, units: u64)
    requires WindowTellsHistory(w, history, now)
    requires now < w.startsAt + w.windowSeconds
    requires units <= w.capacity - w.used
    ensures WindowTellsHistory(w.(used := w.used + units), history + [Admission(now, units)], now)
  {
    var a := Admission(now, units);
    var history' := history + [a];
    UnitsInAppend(history, a, w.startsAt, now + 1);
    UnitsInAppend(history, a, w.startsAt - w.windowSeconds, w.startsAt);
    forall from: int
      ensures UnitsWithin(history', from, w.windowSeconds) <= 2 * w.capacity
    {
      assert UnitsWithin(history, from, w.windowSeconds) <= 2 * w.capacity;
      var until := from + w.windowSeconds;
      UnitsInAppend(history, a, from, until);
      if from <= now < until {
        if from < w.startsAt {
          UnitsInSplits(history, from, w.startsAt, until);
          UnitsInMonotone(history, from, w.startsAt - w.windowSeconds, w.startsAt, w.startsAt);
          UnitsUpToNow(history, now, w.startsAt, until);
        } else {
          UnitsUpToNow(history, now, from, until);
          UnitsInMonotone(history, from, w.startsAt, now + 1, now + 1);
        }
      }
    }
  }

  /** Counting past `now` adds nothing. */
  lemma UnitsUpToNow(history: seq<Admission>, now: int, from: int, until: int)
    requires forall i :: 0 <= i < |history| ==> history[i].at <= now
    requires from <= now < until
    ensures UnitsIn(history, from, until) == UnitsIn(history, from, now + 1)
  {
    UnitsInSplits(history, from, now + 1, until);
    NothingAfterTheLast(history, now, now + 1, until);
  }

  // ----- whole runs -----

  lemma ConsumeKeepsTheAccount(s: State, c: Call, history: seq<Admission>)
    requires c.CallConsume? && Asserts(s, c) && s.now < U64_MAX
    requires QuotaInv(s, history, c.quota)
    ensures QuotaInv(Exec(s, c).state, history + Admitted(s, c, c.quota), c.quota)
  {
    hide Exec, Admitted;
    ConsumeUpdatesTheWindow(s, c);
    var window := WindowAt(s, c.quota, c.capacity, c.windowSeconds);
    assert WindowTellsHistory(window, history, s.now) by {
      if c.quota !in s.rateWindows {
        FirstWindow(c.capacity, c.windowSeconds, s.now);
      } else if s.now >= SaturatingAdd(s.rateWindows[c.quota].startsAt, c.windowSeconds) {
        NextWindow(s.rateWindows[c.quota], history, s.now);
      }
    }
    if c.units <= SaturatingSub(c.capacity, window.used) {
      GrantInWindow(window, history, s.now, c.units);
    } else {
      assert history + [] == history;
    }
  }

  lemma StepKeepsTheAccount(s: State, c: Call, history: seq<Admission>, quota: string)
    requires s.now < U64_MAX && Exec(s, c).state.now < U64_MAX
    requires QuotaInv(s, history, quota)
    ensures QuotaInv(Exec(s, c).state, history + Admitted(s, c, quota), quota)
  {
    hide Exec, Admitted;
    if !Asserts(s, c) {
      PanicsLeaveTheState(s, c);
      PanicsAdmitNothing(s, c, quota);
      assert history + [] == history;
    } else if c.CallConsume? && c.quota == quota {
      ConsumeKeepsTheAccount(s, c, history);
    } else {
      OtherCallsLeaveTheWindow(s, c, quota);
      assert history + [] == history;
      if quota in s.rateWindows {
        TimePasses(s.rateWindows[quota], history, s.now, Exec(s, c).state.now);
      }
    }
  }

  lemma PanicsAdmitNothing(s: State, c: Call, quota: string)
    requires !Asserts(s, c)
    ensures Admitted(s, c, quota) == []
  {
  }

  lemma ClockNeverGoesBack(s: State, c: Call)
    ensures s.now <= Exec(s, c).state.now
  {
  }

  lemma {:induction false} RunKeepsTheAccount(calls: seq<Call>, quota: string)
    requires Run(INITIAL, calls).now < U64_MAX
    ensures QuotaInv(Run(INITIAL, calls), Admissions(INITIAL, calls, quota), quota)
  {
    hide Exec, Admitted, WindowTellsHistory;
    if calls != [] {
      var before := calls[..|calls| - 1];
      ClockNeverGoesBack(Run(INITIAL, before), calls[|calls| - 1]);
      RunKeepsTheAccount(before, quota);
      StepKeepsTheAccount(Run(INITIAL, before), calls[|calls| - 1], Admissions(INITIAL, before, quota), quota);
    }
  }

  /** While the clock is not saturated: the open window has admitted exactly `used`, at
      most `capacity`; and no half-open interval of one window length, wherever it
      starts, ever saw more than twice the capacity. */
  lemma QuotaBoundsEveryInterval(calls: seq<Call>, quota: string, from: int)
    requires Run(INITIAL, calls).now < U64_MAX && quota in Run(INITIAL, calls).rateWindows
    ensures
      var w := Run(INITIAL, calls).rateWindows[quota];
      var history := Admissions(INITIAL, calls, quota);
      && UnitsWithin(history, w.startsAt, w.windowSeconds) == w.used <= w.capacity
      && UnitsWithin(history, from, w.windowSeconds) <= 2 * w.capacity
  {
    hide Exec, Admitted, Admissions, Run;
    RunKeepsTheAccount(calls, quota);
    var w := Run(INITIAL, calls).rateWindows[quota];
    var history := Admissions(INITIAL, calls, quota);
    var now := Run(INITIAL, calls).now;
    var until := w.startsAt + w.windowSeconds;
    if now + 1 <= until {
      UnitsInSplits(history, w.startsAt, now + 1, until);
      NothingAfterTheLast(history, now, now + 1, until);
    } else {
      UnitsInSplits(history, w.startsAt, until, now + 1);
      NothingAfterTheLast(history, until - 1, until, now + 1);
    }
  }

  // ----- when the current window opened -----

  /** The call that opened the current window, told by the calls and their replies: the
      first that did not panic, and from then on each that came when the window of the
      one before had run out. */
  function Opening(calls: seq<Call>, quota: string): (k: Option<nat>)
    ensures k.Some? ==> k.value < |calls| && calls[k.value].CallConsume?
  {
    if calls == [] then None
    else
      var before, last := calls[..|calls| - 1], calls[|calls| - 1];
      var k := Opening(before, quota);
      if last.CallConsume? && last.quota == quota && Exec(Run(INITIAL, before), last).reply != Panicked
         && (k.Some? ==> RunOut(calls, k.value))
      then Some(|before|)
      else k
  }

  /** The window opened by the call at `k` is over when the last call comes, or the clock
      has stopped at its last value. */
  predicate RunOut(calls: seq<Call>, k: nat)
    requires k < |calls| && calls[k].CallConsume?
  {
    var now := Clock(calls[..|calls| - 1]);
    now >= Clock(calls[..k]) + calls[k].windowSeconds || now == U64_MAX
  }

  /** Units admitted by the calls from the `k`-th on. */
  function UnitsFrom(calls: seq<Call>, quota: string, k: nat): nat {
    if |calls| <= k then 0
    else
      var before, last := calls[..|calls| - 1], calls[|calls| - 1];
      UnitsFrom(before, quota, k) +
      if last.CallConsume? && last.quota == quota && Exec(Run(INITIAL, before), last).reply == Flag(true)
      then last.units else 0
  }

  /** The window on record is the one that was opened. */
  ghost predicate RecordsOpening(s: State, calls: seq<Call>, quota: string) {
    var k := Opening(calls, quota);
    if k.None? then quota !in s.rateWindows
    else
      && quota in s.rateWindows
      && var w, terms := s.rateWindows[quota], calls[k.value];
         && w.startsAt == Clock(calls[..k.value])
         && w.capacity == terms.capacity && w.windowSeconds == terms.windowSeconds
         && w.used == UnitsFrom(calls, quota, k.value) && w.used <= w.capacity
  }

  /** What any call other than an unpanicked consume of the quota leaves as it was. */
  lemma OpeningStays(calls: seq<Call>, c: Call, quota: string)
    requires !(c.CallConsume? && c.quota == quota && Exec(Run(INITIAL, calls), c).reply != Panicked)
    requires RecordsOpening(Run(INITIAL, calls), calls, quota)
    ensures RecordsOpening(Exec(Run(INITIAL, calls), c).state, calls + [c], quota)
  {
    hide Exec, Run, Clock;
    var s := Run(INITIAL, calls);
    assert (calls + [c])[..|calls|] == calls;
    if !Asserts(s, c) {
      PanicsLeaveTheState(s, c);
    } else if c.CallConsume? && c.quota == quota {
      ConsumeUpdatesTheWindow(s, c);
    } else {
      OtherCallsLeaveTheWindow(s, c, quota);
    }
    var k := Opening(calls, quota);
    if k.Some? {
      assert (calls + [c])[..k.value] == calls[..k.value];
    }
  }

  lemma ConsumeRecordsItsOpening(calls: seq<Call>, c: Call)
    requires c.CallConsume? && Asserts(Run(INITIAL, calls), c)
    requires RecordsOpening(Run(INITIAL, calls), calls, c.quota)
    ensures RecordsOpening(Exec(Run(INITIAL, calls), c).state, calls + [c], c.quota)
    ensures
      var k := Opening(calls + [c], c.quota);
      && k.Some?
      && Exec(Run(INITIAL, calls), c).reply == Flag(UnitsFrom(calls, c.quota, k.value) + c.units <= c.capacity)
  {
    hide Exec, Run, Clock;
    var s := Run(INITIAL, calls);
    assert (calls + [c])[..|calls|] == calls;
    ClockIsTheTimePassed(calls);
    ConsumeUpdatesTheWindow(s, c);
    var k := Opening(calls, c.quota);
    var next := Opening(calls + [c], c.quota);
    assert UnitsFrom(calls + [c], c.quota, next.value)
        == UnitsFrom(calls, c.quota, next.value) + if Exec(s, c).reply == Flag(true) then c.units else 0;
    if k.Some? {
      assert (calls + [c])[..k.value] == calls[..k.value];
    }
    assert next == if k.Some? && !RunOut(calls + [c], k.value) then k else Some(|calls|);
  }

  lemma {:induction false} WindowsAreRecorded(calls: seq<Call>, quota: string)
    ensures RecordsOpening(Run(INITIAL, calls), calls, quota)
  {
    hide Exec, RecordsOpening;
    if calls == [] {
      NoWindowYet(quota);
    } else {
      var before, c := calls[..|calls| - 1], calls[|calls| - 1];
      assert calls == before + [c];
      WindowsAreRecorded(before, quota);
      if c.CallConsume? && c.quota == quota && Exec(Run(INITIAL, before), c).reply != Panicked {
        PanicsAreReplied(Run(INITIAL, before), c);
        ConsumeRecordsItsOpening(before, c);
      } else {
        OpeningStays(before, c, quota);
      }
    }
  }

  lemma NoWindowYet(quota: string)
    ensures RecordsOpening(Run(INITIAL, []), [], quota)
  {
  }

  lemma PanicsAreReplied(s: State, c: Call)
    ensures !Asserts(s, c) <==> Exec(s, c).reply == Panicked
  {
  }

  /** Over every run, the saturated clock included: a consume panics exactly on an empty
      capacity or window or on terms other than those of the current window; otherwise it is denied
      exactly when its units do not fit what has been admitted since the window, rolled
      over if due, was opened. */
  lemma DeniedExactlyWhenItDoesNotFit(calls: seq<Call>, c: Call)
    requires c.CallConsume?
    ensures
      var reply := Exec(Run(INITIAL, calls), c).reply;
      var earlier, k := Opening(calls, c.quota), Opening(calls + [c], c.quota);
      && (reply == Panicked <==>
            || c.capacity == 0 || c.windowSeconds == 0
            || (earlier.Some? && (calls[earlier.value].capacity != c.capacity
                                  || calls[earlier.value].windowSeconds != c.windowSeconds)))
      && (reply != Panicked ==>
            k.Some? && reply == Flag(UnitsFrom(calls, c.quota, k.value) + c.units <= c.capacity))
  {
    hide Exec, Run;
    var s := Run(INITIAL, calls);
    WindowsAreRecorded(calls, c.quota);
    PanicsAreReplied(s, c);
    if Asserts(s, c) {
      ConsumeRecordsItsOpening(calls, c);
    }
  }

  /** While the clock is not saturated the account is one of clock values: what was
      admitted since the opening is what was admitted in the window's time. */
  lemma AdmittedSinceTheOpening(calls: seq<Call>, c: Call)
    requires Clock(calls) < U64_MAX
    requires c.CallConsume? && Exec(Run(INITIAL, calls), c).reply != Panicked
    ensures
      var k := Opening(calls + [c], c.quota);
      && k.Some?
      && var start, now := Clock((calls + [c])[..k.value]), Clock(calls);
         && start <= now < start + c.windowSeconds
         && UnitsFrom(calls, c.quota, k.value) == UnitsIn(Admissions(INITIAL, calls, c.quota), start, now + 1)
  {
    hide Exec, Admitted, Admissions, Run, Clock;
    var s := Run(INITIAL, calls);
    ClockIsTheTimePassed(calls);
    PanicsAreReplied(s, c);
    WindowsAreRecorded(calls, c.quota);
    ConsumeRecordsItsOpening(calls, c);
    RunKeepsTheAccount(calls, c.quota);
    assert (calls + [c])[..|calls|] == calls;
    var earlier := Opening(calls, c.quota);
    if earlier.Some? {
      assert (calls + [c])[..earlier.value] == calls[..earlier.value];
      if RunOut(calls + [c], earlier.value) {
        NextWindow(s.rateWindows[c.quota], Admissions(INITIAL, calls, c.quota), s.now);
      }
    }
  }

  // ----- where the bounds are tight, and where they stop -----

  /** One more call at the end of a run. */
  lemma OneMoreCall(calls: seq<Call>, c: Call, quota: string)
    ensures Run(INITIAL, calls + [c]) == Exec(Run(INITIAL, calls), c).state
    ensures Admissions(INITIAL, calls + [c], quota)
         == Admissions(INITIAL, calls, quota) + Admitted(Run(INITIAL, calls), c, quota)
  {
    hide Exec, Admitted;
    assert (calls + [c])[..|calls + [c]| - 1] == calls;
  }

  /** Waiting admits nothing and moves only the clock. */
  lemma OneMoreWait(calls: seq<Call>, seconds: u64, quota: string)
    requires quota in Run(INITIAL, calls).rateWindows
    ensures
      var s := Run(INITIAL, calls);
      var s' := Run(INITIAL, calls + [CallAdvance(seconds)]);
      && s'.now == SaturatingAdd(s.now, seconds)
      && quota in s'.rateWindows && s'.rateWindows[quota] == s.rateWindows[quota]
      && Admissions(INITIAL, calls + [CallAdvance(seconds)], quota) == Admissions(INITIAL, calls, quota)
  {
    hide Run, Admissions;
    OneMoreCall(calls, CallAdvance(seconds), quota);
  }

  /** The factor two is reached: a full window just before the boundary, another just
      after it, inside one interval of one window length. */
  lemma TwiceTheCapacityIsReached(quota: string, capacity: u64, windowSeconds: u64) returns (calls: seq<Call>)
    requires capacity > 0 && 1 < windowSeconds < U64_MAX
    ensures Run(INITIAL, calls).now < U64_MAX
    ensures UnitsWithin(Admissions(INITIAL, calls, quota), 1, windowSeconds) == 2 * capacity
  {
    hide Run, Exec, Admissions, Admitted;
    var open := CallConsume(quota, 0, capacity, windowSeconds);
    var take := CallConsume(quota, capacity, capacity, windowSeconds);
    assert Run(INITIAL, []) == INITIAL && Admissions(INITIAL, [], quota) == [] by {
      StartOfRun(quota);
    }
    calls := [] + [open];
    OneMoreCall([], open, quota);
    ConsumeUpdatesTheWindow(INITIAL, open);
    OneMoreWait(calls, windowSeconds - 1, quota);
    calls := calls + [CallAdvance(windowSeconds - 1)];
    OneMoreCall(calls, take, quota);
    ConsumeUpdatesTheWindow(Run(INITIAL, calls), take);
    calls := calls + [take];
    OneMoreWait(calls, 1, quota);
    calls := calls + [CallAdvance(1)];
    OneMoreCall(calls, take, quota);
    ConsumeUpdatesTheWindow(Run(INITIAL, calls), take);
    calls := calls + [take];
    var first, second := Admission(windowSeconds - 1, capacity), Admission(windowSeconds, capacity);
    assert Admissions(INITIAL, calls, quota) == [] + [Admission(0, 0)] + [first] + [second];
    UnitsInAppend([Admission(0, 0)] + [first], second, 1, 1 + windowSeconds);
    UnitsInAppend([Admission(0, 0)], first, 1, 1 + windowSeconds);
    UnitsInAppend([], Admission(0, 0), 1, 1 + windowSeconds);
    assert [] + [Admission(0, 0)] == [Admission(0, 0)];
  }

  lemma StartOfRun(quota: string)
    ensures Run(INITIAL, []) == INITIAL && Admissions(INITIAL, [], quota) == []
  {
  }

  /** Once the clock has saturated every call opens a fresh window, so no bound is left:
      any number of full windows is admitted at one instant. */
  lemma {:induction false} SaturatedClockAdmitsWithoutBound(
    quota: string, capacity: u64, windowSeconds: u64, n: nat) returns (calls: seq<Call>)
    requires capacity > 0 && windowSeconds > 0
    ensures
      var s := Run(INITIAL, calls);
      && s.now == U64_MAX
      && QuotaAgrees(s, quota, capacity, windowSeconds)
      && UnitsIn(Admissions(INITIAL, calls, quota), U64_MAX, U64_MAX + 1) == n * capacity
  {
    hide Run, Exec, Admissions, Admitted;
    if n == 0 {
      StartOfRun(quota);
      calls := [] + [CallAdvance(U64_MAX)];
      OneMoreCall([], CallAdvance(U64_MAX), quota);
      FirstAdvance(quota);
      var none: seq<Admission> := [];
      assert none + [] == none;
    } else {
      calls := SaturatedClockAdmitsWithoutBound(quota, capacity, windowSeconds, n - 1);
      var take := CallConsume(quota, capacity, capacity, windowSeconds);
      OneMoreCall(calls, take, quota);
      ConsumeUpdatesTheWindow(Run(INITIAL, calls), take);
      UnitsInAppend(Admissions(INITIAL, calls, quota), Admission(U64_MAX, capacity), U64_MAX, U64_MAX + 1);
      calls := calls + [take];
    }
  }

  lemma FirstAdvance(quota: string)
    ensures Exec(INITIAL, CallAdvance(U64_MAX)).state == INITIAL.(now := U64_MAX)
    ensures Admitted(INITIAL, CallAdvance(U64_MAX), quota) == []
  {
  }

  /** The sliding bound, for every run that leaves the clock at `now`. */
  ghost predicate BoundedAt(now: u64) {
    forall calls, quota, from ::
      Run(INITIAL, calls).now == now && quota in Run(INITIAL, calls).rateWindows ==> Bounded(calls, quota, from)
  }

  ghost predicate Bounded(calls: seq<Call>, quota: string, from: int)
    requires quota in Run(INITIAL, calls).rateWindows
  {
    var w := Run(INITIAL, calls).rateWindows[quota];
    UnitsWithin(Admissions(INITIAL, calls, quota), from, w.windowSeconds) <= 2 * w.capacity
  }

  /** Twice the capacity bounds every interval exactly while the clock is not saturated. */
  lemma TheBoundHoldsExactlyBeforeSaturation(now: u64)
    ensures BoundedAt(now) <==> now < U64_MAX
  {
    hide Run, Admissions;
    if now < U64_MAX {
      forall calls, quota, from | Run(INITIAL, calls).now == now && quota in Run(INITIAL, calls).rateWindows
        ensures Bounded(calls, quota, from)
      {
        QuotaBoundsEveryInterval(calls, quota, from);
      }
    } else {
      var calls := SaturatedClockAdmitsWithoutBound("", 1, 1, 3);
      var w := Run(INITIAL, calls).rateWindows;
      AdmissionsNeedAWindow(calls, "");
      assert UnitsWithin(Admissions(INITIAL, calls, ""), U64_MAX, 1) == 3;
      assert !Bounded(calls, "", U64_MAX);
    }
  }

  lemma WindowStep(s: State, c: Call, quota: string)
    ensures quota in s.rateWindows || Admitted(s, c, quota) != [] ==> quota in Exec(s, c).state.rateWindows
  {
  }

  /** Only a quota with a window has admitted anything. */
  lemma {:induction false} AdmissionsNeedAWindow(calls: seq<Call>, quota: string)
    ensures Admissions(INITIAL, calls, quota) != [] ==> quota in Run(INITIAL, calls).rateWindows
  {
    hide Exec, Admitted;
    if calls != [] {
      AdmissionsNeedAWindow(calls[..|calls| - 1], quota);
      WindowStep(Run(INITIAL, calls[..|calls| - 1]), calls[|calls| - 1], quota);
    }
  }
}
