/**
  * The work-day metrics of src/stores/jornada.js, computed over the record
  * cache of module Registros: the pairs of the current day, their total,
  * how many pairs are incomplete or invalid, the current week and the weekly
  * history; plus the page's own state (user, daily target, current day,
  * weeks shown) and the actions that drive the cache.
  *
  * Days are "YYYY-MM-DD" strings. The calendar arithmetic that names the
  * days around the current week (week start, adding days, the time zone) is
  * the parameter `dayAt`: `dayAt(k)` is the day `k` days after the start of
  * the current week, so `dayAt(0)` to `dayAt(6)` are the current week and
  * `dayAt(-7 * i + d)` is day `d` of the week `i` weeks back.
  */
module Jornada {
  import opened Wrappers
  import opened JsValues
  import opened DocumentStore
  import Dates
  import Registros

  type Pair = Dates.Pair

  /** The daily target when none (or zero, or a non-number) is given. */
  const DefaultTarget: int := 480
  /** The longest pair that does not count as invalid: sixteen hours. */
  const LongestShift: int := 16 * 60
  /** Weeks of history shown before the user changes it. */
  const DefaultWeeksToShow: int := 4

  // ---------------------------------------------------------------------------
  // Day totals
  // ---------------------------------------------------------------------------

  /** The minutes of a day: the pair lengths added up left to right. */
  function DayTotal(ps: seq<Pair>): (r: int)
    ensures r >= 0
    ensures ps == [] ==> r == 0
  {
    if ps == [] then 0 else DayTotal(ps[..|ps| - 1]) + Dates.PairMinutes(Some(ps[|ps| - 1]))
  }

  /** The metrics add up a day exactly as the record cache does when it persists the day. */
  lemma {:induction false} DayTotalAgree(ps: seq<Pair>)
    ensures DayTotal(ps) == Registros.DayTotal(ps)
  {
    if ps != [] {
      DayTotalAgree(ps[..|ps| - 1]);
      Registros.PairMinutesAgree(ps[|ps| - 1]);
    }
  }

  /** The total of a day in the cache; a day that is not cached totals 0. */
  function TotalOfDate(entries: map<string, seq<Pair>>, iso: string): (r: int)
    ensures r >= 0
    ensures iso !in entries ==> r == 0
    ensures r == Registros.DayTotal(Registros.Current(entries, iso))
  {
    DayTotalAgree(Registros.Current(entries, iso));
    DayTotal(Registros.Current(entries, iso))
  }

  // ---------------------------------------------------------------------------
  // Incomplete and invalid pairs
  // ---------------------------------------------------------------------------

  /** A pair with an empty clock-in or clock-out. */
  predicate Incomplete(p: Pair)
  {
    p.clockIn == "" || p.clockOut == ""
  }

  /**
    * JavaScript's `x % 1440`: the remainder takes the sign of the dividend,
    * so a negative dividend gives a remainder of at most zero.
    */
  function DayRem(x: int): (r: int)
    ensures x >= 0 ==> 0 <= r < Dates.MinutesPerDay
    ensures x < 0 ==> -Dates.MinutesPerDay < r <= 0
    ensures (x - r) % Dates.MinutesPerDay == 0
  {
    if x >= 0 then x % Dates.MinutesPerDay else -((-x) % Dates.MinutesPerDay)
  }

  /** A complete pair with an unreadable time, or whose length around the clock is zero or over sixteen hours. */
  predicate Invalid(p: Pair)
  {
    if Incomplete(p) then false
    else
      var a := Dates.ToMinutes(p.clockIn);
      var b := Dates.ToMinutes(p.clockOut);
      if a.None? || b.None? then true
      else
        var diff := DayRem(b.value - a.value + Dates.MinutesPerDay);
        diff == 0 || diff > LongestShift
  }

  /** The number of incomplete pairs. */
  function IncompleteCount(ps: seq<Pair>): (n: nat)
    ensures n <= |ps|
  {
    if ps == [] then 0
    else IncompleteCount(ps[..|ps| - 1]) + (if Incomplete(ps[|ps| - 1]) then 1 else 0)
  }

  /** The number of invalid pairs. */
  function InvalidCount(ps: seq<Pair>): (n: nat)
    ensures n <= |ps|
  {
    if ps == [] then 0
    else InvalidCount(ps[..|ps| - 1]) + (if Invalid(ps[|ps| - 1]) then 1 else 0)
  }

  /**
    * An incomplete pair is never counted as invalid, so the two counts
    * together never exceed the number of pairs, and a day of only
    * incomplete pairs has no invalid one.
    */
  lemma {:induction false} CountsDisjoint(ps: seq<Pair>)
    ensures IncompleteCount(ps) + InvalidCount(ps) <= |ps|
    ensures IncompleteCount(ps) == |ps| ==> InvalidCount(ps) == 0
  {
    if ps != [] {
      CountsDisjoint(ps[..|ps| - 1]);
    }
  }

  /**
    * For a complete pair whose times fall within one day, the invalid test
    * is exactly a length of zero or of more than sixteen hours.
    */
  lemma InvalidWithinDay(p: Pair)
    requires !Incomplete(p)
    requires Dates.ToMinutes(p.clockIn).Some? && Dates.ToMinutes(p.clockIn).value < Dates.MinutesPerDay
    requires Dates.ToMinutes(p.clockOut).Some? && Dates.ToMinutes(p.clockOut).value < Dates.MinutesPerDay
    ensures Invalid(p) <==> Dates.PairMinutes(Some(p)) == 0 || Dates.PairMinutes(Some(p)) > LongestShift
  {
    Dates.PairMinutesWithinDay(p);
    DayRemShift(Dates.ToMinutes(p.clockIn).value, Dates.ToMinutes(p.clockOut).value);
  }

  /** For two times within one day, adding a day before the remainder changes nothing. */
  lemma DayRemShift(a: int, b: int)
    requires 0 <= a < Dates.MinutesPerDay && 0 <= b < Dates.MinutesPerDay
    ensures DayRem(b - a + Dates.MinutesPerDay) == (b - a) % Dates.MinutesPerDay
  {
    if b >= a {
      assert (b - a + 1440) % 1440 == b - a;
      assert (b - a) % 1440 == b - a;
    } else {
      assert (b - a + 1440) % 1440 == b - a + 1440;
      assert (b - a) % 1440 == b - a + 1440;
    }
  }

  /**
    * The clock-in "99:99" passes the shape test; with clock-out "00:00" the
    * pair counts zero minutes and yet is not invalid, because the circular
    * difference is negative.
    */
  lemma OutOfRangeNotFlagged(p: Pair)
    requires p.clockIn == "99:99" && p.clockOut == "00:00"
    ensures !Incomplete(p) && !Invalid(p)
    ensures Dates.PairMinutes(Some(p)) == 0
  {
    Dates.ClampReached();
    Dates.ClockChars("99:99");
    Dates.ClockChars("00:00");
  }

  // ---------------------------------------------------------------------------
  // Weeks
  // ---------------------------------------------------------------------------

  /** The sum of a list of day totals. */
  function Sum(xs: seq<int>): int
  {
    if xs == [] then 0 else Sum(xs[..|xs| - 1]) + xs[|xs| - 1]
  }

  /** The number of days with a positive total. */
  function CountPositive(xs: seq<int>): (n: nat)
    ensures n <= |xs|
  {
    if xs == [] then 0 else CountPositive(xs[..|xs| - 1]) + (if xs[|xs| - 1] > 0 then 1 else 0)
  }

  /** Day totals are never negative, so a week with no day worked has total 0, and only such a week. */
  lemma {:induction false} WorkedIffTotal(xs: seq<int>)
    requires forall i :: 0 <= i < |xs| ==> xs[i] >= 0
    ensures Sum(xs) >= 0
    ensures CountPositive(xs) == 0 <==> Sum(xs) == 0
  {
    if xs != [] {
      WorkedIffTotal(xs[..|xs| - 1]);
    }
  }

  /** The seven days of the week that starts `offset` days after the current week's start. */
  function WeekDays(dayAt: int -> string, offset: int): (days: seq<string>)
    ensures |days| == 7
  {
    seq(7, d => dayAt(offset + d))
  }

  /** The total of each of the given days. */
  function Totals(entries: map<string, seq<Pair>>, days: seq<string>): (t: seq<int>)
    ensures |t| == |days|
    ensures forall i :: 0 <= i < |t| ==> t[i] >= 0
  {
    seq(|days|, i requires 0 <= i < |days| => TotalOfDate(entries, days[i]))
  }

  /** A week's figures; the average is exact here, where the page divides in floating point. */
  datatype Summary = Summary(total: int, daysWorked: nat, avgPerDay: real)

  /**
    * The figures of a list of day totals: their sum, the number of positive
    * ones, and the average over the days worked (0 when there are none).
    */
  function Summarize(totals: seq<int>): (s: Summary)
    requires forall i :: 0 <= i < |totals| ==> totals[i] >= 0
    ensures s.total == Sum(totals) && s.total >= 0
    ensures s.daysWorked == CountPositive(totals) && s.daysWorked <= |totals|
    ensures s.daysWorked == 0 <==> s.total == 0
    ensures s.daysWorked == 0 ==> s.avgPerDay == 0.0
    ensures s.daysWorked > 0 ==> s.avgPerDay * s.daysWorked as real == s.total as real
  {
    WorkedIffTotal(totals);
    var t := Sum(totals);
    var n := CountPositive(totals);
    Summary(t, n, if n != 0 then t as real / n as real else 0.0)
  }

  /** One day of the current week with its total. */
  datatype DayRow = DayRow(iso: string, total: int)

  datatype Week = Week(summary: Summary, days: seq<DayRow>)

  /**
    * `currentWeek`: the seven days from the week's start with their
    * totals, and the week's figures over those totals.
    */
  function CurrentWeek(entries: map<string, seq<Pair>>, dayAt: int -> string): (w: Week)
    ensures |w.days| == 7
    ensures forall i :: 0 <= i < 7 ==> w.days[i] == DayRow(dayAt(i), TotalOfDate(entries, dayAt(i)))
    ensures w.summary == Summarize(Totals(entries, WeekDays(dayAt, 0)))
    ensures w.summary.daysWorked <= 7
  {
    var days := WeekDays(dayAt, 0);
    var totals := Totals(entries, days);
    Week(Summarize(totals), seq(7, i requires 0 <= i < 7 => DayRow(days[i], totals[i])))
  }

  /** One line of the weekly history: first and last day as its key, and the week's figures. */
  datatype HistoryWeek = HistoryWeek(key: string, summary: Summary)

  /** The history line of the week `i` weeks before the current one. */
  function HistoryOf(entries: map<string, seq<Pair>>, dayAt: int -> string, i: nat): (h: HistoryWeek)
    ensures h.key == dayAt(-7 * i) + "_" + dayAt(-7 * i + 6)
    ensures h.summary == Summarize(Totals(entries, WeekDays(dayAt, -7 * i)))
    ensures h.summary.daysWorked <= 7
  {
    var days := WeekDays(dayAt, -7 * i);
    HistoryWeek(days[0] + "_" + days[6], Summarize(Totals(entries, days)))
  }

  // ---------------------------------------------------------------------------
  // Who is signed in, and the daily target
  // ---------------------------------------------------------------------------

  /** The user id the page keeps: the given id as a number, or null when that number is 0 or `NaN`. */
  function NextUser(uid: Value): (r: Value)
    ensures r.Null? || (r.Num? && r.n != 0)
    ensures r.Num? <==> ToNumber(uid).Some? && ToNumber(uid).value != 0
    ensures r.Num? ==> ToNumber(uid) == Some(r.n)
  {
    var n := NumberValue(uid);
    if Truthy(n) then n else Null
  }

  /** Signing in again with the id the page already keeps is not a change of user. */
  lemma NextUserStable(uid: Value)
    ensures NextUser(NextUser(uid)) == NextUser(uid)
  {
  }

  /** The daily target: the given target as a number, or 480 when it is missing, 0 or not a number. */
  function TargetOf(target: Value): (r: int)
    ensures r != 0
    ensures target.Undef? || target.NaN? || target == Num(0) ==> r == DefaultTarget
    ensures ToNumber(target).Some? && ToNumber(target).value != 0 ==> r == ToNumber(target).value
  {
    var n := ToNumber(target);
    if n.Some? && n.value != 0 then n.value else DefaultTarget
  }

  /** A stored target survives being read back through `Number(...) || 480`, unless it is 0. */
  lemma TargetOfNum(n: int)
    ensures TargetOf(Num(n)) == if n == 0 then DefaultTarget else n
  {
  }

  /** The first day `preloadWeeksRange` fetches: the start of the oldest week shown. */
  function OldestShown(weeks: int, dayAt: int -> string): string
  {
    dayAt(-7 * (Dates.Max(1, weeks) - 1))
  }

  /**
    * `preloadWeeksRange` on values: the user's records from the start of the
    * oldest week shown to the end of the current week are read and written
    * into the cache, and the current day is cached, with no pairs if
    * nothing was found for it.
    */
  function PreloadWeeks(st: State, seed: Option<Db>, uid: Value, entries: map<string, seq<Pair>>,
                        ids: map<string, Value>, weeks: int, dayAt: int -> string, cur: string): (r: Registros.Loaded)
  {
    var o := ReadOp(st, seed, Registros.Collection, None, Registros.RangeQuery(uid, OldestShown(weeks, dayAt), dayAt(6)));
    var days := Registros.RangeMap(o.result.value.docs);
    var e := Registros.WithDays(entries, days);
    Registros.Loaded(o.state, if cur in e then e else e[cur := []], Registros.WithIds(ids, days))
  }

  /** After the preload the store is prepared, the current day is cached, and no cached day or id is dropped. */
  lemma PreloadWeeksCaches(st: State, seed: Option<Db>, uid: Value, entries: map<string, seq<Pair>>,
                           ids: map<string, Value>, weeks: int, dayAt: int -> string, cur: string)
    ensures var r := PreloadWeeks(st, seed, uid, entries, ids, weeks, dayAt, cur);
      && r.state == Prepare(st, seed, Registros.Collection)
      && cur in r.entries
      && entries.Keys <= r.entries.Keys
      && ids.Keys <= r.ids.Keys
  {
    var o := ReadOp(st, seed, Registros.Collection, None, Registros.RangeQuery(uid, OldestShown(weeks, dayAt), dayAt(6)));
    var days := Registros.RangeMap(o.result.value.docs);
    PreloadWeeksParts(st, seed, uid, entries, ids, weeks, dayAt, cur, days);
    var e := Registros.WithDays(entries, days);
    assert entries.Keys <= e.Keys by {
      forall k | k in entries ensures k in e {
        Registros.PreloadTouchesOnlyFetchedDays(entries, ids, days, k);
      }
    }
    assert ids.Keys <= Registros.WithIds(ids, days).Keys by {
      forall k | k in ids ensures k in Registros.WithIds(ids, days) {
        Registros.PreloadTouchesOnlyFetchedDays(entries, ids, days, k);
      }
    }
  }

  /** `PreloadWeeks` through the day map of the records it reads. */
  lemma PreloadWeeksParts(st: State, seed: Option<Db>, uid: Value, entries: map<string, seq<Pair>>,
                          ids: map<string, Value>, weeks: int, dayAt: int -> string, cur: string,
                          days: map<string, Registros.Fetched>)
    requires var o := ReadOp(st, seed, Registros.Collection, None, Registros.RangeQuery(uid, OldestShown(weeks, dayAt), dayAt(6)));
      days == Registros.RangeMap(o.result.value.docs)
    ensures var o := ReadOp(st, seed, Registros.Collection, None, Registros.RangeQuery(uid, OldestShown(weeks, dayAt), dayAt(6)));
      var e := Registros.WithDays(entries, days);
      var r := PreloadWeeks(st, seed, uid, entries, ids, weeks, dayAt, cur);
      && r.state == o.state
      && r.entries == (if cur in e then e else e[cur := []])
      && r.ids == Registros.WithIds(ids, days)
  {
    var o := ReadOp(st, seed, Registros.Collection, None, Registros.RangeQuery(uid, OldestShown(weeks, dayAt), dayAt(6)));
    var e := Registros.WithDays(entries, days);
    assert PreloadWeeks(st, seed, uid, entries, ids, weeks, dayAt, cur) ==
      Registros.Loaded(o.state, if cur in e then e else e[cur := []], Registros.WithIds(ids, days));
  }

  // ---------------------------------------------------------------------------
  // The page's store
  // ---------------------------------------------------------------------------

  class JornadaStore {
    var userId: Value
    var targetDailyMinutes: int
    var currentDate: string
    var weeksToShow: int
    const reg: Registros.RecordCache

    predicate Valid()
      reads this, reg, reg.store
    {
      reg.Valid()
    }

    /** A fresh page: no user, the default target and weeks, today as the current day. */
    constructor (reg: Registros.RecordCache, today: string)
      ensures userId == Null && targetDailyMinutes == DefaultTarget
      ensures currentDate == today && weeksToShow == DefaultWeeksToShow
      ensures this.reg == reg
      ensures reg.Valid() ==> Valid()
    {
      userId := Null;
      targetDailyMinutes := DefaultTarget;
      currentDate := today;
      weeksToShow := DefaultWeeksToShow;
      this.reg := reg;
    }

    /** The pairs of the current day, none when it is not cached. */
    function Pairs(): (ps: seq<Pair>)
      reads this, reg
      ensures currentDate !in reg.entries ==> ps == []
      ensures currentDate in reg.entries ==> ps == reg.entries[currentDate]
    {
      Registros.Current(reg.entries, currentDate)
    }

    /**
      * `init`: the user id and the daily target are normalised. Only a
      * change of user empties the record cache and goes back to today;
      * either way the cache is re-initialised with the new user.
      */
    method Init(uid: Value, target: Value, today: string)
      modifies this, reg
      ensures userId == NextUser(uid) && targetDailyMinutes == TargetOf(target)
      ensures weeksToShow == old(weeksToShow)
      ensures NextUser(uid) != old(userId) ==>
        currentDate == today && reg.entries == map[] && reg.idByDate == map[]
      ensures NextUser(uid) == old(userId) ==>
        currentDate == old(currentDate) && reg.entries == old(reg.entries) && reg.idByDate == old(reg.idByDate)
      ensures reg.userId == (if userId.Null? then old(reg.userId) else userId)
      ensures old(Valid()) ==> Valid()
    {
      var next := NextUser(uid);
      var changed := next != userId;
      userId := next;
      targetDailyMinutes := TargetOf(target);
      if changed {
        reg.ClearAllFromClient();
        reg.Init(userId);
        currentDate := today;
      } else {
        reg.Init(userId);
      }
    }

    /** `ensureCurrentDayLoaded`: afterwards the current day is cached, and every cached day is kept. */
    method EnsureCurrentDayLoaded()
      modifies reg, reg.store
      ensures currentDate in reg.entries
      ensures forall d :: d in old(reg.entries) ==> d in reg.entries && reg.entries[d] == old(reg.entries)[d]
      ensures Registros.Loaded(reg.store.Snapshot(), reg.entries, reg.idByDate) ==
        Registros.LoadDay(old(reg.store.Snapshot()), reg.store.seed, old(reg.userId), old(reg.entries), old(reg.idByDate), currentDate)
      ensures reg.userId == old(reg.userId)
      ensures old(Valid()) ==> Valid()
    {
      reg.EnsureDayLoaded(currentDate);
    }

    /**
      * `preloadWeeksRange`: the days from the start of the oldest week shown
      * to the end of the current week are fetched into the cache, and the
      * current day is cached afterwards, with no pairs if nothing was found.
      */
    method PreloadWeeksRange(dayAt: int -> string) returns (days: map<string, Registros.Fetched>)
      modifies reg, reg.store
      ensures var o := ReadOp(old(reg.store.Snapshot()), reg.store.seed, Registros.Collection, None,
                              Registros.RangeQuery(old(reg.userId), OldestShown(weeksToShow, dayAt), dayAt(6)));
        reg.store.Snapshot() == o.state && days == Registros.RangeMap(o.result.value.docs)
      ensures var e := Registros.WithDays(old(reg.entries), days);
        reg.entries == if currentDate in e then e else e[currentDate := []]
      ensures reg.idByDate == Registros.WithIds(old(reg.idByDate), days)
      ensures currentDate in reg.entries
      ensures Registros.Loaded(reg.store.Snapshot(), reg.entries, reg.idByDate) ==
        PreloadWeeks(old(reg.store.Snapshot()), reg.store.seed, old(reg.userId), old(reg.entries), old(reg.idByDate),
                     weeksToShow, dayAt, currentDate)
      ensures reg.userId == old(reg.userId)
      ensures old(Valid()) ==> Valid()
    {
      ghost var st0, e0, ids0 := reg.store.Snapshot(), reg.entries, reg.idByDate;
      var startISO := OldestShown(weeksToShow, dayAt);
      var endISO := dayAt(6);
      days := reg.PreloadRange(startISO, endISO);
      ghost var e := Registros.WithDays(e0, days);
      if currentDate !in reg.entries {
        reg.SetPairs(currentDate, Some([]));
      }
      ghost var r := PreloadWeeks(st0, reg.store.seed, reg.userId, e0, ids0, weeksToShow, dayAt, currentDate);
      assert r.state == reg.store.Snapshot() && r.ids == reg.idByDate && r.entries == reg.entries by {
        PreloadWeeksParts(st0, reg.store.seed, reg.userId, e0, ids0, weeksToShow, dayAt, currentDate, days);
      }
    }

    /** `switchUser`: `init` keeping the target, then the current day and the weeks shown are loaded. */
    method SwitchUser(uid: Value, today: string, dayAt: int -> string)
      modifies this, reg, reg.store
      ensures userId == NextUser(uid) && targetDailyMinutes == TargetOf(Num(old(targetDailyMinutes)))
      ensures old(targetDailyMinutes) != 0 ==> targetDailyMinutes == old(targetDailyMinutes)
      ensures NextUser(uid) != old(userId) ==> currentDate == today
      ensures NextUser(uid) == old(userId) ==> currentDate == old(currentDate)
      ensures currentDate in reg.entries
      ensures var u := if NextUser(uid).Null? then old(reg.userId) else NextUser(uid);
        var changed := NextUser(uid) != old(userId);
        var l1 := Registros.LoadDay(old(reg.store.Snapshot()), reg.store.seed, u,
                                    if changed then map[] else old(reg.entries),
                                    if changed then map[] else old(reg.idByDate), currentDate);
        && reg.userId == u
        && Registros.Loaded(reg.store.Snapshot(), reg.entries, reg.idByDate) ==
             PreloadWeeks(l1.state, reg.store.seed, u, l1.entries, l1.ids, weeksToShow, dayAt, currentDate)
      ensures old(Valid()) ==> Valid()
    {
      ghost var t0 := targetDailyMinutes;
      TargetOfNum(t0);
      Init(uid, Num(targetDailyMinutes), today);
      ghost var u, t, cd := userId, targetDailyMinutes, currentDate;
      EnsureCurrentDayLoaded();
      assert userId == u && targetDailyMinutes == t && currentDate == cd;
      var _ := PreloadWeeksRange(dayAt);
      assert userId == u && targetDailyMinutes == t && currentDate == cd;
    }

    /**
      * `weeklyHistory`: one line per week shown, at least one, from the
      * current week backwards.
      */
    method WeeklyHistory(dayAt: int -> string) returns (list: seq<HistoryWeek>)
      ensures |list| == Dates.Max(1, weeksToShow)
      ensures forall i :: 0 <= i < |list| ==> list[i] == HistoryOf(reg.entries, dayAt, i)
    {
      list := [];
      var i := 0;
      var n := Dates.Max(1, weeksToShow);
      while i < n
        invariant 0 <= i <= n
        invariant |list| == i
        invariant forall j :: 0 <= j < i ==> list[j] == HistoryOf(reg.entries, dayAt, j)
      {
        list := list + [HistoryOf(reg.entries, dayAt, i)];
        i := i + 1;
      }
    }

    /** `setPairs` on the current day. */
    method SetPairs(val: Option<seq<Pair>>)
      modifies reg
      ensures reg.entries == old(reg.entries)[currentDate := if val.Some? then val.value else []]
      ensures reg.idByDate == old(reg.idByDate) && reg.userId == old(reg.userId)
      ensures old(Valid()) ==> Valid()
    {
      reg.SetPairs(currentDate, val);
    }

    /** `addPair`: an empty pair appended to the current day, then the day persisted. */
    method AddPair(now: string) returns (res: Result<Response, StoreError>)
      modifies reg, reg.store
      ensures reg.entries == old(reg.entries)[currentDate := Registros.Current(old(reg.entries), currentDate) + [Dates.Pair("", "")]]
      ensures var w := Registros.PlanPersist(old(reg.userId), reg.entries, old(reg.idByDate), currentDate, now);
        && (w.Update? ==> Outcome(reg.store.Snapshot(), res) == MergeOp(old(reg.store.Snapshot()), reg.store.seed, Registros.Collection, w.id, w.body, now))
        && (w.Create? ==> Outcome(reg.store.Snapshot(), res) == CreateOp(old(reg.store.Snapshot()), reg.store.seed, Registros.Collection, w.body, now))
        && reg.idByDate == Registros.AfterWrite(old(reg.idByDate), currentDate, w, res.Ok?)
      ensures reg.userId == old(reg.userId)
      ensures old(Valid()) ==> Valid()
    {
      reg.AddPair(currentDate, Some(""), Some(""));
      res := reg.Persist(currentDate, now);
    }

    /** `removePair` on the current day. */
    method RemovePair(index: int)
      modifies reg
      ensures reg.entries == old(reg.entries)[currentDate := Registros.RemoveAt(Registros.Current(old(reg.entries), currentDate), index)]
      ensures reg.idByDate == old(reg.idByDate) && reg.userId == old(reg.userId)
      ensures old(Valid()) ==> Valid()
    {
      reg.RemovePairAt(currentDate, index);
    }

    /** `duplicatePair` on the current day. */
    method DuplicatePair(index: int)
      modifies reg
      ensures var curr := Registros.Current(old(reg.entries), currentDate);
        reg.entries == if 0 <= index < |curr| then old(reg.entries)[currentDate := curr + [curr[index]]] else old(reg.entries)
      ensures reg.idByDate == old(reg.idByDate) && reg.userId == old(reg.userId)
      ensures old(Valid()) ==> Valid()
    {
      reg.DuplicatePairAt(currentDate, index);
    }

    /** `sortPairs` on the current day. */
    method SortPairs()
      modifies reg
      ensures reg.entries == old(reg.entries)[currentDate := Registros.SortByStart(Registros.Current(old(reg.entries), currentDate))]
      ensures reg.idByDate == old(reg.idByDate) && reg.userId == old(reg.userId)
      ensures old(Valid()) ==> Valid()
    {
      reg.SortPairsAsc(currentDate);
    }

    /** `clearDay` on the current day. */
    method ClearDay()
      modifies reg
      ensures reg.entries == old(reg.entries)[currentDate := []]
      ensures reg.idByDate == old(reg.idByDate) && reg.userId == old(reg.userId)
      ensures old(Valid()) ==> Valid()
    {
      reg.ClearDay(currentDate);
    }

    /** `persist` of the current day. */
    method Persist(now: string) returns (res: Result<Response, StoreError>)
      modifies reg, reg.store
      ensures var w := Registros.PlanPersist(old(reg.userId), old(reg.entries), old(reg.idByDate), currentDate, now);
        && (w.Update? ==> Outcome(reg.store.Snapshot(), res) == MergeOp(old(reg.store.Snapshot()), reg.store.seed, Registros.Collection, w.id, w.body, now))
        && (w.Create? ==> Outcome(reg.store.Snapshot(), res) == CreateOp(old(reg.store.Snapshot()), reg.store.seed, Registros.Collection, w.body, now))
        && reg.idByDate == Registros.AfterWrite(old(reg.idByDate), currentDate, w, res.Ok?)
      ensures reg.entries == old(reg.entries) && reg.userId == old(reg.userId)
      ensures old(Valid()) ==> Valid()
    {
      res := reg.Persist(currentDate, now);
    }

    /**
      * `clearAll`: every record of the user is deleted from the store, and
      * the cache is left holding only the current day, with no pairs. While
      * ids are unique, the records of other users stay, and no other
      * collection changes.
      */
    method ClearAll()
      modifies reg, reg.store
      ensures reg.entries == map[currentDate := []] && reg.idByDate == map[]
      ensures Registros.Collection in reg.store.db.collections
      ensures forall d :: d in reg.store.db.collections[Registros.Collection] ==>
        Stringify(Field(d, "userId")) != Stringify(reg.userId)
      ensures var before := Prepare(old(reg.store.Snapshot()), reg.store.seed, Registros.Collection).db.collections[Registros.Collection];
        forall d :: d in reg.store.db.collections[Registros.Collection] ==> d in before
      ensures old(Valid()) ==>
        var before := Prepare(old(reg.store.Snapshot()), reg.store.seed, Registros.Collection).db.collections[Registros.Collection];
        forall d :: d in before && Stringify(Field(d, "userId")) != Stringify(reg.userId) ==> d in reg.store.db.collections[Registros.Collection]
      ensures var p := Prepare(old(reg.store.Snapshot()), reg.store.seed, Registros.Collection).db;
        reg.store.db == Db(p.collections[Registros.Collection := reg.store.db.collections[Registros.Collection]], p.nextId)
      ensures reg.userId == old(reg.userId)
      ensures old(Valid()) ==> Valid()
    {
      reg.ClearAllFromServer();
      reg.ClearAllFromClient();
      reg.SetPairs(currentDate, Some([]));
    }
  }
}
