/**
  * The per-day time-record cache of src/stores/registros.js: `entries` maps a
  * day ("YYYY-MM-DD") to its list of in/out pairs, `idByDate` maps a day to
  * the id of its record on the server. The server is the document store of
  * module DocumentStore, reached through its routed operations on the
  * "registros" collection; writes run one at a time in call order.
  */
module Registros {
  import opened Wrappers
  import opened JsValues
  import opened Query
  import opened DocumentStore
  import Sorting
  import Dates

  type Pair = Dates.Pair

  const Collection: string := "registros"

  // ---------------------------------------------------------------------------
  // The store's own copies of the clock arithmetic
  // ---------------------------------------------------------------------------

  /**
    * Minutes since 00:00 of an "HH:mm" string, as this file computes them:
    * after the shape test, the string is split at ':' and each part converted
    * with `Number`. `None` stands for `NaN`.
    */
  function ToMinutes(hm: string): Option<int>
  {
    if !Dates.IsClock(hm) then None
    else
      var parts := Split(hm, ':');
      var h := ParseNumber(parts[0]);
      var m := ParseNumber(parts[1]);
      if h.None? || m.None? then None else Some(h.value * 60 + m.value)
  }

  /** The length of a pair, with a day added when the clock-out is earlier; never negative. */
  function PairMinutes(p: Pair): int
  {
    var a := ToMinutes(p.clockIn);
    var b := ToMinutes(p.clockOut);
    if a.None? || b.None? then 0
    else
      var diff := b.value - a.value;
      var wrapped := if diff < 0 then diff + 24 * 60 else diff;
      if wrapped < 0 then 0 else wrapped
  }

  lemma SplitClock(hm: string)
    requires Dates.IsClock(hm)
    ensures Split(hm, ':') == [hm[..2], hm[3..]]
  {
    assert ':' !in hm[..2];
    assert hm[..3] == hm[..2] + [':'];
    assert IndexOf(hm, ':') == 2;
    assert ':' !in hm[3..];
  }

  lemma ParseTwoDigits(s: string)
    requires |s| == 2 && AllDigits(s)
    ensures ParseNumber(s) == Some(DigitsValue(s) as int)
  {
    assert s[0] != '-' && s[0] != '+';
  }

  /** This file's `toMinutes` agrees with the one of the dates helpers on every string. */
  lemma ToMinutesAgree(hm: string)
    ensures ToMinutes(hm) == Dates.ToMinutes(hm)
  {
    if Dates.IsClock(hm) {
      SplitClock(hm);
      ParseTwoDigits(hm[..2]);
      ParseTwoDigits(hm[3..]);
    }
  }

  /** This file's `pairMinutes` agrees with the one of the dates helpers on every pair. */
  lemma PairMinutesAgree(p: Pair)
    ensures PairMinutes(p) == Dates.PairMinutes(Some(p))
  {
    ToMinutesAgree(p.clockIn);
    ToMinutesAgree(p.clockOut);
  }

  // ---------------------------------------------------------------------------
  // Day totals
  // ---------------------------------------------------------------------------

  /** The sum of the pair lengths of a day, added up left to right. */
  function DayTotal(ps: seq<Pair>): (r: int)
    ensures r >= 0
  {
    if ps == [] then 0 else DayTotal(ps[..|ps| - 1]) + PairMinutes(ps[|ps| - 1])
  }

  lemma {:induction false} DayTotalAppend(a: seq<Pair>, b: seq<Pair>)
    ensures DayTotal(a + b) == DayTotal(a) + DayTotal(b)
    decreases |b|
  {
    if b != [] {
      assert (a + b)[..|a + b| - 1] == a + b[..|b| - 1];
      DayTotalAppend(a, b[..|b| - 1]);
    } else {
      assert a + b == a;
    }
  }

  /** The total of a day does not depend on the order of its pairs. */
  lemma {:induction false} DayTotalPermutation(a: seq<Pair>, b: seq<Pair>)
    requires multiset(a) == multiset(b)
    ensures DayTotal(a) == DayTotal(b)
    decreases |a|
  {
    if a != [] {
      var n := |a| - 1;
      var x := a[n];
      assert x in multiset(b);
      var j :| 0 <= j < |b| && b[j] == x;
      var b' := b[..j] + b[j + 1..];
      assert b == b[..j] + [x] + b[j + 1..];
      assert a == a[..n] + [x];
      assert multiset(a) == multiset(a[..n]) + multiset{x};
      assert multiset(b) == multiset(b[..j]) + multiset{x} + multiset(b[j + 1..]);
      assert multiset(b') == multiset(b[..j]) + multiset(b[j + 1..]);
      calc {
        multiset(a[..n]);
        multiset(a) - multiset{x};
        multiset(b) - multiset{x};
        multiset(b');
      }
      DayTotalPermutation(a[..n], b');
      DayTotalAppend(b[..j] + [x], b[j + 1..]);
      DayTotalAppend(b[..j], [x]);
      DayTotalAppend(b[..j], b[j + 1..]);
      DayTotalSingle(x);
    }
  }

  // ---------------------------------------------------------------------------
  // Record ids and the stored form of a day
  // ---------------------------------------------------------------------------

  /** The id a new day record gets: the day without its dashes, a dash, the user id. */
  function RecordId(uid: Value, iso: string): string
  {
    RemoveAll(iso, '-') + "-" + Stringify(uid)
  }

  /** Day "2025-09-09" of user 1 gets the id "20250909-1". */
  lemma RecordIdExample(iso: string, uid: Value)
    requires iso == "2025-09-09" && uid == Num(1)
    ensures RecordId(uid, iso) == "20250909-1"
  {
    ExampleDayDigits(iso);
    assert Stringify(uid) == "1" by {
      assert NatToString(1) == "1";
    }
  }

  lemma ExampleDayDigits(iso: string)
    requires iso == "2025-09-09"
    ensures RemoveAll(iso, '-') == "20250909"
  {
    var y, m, d := iso[..4], iso[5..7], iso[8..];
    assert y == "2025" && m == "09" && d == "09";
    IsoDayDigits(iso);
  }

  /** A day written "YYYY-MM-DD" with ASCII digits. */
  predicate IsIsoDay(d: string)
  {
    && |d| == 10 && d[4] == '-' && d[7] == '-'
    && AllDigits(d[..4]) && AllDigits(d[5..7]) && AllDigits(d[8..])
  }

  lemma NoDash(s: string)
    requires AllDigits(s)
    ensures RemoveAll(s, '-') == s
  {
  }

  lemma DashConcat(a: string, x: string)
    ensures RemoveAll(a + "-" + x, '-') == RemoveAll(a, '-') + RemoveAll(x, '-')
  {
    assert RemoveAll("-", '-') == "" by { assert "-"[1..] == ""; }
    RemoveAllConcat(a + "-", x, '-');
    RemoveAllConcat(a, "-", '-');
  }

  /** A "YYYY-MM-DD" day loses exactly its two dashes. */
  lemma IsoDayDigits(d: string)
    requires IsIsoDay(d)
    ensures RemoveAll(d, '-') == d[..4] + d[5..7] + d[8..]
  {
    var a, b, e := d[..4], d[5..7], d[8..];
    assert d == a + "-" + (b + "-" + e);
    NoDash(a);
    NoDash(b);
    NoDash(e);
    DashConcat(b, e);
    DashConcat(a, b + "-" + e);
  }

  /** Distinct (user, day) pairs get distinct record ids. */
  lemma RecordIdInjective(u1: int, d1: string, u2: int, d2: string)
    requires IsIsoDay(d1) && IsIsoDay(d2)
    requires RecordId(Num(u1), d1) == RecordId(Num(u2), d2)
    ensures u1 == u2 && d1 == d2
  {
    RecordIdParts(u1, d1);
    RecordIdParts(u2, d2);
    IntToStringInjective(u1, u2);
    DayOfDigits(d1);
    DayOfDigits(d2);
  }

  /** The id of an ISO day splits into the eight digits of the day and the user id. */
  lemma RecordIdParts(u: int, d: string)
    requires IsIsoDay(d)
    ensures var r := RecordId(Num(u), d);
      |r| > 9 && r[..8] == RemoveAll(d, '-') && r[9..] == IntToString(u)
  {
    IsoDayDigits(d);
  }

  /** The day is recovered from its digits by putting the dashes back. */
  lemma DayOfDigits(d: string)
    requires IsIsoDay(d)
    ensures var y := RemoveAll(d, '-');
      |y| == 8 && d == y[..4] + "-" + y[4..6] + "-" + y[6..]
  {
    IsoDayDigits(d);
  }

  /** A pair as the server stores it. */
  function PairValue(p: Pair): Value
  {
    Rec(map["in" := Str(p.clockIn), "out" := Str(p.clockOut)])
  }

  function PairsValue(ps: seq<Pair>): Value
  {
    List(seq(|ps|, i requires 0 <= i < |ps| => PairValue(ps[i])))
  }

  /** An end of a stored pair: a string as it is, anything else as "". */
  function EndOf(v: Value): string
  {
    if v.Str? then v.s else ""
  }

  function ValuePair(v: Value): Pair
  {
    match v
    case Rec(f) => Dates.Pair(EndOf(Field(f, "in")), EndOf(Field(f, "out")))
    case _ => Dates.Pair("", "")
  }

  /** The pairs of a stored day: its `pares` when that is a list, else none. */
  function PairsOf(doc: Doc): (ps: seq<Pair>)
    ensures !Field(doc, "pares").List? ==> ps == []
  {
    match Field(doc, "pares")
    case List(items) => seq(|items|, i requires 0 <= i < |items| => ValuePair(items[i]))
    case _ => []
  }

  /** Pairs written by the store read back as the same pairs. */
  lemma PairsRoundTrip(doc: Doc, ps: seq<Pair>)
    requires Field(doc, "pares") == PairsValue(ps)
    ensures PairsOf(doc) == ps
  {
  }

  // ---------------------------------------------------------------------------
  // Reading days
  // ---------------------------------------------------------------------------

  /** What is read for one day: its pairs and its server id (`Null` when none). */
  datatype Fetched = Fetched(pairs: seq<Pair>, id: Value)

  /** The query of `fetchDay`: this user's record of that day, at most one. */
  function DayQuery(uid: Value, iso: string): map<string, Value>
  {
    map["userId" := Str(Stringify(uid)), "data" := Str(iso), "_limit" := Str("1")]
  }

  /** The record of a user's day: its `userId` and `data` read as those strings. */
  predicate IsDayOf(doc: Doc, uid: Value, iso: string)
  {
    Stringify(Field(doc, "userId")) == Stringify(uid) && Stringify(Field(doc, "data")) == iso
  }

  function DayFetched(docs: seq<Doc>): (f: Fetched)
    ensures docs == [] ==> f == Fetched([], Null)
  {
    if docs == [] then Fetched([], Null) else Fetched(PairsOf(docs[0]), Field(docs[0], "id"))
  }

  lemma DayQueryMatches(doc: Doc, uid: Value, iso: string)
    ensures Matches(doc, DayQuery(uid, iso)) <==> IsDayOf(doc, uid, iso)
  {
    var q := DayQuery(uid, iso);
    assert !EndsWith("userId", "_gte") && !EndsWith("userId", "_lte") by {
      assert "userId"[2..] == "erId";
    }
    assert !EndsWith("data", "_gte") && !EndsWith("data", "_lte") by {
      assert "data"[0..] == "data";
    }
    assert FieldTest(doc, "userId", q["userId"]) <==> Stringify(Field(doc, "userId")) == Stringify(uid);
    assert FieldTest(doc, "data", q["data"]) <==> Stringify(Field(doc, "data")) == iso;
    assert "_limit" in Reserved;
    assert forall k :: k in q && k !in Reserved ==> k == "userId" || k == "data";
    assert TextTest(doc, q);
  }

  /**
    * The day query returns at most one record; none exactly when the
    * collection has no record of that user and day, and otherwise one of them.
    */
  lemma DayQueryResult(docs: seq<Doc>, uid: Value, iso: string)
    ensures var r := RunQuery(docs, DayQuery(uid, iso));
      && |r| <= 1
      && (r == [] <==> forall d :: d in docs ==> !IsDayOf(d, uid, iso))
      && (r != [] ==> r[0] in docs && IsDayOf(r[0], uid, iso))
  {
    var f := Filter(docs, DayQuery(uid, iso));
    DayQueryFirst(docs, uid, iso);
    DayFilter(docs, uid, iso);
    if f != [] {
      assert f[0] in f;
    }
  }

  /** The day query keeps its filter's order and cuts it to the first record. */
  lemma DayQueryFirst(docs: seq<Doc>, uid: Value, iso: string)
    ensures var f := Filter(docs, DayQuery(uid, iso));
      RunQuery(docs, DayQuery(uid, iso)) == f[..Min(1, |f|)]
  {
    var q := DayQuery(uid, iso);
    var f := Filter(docs, q);
    DayQueryParams(uid, iso, |f|);
    assert SortItems(f, q) == f;
    PaginateWindow(f, q);
  }

  /** The day query neither sorts nor skips, and asks for one record. */
  lemma DayQueryParams(uid: Value, iso: string, n: nat)
    ensures var q := DayQuery(uid, iso);
      "_sort" !in q && PageNumber(q) == 1 && PageLimit(q, n) == 1
  {
    var q := DayQuery(uid, iso);
    assert "_page" !in q && "_limit" in q && q["_limit"] == Str("1");
    assert ToNumber(Str("1")) == Some(1) by { assert ParseNumber("1") == Some(1); }
  }

  /** The day query's filter keeps exactly the records of that user and day. */
  lemma DayFilter(docs: seq<Doc>, uid: Value, iso: string)
    ensures forall d :: d in Filter(docs, DayQuery(uid, iso)) <==> d in docs && IsDayOf(d, uid, iso)
  {
    forall d | d in docs ensures Matches(d, DayQuery(uid, iso)) <==> IsDayOf(d, uid, iso) {
      DayQueryMatches(d, uid, iso);
    }
  }

  /** The query of `fetchRange`: this user's records between two days, by day. */
  function RangeQuery(uid: Value, startISO: string, endISO: string): map<string, Value>
  {
    map["userId" := Str(Stringify(uid)), "data_gte" := Str(startISO), "data_lte" := Str(endISO),
        "_sort" := Str("data"), "_order" := Str("asc")]
  }

  /** The day map of `fetchRange`: keyed by the string form of `data`, later records winning. */
  function RangeMap(docs: seq<Doc>): (m: map<string, Fetched>)
    ensures forall k :: k in m <==> exists d :: d in docs && Stringify(Field(d, "data")) == k
  {
    if docs == [] then map[]
    else
      var last := docs[|docs| - 1];
      var init := RangeMap(docs[..|docs| - 1]);
      assert docs == docs[..|docs| - 1] + [last];
      init[Stringify(Field(last, "data")) := Fetched(PairsOf(last), Field(last, "id"))]
  }

  /** The record of day `k` that comes last in `docs`. */
  predicate LastOfDay(docs: seq<Doc>, k: string, i: int)
  {
    && 0 <= i < |docs| && Stringify(Field(docs[i], "data")) == k
    && forall j :: i < j < |docs| ==> Stringify(Field(docs[j], "data")) != k
  }

  lemma LastOfDayExtend(docs: seq<Doc>, k: string, i: int)
    requires docs != [] && LastOfDay(docs[..|docs| - 1], k, i)
    requires Stringify(Field(docs[|docs| - 1], "data")) != k
    ensures LastOfDay(docs, k, i) && docs[..|docs| - 1][i] == docs[i]
  {
    var n := |docs| - 1;
    forall j | i < j < |docs| ensures Stringify(Field(docs[j], "data")) != k {
      if j < n {
        assert docs[..n][j] == docs[j];
      }
    }
  }

  /** Each day of the range map comes from the last record of that day. */
  lemma {:induction false} RangeMapLastWins(docs: seq<Doc>, k: string)
    requires k in RangeMap(docs)
    ensures exists i :: LastOfDay(docs, k, i) && RangeMap(docs)[k] == Fetched(PairsOf(docs[i]), Field(docs[i], "id"))
  {
    var n := |docs| - 1;
    var last := docs[n];
    if Stringify(Field(last, "data")) == k {
      assert LastOfDay(docs, k, n);
    } else {
      var init := docs[..n];
      RangeMapLastWins(init, k);
      var i :| LastOfDay(init, k, i) && RangeMap(init)[k] == Fetched(PairsOf(init[i]), Field(init[i], "id"));
      LastOfDayExtend(docs, k, i);
    }
  }

  // ---------------------------------------------------------------------------
  // Local edits of a day
  // ---------------------------------------------------------------------------

  /** The pairs of a day in the cache, none when absent. */
  function Current(entries: map<string, seq<Pair>>, iso: string): seq<Pair>
  {
    if iso in entries then entries[iso] else []
  }

  /**
    * `splice(index, 1)` on a copy: a negative index counts from the end and
    * is clamped at the start, and an index past the end removes nothing.
    */
  function RemoveAt(s: seq<Pair>, index: int): (r: seq<Pair>)
    ensures 0 <= index < |s| ==> r == s[..index] + s[index + 1..]
    ensures index >= |s| ==> r == s
    ensures -|s| <= index < 0 ==> r == s[..|s| + index] + s[|s| + index + 1..]
    ensures s != [] && index < -|s| ==> r == s[1..]
  {
    var start := if index < 0 then Dates.Max(|s| + index, 0) else Min(index, |s|);
    if start < |s| then s[..start] + s[start + 1..] else s
  }

  /** Removing a pair takes its length off the day total. */
  lemma RemoveAtTotal(s: seq<Pair>, index: int)
    requires 0 <= index < |s|
    ensures DayTotal(RemoveAt(s, index)) + PairMinutes(s[index]) == DayTotal(s)
  {
    var pre, x, post := s[..index], s[index], s[index + 1..];
    assert RemoveAt(s, index) == pre + post;
    SplitAt(s, index);
    DayTotalAppend(pre + [x], post);
    DayTotalAppend(pre, [x]);
    DayTotalAppend(pre, post);
    DayTotalSingle(x);
  }

  lemma SplitAt<T>(s: seq<T>, i: nat)
    requires i < |s|
    ensures s == (s[..i] + [s[i]]) + s[i + 1..]
  {
  }

  lemma DayTotalSingle(x: Pair)
    ensures DayTotal([x]) == PairMinutes(x)
  {
    assert [x][..0] == [];
  }

  /** Duplicating a pair adds its length to the day total. */
  lemma DuplicateTotal(s: seq<Pair>, index: int)
    requires 0 <= index < |s|
    ensures DayTotal(s + [s[index]]) == DayTotal(s) + PairMinutes(s[index])
  {
    assert (s + [s[index]])[..|s|] == s;
  }

  /** The order of `sortPairsAsc`: both clock-ins valid and the first earlier. */
  function StartsBefore(a: Pair, b: Pair): bool
  {
    var x := ToMinutes(a.clockIn);
    var y := ToMinutes(b.clockIn);
    x.Some? && y.Some? && x.value < y.value
  }

  function SortByStart(s: seq<Pair>): seq<Pair>
  {
    Sorting.Sort(s, StartsBefore)
  }

  /** Every clock-in of the day is a valid "HH:mm". */
  predicate StartsValid(s: seq<Pair>)
  {
    forall i :: 0 <= i < |s| ==> ToMinutes(s[i].clockIn).Some?
  }

  /** The clock-ins never decrease from one pair to the next. */
  predicate OrderedByStart(s: seq<Pair>)
  {
    forall i :: 0 < i < |s| ==>
      var x, y := ToMinutes(s[i - 1].clockIn), ToMinutes(s[i].clockIn);
      x.Some? && y.Some? && x.value <= y.value
  }

  lemma StartValidIn(s: seq<Pair>, p: Pair)
    requires StartsValid(s) && p in s
    ensures ToMinutes(p.clockIn).Some?
  {
    var j :| 0 <= j < |s| && s[j] == p;
  }

  /** Sorting keeps the same pairs, and so the same day total. */
  lemma SortByStartSpec(s: seq<Pair>)
    ensures multiset(SortByStart(s)) == multiset(s)
    ensures DayTotal(SortByStart(s)) == DayTotal(s)
  {
    DayTotalPermutation(SortByStart(s), s);
  }

  /** When every clock-in is valid, sorting orders the pairs by clock-in. */
  lemma SortByStartOrdered(s: seq<Pair>)
    requires StartsValid(s)
    ensures OrderedByStart(SortByStart(s))
  {
    var r := SortByStart(s);
    assert Sorting.Asymmetric(StartsBefore);
    Sorting.SortSorted(s, StartsBefore);
    assert StartsValid(r) by {
      forall i | 0 <= i < |r| ensures ToMinutes(r[i].clockIn).Some? {
        assert r[i] in multiset(s);
        StartValidIn(s, r[i]);
      }
    }
    OrderedOfSorted(r);
  }

  /** With valid clock-ins, no pair starting before its predecessor means the clock-ins never decrease. */
  lemma OrderedOfSorted(r: seq<Pair>)
    requires StartsValid(r) && Sorting.SortedBy(r, StartsBefore)
    ensures OrderedByStart(r)
  {
    forall i | 0 < i < |r|
      ensures var x, y := ToMinutes(r[i - 1].clockIn), ToMinutes(r[i].clockIn); x.Some? && y.Some? && x.value <= y.value
    {
      assert !StartsBefore(r[i], r[i - 1]);
    }
  }

  // ---------------------------------------------------------------------------
  // persist
  // ---------------------------------------------------------------------------

  /** The one write a persist sends. */
  datatype Write =
    | Update(id: string, body: Doc)   // PATCH of the known record
    | Create(id: string, body: Doc)   // POST under the deterministic id

  /**
    * What `persist(iso)` sends: with a known id, the day's pairs, their total
    * and the time as a patch of that record; otherwise a new record under
    * `RecordId(userId, iso)`.
    */
  function PlanPersist(uid: Value, entries: map<string, seq<Pair>>, idByDate: map<string, Value>,
                       iso: string, now: string): (w: Write)
    ensures "pares" in w.body && w.body["pares"] == PairsValue(Current(entries, iso))
    ensures "totalMin" in w.body && w.body["totalMin"] == Num(DayTotal(Current(entries, iso)))
    ensures iso in idByDate && !IsNullish(idByDate[iso]) <==> w.Update?
    ensures w.Update? ==> w.id == Stringify(idByDate[iso])
    ensures w.Create? ==>
      && w.id == RecordId(uid, iso)
      && "id" in w.body && w.body["id"] == Str(w.id)
      && "userId" in w.body && w.body["userId"] == uid
      && "data" in w.body && w.body["data"] == Str(iso)
  {
    var pairs := Current(entries, iso);
    var total := Num(DayTotal(pairs));
    if iso in idByDate && !IsNullish(idByDate[iso]) then
      Update(Stringify(idByDate[iso]),
             map["pares" := PairsValue(pairs), "totalMin" := total, "updatedAt" := Str(now)])
    else
      var id := RecordId(uid, iso);
      Create(id, map["id" := Str(id), "userId" := uid, "data" := Str(iso), "pares" := PairsValue(pairs),
                     "totalMin" := total, "createdAt" := Str(now), "updatedAt" := Str(now)])
  }

  /** The id map after a write: a created record's id is remembered. */
  function AfterWrite(idByDate: map<string, Value>, iso: string, w: Write, ok: bool): map<string, Value>
  {
    if w.Create? && ok then idByDate[iso := Str(w.id)] else idByDate
  }

  /**
    * Once a persist has created a day's record, the next persist of that day
    * patches the same record instead of creating another.
    */
  lemma SecondPersistUpdates(uid: Value, entries: map<string, seq<Pair>>, idByDate: map<string, Value>,
                             entries': map<string, seq<Pair>>, iso: string, now: string, later: string)
    requires PlanPersist(uid, entries, idByDate, iso, now).Create?
    ensures var w := PlanPersist(uid, entries, idByDate, iso, now);
      var w' := PlanPersist(uid, entries', AfterWrite(idByDate, iso, w, true), iso, later);
      w'.Update? && w'.id == w.id == RecordId(uid, iso)
  {
  }

  /**
    * On the store, the create and the following patch leave exactly one
    * record under the day's id: the create appends it, the patch finds it and
    * rewrites it in place.
    */
  lemma CreateThenUpdateOneRecord(st: State, seed: Option<Db>, c1: Doc, c2: Doc, id: string, t1: string, t2: string)
    requires Consistent(st, seed)
    requires Field(c1, "id") == Str(id)
    requires CreateOp(st, seed, Collection, c1, t1).result.Ok?
    ensures var s1 := CreateOp(st, seed, Collection, c1, t1).state;
      var s2 := MergeOp(s1, seed, Collection, id, c2, t2);
      var before := Prepare(st, seed, Collection).db.collections[Collection];
      && s2.result.Ok?
      && |s2.state.db.collections[Collection]| == |before| + 1
      && UniqueIds(s2.state.db.collections[Collection])
      && FindIndex(s2.state.db.collections[Collection], id) == |before|
  {
    var p := Prepare(st, seed, Collection);
    var before := p.db.collections[Collection];
    assert PostId(p, Collection, c1) == Str(id);
    PostThenGet(st, seed, Collection, c1, t1);
    CreateKeepsIdsUnique(st, seed, Collection, c1, t1);
    var item := NewItem(c1, Str(id), t1);
    var s1 := CreateOp(st, seed, Collection, c1, t1).state;
    var docs1 := s1.db.collections[Collection];
    assert docs1 == before + [item];
    assert Collection in s1.db.collections && Collection in s1.db.nextId;
    MergeKeepsIdsUnique(s1, seed, Collection, id, c2, t2);
    MergeLast(s1, seed, Collection, before, item, id, c2, t2);
  }

  /** A patch of the record last appended rewrites it at the end of the collection. */
  lemma MergeLast(s1: State, seed: Option<Db>, c: string, before: seq<Doc>, item: Doc,
                  id: string, body: Doc, now: string)
    requires c in s1.db.collections && c in s1.db.nextId
    requires s1.db.collections[c] == before + [item]
    requires FindIndex(before, id) == -1 && IdKey(item) == id
    ensures var o := MergeOp(s1, seed, c, id, body, now);
      && o.result.Ok?
      && o.state.db.collections[c] == before + [Merged(item, body, id, now)]
      && FindIndex(o.state.db.collections[c], id) == |before|
  {
    FindAppended(before, item, id);
    MergeOpAt(s1, seed, c, id, body, now, |before|);
    MergedId(item, body, id, now);
    ReplaceLast(before, item, Merged(item, body, id, now));
    FindAppended(before, Merged(item, body, id, now), id);
  }

  lemma ReplaceLast<T>(s: seq<T>, x: T, y: T)
    ensures (s + [x])[|s|] == x && (s + [x])[|s| := y] == s + [y]
  {
  }

  // ---------------------------------------------------------------------------
  // Preloading many days
  // ---------------------------------------------------------------------------

  /** The cache after the fetched days are written into it. */
  function WithDays(entries: map<string, seq<Pair>>, days: map<string, Fetched>): map<string, seq<Pair>>
  {
    entries + map k | k in days :: days[k].pairs
  }

  /** The id map after the fetched days with a non-null id are written into it. */
  function WithIds(idByDate: map<string, Value>, days: map<string, Fetched>): map<string, Value>
  {
    idByDate + map k | k in days && !IsNullish(days[k].id) :: days[k].id
  }

  /** A preload writes only the fetched days; every other day keeps its pairs and its id. */
  lemma PreloadTouchesOnlyFetchedDays(entries: map<string, seq<Pair>>, idByDate: map<string, Value>,
                                      days: map<string, Fetched>, d: string)
    ensures d in days ==> d in WithDays(entries, days) && WithDays(entries, days)[d] == days[d].pairs
    ensures d in days && !IsNullish(days[d].id) ==> d in WithIds(idByDate, days) && WithIds(idByDate, days)[d] == days[d].id
    ensures d !in days ==>
      && (d in WithDays(entries, days) <==> d in entries)
      && (d in entries ==> WithDays(entries, days)[d] == entries[d])
      && (d in WithIds(idByDate, days) <==> d in idByDate)
      && (d in idByDate ==> WithIds(idByDate, days)[d] == idByDate[d])
    ensures d in days && IsNullish(days[d].id) ==>
      && (d in WithIds(idByDate, days) <==> d in idByDate)
      && (d in idByDate ==> WithIds(idByDate, days)[d] == idByDate[d])
  {
  }

  /** Writing one more fetched day sets that day's pairs. */
  lemma WithDaysPut(entries: map<string, seq<Pair>>, done: map<string, Fetched>, iso: string, f: Fetched)
    ensures WithDays(entries, done[iso := f]) == WithDays(entries, done)[iso := f.pairs]
  {
  }

  /** Writing one more fetched day sets that day's id, unless the id is null or missing. */
  lemma WithIdsPut(idByDate: map<string, Value>, done: map<string, Fetched>, iso: string, f: Fetched)
    requires iso !in done
    ensures !IsNullish(f.id) ==> WithIds(idByDate, done[iso := f]) == WithIds(idByDate, done)[iso := f.id]
    ensures IsNullish(f.id) ==> WithIds(idByDate, done[iso := f]) == WithIds(idByDate, done)
  {
  }

  /** Moving one key from the pending set to the done part of a map. */
  lemma TakeOne<K, V>(m: map<K, V>, todo: set<K>, k: K)
    requires k in todo && todo <= m.Keys
    ensures k !in m - todo
    ensures m - (todo - {k}) == (m - todo)[k := m[k]]
  {
  }

  /** The loop of `fetchRange`: one entry per day, a later record of the same day replacing an earlier one. */
  method CollectDays(docs: seq<Doc>) returns (days: map<string, Fetched>)
    ensures days == RangeMap(docs)
  {
    days := map[];
    var i := 0;
    while i < |docs|
      invariant 0 <= i <= |docs|
      invariant days == RangeMap(docs[..i])
    {
      var it := docs[i];
      assert docs[..i + 1][..i] == docs[..i];
      days := days[Stringify(Field(it, "data")) := Fetched(PairsOf(it), Field(it, "id"))];
      i := i + 1;
    }
    assert docs[..i] == docs;
  }

  /** The store and the cache after a load: the store's state, the pairs by day and the ids by day. */
  datatype Loaded = Loaded(state: State, entries: map<string, seq<Pair>>, ids: map<string, Value>)

  /**
    * `ensureDayLoaded` on values: a day already cached leaves everything as
    * it is; otherwise the day query is read from the store and its pairs,
    * and its id unless that is null, are cached.
    */
  function LoadDay(st: State, seed: Option<Db>, uid: Value, entries: map<string, seq<Pair>>,
                   ids: map<string, Value>, iso: string): (r: Loaded)
    ensures r.entries.Keys == entries.Keys + {iso}
    ensures forall d :: d in entries ==> r.entries[d] == entries[d]
    ensures forall d :: d in ids && d != iso ==> d in r.ids && r.ids[d] == ids[d]
    ensures iso in entries ==> r.state == st && r.ids == ids
  {
    if iso in entries then Loaded(st, entries, ids)
    else
      var o := ReadOp(st, seed, Collection, None, DayQuery(uid, iso));
      var f := DayFetched(o.result.value.docs);
      Loaded(o.state, entries[iso := f.pairs], if IsNullish(f.id) then ids else ids[iso := f.id])
  }

  /** A day not yet cached is cached with exactly the pairs of the user's record of that day, if any. */
  lemma LoadDayFetches(st: State, seed: Option<Db>, uid: Value, entries: map<string, seq<Pair>>,
                       ids: map<string, Value>, iso: string)
    requires iso !in entries
    ensures var docs := Filter(Prepare(st, seed, Collection).db.collections[Collection], DayQuery(uid, iso));
      var r := LoadDay(st, seed, uid, entries, ids, iso);
      && r.state == Prepare(st, seed, Collection)
      && (docs == [] ==> r.entries[iso] == [] && r.ids == ids)
      && (docs != [] ==> r.entries[iso] == PairsOf(docs[0]))
  {
    var p := Prepare(st, seed, Collection);
    DayQueryFirst(p.db.collections[Collection], uid, iso);
  }

  // ---------------------------------------------------------------------------
  // The store of the registros page
  // ---------------------------------------------------------------------------

  /**
    * The cache of the signed-in user's days. Every id it remembers for a day
    * is a real (non-null) id, and the store under it keeps ids unique.
    */
  class RecordCache {
    var userId: Value
    var entries: map<string, seq<Pair>>
    var idByDate: map<string, Value>
    const store: LocalStore

    predicate Valid()
      reads this, store
    {
      && store.Valid()
      && forall d :: d in idByDate ==> !IsNullish(idByDate[d])
    }

    constructor (store: LocalStore)
      ensures userId == Null && entries == map[] && idByDate == map[] && this.store == store
      ensures store.Valid() ==> Valid()
    {
      userId := Null;
      entries := map[];
      idByDate := map[];
      this.store := store;
    }

    /** `init`: a given user id is kept as a number. */
    method Init(uid: Value)
      modifies this
      ensures userId == (if IsNullish(uid) then old(userId) else NumberValue(uid))
      ensures userId.Null? || userId.Num? || userId.NaN? || userId == old(userId)
      ensures entries == old(entries) && idByDate == old(idByDate)
      ensures old(Valid()) ==> Valid()
    {
      if !IsNullish(uid) {
        userId := NumberValue(uid);
      }
    }

    /** The number of pairs of a day, 0 when the day is not cached. */
    function PairsCountOf(iso: string): (n: nat)
      reads this
      ensures iso !in entries ==> n == 0
      ensures n == |Current(entries, iso)|
    {
      if iso in entries then |entries[iso]| else 0
    }

    /** The pair count of every cached day. */
    method PairsCountByDate() returns (counts: map<string, nat>)
      ensures counts.Keys == entries.Keys
      ensures forall iso :: iso in counts ==> counts[iso] == PairsCountOf(iso)
    {
      counts := map[];
      var todo := entries.Keys;
      while todo != {}
        invariant todo <= entries.Keys
        invariant counts.Keys == entries.Keys - todo
        invariant forall iso :: iso in counts ==> counts[iso] == PairsCountOf(iso)
        decreases todo
      {
        var iso :| iso in todo;
        counts := counts[iso := |entries[iso]|];
        todo := todo - {iso};
      }
    }

    /** `ensureDayLoaded`: a day not yet cached is read from the store, with its id when it has one. */
    method EnsureDayLoaded(iso: string)
      modifies this, store
      ensures iso in old(entries) ==>
        entries == old(entries) && idByDate == old(idByDate) && store.Snapshot() == old(store.Snapshot())
      ensures iso !in old(entries) ==>
        var o := ReadOp(old(store.Snapshot()), store.seed, Collection, None, DayQuery(old(userId), iso));
        var f := DayFetched(o.result.value.docs);
        && store.Snapshot() == o.state
        && entries == old(entries)[iso := f.pairs]
        && idByDate == (if IsNullish(f.id) then old(idByDate) else old(idByDate)[iso := f.id])
      ensures iso in entries && userId == old(userId)
      ensures Loaded(store.Snapshot(), entries, idByDate) == LoadDay(old(store.Snapshot()), store.seed, old(userId), old(entries), old(idByDate), iso)
      ensures old(Valid()) ==> Valid()
    {
      if iso in entries {
        return;
      }
      var r := store.Read(Collection, None, DayQuery(userId, iso));
      var f := DayFetched(r.value.docs);
      entries := entries[iso := f.pairs];
      if !IsNullish(f.id) {
        idByDate := idByDate[iso := f.id];
      }
    }

    /** `fetchRange`: the user's records between two days, as a map from day to pairs and id. */
    method FetchRange(startISO: string, endISO: string) returns (days: map<string, Fetched>)
      modifies store
      ensures var o := ReadOp(old(store.Snapshot()), store.seed, Collection, None, RangeQuery(userId, startISO, endISO));
        store.Snapshot() == o.state && days == RangeMap(o.result.value.docs)
      ensures old(store.Valid()) ==> store.Valid()
    {
      var r := store.Read(Collection, None, RangeQuery(userId, startISO, endISO));
      days := CollectDays(r.value.docs);
    }

    /** `preloadRange`: every fetched day is written into the cache, and nothing else. */
    method PreloadRange(startISO: string, endISO: string) returns (days: map<string, Fetched>)
      modifies this, store
      ensures var o := ReadOp(old(store.Snapshot()), store.seed, Collection, None, RangeQuery(old(userId), startISO, endISO));
        store.Snapshot() == o.state && days == RangeMap(o.result.value.docs)
      ensures entries == WithDays(old(entries), days)
      ensures idByDate == WithIds(old(idByDate), days)
      ensures userId == old(userId)
      ensures old(Valid()) ==> Valid()
    {
      days := FetchRange(startISO, endISO);
      WriteDays(days);
    }

    /** The loop of `preloadRange` over the fetched days. */
    method WriteDays(days: map<string, Fetched>)
      modifies this
      ensures entries == WithDays(old(entries), days)
      ensures idByDate == WithIds(old(idByDate), days)
      ensures userId == old(userId)
      ensures old(Valid()) ==> Valid()
    {
      var todo := days.Keys;
      while todo != {}
        invariant todo <= days.Keys
        invariant entries == WithDays(old(entries), days - todo)
        invariant idByDate == WithIds(old(idByDate), days - todo)
        invariant userId == old(userId)
        invariant old(Valid()) ==> Valid()
        decreases todo
      {
        var iso :| iso in todo;
        var f := days[iso];
        ghost var done := days - todo;
        TakeOne(days, todo, iso);
        WithDaysPut(old(entries), done, iso, f);
        WithIdsPut(old(idByDate), done, iso, f);
        WriteDay(iso, f);
        todo := todo - {iso};
      }
      assert days - todo == days;
    }

    /** One fetched day written into the cache: its pairs, and its id unless that is null. */
    method WriteDay(iso: string, f: Fetched)
      modifies this
      ensures entries == old(entries)[iso := f.pairs]
      ensures idByDate == if IsNullish(f.id) then old(idByDate) else old(idByDate)[iso := f.id]
      ensures userId == old(userId)
      ensures old(Valid()) ==> Valid()
    {
      entries := entries[iso := f.pairs];
      if !IsNullish(f.id) {
        idByDate := idByDate[iso := f.id];
      }
    }

    /**
      * `persist(iso)`: the write `PlanPersist` describes, sent to the store;
      * a created record's id is remembered only when the store accepted it.
      */
    method Persist(iso: string, now: string) returns (res: Result<Response, StoreError>)
      modifies this, store
      ensures var w := PlanPersist(old(userId), old(entries), old(idByDate), iso, now);
        && (w.Update? ==> Outcome(store.Snapshot(), res) == MergeOp(old(store.Snapshot()), store.seed, Collection, w.id, w.body, now))
        && (w.Create? ==> Outcome(store.Snapshot(), res) == CreateOp(old(store.Snapshot()), store.seed, Collection, w.body, now))
        && idByDate == AfterWrite(old(idByDate), iso, w, res.Ok?)
      ensures entries == old(entries) && userId == old(userId)
      ensures old(Valid()) ==> Valid()
    {
      var w := PlanPersist(userId, entries, idByDate, iso, now);
      if w.Update? {
        res := store.Merge(Collection, w.id, w.body, now);
      } else {
        res := SendCreate(iso, w.id, w.body, now);
      }
    }

    /** The create branch of `persist`: the new record's id is remembered once the store accepts it. */
    method SendCreate(iso: string, id: string, body: Doc, now: string) returns (res: Result<Response, StoreError>)
      modifies this, store
      ensures Outcome(store.Snapshot(), res) == CreateOp(old(store.Snapshot()), store.seed, Collection, body, now)
      ensures idByDate == if res.Ok? then old(idByDate)[iso := Str(id)] else old(idByDate)
      ensures entries == old(entries) && userId == old(userId)
      ensures old(Valid()) ==> Valid()
    {
      res := store.Create(Collection, body, now);
      if res.Ok? {
        idByDate := idByDate[iso := Str(id)];
      }
    }

    /** `setPairs`: a copy of the given list, or no pairs when it is not a list. */
    method SetPairs(iso: string, val: Option<seq<Pair>>)
      modifies this
      ensures entries == old(entries)[iso := if val.Some? then val.value else []]
      ensures idByDate == old(idByDate) && userId == old(userId)
      ensures old(Valid()) ==> Valid()
    {
      entries := entries[iso := if val.Some? then val.value else []];
    }

    /** `addPair`: one pair appended, a missing end read as "". */
    method AddPair(iso: string, clockIn: Option<string>, clockOut: Option<string>)
      modifies this
      ensures var p := Dates.Pair(if clockIn.Some? then clockIn.value else "", if clockOut.Some? then clockOut.value else "");
        entries == old(entries)[iso := Current(old(entries), iso) + [p]]
      ensures idByDate == old(idByDate) && userId == old(userId)
      ensures old(Valid()) ==> Valid()
    {
      var curr := Current(entries, iso);
      var p := Dates.Pair(if clockIn.Some? then clockIn.value else "", if clockOut.Some? then clockOut.value else "");
      entries := entries[iso := curr + [p]];
    }

    /** `removePairAt`: the pair at the index taken out (splice semantics); the day is cached afterwards. */
    method RemovePairAt(iso: string, index: int)
      modifies this
      ensures entries == old(entries)[iso := RemoveAt(Current(old(entries), iso), index)]
      ensures idByDate == old(idByDate) && userId == old(userId)
      ensures old(Valid()) ==> Valid()
    {
      var next := Current(entries, iso);
      next := RemoveAt(next, index);
      entries := entries[iso := next];
    }

    /** `duplicatePairAt`: a copy of the pair at the index appended; nothing at all when there is none. */
    method DuplicatePairAt(iso: string, index: int)
      modifies this
      ensures var curr := Current(old(entries), iso);
        entries == if 0 <= index < |curr| then old(entries)[iso := curr + [curr[index]]] else old(entries)
      ensures idByDate == old(idByDate) && userId == old(userId)
      ensures old(Valid()) ==> Valid()
    {
      var curr := Current(entries, iso);
      if !(0 <= index < |curr|) {
        return;
      }
      var p := curr[index];
      entries := entries[iso := curr + [Dates.Pair(p.clockIn, p.clockOut)]];
    }

    /** `sortPairsAsc`: the day's pairs ordered by clock-in. */
    method SortPairsAsc(iso: string)
      modifies this
      ensures entries == old(entries)[iso := SortByStart(Current(old(entries), iso))]
      ensures idByDate == old(idByDate) && userId == old(userId)
      ensures old(Valid()) ==> Valid()
    {
      var curr := Current(entries, iso);
      entries := entries[iso := SortByStart(curr)];
    }

    /** `clearDay`: the day stays cached, with no pairs. */
    method ClearDay(iso: string)
      modifies this
      ensures entries == old(entries)[iso := []]
      ensures idByDate == old(idByDate) && userId == old(userId)
      ensures old(Valid()) ==> Valid()
    {
      entries := entries[iso := []];
    }

    /** `clearAllFromClient` (and its alias `clearCache`): both maps emptied. */
    method ClearAllFromClient()
      modifies this
      ensures entries == map[] && idByDate == map[] && userId == old(userId)
      ensures old(Valid()) ==> Valid()
    {
      entries := map[];
      idByDate := map[];
    }

    /**
      * `clearAllFromServer`: every record of the user is deleted from the
      * store, one delete per record found, and the cache is emptied. No
      * record of the user is left; while ids are unique, every record of
      * another user stays, and no other collection changes.
      */
    method ClearAllFromServer()
      modifies this, store
      ensures entries == map[] && idByDate == map[] && userId == old(userId)
      ensures Collection in store.db.collections
      ensures forall d :: d in store.db.collections[Collection] ==>
        Stringify(Field(d, "userId")) != Stringify(userId)
      ensures var before := Prepare(old(store.Snapshot()), store.seed, Collection).db.collections[Collection];
        forall d :: d in store.db.collections[Collection] ==> d in before
      ensures old(Valid()) ==>
        var before := Prepare(old(store.Snapshot()), store.seed, Collection).db.collections[Collection];
        forall d :: d in before && Stringify(Field(d, "userId")) != Stringify(userId) ==> d in store.db.collections[Collection]
      ensures var p := Prepare(old(store.Snapshot()), store.seed, Collection).db;
        store.db == Db(p.collections[Collection := store.db.collections[Collection]], p.nextId)
      ensures old(Valid()) ==> Valid()
    {
      var query := map["userId" := Str(Stringify(userId))];
      var r := store.Read(Collection, None, query);
      ghost var before := store.db.collections[Collection];
      ghost var unique := UniqueIds(before);
      var arr := r.value.docs;
      assert arr == RunQuery(before, query);
      DeleteEach(arr);
      NoOwnerLeft(before, store.db.collections[Collection], arr, userId);
      if unique {
        OthersKept(before, store.db.collections[Collection], arr, userId);
      }
      ClearAllFromClient();
    }

    /** The deletes of `clearAllFromServer`: one per record found, whatever each answers. */
    method DeleteEach(arr: seq<Doc>)
      requires Collection in store.db.collections && Collection in store.db.nextId
      modifies store
      ensures Collection in store.db.collections
      ensures forall d :: d in store.db.collections[Collection] ==> d in old(store.db.collections[Collection])
      ensures forall d, j :: d in store.db.collections[Collection] && 0 <= j < |arr| ==> IdKey(d) != IdKey(arr[j])
      ensures forall d :: d in old(store.db.collections[Collection]) && !Listed(d, arr) ==> d in store.db.collections[Collection]
      ensures store.db == Db(old(store.db.collections)[Collection := store.db.collections[Collection]], old(store.db.nextId))
      ensures old(store.Valid()) ==> store.Valid()
    {
      ghost var db0 := store.db;
      DeletedNone(db0, arr);
      var i := 0;
      while i < |arr|
        invariant DeletedUpTo(store.db, db0, arr, i)
        invariant old(store.Valid()) ==> store.Valid()
      {
        RemoveOpIdle(store.Snapshot(), store.seed, Collection, IdKey(arr[i]));
        DeletedStep(store.db, db0, arr, i);
        var _ := store.Remove(Collection, IdKey(arr[i]));
        i := i + 1;
      }
      assert arr[..i] == arr;
    }
  }

  /**
    * The state of the deletes of `clearAllFromServer` after the first `i`
    * records of `arr`: only the collection changed, it holds only records
    * it held, none with a deleted id, and every record with no deleted id.
    */
  predicate DeletedUpTo(db: Db, db0: Db, arr: seq<Doc>, i: int)
  {
    && 0 <= i <= |arr|
    && Collection in db0.collections
    && Collection in db.collections && Collection in db.nextId
    && db == Db(db0.collections[Collection := db.collections[Collection]], db0.nextId)
    && (forall d :: d in db.collections[Collection] ==> d in db0.collections[Collection])
    && (forall d, j :: d in db.collections[Collection] && 0 <= j < i ==> IdKey(d) != IdKey(arr[j]))
    && (forall d :: d in db0.collections[Collection] && !Listed(d, arr[..i]) ==> d in db.collections[Collection])
  }

  /** Before the first delete nothing has changed. */
  lemma DeletedNone(db0: Db, arr: seq<Doc>)
    requires Collection in db0.collections && Collection in db0.nextId
    ensures DeletedUpTo(db0, db0, arr, 0)
  {
    assert db0.collections[Collection := db0.collections[Collection]] == db0.collections;
  }

  /** One more delete, by the id of `arr[i]`, moves the deletes one record on. */
  lemma DeletedStep(db: Db, db0: Db, arr: seq<Doc>, i: int)
    requires DeletedUpTo(db, db0, arr, i) && i < |arr|
    ensures DeletedUpTo(Db(db.collections[Collection := RemoveKey(db.collections[Collection], IdKey(arr[i]))], db.nextId), db0, arr, i + 1)
  {
    var docs := db.collections[Collection];
    DeleteStep(docs, db0.collections[Collection], arr, i);
    KeepStep(docs, db0.collections[Collection], arr, i);
    var rest := RemoveKey(docs, IdKey(arr[i]));
    assert db.collections[Collection := rest] == db0.collections[Collection := rest];
  }

  /** Some record of `arr` has the id of `d`. */
  predicate Listed(d: Doc, arr: seq<Doc>)
  {
    exists j :: 0 <= j < |arr| && IdKey(d) == IdKey(arr[j])
  }

  /** One more delete keeps every record whose id is not among the ids deleted so far. */
  lemma KeepStep(docs: seq<Doc>, before: seq<Doc>, arr: seq<Doc>, i: int)
    requires 0 <= i < |arr|
    requires forall d :: d in before && !Listed(d, arr[..i]) ==> d in docs
    ensures forall d :: d in before && !Listed(d, arr[..i + 1]) ==> d in RemoveKey(docs, IdKey(arr[i]))
  {
    forall d | d in before && !Listed(d, arr[..i + 1])
      ensures d in RemoveKey(docs, IdKey(arr[i]))
    {
      assert arr[..i + 1][i] == arr[i];
      assert !Listed(d, arr[..i]) by {
        forall j | 0 <= j < i
          ensures IdKey(d) != IdKey(arr[..i][j])
        {
          assert arr[..i][j] == arr[..i + 1][j];
        }
      }
    }
  }

  /** One more delete keeps the records a subset and removes one more listed id. */
  lemma DeleteStep(docs: seq<Doc>, before: seq<Doc>, arr: seq<Doc>, i: int)
    requires 0 <= i < |arr|
    requires forall d :: d in docs ==> d in before
    requires forall d, j :: d in docs && 0 <= j < i ==> IdKey(d) != IdKey(arr[j])
    ensures var rest := RemoveKey(docs, IdKey(arr[i]));
      && (forall d :: d in rest ==> d in before)
      && (forall d, j :: d in rest && 0 <= j < i + 1 ==> IdKey(d) != IdKey(arr[j]))
  {
  }

  /**
    * Deleting every record the user query found leaves no record of the
    * user among what remains of the collection.
    */
  lemma NoOwnerLeft(before: seq<Doc>, after: seq<Doc>, arr: seq<Doc>, uid: Value)
    requires arr == RunQuery(before, map["userId" := Str(Stringify(uid))])
    requires forall d :: d in after ==> d in before
    requires forall d, j :: d in after && 0 <= j < |arr| ==> IdKey(d) != IdKey(arr[j])
    ensures forall d :: d in after ==> Stringify(Field(d, "userId")) != Stringify(uid)
  {
    var query := map["userId" := Str(Stringify(uid))];
    forall d | d in after
      ensures Stringify(Field(d, "userId")) != Stringify(uid)
    {
      assert d !in arr by {
        forall j | 0 <= j < |arr| ensures arr[j] != d {
          assert IdKey(d) != IdKey(arr[j]);
        }
      }
      if Stringify(Field(d, "userId")) == Stringify(uid) {
        OwnerMatches(d, uid);
        RunQueryComplete(before, query, d);
        assert false;
      }
    }
  }

  /**
    * While ids are unique, deleting the ids the user query listed keeps
    * every record of another user.
    */
  lemma OthersKept(before: seq<Doc>, after: seq<Doc>, arr: seq<Doc>, uid: Value)
    requires UniqueIds(before)
    requires arr == RunQuery(before, map["userId" := Str(Stringify(uid))])
    requires forall d :: d in before && !Listed(d, arr) ==> d in after
    ensures forall d :: d in before && Stringify(Field(d, "userId")) != Stringify(uid) ==> d in after
  {
    forall d | d in before && Stringify(Field(d, "userId")) != Stringify(uid)
      ensures d in after
    {
      if Listed(d, arr) {
        var j :| 0 <= j < |arr| && IdKey(d) == IdKey(arr[j]);
        assert arr[j] in arr;
        OwnerMatches(arr[j], uid);
        SameIdSameRecord(before, d, arr[j]);
        assert false;
      }
    }
  }

  /** In a collection with unique ids, two records with the same id are the same record. */
  lemma SameIdSameRecord(docs: seq<Doc>, a: Doc, b: Doc)
    requires UniqueIds(docs) && a in docs && b in docs && IdKey(a) == IdKey(b)
    ensures a == b
  {
    var i :| 0 <= i < |docs| && docs[i] == a;
    var j :| 0 <= j < |docs| && docs[j] == b;
  }

  /** The user filter of `clearAllFromServer` passes exactly the records of the user. */
  lemma OwnerMatches(d: Doc, uid: Value)
    ensures Matches(d, map["userId" := Str(Stringify(uid))]) <==> Stringify(Field(d, "userId")) == Stringify(uid)
  {
    var q := map["userId" := Str(Stringify(uid))];
    assert !EndsWith("userId", "_gte") && !EndsWith("userId", "_lte") by {
      assert "userId"[2..] == "erId";
    }
    assert "userId" in q && "userId" !in Reserved && q.Keys == {"userId"};
    assert TextTest(d, q);
    assert FieldTest(d, "userId", q["userId"]) <==> Stringify(Field(d, "userId")) == Stringify(uid);
  }
}
