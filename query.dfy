/**
  * The pure half of the browser-local document store
  * (src/services/adapters/localStorageAdapter.js): path parsing, the value
  * comparator, the json-server style filter, sort and pagination, and the
  * lookups by id that the CRUD operations share.
  */
module Query {
  import opened Wrappers
  import opened JsValues
  import Sorting

  // ---------------------------------------------------------------------------
  // Paths: "/<collection>[/<id>][?<query>]"
  // ---------------------------------------------------------------------------

  /** `s.indexOf(c)` for a character that occurs. */
  function IndexOf(s: string, c: char): (i: nat)
    requires c in s
    ensures i < |s| && s[i] == c && c !in s[..i]
  {
    if s[0] == c then 0
    else
      var j := IndexOf(s[1..], c);
      assert s[..j + 1] == [s[0]] + s[1..][..j];
      j + 1
  }

  /** `s.split(c)` for a one-character separator. */
  function Split(s: string, c: char): (parts: seq<string>)
    ensures |parts| >= 1
    ensures c !in parts[0]
    ensures |parts| == 1 <==> c !in s
    decreases |s|
  {
    if c !in s then [s]
    else
      var i := IndexOf(s, c);
      [s[..i]] + Split(s[i + 1..], c)
  }

  /** Joining the pieces of a split with the separator gives back the string. */
  lemma {:induction false} JoinSplit(s: string, c: char)
    ensures Join(Split(s, c), [c]) == s
    decreases |s|
  {
    if c in s {
      var i := IndexOf(s, c);
      JoinSplit(s[i + 1..], c);
      SplitAtFirst(s, c);
      Around(s, i);
    }
  }

  /** A sequence is what comes before position `i`, the element there, and what follows. */
  lemma Around<T>(s: seq<T>, i: int)
    requires 0 <= i < |s|
    ensures s == s[..i] + [s[i]] + s[i + 1..]
  {
  }

  /** Drops one leading slash, if there is one. */
  function StripLeadingSlash(s: string): string
  {
    if |s| > 0 && s[0] == '/' then s[1..] else s
  }

  datatype Route = Route(collection: string, id: Option<string>)

  /** Splits a path into its collection and the optional id after it (which may itself hold slashes). */
  function ParseUrl(path: string): Route
  {
    var clean := Split(StripLeadingSlash(path), '?')[0];
    var segments := Split(clean, '/');
    Route(segments[0], if |segments| > 1 then Some(Join(segments[1..], "/")) else None)
  }

  /** The part of the path before the first `?`, without one leading `/`. */
  function CleanPath(path: string): (clean: string)
    ensures '?' !in clean
  {
    var t := StripLeadingSlash(path);
    if '?' in t then t[..IndexOf(t, '?')] else t
  }

  /**
    * The collection is the clean path up to its first `/`; the id is
    * everything after that `/` (further slashes included), or absent when
    * the clean path has no `/`.
    */
  lemma ParseUrlSpec(path: string)
    ensures var clean := CleanPath(path);
      && ('/' !in clean ==> ParseUrl(path) == Route(clean, None))
      && ('/' in clean ==>
            var j := IndexOf(clean, '/');
            ParseUrl(path) == Route(clean[..j], Some(clean[j + 1..])))
  {
    var clean := CleanPath(path);
    CleanPathFirst(path);
    var segments := Split(clean, '/');
    assert ParseUrl(path) == Route(segments[0], if |segments| > 1 then Some(Join(segments[1..], "/")) else None);
    if '/' in clean {
      var j := IndexOf(clean, '/');
      SplitAtFirst(clean, '/');
      JoinSplit(clean[j + 1..], '/');
      assert Join(segments[1..], "/") == clean[j + 1..];
    } else {
      assert segments == [clean];
    }
  }

  /** The clean path is the first piece of the split at `?`. */
  lemma CleanPathFirst(path: string)
    ensures Split(StripLeadingSlash(path), '?')[0] == CleanPath(path)
  {
  }

  /** A split with the separator present: the piece before its first occurrence, then the split of the rest. */
  lemma SplitAtFirst(s: string, c: char)
    requires c in s
    ensures var i := IndexOf(s, c);
      Split(s, c)[0] == s[..i] && Split(s, c)[1..] == Split(s[i + 1..], c)
  {
  }

  /** The paths the code builds: "/<collection>/<id>" routes to that collection and id. */
  lemma ParseItemPath(collection: string, id: string)
    requires '/' !in collection && '?' !in collection && '?' !in id
    ensures ParseUrl("/" + collection + "/" + id) == Route(collection, Some(id))
  {
    var path := "/" + collection + "/" + id;
    var clean := collection + "/" + id;
    assert StripLeadingSlash(path) == clean;
    assert '?' !in clean by {
      forall k | 0 <= k < |clean| ensures clean[k] != '?' {
        if k < |collection| { assert clean[k] == collection[k]; }
        else if k > |collection| { assert clean[k] == id[k - |collection| - 1]; }
      }
    }
    ParseUrlSpec(path);
    var j := IndexOf(clean, '/');
    assert clean[|collection|] == '/';
    assert j == |collection|;
    assert clean[..j] == collection && clean[j + 1..] == id;
  }

  /** "/<collection>" routes to that collection with no id. */
  lemma ParseCollectionPath(collection: string)
    requires '/' !in collection && '?' !in collection
    ensures ParseUrl("/" + collection) == Route(collection, None)
  {
    var path := "/" + collection;
    assert StripLeadingSlash(path) == collection;
    ParseUrlSpec(path);
  }

  // ---------------------------------------------------------------------------
  // cmp(a, b) on field values
  // ---------------------------------------------------------------------------

  /** Order of the kinds of value, used by the model wherever two kinds meet. */
  function Rank(v: Value): nat
  {
    match v
    case Undef => 0
    case Null => 1
    case Bool(_) => 2
    case Num(_) => 3
    case NaN => 4
    case Str(_) => 5
    case List(_) => 6
    case Rec(_) => 7
  }

  /**
    * `cmp(a, b)` applied to raw field values, as `sortItems` does: numbers
    * compare numerically, strings lexicographically, booleans false-first,
    * arrays by their string form. Values of two different kinds are
    * ordered by kind. JavaScript's `>` instead converts mixed kinds to
    * numbers (or compares two string forms), so on such pairs the model
    * can give the opposite sign; and where neither `a > b` nor `b > a`
    * holds for values that are not identical, the source returns -1 both
    * ways while the model returns a consistent answer.
    */
  function KeyCmp(a: Value, b: Value): (r: int)
    ensures -1 <= r <= 1
    ensures a == b ==> r == 0
  {
    if Rank(a) != Rank(b) then (if Rank(a) < Rank(b) then -1 else 1)
    else match (a, b)
      case (Num(x), Num(y)) => if x == y then 0 else if x > y then 1 else -1
      case (Str(x), Str(y)) => StrCmp(x, y)
      case (Bool(x), Bool(y)) => if x == y then 0 else if x then 1 else -1
      case (List(_), List(_)) => StrCmp(Stringify(a), Stringify(b))
      case _ => 0
  }

  lemma KeyCmpAntisymmetric(a: Value, b: Value)
    ensures KeyCmp(a, b) == -KeyCmp(b, a)
  {
  }

  // ---------------------------------------------------------------------------
  // matchByParams
  // ---------------------------------------------------------------------------

  /** Keys of the query that are not field filters. */
  const Reserved: set<string> := {"_sort", "_order", "_page", "_limit", "q"}

  /** The string form of a field, with a missing or null field read as the empty string. */
  function BoundOperand(item: Doc, k: string): string
  {
    Stringify(Coalesce(Field(item, k), Str("")))
  }

  /** One non-reserved query parameter applied to one document. */
  predicate FieldTest(item: Doc, key: string, val: Value)
  {
    if EndsWith(key, "_gte") then
      StrCmp(BoundOperand(item, key[..|key| - 4]), Stringify(val)) >= 0
    else if EndsWith(key, "_lte") then
      StrCmp(BoundOperand(item, key[..|key| - 4]), Stringify(val)) <= 0
    else if val.List? then
      exists j :: 0 <= j < |val.items| && Stringify(val.items[j]) == Stringify(Field(item, key))
    else
      Stringify(Field(item, key)) == Stringify(val)
  }

  /** The `q` full-text test: some non-null field contains the lower-cased query. */
  predicate TextTest(item: Doc, params: map<string, Value>)
  {
    "q" in params && !IsNullish(params["q"]) ==>
      exists k :: k in item && !IsNullish(item[k]) &&
        Contains(Lower(Stringify(item[k])), Lower(Stringify(params["q"])))
  }

  /** A record passes every filter parameter: equality, list membership, inclusive range bounds and the `q` text search. */
  predicate Matches(item: Doc, params: map<string, Value>)
  {
    && (forall key :: key in params && key !in Reserved ==> FieldTest(item, key, params[key]))
    && TextTest(item, params)
  }

  /** The records that pass the filter parameters, in their stored order. */
  function Filter(docs: seq<Doc>, params: map<string, Value>): (r: seq<Doc>)
    ensures forall d :: d in r <==> d in docs && Matches(d, params)
    ensures multiset(r) <= multiset(docs)
  {
    if docs == [] then []
    else
      assert docs == [docs[0]] + docs[1..];
      (if Matches(docs[0], params) then [docs[0]] else []) + Filter(docs[1..], params)
  }

  /** The range bounds `k_gte`/`k_lte` are inclusive on the string form of the field. */
  lemma RangeBoundsInclusive(item: Doc, k: string, val: Value)
    requires BoundOperand(item, k) == Stringify(val)
    ensures FieldTest(item, k + "_gte", val) && FieldTest(item, k + "_lte", val)
  {
    var g, l := k + "_gte", k + "_lte";
    assert EndsWith(g, "_gte") && g[..|g| - 4] == k;
    assert EndsWith(l, "_lte") && l[..|l| - 4] == k;
    assert !EndsWith(l, "_gte") by { assert l[|l| - 4..] != "_gte" by { assert l[|l| - 2] == 't'; } }
  }

  /** Reserved keys never act as field filters, whatever their value. */
  lemma ReservedKeysIgnored(item: Doc, params: map<string, Value>, key: string, v: Value)
    requires key in Reserved - {"q"}
    ensures Matches(item, params[key := v]) <==> Matches(item, params - {key})
  {
    var p1, p2 := params[key := v], params - {key};
    assert forall k :: k in p1 && k !in Reserved <==> k in p2 && k !in Reserved;
    assert forall k :: k in p2 ==> p1[k] == p2[k];
  }

  // ---------------------------------------------------------------------------
  // sortItems
  // ---------------------------------------------------------------------------

  /** The field named by a truthy `_sort`, as a property key. */
  function SortField(params: map<string, Value>): Option<string>
  {
    if Truthy(Field(params, "_sort")) then Some(Stringify(params["_sort"])) else None
  }

  /** The sort runs descending when `_order` is, ignoring case, "desc"; it defaults to ascending. */
  predicate Descending(params: map<string, Value>)
  {
    "_order" in params && params["_order"].Str? && Lower(params["_order"].s) == "desc"
  }

  /** The comparator of `sortItems` says `a` goes strictly before `b`. */
  function ItemBefore(field: string, desc: bool): (Doc, Doc) -> bool
  {
    (a: Doc, b: Doc) =>
      if desc then KeyCmp(Field(a, field), Field(b, field)) > 0
      else KeyCmp(Field(a, field), Field(b, field)) < 0
  }

  lemma ItemBeforeAsymmetric(field: string, desc: bool)
    ensures Sorting.Asymmetric(ItemBefore(field, desc))
  {
    forall a: Doc, b: Doc ensures ItemBefore(field, desc)(a, b) ==> !ItemBefore(field, desc)(b, a) {
      KeyCmpAntisymmetric(Field(a, field), Field(b, field));
    }
  }

  /** `sortItems(items, params)`: a sorted copy, or the same list when `_sort` is absent. */
  function SortItems(items: seq<Doc>, params: map<string, Value>): (r: seq<Doc>)
    ensures SortField(params).None? ==> r == items
    ensures multiset(r) == multiset(items)
    ensures SortField(params).Some? ==>
      var f := SortField(params).value;
      forall i :: 0 < i < |r| ==>
        if Descending(params) then KeyCmp(Field(r[i - 1], f), Field(r[i], f)) >= 0
        else KeyCmp(Field(r[i - 1], f), Field(r[i], f)) <= 0
  {
    match SortField(params)
    case None => items
    case Some(f) =>
      var lt := ItemBefore(f, Descending(params));
      ItemBeforeAsymmetric(f, Descending(params));
      Sorting.SortSorted(items, lt);
      Sorting.Sort(items, lt)
  }

  // ---------------------------------------------------------------------------
  // paginate
  // ---------------------------------------------------------------------------

  /** The page number: `_page` as a number, with zero, NaN and absence meaning page 1. */
  function PageNumber(params: map<string, Value>): int
  {
    match ToNumber(Field(params, "_page"))
    case Some(n) => if n != 0 then n else 1
    case None => 1
  }

  /** The page size: `_limit` as a number, with zero, NaN and absence meaning the whole list. */
  function PageLimit(params: map<string, Value>, length: nat): int
  {
    match ToNumber(Field(params, "_limit"))
    case Some(n) => if n != 0 then n else length
    case None => length
  }

  /** A position of `Array.prototype.slice`: negative counts from the end, then clamped. */
  function SlicePos(k: int, length: nat): (p: nat)
    ensures p <= length
  {
    if k < 0 then (if length + k < 0 then 0 else length + k)
    else if k > length then length else k
  }

  /** The elements between two slice positions. */
  function Slice<T>(s: seq<T>, from: int, to: int): seq<T>
  {
    var f, t := SlicePos(from, |s|), SlicePos(to, |s|);
    if f < t then s[f..t] else []
  }

  /** The page `_page` of `_limit` records each. */
  function Paginate<T>(items: seq<T>, params: map<string, Value>): seq<T>
  {
    var page := PageNumber(params);
    var limit := PageLimit(params, |items|);
    var start := (page - 1) * limit;
    Slice(items, start, start + limit)
  }

  function Min(a: int, b: int): int
  {
    if a < b then a else b
  }

  /**
    * With a positive page and limit, the page is the window of at most
    * `limit` items that starts at `(page - 1) * limit`.
    */
  lemma PaginateWindow<T>(items: seq<T>, params: map<string, Value>)
    requires PageNumber(params) >= 1 && PageLimit(params, |items|) >= 1
    ensures var limit := PageLimit(params, |items|);
      var start := (PageNumber(params) - 1) * limit;
      && Paginate(items, params) == items[Min(start, |items|)..Min(start + limit, |items|)]
      && |Paginate(items, params)| <= limit
  {
    var limit := PageLimit(params, |items|);
    var start := (PageNumber(params) - 1) * limit;
    assert Paginate(items, params) == Slice(items, start, start + limit);
    NonNegProduct(PageNumber(params) - 1, limit);
    SliceWindow(items, start, limit);
  }

  lemma NonNegProduct(a: int, b: int)
    requires a >= 0 && b >= 0
    ensures a * b >= 0
  {
  }

  /** A slice starting at a non-negative position takes at most `limit` elements from there. */
  lemma SliceWindow<T>(items: seq<T>, start: int, limit: int)
    requires start >= 0 && limit >= 1
    ensures Slice(items, start, start + limit) == items[Min(start, |items|)..Min(start + limit, |items|)]
    ensures |Slice(items, start, start + limit)| <= limit
  {
  }

  /** Without `_page`, and with `_limit` absent, zero or not a number, the whole list is one page. */
  lemma PaginateWholeList<T>(items: seq<T>, params: map<string, Value>)
    requires PageNumber(params) == 1
    requires ToNumber(Field(params, "_limit")) in {None, Some(0)}
    ensures Paginate(items, params) == items
  {
  }

  // ---------------------------------------------------------------------------
  // The list query of `get`
  // ---------------------------------------------------------------------------

  /** Every item of a page is an item of the list it was cut from. */
  lemma PaginateSubset<T>(items: seq<T>, params: map<string, Value>)
    ensures forall d :: d in Paginate(items, params) ==> d in items
  {
    var lim := PageLimit(params, |items|);
    var st := (PageNumber(params) - 1) * lim;
    var f, t := SlicePos(st, |items|), SlicePos(st + lim, |items|);
    if f < t {
      forall d | d in items[f..t] ensures d in items {
        var k :| 0 <= k < |items[f..t]| && items[f..t][k] == d;
        assert items[f + k] == d;
      }
    }
  }

  /** The list query: filter, then sort, then paginate. */
  function RunQuery(docs: seq<Doc>, params: map<string, Value>): (r: seq<Doc>)
    ensures forall d :: d in r ==> d in docs && Matches(d, params)
  {
    var filtered := Filter(docs, params);
    var sorted := SortItems(filtered, params);
    PaginateSubset(sorted, params);
    assert forall d :: d in sorted ==> d in multiset(filtered);
    Paginate(sorted, params)
  }

  /** A query with no filter, sort or page keys returns the collection as it is. */
  lemma RunQueryAll(docs: seq<Doc>)
    ensures RunQuery(docs, map[]) == docs
  {
    var f := Filter(docs, map[]);
    assert f == docs by { FilterAll(docs); }
  }

  lemma {:induction false} FilterAll(docs: seq<Doc>)
    ensures Filter(docs, map[]) == docs
  {
    if docs != [] {
      FilterAll(docs[1..]);
      assert Matches(docs[0], map[]);
      assert docs == [docs[0]] + docs[1..];
    }
  }

  /** Every document of the collection that matches is in the result when nothing sorts or pages. */
  lemma RunQueryComplete(docs: seq<Doc>, params: map<string, Value>, d: Doc)
    requires "_sort" !in params && "_page" !in params && "_limit" !in params
    requires d in docs && Matches(d, params)
    ensures d in RunQuery(docs, params)
  {
    var f := Filter(docs, params);
    assert SortItems(f, params) == f;
    assert Paginate(f, params) == f;
  }

  // ---------------------------------------------------------------------------
  // Ids
  // ---------------------------------------------------------------------------

  /** `String(o.id)`: records are told apart by the string form of their id. */
  function IdKey(d: Doc): string
  {
    Stringify(Field(d, "id"))
  }

  /** The index of the first record with the id, or -1. */
  function FindIndex(docs: seq<Doc>, key: string): (r: int)
    ensures -1 <= r < |docs|
    ensures r == -1 <==> forall i :: 0 <= i < |docs| ==> IdKey(docs[i]) != key
    ensures r >= 0 ==> IdKey(docs[r]) == key && forall i :: 0 <= i < r ==> IdKey(docs[i]) != key
  {
    if docs == [] then -1
    else if IdKey(docs[0]) == key then 0
    else
      var k := FindIndex(docs[1..], key);
      if k == -1 then -1 else k + 1
  }

  /** The records whose id is not `key`, in order. */
  function RemoveKey(docs: seq<Doc>, key: string): (r: seq<Doc>)
    ensures forall d :: d in r <==> d in docs && IdKey(d) != key
    ensures |r| == |docs| <==> FindIndex(docs, key) == -1
    ensures |r| <= |docs|
  {
    if docs == [] then []
    else
      assert docs == [docs[0]] + docs[1..];
      (if IdKey(docs[0]) != key then [docs[0]] else []) + RemoveKey(docs[1..], key)
  }

  /** No two records of a collection share the string form of their id. */
  predicate UniqueIds(docs: seq<Doc>)
  {
    forall i, j :: 0 <= i < j < |docs| ==> IdKey(docs[i]) != IdKey(docs[j])
  }

  /** The id of a record as a finite number, if it is one. */
  function NumericId(d: Doc): Option<int>
  {
    ToNumber(Field(d, "id"))
  }

  /** The `reduce` of `ensureCollection`: the largest finite numeric id, or 0. */
  function MaxNumericId(docs: seq<Doc>): (m: int)
    ensures m >= 0
    ensures forall i :: 0 <= i < |docs| && NumericId(docs[i]).Some? ==> NumericId(docs[i]).value <= m
    ensures m == 0 || exists i :: 0 <= i < |docs| && NumericId(docs[i]) == Some(m)
  {
    if docs == [] then 0
    else
      var prefix := docs[..|docs| - 1];
      var m := MaxNumericId(prefix);
      assert forall i :: 0 <= i < |prefix| ==> prefix[i] == docs[i];
      match NumericId(docs[|docs| - 1])
      case Some(n) => if n > m then n else m
      case None => m
  }

  /** A counter above every numeric id names no existing record. */
  lemma AutoIdIsFresh(docs: seq<Doc>, n: int)
    requires n > MaxNumericId(docs)
    ensures FindIndex(docs, IntToString(n)) == -1
  {
    forall i | 0 <= i < |docs| ensures IdKey(docs[i]) != IntToString(n) {
      if IdKey(docs[i]) == IntToString(n) {
        NumberOfNumericString(Field(docs[i], "id"), n);
      }
    }
  }
}
