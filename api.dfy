/**
  * The record-id helpers of src/services/api.js: `makeRegistroId`, which
  * names a user's record of a day, and the three calls that use it
  * (`saveRegistro`, `getRegistroByDate`, `deleteRegistroByDate`), here sent
  * to the document store of module DocumentStore the way the production
  * build routes them.
  */
module Api {
  import opened Wrappers
  import opened JsValues
  import opened Query
  import opened DocumentStore
  import Registros

  /** The path of the records collection. */
  const RegistrosPath: string := "/registros"

  datatype ApiError =
    | MissingDateOrUser          // `makeRegistroId` throws
    | Store(error: StoreError)   // the store rejected the call

  // ---------------------------------------------------------------------------
  // makeRegistroId
  // ---------------------------------------------------------------------------

  /** `s.slice(0, 10)`. */
  function First10(s: string): (r: string)
    ensures |s| <= 10 ==> r == s
    ensures |s| > 10 ==> |r| == 10 && s == r + s[10..]
  {
    if |s| <= 10 then s else s[..10]
  }

  /** The day part of a record id: the first ten characters of `String(data ?? '')`, without dashes. */
  function DayPart(data: Value): (ymd: string)
    ensures '-' !in ymd && |ymd| <= 10
  {
    RemoveAll(First10(Stringify(Coalesce(data, Str("")))), '-')
  }

  /**
    * `makeRegistroId(data, userId)`: the day part, a dash and the user id.
    * It fails when the day part is empty or the user id is falsy (0
    * included). The first dash of an id separates its two parts.
    */
  function MakeRegistroId(data: Value, userId: Value): (r: Result<string, ApiError>)
    ensures r.Err? <==> DayPart(data) == "" || !Truthy(userId)
    ensures r.Err? ==> r.error == MissingDateOrUser
    ensures r.Ok? ==>
      var k := |DayPart(data)|;
      && '-' in r.value && IndexOf(r.value, '-') == k
      && r.value[..k] == DayPart(data)
      && r.value[k + 1..] == Stringify(userId)
  {
    var ymd := DayPart(data);
    if ymd == "" || !Truthy(userId) then Err(MissingDateOrUser)
    else
      var id := ymd + "-" + Stringify(userId);
      assert id[..|ymd|] == ymd && id[|ymd|] == '-';
      Ok(id)
  }

  /**
    * For a "YYYY-MM-DD" day and a non-zero numeric user, the id is the one
    * the record cache gives a new record of that day, although the two
    * functions take their arguments in opposite order.
    */
  lemma MakeRegistroIdAgrees(data: string, n: int)
    requires Registros.IsIsoDay(data) && n != 0
    ensures MakeRegistroId(Str(data), Num(n)) == Ok(Registros.RecordId(Num(n), data))
  {
    Registros.IsoDayDigits(data);
    assert First10(data) == data;
  }

  /** Only the first ten characters of the date count: a full timestamp names the same record as its day. */
  lemma MakeRegistroIdIgnoresTime(day: string, rest: string, userId: Value)
    requires |day| == 10
    ensures MakeRegistroId(Str(day + rest), userId) == MakeRegistroId(Str(day), userId)
  {
    assert First10(day + rest) == day;
  }

  /** A missing date, a date of dashes only, and a user id of 0, null or undefined are all refused. */
  lemma MakeRegistroIdRefuses(data: Value, userId: Value)
    ensures IsNullish(data) ==> MakeRegistroId(data, userId) == Err(MissingDateOrUser)
    ensures data == Str("----------") ==> MakeRegistroId(data, userId) == Err(MissingDateOrUser)
    ensures userId == Num(0) || IsNullish(userId) ==> MakeRegistroId(data, userId) == Err(MissingDateOrUser)
  {
    if IsNullish(data) {
      assert DayPart(data) == "" by {
        assert Stringify(Coalesce(data, Str(""))) == "";
      }
    } else if data == Str("----------") {
      DashesOnly(data);
    }
  }

  lemma DashesOnly(data: Value)
    requires data == Str("----------")
    ensures DayPart(data) == ""
  {
    var s := "----------";
    assert First10(s) == s;
    OnlyRemoved(s, '-');
  }

  /** A string made only of the removed character disappears. */
  lemma {:induction false} OnlyRemoved(s: string, c: char)
    requires forall i :: 0 <= i < |s| ==> s[i] == c
    ensures RemoveAll(s, c) == ""
  {
    if s != [] {
      OnlyRemoved(s[1..], c);
    }
  }

  // ---------------------------------------------------------------------------
  // encodeURIComponent
  // ---------------------------------------------------------------------------

  /** The characters `encodeURIComponent` leaves as they are. */
  predicate Unreserved(c: char)
  {
    || ('A' <= c <= 'Z') || ('a' <= c <= 'z') || ('0' <= c <= '9')
    || c == '-' || c == '_' || c == '.' || c == '!' || c == '~'
    || c == '*' || c == '\'' || c == '(' || c == ')'
  }

  predicate IsUpperHex(c: char)
  {
    ('0' <= c <= '9') || ('A' <= c <= 'F')
  }

  function HexDigit(d: nat): (c: char)
    requires d < 16
    ensures IsUpperHex(c)
  {
    if d < 10 then ('0' as int + d) as char else ('A' as int + d - 10) as char
  }

  /** One byte written `%XY` in upper-case hexadecimal. */
  function Percent(b: nat): (s: string)
    requires b < 256
    ensures |s| == 3 && s[0] == '%' && IsUpperHex(s[1]) && IsUpperHex(s[2])
  {
    ['%', HexDigit(b / 16), HexDigit(b % 16)]
  }

  /** The UTF-8 bytes of a character. */
  function Utf8(c: char): (bytes: seq<nat>)
    ensures 1 <= |bytes| <= 4
    ensures forall i :: 0 <= i < |bytes| ==> bytes[i] < 256
  {
    var n := c as int;
    if n < 0x80 then [n]
    else if n < 0x800 then [0xC0 + n / 0x40, 0x80 + n % 0x40]
    else if n < 0x1_0000 then [0xE0 + n / 0x1000, 0x80 + (n / 0x40) % 0x40, 0x80 + n % 0x40]
    else [0xF0 + n / 0x4_0000, 0x80 + (n / 0x1000) % 0x40, 0x80 + (n / 0x40) % 0x40, 0x80 + n % 0x40]
  }

  /** Each byte percent-encoded, in order. */
  function PercentAll(bytes: seq<nat>): (s: string)
    requires forall i :: 0 <= i < |bytes| ==> bytes[i] < 256
    ensures |s| == 3 * |bytes|
    ensures forall c :: c in s ==> c == '%' || IsUpperHex(c)
  {
    if bytes == [] then "" else Percent(bytes[0]) + PercentAll(bytes[1..])
  }

  /** One character as `encodeURIComponent` writes it. */
  function EncodeChar(c: char): (s: string)
    ensures Unreserved(c) ==> s == [c]
    ensures !Unreserved(c) ==> |s| >= 3
    ensures forall x :: x in s ==> Unreserved(x) || x == '%' || IsUpperHex(x)
  {
    if Unreserved(c) then [c] else PercentAll(Utf8(c))
  }

  /**
    * `encodeURIComponent(s)`: unreserved characters kept, every other one
    * replaced by its UTF-8 bytes in `%XY` form. The result never holds a
    * `/` or a `?`, and is never shorter than the input.
    */
  function EncodeURIComponent(s: string): (r: string)
    ensures forall x :: x in r ==> Unreserved(x) || x == '%' || IsUpperHex(x)
    ensures '/' !in r && '?' !in r
    ensures |r| >= |s|
  {
    if s == [] then "" else EncodeChar(s[0]) + EncodeURIComponent(s[1..])
  }

  /** Encoding changes nothing exactly when every character is unreserved. */
  lemma {:induction false} EncodeIdentity(s: string)
    ensures EncodeURIComponent(s) == s <==> forall c :: c in s ==> Unreserved(c)
  {
    if s != [] {
      EncodeIdentity(s[1..]);
      if Unreserved(s[0]) {
        assert forall c :: c in s ==> c == s[0] || c in s[1..];
        assert s == [s[0]] + s[1..];
      } else {
        assert s[0] in s;
        assert |EncodeURIComponent(s)| > |s|;
      }
    }
  }

  /** The id of a "YYYY-MM-DD" day and a numeric user has only unreserved characters. */
  lemma RecordIdUnreserved(data: string, n: int)
    requires Registros.IsIsoDay(data)
    ensures forall c :: c in Registros.RecordId(Num(n), data) ==> Unreserved(c)
  {
    Registros.IsoDayDigits(data);
    var s := IntToString(n);
    assert n < 0 ==> s == "-" + NatToString(-n);
    assert forall c :: c in s ==> c == '-' || IsDigit(c);
  }

  // ---------------------------------------------------------------------------
  // Paths
  // ---------------------------------------------------------------------------

  /** The path of one record: the collection and the encoded id. */
  function ItemPath(id: string): string
  {
    RegistrosPath + "/" + EncodeURIComponent(id)
  }

  lemma CollectionName()
    ensures '/' !in Registros.Collection && '?' !in Registros.Collection
    ensures RegistrosPath == "/" + Registros.Collection
  {
  }

  /** The collection path routes to the records collection with no id. */
  lemma CollectionRoute()
    ensures ParseUrl(RegistrosPath) == Route(Registros.Collection, None)
  {
    CollectionName();
    ParseCollectionPath(Registros.Collection);
  }

  /**
    * A record path routes to the records collection, with the ENCODED id:
    * the store does not decode paths. So the path reaches the record named
    * `id` exactly when encoding leaves `id` unchanged.
    */
  lemma ItemRoute(id: string)
    ensures ParseUrl(ItemPath(id)) == Route(Registros.Collection, Some(EncodeURIComponent(id)))
    ensures ParseUrl(ItemPath(id)).id == Some(id) <==> forall c :: c in id ==> Unreserved(c)
  {
    CollectionName();
    ParseItemPath(Registros.Collection, EncodeURIComponent(id));
    EncodeIdentity(id);
  }

  // ---------------------------------------------------------------------------
  // The three calls
  // ---------------------------------------------------------------------------

  /** The body `saveRegistro` posts: the payload with `id` set to its record id, overriding any id it had. */
  function SaveBody(payload: Doc): (r: Result<Doc, ApiError>)
    ensures var id := MakeRegistroId(Field(payload, "data"), Field(payload, "userId"));
      && (r.Err? <==> id.Err?)
      && (r.Ok? ==> "id" in r.value && r.value["id"] == Str(id.value))
      && (r.Ok? ==> r.value.Keys == payload.Keys + {"id"})
      && (r.Ok? ==> forall k :: k in payload && k != "id" ==> r.value[k] == payload[k])
  {
    match MakeRegistroId(Field(payload, "data"), Field(payload, "userId"))
    case Ok(id) => Ok(payload["id" := Str(id)])
    case Err(e) => Err(e)
  }

  function Lift(r: Result<Response, StoreError>): (a: Result<Response, ApiError>)
    ensures r.Ok? <==> a.Ok?
    ensures r.Ok? ==> a.value == r.value
    ensures r.Err? ==> a.error == Store(r.error)
  {
    match r
    case Ok(v) => Ok(v)
    case Err(e) => Err(Store(e))
  }

  /** `saveRegistro`: the payload, under its record id, posted to the records collection. */
  method SaveRegistro(store: LocalStore, payload: Doc, now: string) returns (r: Result<Response, ApiError>)
    modifies store
    ensures SaveBody(payload).Err? ==> r == Err(MissingDateOrUser) && store.Snapshot() == old(store.Snapshot())
    ensures SaveBody(payload).Ok? ==>
      var o := PostOp(old(store.Snapshot()), store.seed, RegistrosPath, SaveBody(payload).value, now);
      store.Snapshot() == o.state && r == Lift(o.result)
    ensures old(store.Valid()) ==> store.Valid()
  {
    var body := SaveBody(payload);
    if body.Err? {
      return Err(MissingDateOrUser);
    }
    var res := store.Post(RegistrosPath, body.value, now);
    r := Lift(res);
  }

  /** `getRegistroByDate`: a read of the record path of the (user, day) id. */
  method GetRegistroByDate(store: LocalStore, userId: Value, data: Value) returns (r: Result<Response, ApiError>)
    modifies store
    ensures MakeRegistroId(data, userId).Err? ==> r == Err(MissingDateOrUser) && store.Snapshot() == old(store.Snapshot())
    ensures MakeRegistroId(data, userId).Ok? ==>
      var o := GetOp(old(store.Snapshot()), store.seed, ItemPath(MakeRegistroId(data, userId).value), map[]);
      store.Snapshot() == o.state && r == Lift(o.result)
    ensures old(store.Valid()) ==> store.Valid()
  {
    var id := MakeRegistroId(data, userId);
    if id.Err? {
      return Err(MissingDateOrUser);
    }
    var res := store.Get(ItemPath(id.value), map[]);
    r := Lift(res);
  }

  /** `deleteRegistroByDate`: a delete of the record path of the (user, day) id. */
  method DeleteRegistroByDate(store: LocalStore, userId: Value, data: Value) returns (r: Result<Response, ApiError>)
    modifies store
    ensures MakeRegistroId(data, userId).Err? ==> r == Err(MissingDateOrUser) && store.Snapshot() == old(store.Snapshot())
    ensures MakeRegistroId(data, userId).Ok? ==>
      var o := DeleteOp(old(store.Snapshot()), store.seed, ItemPath(MakeRegistroId(data, userId).value));
      store.Snapshot() == o.state && r == Lift(o.result)
    ensures old(store.Valid()) ==> store.Valid()
  {
    var id := MakeRegistroId(data, userId);
    if id.Err? {
      return Err(MissingDateOrUser);
    }
    var res := store.Delete(ItemPath(id.value));
    r := Lift(res);
  }

  /**
    * For a "YYYY-MM-DD" day and a numeric user, a read and a delete by date
    * address exactly the record `saveRegistro` names for that user and day.
    */
  lemma ByDateAddressesSavedId(st: State, seed: Option<Db>, data: string, n: int, search: map<string, Value>)
    requires Registros.IsIsoDay(data) && n != 0
    ensures var id := Registros.RecordId(Num(n), data);
      && MakeRegistroId(Str(data), Num(n)) == Ok(id)
      && GetOp(st, seed, ItemPath(id), search) == ReadOp(st, seed, Registros.Collection, Some(id), search)
      && DeleteOp(st, seed, ItemPath(id)) == RemoveOp(st, seed, Registros.Collection, id)
  {
    var id := Registros.RecordId(Num(n), data);
    MakeRegistroIdAgrees(data, n);
    RecordIdUnreserved(data, n);
    ItemRoute(id);
  }

  /** Saving posts to the records collection, with the record id as the new record's id. */
  lemma SaveCreates(st: State, seed: Option<Db>, body: Doc, now: string)
    ensures PostOp(st, seed, RegistrosPath, body, now) == CreateOp(st, seed, Registros.Collection, body, now)
  {
    CollectionRoute();
  }

  /** A post of a body carrying id `id` succeeds exactly when no record has that id yet. */
  lemma PostWithId(st: State, seed: Option<Db>, body: Doc, id: string, now: string)
    requires "id" in body && body["id"] == Str(id)
    ensures var p := Prepare(st, seed, Registros.Collection);
      PostOp(st, seed, RegistrosPath, body, now).result.Ok? <==> FindIndex(p.db.collections[Registros.Collection], id) < 0
  {
    var c := Registros.Collection;
    SaveCreates(st, seed, body, now);
    var p := Prepare(st, seed, c);
    assert PostId(p, c, body) == Str(id);
    if FindIndex(p.db.collections[c], id) >= 0 {
      CreateConflict(st, seed, c, body, now);
    }
  }

  /** After a successful post of a body with id `id`, a read of the record path of `id` finds the new record. */
  lemma PostThenReadById(st: State, seed: Option<Db>, body: Doc, id: string, now: string)
    requires "id" in body && body["id"] == Str(id)
    requires forall c :: c in id ==> Unreserved(c)
    requires PostOp(st, seed, RegistrosPath, body, now).result.Ok?
    ensures var o := PostOp(st, seed, RegistrosPath, body, now);
      var item := NewItem(body, Str(id), now);
      && o.result == Ok(One(item))
      && GetOp(o.state, seed, ItemPath(id), map[]).result == Ok(One(item))
  {
    var c := Registros.Collection;
    PostWithId(st, seed, body, id, now);
    SaveCreates(st, seed, body, now);
    var p := Prepare(st, seed, c);
    assert PostId(p, c, body) == Str(id);
    PostThenGet(st, seed, c, body, now);
    ItemRoute(id);
  }

  /** After a successful post of a body with id `id`, posting it again is refused as a conflict. */
  lemma PostTwiceConflicts(st: State, seed: Option<Db>, body: Doc, id: string, now: string)
    requires "id" in body && body["id"] == Str(id)
    requires PostOp(st, seed, RegistrosPath, body, now).result.Ok?
    ensures var o := PostOp(st, seed, RegistrosPath, body, now);
      PostOp(o.state, seed, RegistrosPath, body, now).result == Err(Conflict)
  {
    SaveCreates(st, seed, body, now);
    SaveCreates(PostOp(st, seed, RegistrosPath, body, now).state, seed, body, now);
    CreateTwiceConflicts(st, seed, Registros.Collection, body, now);
  }

  /**
    * After a successful save of a day, reading that day by date finds the
    * saved record, and saving the same day again is refused as a conflict.
    */
  lemma SaveThenReadByDate(st: State, seed: Option<Db>, payload: Doc, now: string)
    requires Field(payload, "data").Str? && Registros.IsIsoDay(Field(payload, "data").s)
    requires Field(payload, "userId").Num? && Field(payload, "userId").n != 0
    requires SaveBody(payload).Ok?
    requires PostOp(st, seed, RegistrosPath, SaveBody(payload).value, now).result.Ok?
    ensures var body := SaveBody(payload).value;
      var id := MakeRegistroId(Field(payload, "data"), Field(payload, "userId")).value;
      var o := PostOp(st, seed, RegistrosPath, body, now);
      var item := NewItem(body, Str(id), now);
      && o.result == Ok(One(item))
      && GetOp(o.state, seed, ItemPath(id), map[]).result == Ok(One(item))
      && PostOp(o.state, seed, RegistrosPath, body, now).result == Err(Conflict)
  {
    var data, n := Field(payload, "data").s, Field(payload, "userId").n;
    var body := SaveBody(payload).value;
    var id := MakeRegistroId(Field(payload, "data"), Field(payload, "userId")).value;
    MakeRegistroIdAgrees(data, n);
    RecordIdUnreserved(data, n);
    PostThenReadById(st, seed, body, id, now);
    PostTwiceConflicts(st, seed, body, id, now);
  }
}
