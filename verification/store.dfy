/**
  The SQLite weather history: named tables of rows with an AUTOINCREMENT id and
  a `DEFAULT CURRENT_TIMESTAMP` timestamp. The narrow table `wetterdaten`
  (v1.1/main.py, main.py) and the wide table `extrawetter` (v1.2/main2.py)
  share one row shape; narrow rows leave humidity, wind speed and UV index null.
 */
module Store {
  import opened Wrappers
  import opened Values

  /**
    Seconds on the store's clock. `CURRENT_TIMESTAMP` is text of the form
    'YYYY-MM-DD HH:MM:SS', which sorts in the same order.
   */
  type Timestamp = nat

  /** A stored row. Nullable columns hold the Python value bound to them (`None` is `Null`). */
  datatype Row = Row(
    id: nat,
    city: string,
    latitude: Float,
    longitude: Float,
    temperature: Json,
    humidity: Json,
    windSpeed: Json,
    uvIndex: Json,
    timestamp: Timestamp)

  /** The column values an INSERT supplies; the store adds the id and the timestamp. */
  datatype Fields = Fields(
    city: string,
    latitude: Float,
    longitude: Float,
    temperature: Json,
    humidity: Json,
    windSpeed: Json,
    uvIndex: Json)

  /** A table's rows in insertion order and the largest id AUTOINCREMENT has handed out. */
  datatype Table = Table(rows: seq<Row>, lastId: nat)

  /** The database file: its tables by name. */
  type Db = map<string, Table>

  /** The table of v1.1/main.py and main.py. */
  const Narrow: string := "wetterdaten"
  /** The table of v1.2/main2.py. */
  const Wide: string := "extrawetter"

  /** Ids are positive, at most `lastId`, and strictly increase in insertion order. */
  ghost predicate ValidTable(t: Table) {
    && (forall i | 0 <= i < |t.rows| :: 1 <= t.rows[i].id <= t.lastId)
    && (forall i, j | 0 <= i < j < |t.rows| :: t.rows[i].id < t.rows[j].id)
  }

  /**
    A dict or a list has no SQLite type, so sqlite3 cannot bind it. JSON
    numbers are one real type here, so the OverflowError of an integer outside
    64 bits and the NULL stored for a NaN are not modelled.
   */
  predicate Bindable(v: Json) {
    !v.Arr? && !v.Obj?
  }

  /** Every value of the INSERT can be bound. */
  predicate BindableFields(f: Fields) {
    Bindable(f.temperature) && Bindable(f.humidity) && Bindable(f.windSpeed) && Bindable(f.uvIndex)
  }

  /**
    The value a REAL column holds for a bound value: a Python bool is bound as
    the integer 1 or 0, which REAL affinity stores as 1.0 or 0.0. Other bound
    values are kept (a text that looks like a number is kept as text here).
   */
  function AsReal(v: Json): (stored: Json)
    ensures v.Bool? ==> stored == Num(if v.b then 1.0 else 0.0)
    ensures !stored.Bool?
    ensures Truthy(stored) == Truthy(v)
    ensures Bindable(v) ==> Bindable(stored)
    ensures !v.Bool? ==> stored == v
  {
    match v
    case Bool(b) => Num(if b then 1.0 else 0.0)
    case _ => v
  }

  /** The row an INSERT of `f` at time `now` stores under `id`; the four weather columns are REAL. */
  function Stamp(f: Fields, id: nat, now: Timestamp): Row {
    Row(id, f.city, f.latitude, f.longitude,
        AsReal(f.temperature), AsReal(f.humidity), AsReal(f.windSpeed), AsReal(f.uvIndex), now)
  }

  /**
    `CREATE TABLE IF NOT EXISTS name (...)`: adds an empty table when there is
    none of that name and otherwise changes nothing, so it is idempotent.
   */
  function CreateTable(db: Db, name: string): (db': Db)
    ensures db'.Keys == db.Keys + {name}
    ensures forall n | n in db :: db'[n] == db[n]
    ensures name !in db ==> db'[name] == Table([], 0) && ValidTable(db'[name])
  {
    if name in db then db else db[name := Table([], 0)]
  }

  /** Running `CREATE TABLE IF NOT EXISTS` again leaves the database as the first run left it. */
  lemma CreateTableIdempotent(db: Db, name: string)
    ensures CreateTable(CreateTable(db, name), name) == CreateTable(db, name)
    ensures name in db ==> CreateTable(db, name) == db
  {
  }

  /**
    `INSERT INTO name (...) VALUES (...)` followed by a commit: appends one row
    carrying `f`, the next AUTOINCREMENT id and the clock's `now`. Nothing else
    in the database changes. A missing table raises sqlite3.OperationalError
    when the statement is prepared; a dict or list value raises
    sqlite3.ProgrammingError when the parameters are bound, after that.
   */
  function Insert(db: Db, name: string, f: Fields, now: Timestamp): (r: Try<Db>)
    ensures r.Success? <==> name in db && BindableFields(f)
    ensures name !in db ==> r == Failure(OperationalError)
    ensures name in db && !BindableFields(f) ==> r == Failure(ProgrammingError)
    ensures r.Success? ==> r.value.Keys == db.Keys
    ensures r.Success? ==> forall n | n in db && n != name :: r.value[n] == db[n]
    ensures r.Success? ==>
      var before, after := db[name], r.value[name];
      && after.rows == before.rows + [Stamp(f, before.lastId + 1, now)]
      && after.lastId == before.lastId + 1
      && (ValidTable(before) ==> ValidTable(after))
  {
    if name !in db then Failure(OperationalError)
    else if !BindableFields(f) then Failure(ProgrammingError)
    else
      var t := db[name];
      Success(db[name := Table(t.rows + [Stamp(f, t.lastId + 1, now)], t.lastId + 1)])
  }

  /** Most recent first: timestamps never increase along `rows`. */
  ghost predicate NewestFirst(rows: seq<Row>) {
    forall i, j | 0 <= i < j < |rows| :: rows[i].timestamp >= rows[j].timestamp
  }

  /** A row no older than every row of a newest-first sequence can go in front of it. */
  lemma PrependNewest(x: Row, t: seq<Row>)
    requires NewestFirst(t)
    requires forall k | 0 <= k < |t| :: t[k].timestamp <= x.timestamp
    ensures NewestFirst([x] + t)
  {
  }

  /** Every row of `rest` is `r` or a row of `s[1..]`, so none is newer than `s[0]`. */
  lemma HeadStaysNewest(r: Row, s: seq<Row>, rest: seq<Row>)
    requires |s| > 0 && NewestFirst(s) && r.timestamp < s[0].timestamp
    requires multiset(rest) == multiset(s[1..]) + multiset{r}
    ensures forall k | 0 <= k < |rest| :: rest[k].timestamp <= s[0].timestamp
  {
    forall k | 0 <= k < |rest|
      ensures rest[k].timestamp <= s[0].timestamp
    {
      assert rest[k] in multiset(rest);
      if rest[k] != r {
        assert rest[k] in multiset(s[1..]);
        var j :| 0 <= j < |s[1..]| && s[1..][j] == rest[k];
        assert s[j + 1] == rest[k];
      }
    }
  }

  /** Puts `r` into the newest-first sequence `s`, ahead of every row no newer than it. */
  function InsertNewestFirst(r: Row, s: seq<Row>): (t: seq<Row>)
    requires NewestFirst(s)
    ensures NewestFirst(t)
    ensures multiset(t) == multiset(s) + multiset{r}
  {
    if |s| == 0 || s[0].timestamp <= r.timestamp then
      PrependNewest(r, s);
      [r] + s
    else
      var rest := InsertNewestFirst(r, s[1..]);
      HeadStaysNewest(r, s, rest);
      PrependNewest(s[0], rest);
      assert s == [s[0]] + s[1..];
      [s[0]] + rest
  }

  /** Sorts rows newest first. The order among rows with equal timestamps is unspecified. */
  function SortNewestFirst(s: seq<Row>): (t: seq<Row>)
    ensures NewestFirst(t)
    ensures multiset(t) == multiset(s)
  {
    if |s| == 0 then []
    else
      assert s == [s[0]] + s[1..];
      InsertNewestFirst(s[0], SortNewestFirst(s[1..]))
  }

  /**
    `SELECT * FROM name ORDER BY timestamp DESC`: every stored row, each once,
    most recent first. SQLite leaves the order of equal timestamps open, and so
    does this contract. A missing table raises sqlite3.OperationalError.
   */
  function Query(db: Db, name: string): (r: Try<seq<Row>>)
    ensures name in db <==> r.Success?
    ensures r.Failure? ==> r.error == OperationalError
    ensures r.Success? ==> multiset(r.value) == multiset(db[name].rows) && NewestFirst(r.value)
  {
    if name in db then Success(SortNewestFirst(db[name].rows)) else Failure(OperationalError)
  }
}
