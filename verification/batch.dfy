/**
  The batch ingestion of v1.1/main.py and main.py (`get_temperature`): for each
  location in order, resolve its name, ask the weather provider, and on a
  success status store one row in `wetterdaten` and report the temperature;
  otherwise report no temperature and store nothing. An exception raised while
  handling one location ends the whole call; rows already committed stay.
 */
module Batch {
  import opened Wrappers
  import opened Values
  import Utf8
  import opened Geocoding
  import opened Store

  datatype Coordinate = Coordinate(latitude: Float, longitude: Float)

  /**
    One location and what the outside world answers for it: the geocoder's
    reply, the weather provider's reply, and the store clock at its insert.
   */
  datatype Probe = Probe(at: Coordinate, geo: Reply<GeoDoc>, weather: Reply<Json>, clock: Timestamp)

  /** One element of the returned list; `temperature` is `Null` (Python `None`) when the fetch failed. */
  datatype Entry = Entry(city: string, latitude: Float, longitude: Float, temperature: Json)

  /** main.py stores the name as it is; v1.1/main.py stores `city.encode('utf-8').decode('utf-8')`. */
  datatype Release = Root | V11

  /** The call returns the list, or raises after committing the rows of the locations before. */
  datatype BatchOutcome = Completed(entries: seq<Entry>, db: Db) | Aborted(exc: Exc, db: Db)

  /** `create_database` of v1.1/main.py and main.py. */
  function CreateDatabase(db: Db): (db': Db)
    ensures Narrow in db' && db'.Keys == db.Keys + {Narrow}
    ensures Narrow in db ==> db' == db
    ensures Narrow !in db ==> db'[Narrow] == Table([], 0)
  {
    CreateTable(db, Narrow)
  }

  /**
    `save_weather_data_to_db` of v1.1/main.py and main.py: the narrow insert.
    A missing table raises OperationalError; a dict or list temperature cannot
    be bound and raises ProgrammingError; a bool is stored as 1.0 or 0.0.
   */
  function SaveWeather(release: Release, db: Db, city: string, at: Coordinate, temperature: Json, now: Timestamp)
    : (r: Try<Db>)
    ensures r.Success? <==> Narrow in db && Bindable(temperature)
    ensures Narrow !in db ==> r == Failure(OperationalError)
    ensures Narrow in db && !Bindable(temperature) ==> r == Failure(ProgrammingError)
    ensures r.Success? ==>
      r.value == db[Narrow := Table(db[Narrow].rows + [Row(db[Narrow].lastId + 1, city, at.latitude, at.longitude,
                                                            AsReal(temperature), Null, Null, Null, now)],
                                    db[Narrow].lastId + 1)]
  {
    match StoredCity(release, city)
    case Failure(exc) => Failure(exc)
    case Success(stored) =>
      Insert(db, Narrow, Fields(stored, at.latitude, at.longitude, temperature, Null, Null, Null), now)
  }

  /**
    The city string bound to the INSERT. v1.1/main.py binds
    `city.encode('utf-8').decode('utf-8')`, which would raise UnicodeDecodeError
    (a ValueError) if the strict decoder rejected the bytes; it never does, so
    both releases bind the name unchanged and never raise here.
   */
  function StoredCity(release: Release, city: string): (r: Try<string>)
    ensures r == Success(city)
  {
    match release
    case Root => Success(city)
    case V11 =>
      Utf8.DecodeEncode(city);
      match Utf8.Decode(Utf8.Encode(city))
      case Some(s) => Success(s)
      case None => Failure(ValueError)
  }

  /** `data["current_weather"]["temperature"]` can be read: both levels are dicts holding the key. */
  ghost predicate CarriesTemperature(data: Json) {
    && data.Obj?
    && "current_weather" in data.fields
    && data.fields["current_weather"].Obj?
    && "temperature" in data.fields["current_weather"].fields
  }

  /**
    Lines reading the weather reply: on a success status the decoded body's
    `current_weather.temperature`, otherwise `None` to mean "fetch failed". On
    a success status a body that is not JSON raises ValueError, subscripting a
    non-dict raises TypeError, and a missing key raises KeyError.
   */
  function Temperature(w: Reply<Json>): (r: Try<Option<Json>>)
    ensures w.status != HttpOk <==> r == Success(None)
    ensures w.status == HttpOk ==> (r.Success? <==> w.body.Some? && CarriesTemperature(w.body.value))
    ensures r.Success? && w.status == HttpOk ==>
      r.value == Some(w.body.value.fields["current_weather"].fields["temperature"])
    ensures w.status == HttpOk && w.body.None? ==> r == Failure(ValueError)
    ensures w.status == HttpOk && w.body.Some? && !CarriesTemperature(w.body.value) ==>
      var data := w.body.value;
      r == Failure(if !data.Obj? then TypeError
                   else if "current_weather" !in data.fields then KeyError
                   else if !data.fields["current_weather"].Obj? then TypeError
                   else KeyError)
  {
    if w.status == HttpOk then
      var data :- ParsedBody(w);
      var current :- Subscript(data, "current_weather");
      var temperature :- Subscript(current, "temperature");
      Success(Some(temperature))
    else
      Success(None)
  }

  /** The entry `e` is what the loop appends for probe `p`. */
  ghost predicate Reports(p: Probe, e: Entry) {
    && e.latitude == p.at.latitude
    && e.longitude == p.at.longitude
    && LocationName(p.geo) == Success(e.city)
    && (if p.weather.status == HttpOk then Temperature(p.weather) == Success(Some(e.temperature))
        else e.temperature == Null)
  }

  /** The narrow table after appending the row for entry `e`, fetched at `clock`. */
  function AppendEntry(t: Table, e: Entry, clock: Timestamp): Table {
    Table(t.rows + [Row(t.lastId + 1, e.city, e.latitude, e.longitude, AsReal(e.temperature), Null, Null, Null, clock)],
          t.lastId + 1)
  }

  /**
    One pass of the loop body: the entry for `p` and the database after it. A
    failed fetch stores nothing and raises nothing; a successful one appends
    exactly one row carrying the reported name, coordinate and temperature,
    and raises when the table is missing or the temperature cannot be bound.
   */
  function Step(release: Release, db: Db, p: Probe): (r: Try<(Entry, Db)>)
    ensures r.Success? <==>
      && LocationName(p.geo).Success?
      && Temperature(p.weather).Success?
      && (p.weather.status == HttpOk ==> Narrow in db && Bindable(Temperature(p.weather).value.value))
    ensures r.Success? ==> Reports(p, r.value.0)
    ensures r.Success? && p.weather.status != HttpOk ==> r.value.1 == db
    ensures r.Success? && p.weather.status == HttpOk ==>
      r.value.1 == db[Narrow := AppendEntry(db[Narrow], r.value.0, p.clock)]
  {
    var name :- LocationName(p.geo);
    var fetched :- Temperature(p.weather);
    match fetched
    case None =>
      Success((Entry(name, p.at.latitude, p.at.longitude, Null), db))
    case Some(temperature) =>
      var db' :- SaveWeather(release, db, name, p.at, temperature, p.clock);
      Success((Entry(name, p.at.latitude, p.at.longitude, temperature), db'))
  }

  /** How many probes get a success status from the weather provider. */
  function Fetched(ps: seq<Probe>): (n: nat)
    ensures n <= |ps|
    ensures n == 0 <==> forall i | 0 <= i < |ps| :: ps[i].weather.status != HttpOk
    ensures n == |ps| <==> forall i | 0 <= i < |ps| :: ps[i].weather.status == HttpOk
  {
    if |ps| == 0 then 0
    else (if ps[0].weather.status == HttpOk then 1 else 0) + Fetched(ps[1..])
  }

  /**
    Reference definition of the rows a completed batch appends: one per success
    status, in order, numbered from `firstId` on, the temperature as REAL stores it.
   */
  function ExpectedRows(es: seq<Entry>, ps: seq<Probe>, firstId: nat): (rows: seq<Row>)
    requires |es| == |ps|
    ensures |rows| == Fetched(ps)
    ensures forall i | 0 <= i < |rows| ::
      rows[i].id == firstId + i && rows[i].humidity == Null && rows[i].windSpeed == Null && rows[i].uvIndex == Null
  {
    if |ps| == 0 then []
    else if ps[0].weather.status == HttpOk then
      [Row(firstId, es[0].city, es[0].latitude, es[0].longitude, AsReal(es[0].temperature), Null, Null, Null,
           ps[0].clock)]
      + ExpectedRows(es[1..], ps[1..], firstId + 1)
    else
      ExpectedRows(es[1..], ps[1..], firstId)
  }

  /** How the rows of a batch grow when one more location is put in front. */
  lemma FoldStep(t: Table, e: Entry, es: seq<Entry>, ps: seq<Probe>)
    requires |ps| == |es| + 1
    ensures ps[0].weather.status == HttpOk ==>
      var t1 := AppendEntry(t, e, ps[0].clock);
      Table(t1.rows + ExpectedRows(es, ps[1..], t1.lastId + 1), t1.lastId + Fetched(ps[1..]))
      == Table(t.rows + ExpectedRows([e] + es, ps, t.lastId + 1), t.lastId + Fetched(ps))
    ensures ps[0].weather.status != HttpOk ==>
      Table(t.rows + ExpectedRows(es, ps[1..], t.lastId + 1), t.lastId + Fetched(ps[1..]))
      == Table(t.rows + ExpectedRows([e] + es, ps, t.lastId + 1), t.lastId + Fetched(ps))
  {
    assert ([e] + es)[1..] == es;
    if ps[0].weather.status == HttpOk {
      var row := Row(t.lastId + 1, e.city, e.latitude, e.longitude, AsReal(e.temperature), Null, Null, Null,
                     ps[0].clock);
      var rest := ExpectedRows(es, ps[1..], t.lastId + 2);
      assert ExpectedRows([e] + es, ps, t.lastId + 1) == [row] + rest;
      assert (t.rows + [row]) + rest == t.rows + ([row] + rest);
    }
  }

  /** `es` reports `ps` one for one, in order. */
  ghost predicate ReportsAll(ps: seq<Probe>, es: seq<Entry>) {
    && |es| == |ps|
    && (forall i | 0 <= i < |ps| :: Reports(ps[i], es[i]))
  }

  /** `db'` is `db` with `wetterdaten` (when it exists) extended by exactly the rows `ExpectedRows` lists. */
  ghost predicate StoredAll(db: Db, ps: seq<Probe>, es: seq<Entry>, db': Db)
    requires |es| == |ps|
  {
    && (Narrow !in db ==> db' == db)
    && (Narrow in db ==>
          db' == db[Narrow := Table(db[Narrow].rows + ExpectedRows(es, ps, db[Narrow].lastId + 1),
                                    db[Narrow].lastId + Fetched(ps))])
  }

  /** `es` and `db'` are what the loop produces for `ps` from `db`. */
  ghost predicate Folded(db: Db, ps: seq<Probe>, es: seq<Entry>, db': Db) {
    ReportsAll(ps, es) && StoredAll(db, ps, es, db')
  }

  /** One more location in front of a folded batch gives a folded batch. */
  lemma FoldCons(release: Release, db: Db, ps: seq<Probe>, e: Entry, db1: Db, es: seq<Entry>, db2: Db)
    requires |ps| > 0
    requires Step(release, db, ps[0]) == Success((e, db1))
    requires Folded(db1, ps[1..], es, db2)
    ensures Folded(db, ps, [e] + es, db2)
  {
    ReportsCons(ps, e, es);
    var narrowBefore := Narrow in db;
    var fetched := ps[0].weather.status == HttpOk;
    assert fetched ==> narrowBefore && db1 == db[Narrow := AppendEntry(db[Narrow], e, ps[0].clock)];
    assert !fetched ==> db1 == db;
    StoredCons(db, ps, e, db1, es, db2);
  }

  /** Reporting the head and the tail reports the whole sequence. */
  lemma ReportsCons(ps: seq<Probe>, e: Entry, es: seq<Entry>)
    requires |ps| > 0 && Reports(ps[0], e) && ReportsAll(ps[1..], es)
    ensures ReportsAll(ps, [e] + es)
  {
    assert forall i | 1 <= i < |ps| :: ps[i] == ps[1..][i - 1] && ([e] + es)[i] == es[i - 1];
  }

  /** The head's row (if any) followed by the tail's rows are the rows of the whole sequence. */
  lemma StoredCons(db: Db, ps: seq<Probe>, e: Entry, db1: Db, es: seq<Entry>, db2: Db)
    requires |ps| == |es| + 1
    requires ps[0].weather.status == HttpOk ==>
      Narrow in db && db1 == db[Narrow := AppendEntry(db[Narrow], e, ps[0].clock)]
    requires ps[0].weather.status != HttpOk ==> db1 == db
    requires StoredAll(db1, ps[1..], es, db2)
    ensures StoredAll(db, ps, [e] + es, db2)
  {
    assert ([e] + es)[1..] == es;
    if Narrow in db {
      FoldStep(db[Narrow], e, es, ps);
    }
  }

  /**
    `get_temperature(locations)`. When it returns, the list has one entry per
    location in input order, each reporting that location's coordinate, name and
    temperature (`None` for a failed fetch; on a success status the reply's own
    value, which may itself be null), and `wetterdaten` has gained exactly the
    rows `ExpectedRows` lists, after the rows it had.
   */
  function GetTemperature(release: Release, db: Db, ps: seq<Probe>): (out: BatchOutcome)
    decreases |ps|
    ensures out.Completed? ==> Folded(db, ps, out.entries, out.db)
  {
    if |ps| == 0 then
      assert Narrow in db ==> db[Narrow := Table(db[Narrow].rows + [], db[Narrow].lastId)] == db by {
        if Narrow in db { assert db[Narrow].rows + [] == db[Narrow].rows; }
      }
      Completed([], db)
    else
      match Step(release, db, ps[0])
      case Failure(exc) => Aborted(exc, db)
      case Success((e, db1)) =>
        match GetTemperature(release, db1, ps[1..])
        case Aborted(exc, db2) => Aborted(exc, db2)
        case Completed(es, db2) =>
          FoldCons(release, db, ps, e, db1, es, db2);
          Completed([e] + es, db2)
  }

  /** Whether handling `p` raises nothing once `wetterdaten` exists. */
  predicate Handled(p: Probe) {
    && LocationName(p.geo).Success?
    && Temperature(p.weather).Success?
    && (p.weather.status == HttpOk ==> Bindable(Temperature(p.weather).value.value))
  }

  /**
    The batch returns exactly when no location's replies make it raise (a
    temperature that cannot be bound counts as raising) and, if some weather
    fetch succeeds, `wetterdaten` exists. A failed fetch never stops the batch.
   */
  lemma {:induction false} CompletesIff(release: Release, db: Db, ps: seq<Probe>)
    ensures GetTemperature(release, db, ps).Completed?
        <==> && (forall i | 0 <= i < |ps| :: Handled(ps[i]))
             && (Narrow in db || forall i | 0 <= i < |ps| :: ps[i].weather.status != HttpOk)
    decreases |ps|
  {
    if |ps| > 0 {
      var step := Step(release, db, ps[0]);
      if step.Success? {
        var db1 := step.value.1;
        assert Narrow in db1 <==> Narrow in db;
        CompletesIff(release, db1, ps[1..]);
        assert forall i | 1 <= i < |ps| :: ps[i] == ps[1..][i - 1];
      }
    }
  }

  /**
    When the batch raises, the database is what the locations before the
    failing one left behind: those rows were committed one by one, and the
    failing location added none.
   */
  lemma {:induction false} AbortKeepsCommittedPrefix(release: Release, db: Db, ps: seq<Probe>) returns (k: nat)
    requires GetTemperature(release, db, ps).Aborted?
    ensures k < |ps|
    ensures GetTemperature(release, db, ps[..k]).Completed?
    ensures GetTemperature(release, db, ps[..k]).db == GetTemperature(release, db, ps).db
    ensures Step(release, GetTemperature(release, db, ps).db, ps[k]) == Failure(GetTemperature(release, db, ps).exc)
    decreases |ps|
  {
    var step := Step(release, db, ps[0]);
    if step.Failure? {
      k := 0;
      assert ps[..0] == [];
    } else {
      var db1 := step.value.1;
      var k' := AbortKeepsCommittedPrefix(release, db1, ps[1..]);
      k := k' + 1;
      assert ps[..k][0] == ps[0];
      assert ps[..k][1..] == ps[1..][..k'];
      assert ps[1..][k'] == ps[k];
    }
  }

  /** main.py and v1.1/main.py behave identically: the UTF-8 round trip is invisible. */
  lemma {:induction false} ReleasesAgree(db: Db, ps: seq<Probe>)
    ensures GetTemperature(Root, db, ps) == GetTemperature(V11, db, ps)
    decreases |ps|
  {
    if |ps| > 0 {
      var step := Step(Root, db, ps[0]);
      assert Step(V11, db, ps[0]) == step;
      if step.Success? {
        ReleasesAgree(step.value.1, ps[1..]);
      }
    }
  }

  /**
    A returned batch keeps the history append-only: the rows before are
    untouched, ids keep strictly increasing, and every new row leaves the
    wide-shape columns null.
   */
  lemma BatchPreservesHistory(release: Release, db: Db, ps: seq<Probe>, es: seq<Entry>, db': Db)
    requires Narrow in db && ValidTable(db[Narrow])
    requires GetTemperature(release, db, ps) == Completed(es, db')
    ensures Narrow in db'
    ensures var t, t' := db[Narrow], db'[Narrow];
      && ValidTable(t')
      && |t'.rows| == |t.rows| + Fetched(ps)
      && t'.rows[..|t.rows|] == t.rows
      && (forall i | |t.rows| <= i < |t'.rows| ::
            t.lastId < t'.rows[i].id && t'.rows[i].humidity == Null
            && t'.rows[i].windSpeed == Null && t'.rows[i].uvIndex == Null)
  {
    assert Folded(db, ps, es, db');
    HistoryOfFold(db, ps, es, db');
  }

  /** The history facts, from the fold invariant alone. */
  lemma HistoryOfFold(db: Db, ps: seq<Probe>, es: seq<Entry>, db': Db)
    requires Narrow in db && ValidTable(db[Narrow])
    requires |es| == |ps| && StoredAll(db, ps, es, db')
    ensures Narrow in db'
    ensures var t, t' := db[Narrow], db'[Narrow];
      && ValidTable(t')
      && |t'.rows| == |t.rows| + Fetched(ps)
      && t'.rows[..|t.rows|] == t.rows
      && (forall i | |t.rows| <= i < |t'.rows| ::
            t.lastId < t'.rows[i].id && t'.rows[i].humidity == Null
            && t'.rows[i].windSpeed == Null && t'.rows[i].uvIndex == Null)
  {
    var t := db[Narrow];
    var added := ExpectedRows(es, ps, t.lastId + 1);
    assert db'[Narrow] == Table(t.rows + added, t.lastId + |added|);
    AppendConsecutive(t, added);
  }

  /** Rows numbered on from a valid table's counter, with null wide columns, extend its history. */
  lemma AppendConsecutive(t: Table, added: seq<Row>)
    requires ValidTable(t)
    requires forall i | 0 <= i < |added| ::
      added[i].id == t.lastId + 1 + i && added[i].humidity == Null
      && added[i].windSpeed == Null && added[i].uvIndex == Null
    ensures var t' := Table(t.rows + added, t.lastId + |added|);
      && ValidTable(t')
      && t'.rows[..|t.rows|] == t.rows
      && (forall i | |t.rows| <= i < |t'.rows| ::
            t.lastId < t'.rows[i].id && t'.rows[i].humidity == Null
            && t'.rows[i].windSpeed == Null && t'.rows[i].uvIndex == Null)
  {
    var rows := t.rows + added;
    assert rows[..|t.rows|] == t.rows;
    assert forall i | |t.rows| <= i < |rows| :: rows[i] == added[i - |t.rows|];
  }

  /** `get_saved_weather` of v1.1/main.py and main.py. */
  function GetSavedWeather(db: Db): (r: Try<seq<Row>>)
    ensures Narrow in db <==> r.Success?
    ensures r.Success? ==> multiset(r.value) == multiset(db[Narrow].rows) && NewestFirst(r.value)
  {
    Query(db, Narrow)
  }

  /**
    One location in Berlin, both replies successful: one entry with the
    provider's temperature and one stored row with the same values.
   */
  lemma BerlinScenario(db: Db, clock: Timestamp)
    requires db == CreateDatabase(map[])
    ensures var geo := Reply(HttpOk, Some(GeoDoc(Some(map["city" := "Berlin"]))));
      var weather := Reply(HttpOk, Some(Obj(map["current_weather" := Obj(map["temperature" := Num(9.5)])])));
      GetTemperature(V11, db, [Probe(Coordinate(52.52, 13.41), geo, weather, clock)])
      == Completed([Entry("Berlin", 52.52, 13.41, Num(9.5))],
                   db[Narrow := Table([Row(1, "Berlin", 52.52, 13.41, Num(9.5), Null, Null, Null, clock)], 1)])
  {
    var geo := Reply(HttpOk, Some(GeoDoc(Some(map["city" := "Berlin"]))));
    var weather := Reply(HttpOk, Some(Obj(map["current_weather" := Obj(map["temperature" := Num(9.5)])])));
    var ps := [Probe(Coordinate(52.52, 13.41), geo, weather, clock)];
    ReleasesAgree(db, ps);
    var out := GetTemperature(Root, db, ps);
    CompletesIff(Root, db, ps);
    assert db[Narrow] == Table([], 0);
    assert LocationName(geo) == Success("Berlin");
    assert Temperature(weather) == Success(Some(Num(9.5)));
    assert Reports(ps[0], out.entries[0]);
    assert out.entries == [Entry("Berlin", 52.52, 13.41, Num(9.5))];
    assert ps[1..] == [] && out.entries[1..] == [];
    assert Fetched(ps) == 1;
    var row := Row(1, "Berlin", 52.52, 13.41, Num(9.5), Null, Null, Null, clock);
    assert ExpectedRows(out.entries, ps, 1) == [row];
    assert out.Completed?;
    assert out.db == db[Narrow := Table([] + [row], 0 + 1)];
    assert [] + [row] == [row];
  }

  /**
    Two locations, the second weather fetch failing: two entries, the second
    without a temperature, and exactly one new row, for the first.
   */
  lemma SecondFetchFailsScenario(db: Db, c1: Timestamp, c2: Timestamp)
    requires db == CreateDatabase(map[])
    ensures var geo := Reply(HttpOk, Some(GeoDoc(None)));
      var ok := Reply(HttpOk, Some(Obj(map["current_weather" := Obj(map["temperature" := Num(1.0)])])));
      var out := GetTemperature(Root, db, [Probe(Coordinate(0.0, 0.0), geo, ok, c1),
                                           Probe(Coordinate(1.0, 1.0), geo, Reply(500, None), c2)]);
      && out.Completed?
      && out.entries == [Entry(NotFound, 0.0, 0.0, Num(1.0)), Entry(NotFound, 1.0, 1.0, Null)]
      && out.db[Narrow].rows == [Row(1, NotFound, 0.0, 0.0, Num(1.0), Null, Null, Null, c1)]
  {
    var geo := Reply(HttpOk, Some(GeoDoc(None)));
    var ok := Reply(HttpOk, Some(Obj(map["current_weather" := Obj(map["temperature" := Num(1.0)])])));
    var ps := [Probe(Coordinate(0.0, 0.0), geo, ok, c1), Probe(Coordinate(1.0, 1.0), geo, Reply(500, None), c2)];
    var out := GetTemperature(Root, db, ps);
    assert LocationName(geo) == Success(NotFound);
    assert Temperature(ok) == Success(Some(Num(1.0)));
    CompletesIff(Root, db, ps);
    assert Reports(ps[0], out.entries[0]) && Reports(ps[1], out.entries[1]);
    assert ps[1..] == [ps[1]];
    assert Fetched(ps) == 1;
  }

  /**
    A 200 reply whose temperature is a dict: the INSERT cannot bind it, so the
    batch raises sqlite3's binding error and the table stays empty.
   */
  lemma UnbindableTemperatureAborts(db: Db, clock: Timestamp)
    requires db == CreateDatabase(map[])
    ensures var geo := Reply(HttpOk, Some(GeoDoc(None)));
      var weather := Reply(HttpOk,
        Some(Obj(map["current_weather" := Obj(map["temperature" := Obj(map["x" := Num(1.0)])])])));
      GetTemperature(Root, db, [Probe(Coordinate(0.0, 0.0), geo, weather, clock)]) == Aborted(ProgrammingError, db)
  {
    var geo := Reply(HttpOk, Some(GeoDoc(None)));
    var weather := Reply(HttpOk,
        Some(Obj(map["current_weather" := Obj(map["temperature" := Obj(map["x" := Num(1.0)])])])));
    var p := Probe(Coordinate(0.0, 0.0), geo, weather, clock);
    assert LocationName(geo) == Success(NotFound);
    assert Temperature(weather) == Success(Some(Obj(map["x" := Num(1.0)])));
    assert Step(Root, db, p) == Failure(ProgrammingError);
  }

  /**
    A 200 reply whose temperature is `true`: the returned entry keeps the
    bool, while the REAL column stores 1.0.
   */
  lemma BoolTemperatureStoredAsReal(db: Db, clock: Timestamp)
    requires db == CreateDatabase(map[])
    ensures var geo := Reply(HttpOk, Some(GeoDoc(None)));
      var weather := Reply(HttpOk, Some(Obj(map["current_weather" := Obj(map["temperature" := Bool(true)])])));
      var out := GetTemperature(Root, db, [Probe(Coordinate(0.0, 0.0), geo, weather, clock)]);
      && out.Completed?
      && out.entries == [Entry(NotFound, 0.0, 0.0, Bool(true))]
      && out.db[Narrow].rows == [Row(1, NotFound, 0.0, 0.0, Num(1.0), Null, Null, Null, clock)]
  {
    var geo := Reply(HttpOk, Some(GeoDoc(None)));
    var weather := Reply(HttpOk, Some(Obj(map["current_weather" := Obj(map["temperature" := Bool(true)])])));
    var ps := [Probe(Coordinate(0.0, 0.0), geo, weather, clock)];
    var out := GetTemperature(Root, db, ps);
    assert LocationName(geo) == Success(NotFound);
    assert Temperature(weather) == Success(Some(Bool(true)));
    CompletesIff(Root, db, ps);
    assert Reports(ps[0], out.entries[0]);
    assert ps[1..] == [];
    assert Fetched(ps) == 1;
  }
}
