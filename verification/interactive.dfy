/**
  The single-location ingestion of v1.2/main2.py (`user_input_coordinates`):
  parse two numbers typed by an operator, fetch the weather, and when the
  payload is truthy resolve the place name and store one wide row in
  `extrawetter`. Only ValueError is caught; any other exception escapes.
 */
module Interactive {
  import opened Wrappers
  import opened Values
  import opened Geocoding
  import opened Store

  /**
    What the outside world supplies to one run: the two `float(input(...))`
    results (`None` when the text is not a number), the weather provider's and
    the geocoder's replies, and the store clock at the insert.
   */
  datatype Session = Session(
    latitude: Option<Float>,
    longitude: Option<Float>,
    weather: Reply<Json>,
    geo: Reply<GeoDoc>,
    clock: Timestamp)

  /** How a run ends. Only `Saved` changes the database. */
  datatype RunOutcome =
    | Saved(db: Db)       // "Daten für ... gespeichert!"
    | NoData              // the payload was None or empty: nothing fetched from the geocoder, nothing stored
    | InvalidInput        // a ValueError was caught: "Ungültige Eingabe ..."
    | Crashed(exc: Exc)   // an exception other than ValueError escaped

  /** The columns v1.2 reads out of the weather payload. */
  datatype Observation = Observation(temperature: Json, humidity: Json, windSpeed: Json, uvIndex: Json)

  /** `create_database` of v1.2/main2.py. */
  function CreateDatabase(db: Db): (db': Db)
    ensures Wide in db' && db'.Keys == db.Keys + {Wide}
    ensures Wide in db ==> db' == db
    ensures Wide !in db ==> db'[Wide] == Table([], 0)
  {
    CreateTable(db, Wide)
  }

  /** `get_weather_data`: the decoded payload exactly when the status is a success, `None` otherwise. */
  function GetWeatherData(w: Reply<Json>): (r: Try<Option<Json>>)
    ensures w.status != HttpOk ==> r == Success(None)
    ensures w.status == HttpOk && w.body.Some? ==> r == Success(Some(w.body.value))
    ensures w.status == HttpOk && w.body.None? ==> r == Failure(ValueError)
  {
    if w.status == HttpOk then
      var payload :- ParsedBody(w);
      Success(Some(payload))
    else
      Success(None)
  }

  /**
    The payload has everything the four reads need: a `current_weather`
    object with `temperature` and `windspeed`, and, when `daily` is present,
    a `daily.uv_index_max` with a first element.
   */
  ghost predicate WellFormedPayload(data: Json) {
    && data.Obj?
    && "current_weather" in data.fields
    && data.fields["current_weather"].Obj?
    && "temperature" in data.fields["current_weather"].fields
    && "windspeed" in data.fields["current_weather"].fields
    && ("daily" in data.fields ==>
          && data.fields["daily"].Obj?
          && "uv_index_max" in data.fields["daily"].fields
          && First(data.fields["daily"].fields["uv_index_max"]).Success?)
  }

  /** `o` holds what the payload says, column by column. */
  ghost predicate Reads(data: Json, o: Observation)
    requires WellFormedPayload(data)
  {
    var m := data.fields;
    var current := m["current_weather"].fields;
    && o.temperature == current["temperature"]
    && o.windSpeed == current["windspeed"]
    && o.humidity == (if "humidity" in m then m["humidity"] else Null)
    && o.uvIndex == (if "daily" in m then First(m["daily"].fields["uv_index_max"]).value else Null)
  }

  /**
    The four reads of the payload, in the code's order: the current
    temperature, the top-level "humidity" (or None), the current wind speed,
    and the first daily UV maximum when "daily" is present (or None).
   */
  function Extract(data: Json): (r: Try<Observation>)
    ensures r.Success? <==> WellFormedPayload(data)
    ensures r.Success? ==> Reads(data, r.value)
  {
    var current :- Subscript(data, "current_weather");
    var temperature :- Subscript(current, "temperature");
    match data
    case Obj(m) =>
      var humidity := if "humidity" in m then m["humidity"] else Null;
      var windSpeed :- Subscript(current, "windspeed");
      var uvIndex :-
        if "daily" in m then
          var maxima :- Subscript(m["daily"], "uv_index_max");
          First(maxima)
        else
          Success(Null);
      Success(Observation(temperature, humidity, windSpeed, uvIndex))
    case _ =>
      // not reached: subscripting anything but a dict has already raised
      Failure(TypeError)
  }

  /** sqlite3 can bind all four values: none is a dict or a list. */
  predicate Storable(o: Observation) {
    Bindable(o.temperature) && Bindable(o.humidity) && Bindable(o.windSpeed) && Bindable(o.uvIndex)
  }

  /**
    `save_weather_data_to_db` of v1.2/main2.py: the wide insert. A missing
    table raises OperationalError; a dict or list value cannot be bound and
    raises ProgrammingError; a bool is stored as 1.0 or 0.0.
   */
  function SaveWeather(db: Db, city: string, latitude: Float, longitude: Float, o: Observation, now: Timestamp)
    : (r: Try<Db>)
    ensures r.Success? <==> Wide in db && Storable(o)
    ensures Wide !in db ==> r == Failure(OperationalError)
    ensures Wide in db && !Storable(o) ==> r == Failure(ProgrammingError)
    ensures r.Success? ==>
      r.value == db[Wide := Table(db[Wide].rows + [Row(db[Wide].lastId + 1, city, latitude, longitude,
                                                        AsReal(o.temperature), AsReal(o.humidity),
                                                        AsReal(o.windSpeed), AsReal(o.uvIndex), now)],
                                  db[Wide].lastId + 1)]
  {
    Insert(db, Wide, Fields(city, latitude, longitude, o.temperature, o.humidity, o.windSpeed, o.uvIndex), now)
  }

  /**
    The body of the `try` once both numbers are parsed. It ends quietly when
    the payload is None or empty, stores a row or raises otherwise, and raises
    ValueError only for a body that is not JSON, from either provider.
   */
  function Attempt(db: Db, latitude: Float, longitude: Float, s: Session): (r: Try<RunOutcome>)
    ensures r.Success? ==> r.value.Saved? || r.value.NoData?
    ensures r == Success(NoData)
        <==> s.weather.status != HttpOk || (s.weather.body.Some? && !Truthy(s.weather.body.value))
    ensures r == Failure(ValueError)
        <==> && s.weather.status == HttpOk
             && (|| s.weather.body.None?
                 || (Truthy(s.weather.body.value) && s.geo.status == HttpOk && s.geo.body.None?))
  {
    var payload :- GetWeatherData(s.weather);
    if payload.None? || !Truthy(payload.value) then
      Success(NoData)
    else
      var city :- LocationNameTruthy(s.geo);
      var o :- Extract(payload.value);
      var db' :- SaveWeather(db, city, latitude, longitude, o, s.clock);
      Success(Saved(db'))
  }

  /** Both typed values parsed as numbers. */
  predicate Parsed(s: Session) {
    s.latitude.Some? && s.longitude.Some?
  }

  /**
    `db'` is `db` with one more `extrawetter` row: the next id, the resolved
    name, the typed coordinate, what the payload says, and the clock's time.
   */
  ghost predicate StoresReading(db: Db, s: Session, db': Db)
    requires Parsed(s)
  {
    && Wide in db
    && s.weather.body.Some?
    && WellFormedPayload(s.weather.body.value)
    && db'.Keys == db.Keys
    && (forall n | n in db && n != Wide :: db'[n] == db[n])
    && var before, after := db[Wide].rows, db'[Wide].rows;
    && |after| == |before| + 1
    && after[..|before|] == before
    && db'[Wide].lastId == db[Wide].lastId + 1
    && var row := after[|before|];
    && row.id == db[Wide].lastId + 1
    && LocationNameTruthy(s.geo) == Success(row.city)
    && row.latitude == s.latitude.value
    && row.longitude == s.longitude.value
    && var o := Extract(s.weather.body.value).value;
    && Reads(s.weather.body.value, o)
    && Storable(o)
    && row.temperature == AsReal(o.temperature)
    && row.humidity == AsReal(o.humidity)
    && row.windSpeed == AsReal(o.windSpeed)
    && row.uvIndex == AsReal(o.uvIndex)
    && row.timestamp == s.clock
  }

  /**
    `user_input_coordinates`, with its `except ValueError` handler. Text that
    is not a number ends the run before any request; a failed weather fetch
    ends it quietly; a stored row carries exactly what the replies said.
   */
  function UserInputCoordinates(db: Db, s: Session): (r: RunOutcome)
    ensures !Parsed(s) ==> r == InvalidInput
    ensures Parsed(s) && s.weather.status != HttpOk ==> r == NoData
    ensures r.Crashed? ==> Parsed(s) && r.exc != ValueError
    ensures r.Saved? ==> Parsed(s) && StoresReading(db, s, r.db)
  {
    if s.latitude.None? || s.longitude.None? then
      InvalidInput
    else
      match Attempt(db, s.latitude.value, s.longitude.value, s)
      case Success(outcome) => outcome
      case Failure(ValueError) => InvalidInput
      case Failure(exc) => Crashed(exc)
  }

  /** A run stores a row exactly when every step on the way succeeds. */
  lemma SavedIff(db: Db, s: Session)
    ensures UserInputCoordinates(db, s).Saved?
        <==> && Parsed(s)
             && s.weather.status == HttpOk
             && s.weather.body.Some?
             && Truthy(s.weather.body.value)
             && LocationNameTruthy(s.geo).Success?
             && WellFormedPayload(s.weather.body.value)
             && Storable(Extract(s.weather.body.value).value)
             && Wide in db
  {
  }

  /**
    A payload whose reads give a dict or a list (a list `humidity`, say) makes
    the insert raise sqlite3's binding error, which the `except ValueError`
    handler does not catch.
   */
  lemma UnbindableReadingEscapes(db: Db, s: Session)
    requires Parsed(s) && s.weather.status == HttpOk && s.weather.body.Some?
    requires Truthy(s.weather.body.value) && LocationNameTruthy(s.geo).Success?
    requires WellFormedPayload(s.weather.body.value) && Wide in db
    requires !Storable(Extract(s.weather.body.value).value)
    ensures UserInputCoordinates(db, s) == Crashed(ProgrammingError)
  {
  }

  /**
    The operator is told the input was invalid exactly when a ValueError is
    raised: by `float()`, or by a success reply whose body is not JSON, which
    requests reports as a ValueError too.
   */
  lemma InvalidInputIff(db: Db, s: Session)
    ensures UserInputCoordinates(db, s) == InvalidInput
        <==> || !Parsed(s)
             || (s.weather.status == HttpOk && s.weather.body.None?)
             || (&& s.weather.status == HttpOk && s.weather.body.Some? && Truthy(s.weather.body.value)
                 && s.geo.status == HttpOk && s.geo.body.None?)
  {
  }

  /**
    When the weather payload is None or empty nothing is stored and the
    geocoder is not consulted: its reply cannot change the outcome.
   */
  lemma FalsyPayloadSkipsGeocoder(db: Db, s: Session, geo: Reply<GeoDoc>)
    requires Parsed(s)
    requires s.weather.status != HttpOk || (s.weather.body.Some? && !Truthy(s.weather.body.value))
    ensures UserInputCoordinates(db, s) == NoData
    ensures UserInputCoordinates(db, s.(geo := geo)) == NoData
  {
  }

  /** `get_saved_weather` of v1.2/main2.py. */
  function GetSavedWeather(db: Db): (r: Try<seq<Row>>)
    ensures Wide in db <==> r.Success?
    ensures r.Success? ==> multiset(r.value) == multiset(db[Wide].rows) && NewestFirst(r.value)
  {
    Query(db, Wide)
  }

  /**
    A stored reading comes back from `get_saved_weather`, beside every row
    stored before it.
   */
  lemma SavedReadingReadsBack(db: Db, s: Session)
    requires UserInputCoordinates(db, s).Saved?
    ensures var db' := UserInputCoordinates(db, s).db;
      && GetSavedWeather(db').Success?
      && multiset(GetSavedWeather(db').value)
         == multiset(db[Wide].rows) + multiset{db'[Wide].rows[|db[Wide].rows|]}
  {
    var db' := UserInputCoordinates(db, s).db;
    var before, after := db[Wide].rows, db'[Wide].rows;
    assert after == before + [after[|before|]];
  }
}
