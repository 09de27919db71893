# Weather ingestion pipeline — Dafny model

This project models the ingestion core of the Weather-App repository:

- **Place resolution.** `get_location_name` picks a display name from a reverse-geocoding reply. There are two variants. The key-presence chain city → town → village → hamlet is in `v1.1/main.py` and `main.py`. The truthiness chain city → town → village is in `v1.2/main2.py`.
- **Batch ingestion.** `get_temperature` folds over a list of locations. It threads the SQLite table and builds the list of `{city, latitude, longitude, temperature}` entries.
- **Append-only history.** This covers `create_database`, `save_weather_data_to_db` and `get_saved_weather`. They work on the narrow table `wetterdaten` and the wide table `extrawetter`.
- **Interactive path.** This is `v1.2/main2.py`: `get_weather_data` plus the extraction and decision logic of `user_input_coordinates`.

HTTP replies become values: `Reply(status, body)`, where a body of `None` is one that is not JSON. Weather bodies are full JSON values (`Values.Json`). Subscripting them follows Python: a missing key raises `KeyError`, a non-dict raises `TypeError`, and `[0]` of an empty list raises `IndexError`. Every raise the model covers is an explicit `Failure(exc)`. That includes sqlite3's `OperationalError` for a missing table and its `ProgrammingError` for a dict or list bound as a parameter.

The geocoder's reply is reduced to its optional `address` object, whose values are strings.

The database is a map from table name to `Table(rows, lastId)`:
- `lastId` is the AUTOINCREMENT counter.
- Each insert takes the clock reading as a parameter, which stands in for `DEFAULT CURRENT_TIMESTAMP`.
- The weather columns are REAL, so a bound Python bool is stored as 1.0 or 0.0 (`Store.AsReal`).
- Floats are `real` and are only passed through.

Modules, one per concern:

- `wrappers.dfy`: `Option` and `Result`.
- `values.dfy`: the Python exceptions, JSON values, and Python's subscript, `[0]`, truthiness and `response.json()`.
- `utf8.dfy`: the UTF-8 encoder and the strict decoder behind v1.1's `city.encode('utf-8').decode('utf-8')`.
- `geocoding.dfy`: both name-selection variants and their reference definitions.
- `store.dfy`: the tables, with create-if-not-exists, insert and the newest-first query.
- `batch.dfy`: `get_temperature` for `main.py` and `v1.1/main.py`. The `Release` tag tells the two apart.
- `interactive.dfy`: the single-location run of `v1.2/main2.py`.

## Model

| member | source | states |
|---|---|---|
| Geocoding.FirstPresent | v1.1/main.py:30-37 | Reference for the presence chain: the result is the value of the earliest key in the list that the address has, and None exactly when it has none of them |
| Geocoding.FirstNonEmpty | v1.2/main2.py:16 | Reference for the `or` chain: the result is the value of the earliest key whose name is non-empty, None exactly when there is no such key, and never an empty string |
| Geocoding.LocationName | v1.1/main.py:24-40 | A non-200 status gives exactly "Fehler bei der Anfrage". On 200 the result is the first of city, town, village, hamlet whose key is present, so an empty city is returned as is. With no address, or none of the four keys, the result is "Ort nicht gefunden". A 200 body that is not JSON raises ValueError |
| Geocoding.LocationNameTruthy | v1.2/main2.py:13-17 | A non-200 status gives "Fehler bei der Anfrage". On 200 the result is the first non-empty name among city, town, village, with hamlet never consulted, else "Unbekannte Stadt". A returned name is never empty |
| Geocoding.VariantsAgreeOnNamedPlaces | main.py:18-28 | The presence variant and the truthiness variant return the same name whenever the address has a city, town or village and all such names are non-empty |
| Utf8.DecodeEncode | v1.1/main.py:152 | For every string, strict UTF-8 decoding of its UTF-8 encoding gives back the same string |
| Store.CreateTable | v1.1/main.py:126-135 | CREATE TABLE IF NOT EXISTS: afterwards the table exists; an existing table and every other table stay unchanged; a new table is empty with AUTOINCREMENT counter 0 |
| Store.CreateTableIdempotent | main.py:109-118 | Running create twice equals running it once, and on an existing table it changes nothing |
| Store.AsReal | v1.2/main2.py:51-56 | What a REAL column holds for a bound value: a bool becomes 1.0 or 0.0, every other value is kept; the stored value is never a bool, keeps the value's truthiness, and stays bindable |
| Store.Insert | v1.1/main.py:149-154 | A missing table raises OperationalError. Otherwise a dict or list value raises ProgrammingError. Otherwise exactly one row is appended after the existing rows, with the next id, the clock's time and the weather values as REAL stores them. The other tables are untouched, and strictly increasing ids are preserved |
| Store.SortNewestFirst | main.py:137 | The result is a permutation of the rows (same multiset) ordered by non-increasing timestamp |
| Store.Query | v1.1/main.py:166-167 | SELECT ... ORDER BY timestamp DESC returns every stored row exactly once (multiset equality), newest first. A missing table raises OperationalError. Tie order is left open |
| Batch.CreateDatabase | main.py:102-118 | Afterwards `wetterdaten` exists; an existing `wetterdaten` is left as it was; a new one is empty |
| Batch.SaveWeather | main.py:120-131 | It succeeds exactly when `wetterdaten` exists and the temperature is not a dict or list. A missing table raises OperationalError; an unbindable temperature raises ProgrammingError. On success it appends exactly the row (name, latitude, longitude, temperature as REAL stores it) with null wide columns, the next id and the clock's time |
| Batch.StoredCity | v1.1/main.py:152 | The name bound to the insert: the encode/decode round trip of v1.1 never raises and leaves the city unchanged, so both releases bind the same name |
| Batch.Temperature | v1.1/main.py:95-98 | A non-200 status, and only that, gives None. On 200 it gives `current_weather.temperature` exactly when the body is JSON whose `current_weather` is a dict holding `temperature`. Otherwise a body that is not JSON raises ValueError, subscripting a non-dict raises TypeError, and a missing key raises KeyError |
| Batch.Step | v1.1/main.py:87-117 | One location raises nothing exactly when its replies are well-formed and, on a 200 fetch, the table exists and the temperature is not a dict or list. A non-200 fetch reports temperature None and leaves the database as it was. A 200 fetch appends exactly one row with the reported name, coordinate and temperature |
| Batch.ExpectedRows | v1.1/main.py:95-107 | Reference for what a batch stores: one row per 200 weather reply, in input order, with consecutive ids and null wide columns |
| Batch.GetTemperature | v1.1/main.py:82-118 | A returned list has one entry per location in input order, and the i-th entry carries the i-th coordinate, resolved name and temperature (None for a non-200 reply; on 200, the reply's own `temperature` value, which may be null). The table gains exactly the expected rows after its old ones |
| Batch.CompletesIff | main.py:77-99 | The batch returns if and only if no location's replies raise, no 200 temperature is a dict or list, and, when some weather reply is 200, the table exists. A non-200 weather reply never stops later locations |
| Batch.AbortKeepsCommittedPrefix | v1.1/main.py:95-100 | When the batch raises (KeyError, TypeError or ValueError on a 200 reply, or an sqlite3 error from the insert), the database equals the one a batch of only the earlier locations returns, and the failing location wrote nothing |
| Batch.ReleasesAgree | main.py:125-128 | main.py, which stores the name without the round trip, behaves identically to v1.1/main.py on every reply whose place names are strings |
| Batch.BatchPreservesHistory | v1.1/main.py:127-133 | After a returned batch the old rows are an unchanged prefix, the row count grows by the number of 200 replies, ids stay strictly increasing and above the old counter, and new rows leave the wide columns null |
| Batch.GetSavedWeather | main.py:133-141 | Returns every `wetterdaten` row, newest first |
| Batch.BerlinScenario | main.py:64-100 | One Berlin location at 9.5 degrees yields the single entry ("Berlin", 52.52, 13.41, 9.5) and a table holding the matching row with id 1 |
| Batch.SecondFetchFailsScenario | main.py:92-99 | With two locations where the second fetch fails, the result is two entries, the second with temperature None, and exactly one stored row, for the first |
| Batch.UnbindableTemperatureAborts | v1.1/main.py:95-100 | A 200 reply whose temperature is a dict makes the batch raise ProgrammingError with the table still empty |
| Batch.BoolTemperatureStoredAsReal | v1.1/main.py:100-106 | A 200 reply whose temperature is `true` yields an entry holding `true` and a stored row holding 1.0 |
| Interactive.CreateDatabase | v1.2/main2.py:44-61 | Afterwards `extrawetter` exists; an existing one is left as it was; a new one is empty |
| Interactive.GetWeatherData | v1.2/main2.py:28-32 | Returns the parsed payload exactly when the status is 200, None otherwise, and raises ValueError for a 200 body that is not JSON |
| Interactive.Extract | v1.2/main2.py:86-89 | Succeeds exactly on payloads that have current_weather.temperature and current_weather.windspeed, plus daily.uv_index_max[0] when "daily" is present. It then reads temp and wind from current_weather, humidity from the top level (or None), and uv from daily.uv_index_max[0] if "daily" is present (else None) |
| Interactive.SaveWeather | v1.2/main2.py:34-42 | It succeeds exactly when `extrawetter` exists and none of the four weather values is a dict or list. A missing table raises OperationalError; an unbindable value raises ProgrammingError. On success it appends exactly one wide row with the given values as REAL stores them, the next id and the clock's time |
| Interactive.Attempt | v1.2/main2.py:83-90 | The body of the `try`: it ends without storing exactly when the reply is not 200 or the payload is falsy. It raises ValueError exactly when a 200 body is not JSON, from the weather provider or, for a truthy payload, from the geocoder. When it returns, it has either stored a row or done nothing |
| Interactive.UserInputCoordinates | v1.2/main2.py:79-93 | Non-numeric input gives InvalidInput whatever the replies, so nothing is fetched. A non-200 weather reply gives NoData. Only exceptions other than ValueError escape. A Saved run appended exactly one row with the resolved name, the typed coordinate, the payload's values as REAL stores them and the clock's time, and changed nothing else |
| Interactive.SavedIff | v1.2/main2.py:83-90 | A row is stored if and only if both numbers parse, the weather reply is 200 with a truthy JSON payload holding the needed keys, none of the four values read is a dict or list, the name resolves without raising, and `extrawetter` exists |
| Interactive.UnbindableReadingEscapes | v1.2/main2.py:90-92 | When everything else succeeds but a value read from the payload is a dict or list, the run ends with ProgrammingError escaping the `except ValueError` handler |
| Interactive.InvalidInputIff | v1.2/main2.py:80-93 | The operator sees "invalid input" exactly when a ValueError arises: from float() or from a 200 reply whose body is not JSON |
| Interactive.FalsyPayloadSkipsGeocoder | v1.2/main2.py:83-85 | With a None or empty payload nothing is stored, and the geocoder's reply cannot change the outcome |
| Interactive.GetSavedWeather | v1.2/main2.py:63-69 | Returns every `extrawetter` row, newest first |
| Interactive.SavedReadingReadsBack | v1.2/main2.py:90 | After a Saved run, `get_saved_weather` returns exactly the earlier rows plus the new row |

## Left out

- HTTP requests: URLs, query parameters, headers, and the unused `days` parameter. Each reply is an input value.
- SQLite connections, commit and close. Each insert is committed on its own, which is the code's behaviour.
- `float()` parsing of operator input. Its outcome is an `Option`.
- Float arithmetic. Floats are `real` and are never computed on.
- `print`, `json.dumps` and the `__main__` blocks.
- The CSV export (v1.2/main2.py:71-77). It writes a file and quotes through the `csv` module, which is not part of this model.
- FlaskApp/app.py: a web route and a template render over a read-only projection of `extrawetter`.
- The commented-out single-location `get_temperature` in both v1 files. It is dead code.
- Locations are `Coordinate` records, so the `KeyError` that `location["latitude"]` would raise on a malformed dict is not modelled.
- The geocoder reply keeps only its `address` member, with string values. A non-dict or `null` address, which would raise `TypeError` or `AttributeError`, is not modelled.
- Batch.ReleasesAgree: the two releases differ on a place name that is not a string. v1.1/main.py:152 raises AttributeError on `.encode` of a `null` or numeric city, while main.py:128 binds, stores and reports that value. The model's address values are strings, so it does not show this difference.
- JSON numbers are one real type: the model has no int/float distinction and no NaN. JSON strings hold only Unicode scalar values, so a lone surrogate such as `"\ud800"` cannot occur. Three consequences follow, one per line below.
- Store.Insert: an integer outside the signed 64-bit range raises OverflowError in sqlite3, a NaN is stored as NULL, and a string with a lone surrogate raises UnicodeEncodeError. The model's insert does none of these, and neither do Batch.SaveWeather, Batch.Step and Interactive.SaveWeather, which insert through it.
- Batch.CompletesIff: a 200 temperature that is an integer outside 64 bits makes the insert raise OverflowError and the batch abort. The model completes.
- Interactive.SavedIff: a reading that is an integer outside 64 bits, or that holds a lone surrogate, makes the insert raise, so nothing is stored. The model stores the row.
- Interactive.InvalidInputIff: a lone surrogate in a weather value or in the city makes the insert raise UnicodeEncodeError. That is a ValueError, so the source prints "invalid input" where the model does not.
- Batch.StoredCity: Dafny strings hold only Unicode scalar values. The `UnicodeEncodeError` that Python raises on a lone surrogate (which `json.loads` can produce from a `\ud800` escape) is therefore outside the model.
- Store.Query: `ORDER BY timestamp DESC` has no tie-break, so the order of rows with equal timestamps is left open and none is modelled.
- Failure isolation: only a non-200 weather reply is isolated. A malformed 200 reply, a 200 body that is not JSON, a dict or list temperature, or a missing table raises and ends the batch (`Batch.CompletesIff`, `Batch.AbortKeepsCommittedPrefix`).
- Store.AsReal: SQLite's REAL affinity also turns text that reads as a number (`"12"`) into that number. The model keeps such text as text, because SQLite's numeric-literal grammar and its rounding to a double are not modelled.
- Store.Insert: stores numeric text in a weather column as text, not as the number SQLite would store (see `Store.AsReal`).
- Batch.SaveWeather: a numeric-text temperature is stored as text here (see `Store.AsReal`).
- Batch.Step: a numeric-text temperature is stored as text here (see `Store.AsReal`).
- Batch.ExpectedRows: a numeric-text temperature is listed as text here (see `Store.AsReal`).
- Batch.GetTemperature: the stored rows keep a numeric-text temperature as text (see `Store.AsReal`).
- Interactive.SaveWeather: numeric-text weather values are stored as text here (see `Store.AsReal`).
- Interactive.UserInputCoordinates: a stored row keeps numeric-text weather values as text (see `Store.AsReal`).
- Interactive.SavedReadingReadsBack: a numeric-text value reads back as text here, where SQLite would return a float (see `Store.AsReal`).
- Timestamps are whole seconds taken from a clock input at each insert. They are not assumed to be monotone, which is why the query sorts.
