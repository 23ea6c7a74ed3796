# smbackend import cores in Dafny

A verified model of the sequential logic inside the Turku service-map
backend's importers and one of its API endpoints:

- **Telraam import** (`Telraam`, `TelraamImport`):
  - the column mapping of a counting camera;
  - the UTC fetch window of a local day;
  - the padding of a fetched hourly report to a full day;
  - the projection of the hours onto the output columns, with heavy vehicles folded into the car columns;
  - the resumable walk over cameras and days. This walk writes one CSV table per camera and day, rewrites today's table on every run, and advances the persisted (year, month, day) cursor;
  - the `--from-date` handling of the management command.
- **Street-maintenance geometry history** (`Maintenance`):
  - the `event` and `start_date_time` filters;
  - `max_work_length` parsing;
  - the segmentation of each maintenance unit's time-ordered GPS points into linestrings and lone points wherever the `.seconds` part of a gap exceeds `max_work_length`.
- **Bicycle stands** (`BicycleStands`):
  - a `BicycleStand` object filled in from a WFS (GML) or a GeoJSON feature: names, prefixed names, address split, street addresses, counts, quality flags and related unit;
  - the import loop, which keeps every stand maintained by Turku and each external stand once per Finnish name.
- **Importer utilities** (`ImporterUtils`):
  - `get_street_name_and_number`;
  - `set_translated_field`;
  - `get_street_name_translations`;
  - `get_content_type_config`;
  - `get_or_create_content_type_from_config`;
  - `get_root_dir`.
- **Gas filling stations** (`GasFillingStations`):
  - the multilingual full and street addresses of a station;
  - its attribute defaults;
  - the order-preserving filter by the Southwest Finland boundary.
- **Eco-counter utilities** (`EcoCounterUtils`):
  - the table of yearly CSV URLs;
  - the order in which `get_traffic_counter_csv` concatenates years;
  - its id-based column renaming;
  - the 15-minute rows of `gen_eco_counter_test_csv`.

Shared support modules:

- `Text` models the Python `str` operations the code uses: `split`, `join`, `strip`, `split()`, `str`, `in` and `replace` with Python's semantics; `isdigit` and `int` on ASCII digits only; `lower` on ASCII and Latin-1 letters only.
- `Calendar` models `datetime.date`: day stepping and `strptime("%Y-%m-%d")`.
- `Wrappers` defines `Option` and `Result`. `None` and raised exceptions become `None` and `Err`.

Functions and lemmas state the specification. Where the Python code mutates state, so does the model:

- the import loops, the segmentation loop and the column-building loops are methods with loop invariants;
- `BicycleStand`, `GasFillingStation`, Django model objects and the Telraam importer's persisted state are classes whose methods update their fields.

Most methods are proved equal to a specification function, and the properties are then proved about those functions. `ImporterUtils.GetContentTypeConfig`, `ImporterUtils.GetOrCreateContentTypeFromConfig` and `EcoCounterUtils.GenEcoCounterTestCsv` state their results directly in their contracts instead.

External collaborators become parameters:

- **Functions:** the Telraam report fetcher, the street register, the unit register, the CSV downloader, the boundary test and `str` of a datetime.
- **Values:** the clock (today's date) and the time-zone offset.

Units used in the model:

- Telraam datetimes are whole minutes since 0001-01-01.
- Maintenance timestamps are whole microseconds.

The model follows the code in these places, where the documented intent of the import differs from it:

- A Telraam report longer than 24 hours is kept as it is. It is not cut to 24 hours.
- A maintenance gap is judged by the `.seconds` part of the `timedelta`, so whole days are ignored.
- A single-point run that a long gap closes is reported as the point of the work that closed the run. The run's own point is not reported.
- When the start date is after today, the cursor is set to the day before the start date, not to today.
## Model

| member | source | states |
|---|---|---|
| Telraam.PutNew | eco_counter/management/commands/import_telraam_to_csv.py:69 | storing under a key not yet present appends the pair at the end, so the dict keeps insertion order |
| Telraam.FieldAtIndex | eco_counter/management/commands/import_telraam_to_csv.py:61-62 | position `3 * vi + di` of the nested loops holds vehicle `vi` and direction `di` |
| Telraam.KeyNameInjective | eco_counter/management/commands/import_telraam_to_csv.py:63-66 | different (vehicle, direction) fields have different report keys |
| Telraam.ColumnNameLetters | eco_counter/management/commands/import_telraam_to_csv.py:68-73 | two fields with the same column name have the same vehicle letter and the same direction |
| Telraam.MappingsKeys | eco_counter/management/commands/import_telraam_to_csv.py:49-74 | `get_mappings` has twelve distinct keys; entry `i` maps the report key of field `i` to `"{station} {vehicle letter}{direction letter}"` |
| Telraam.HeavySharesCarColumn | eco_counter/management/commands/import_telraam_to_csv.py:37-42 | heavy and car entries of one direction map to the same column, `"{station} A{dir}"` |
| Telraam.DirectionFlagSwapsSides | eco_counter/management/commands/import_telraam_to_csv.py:56-59 | with the flag set, left is K, right is P and total is T; clearing the flag swaps the left and right columns and keeps the totals |
| Telraam.CodesNext | eco_counter/management/commands/import_telraam_to_csv.py:61-69 | each turn of the nested loops stores a new key at the next position |
| Telraam.FillCodes | eco_counter/management/commands/import_telraam_to_csv.py:60-69 | the nested loops build exactly the twelve-entry code table |
| Telraam.GetMappings | eco_counter/management/commands/import_telraam_to_csv.py:49-74 | the method returns the mapping `Mappings`, about which `MappingsKeys` and `MappingsLayout` are proved |
| Telraam.MappingFromCode | eco_counter/management/commands/import_telraam_to_csv.py:71-73 | entry `i` of the mapping is code entry `i` with the station name and a space before its value |
| Telraam.DeltaHours | eco_counter/management/commands/import_telraam_to_csv.py:97-100 | the result is within half an hour of the exact difference, and a tie rounds to an even number of hours |
| Telraam.FetchWindow | eco_counter/management/commands/import_telraam_to_csv.py:106-114 | the window runs from local midnight to local 23:59, both shifted back by the UTC offset, so it spans 23 h 59 min |
| Telraam.WindowIsADay | eco_counter/management/commands/import_telraam_to_csv.py:97-114 | the fetch window of a day spans 24 hours by `get_delta_hours` |
| Telraam.WindowsAreConsecutive | eco_counter/management/commands/import_telraam_to_csv.py:106-108 | the window of the next day starts exactly 24 hours later |
| Telraam.Normalize | eco_counter/management/commands/import_telraam_to_csv.py:148-155 | a normalised hour has exactly the twelve report keys, each holding the fetched count or 0 when absent |
| Telraam.DayEntriesLength | eco_counter/management/commands/import_telraam_to_csv.py:118-142 | with the check on, a report of at most 24 records (including the empty one) becomes exactly 24 hours; a longer report keeps its length |
| Telraam.Padded | eco_counter/management/commands/import_telraam_to_csv.py:118-142 | specification of the padding step; `DayEntriesLength`, `TodayPadsAtEnd`, `PastDayPadsAtStart` and `EmptyReportIsZeroDay` state its result |
| Telraam.DayEntriesUnchecked | eco_counter/management/commands/import_telraam_to_csv.py:128-157 | without the check, the report's length is kept and hour `i` holds record `i` normalised |
| Telraam.DayEntriesShape | eco_counter/management/commands/import_telraam_to_csv.py:143-157 | hour `i` is stamped `i` hours after the window start and carries all twelve keys |
| Telraam.EmptyReportIsZeroDay | eco_counter/management/commands/import_telraam_to_csv.py:118-141 | an empty report becomes 24 all-zero hours |
| Telraam.TodayPadsAtEnd | eco_counter/management/commands/import_telraam_to_csv.py:130-134 | for today, the fetched hours come first in order and zero hours fill the rest of the 24 |
| Telraam.PastDayPadsAtStart | eco_counter/management/commands/import_telraam_to_csv.py:136-141 | for a past day, zero hours come first and the fetched hours end the day in order |
| Telraam.HeavyKey | eco_counter/management/commands/import_telraam_to_csv.py:211 | a report key contains `heavy` exactly when its vehicle is the heavy one |
| Telraam.AddToLastValue | eco_counter/management/commands/import_telraam_to_csv.py:213 | `values_list[-1] += v` changes only the last value, which grows by `v` |
| Telraam.PartialStepHeavy | eco_counter/management/commands/import_telraam_to_csv.py:211-213 | a heavy entry finds its column already opened in the same hour and adds its count to that hour's value |
| Telraam.PartialStepOpen | eco_counter/management/commands/import_telraam_to_csv.py:214-216 | a non-heavy entry appends its count to its column; the column is created empty in the first hour |
| Telraam.AddEntry | eco_counter/management/commands/import_telraam_to_csv.py:206-216 | one pass of the mapping loop keeps the loop state `Built`: the columns and values so far are those of the mapping prefix |
| Telraam.AddHour | eco_counter/management/commands/import_telraam_to_csv.py:196-216 | one hour of the column loops moves the state `Built` from the start of hour `h` to the start of hour `h + 1` |
| Telraam.BuildColumns | eco_counter/management/commands/import_telraam_to_csv.py:194-217 | the column loops produce exactly `Table`: the index column and one column per non-heavy column name, holding per-hour sums |
| Telraam.BuiltTable | eco_counter/management/commands/import_telraam_to_csv.py:194-217 | after the last hour, the header and columns built are those of `Table`; no hour means no columns |
| Telraam.MappingsLayout | eco_counter/management/commands/import_telraam_to_csv.py:37-74 | `get_mappings` is well formed for the column loops. Every heavy entry follows a non-heavy entry naming its column, and the nine non-heavy entries open nine distinct columns |
| Telraam.OpenColumnsDistinct | eco_counter/management/commands/import_telraam_to_csv.py:56-73 | the pedestrian, bike and car entries name nine different columns |
| Telraam.HeavyEntryColumn | eco_counter/management/commands/import_telraam_to_csv.py:37-42 | each heavy entry names the column of the car entry of the same direction |
| Telraam.LayoutColumnSum | eco_counter/management/commands/import_telraam_to_csv.py:206-216 | a non-heavy column sums its own count and, for a car column, the heavy count of the same direction |
| Telraam.TableColumns | eco_counter/management/commands/import_telraam_to_csv.py:196-216 | each of the nine columns holds one value per hour: the field's count, or car plus heavy for a car column |
| Telraam.NormalizeItem | eco_counter/management/commands/import_telraam_to_csv.py:146-155 | the key loops for one record produce exactly `Normalize(item)` |
| Telraam.NormalizeVehicle | eco_counter/management/commands/import_telraam_to_csv.py:149-155 | the direction loop for one vehicle adds its three keys, each read with a default of 0 |
| Telraam.GetDayData | eco_counter/management/commands/import_telraam_to_csv.py:103-158 | the day's entries are `DayEntries` of the report fetched for the day's window, and `delta_hours` is their number |
| Telraam.HoursOf | eco_counter/management/commands/import_telraam_to_csv.py:143-157 | the record loop stamps record `i` at `i` hours after the start and normalises it |
| TelraamImport.MappingKeysAreFieldKeys | eco_counter/management/commands/import_telraam_to_csv.py:209-213 | every key the mapping reads is one of the twelve keys each hour carries, so `report[hour][value_key]` never fails |
| TelraamImport.DayEntriesKeys | eco_counter/management/commands/import_telraam_to_csv.py:145-156 | every hour `get_day_data` returns carries all twelve keys |
| TelraamImport.DayRowsCarryMappingKeys | eco_counter/management/commands/import_telraam_to_csv.py:206-215 | hours with the twelve keys carry every key of the camera's mapping, and the mapping is well formed |
| TelraamImport.WriteDay | eco_counter/management/commands/import_telraam_to_csv.py:229-234 | today's file is always rewritten, and another day's file is written only when absent or when overwriting was asked for. All other files are unchanged |
| TelraamImport.RemoveThenWrite | eco_counter/management/commands/import_telraam_to_csv.py:229-234 | removing today's file and then writing unless the file exists and overwriting is off is exactly the file policy `WriteDay` |
| TelraamImport.CameraDaysKeys | eco_counter/management/commands/import_telraam_to_csv.py:186-235 | one camera's walk adds a file for each day from the start date through today and no other file |
| TelraamImport.CameraDaysKept | eco_counter/management/commands/import_telraam_to_csv.py:186-235 | one camera's walk leaves files of other cameras and of days outside the walk unchanged |
| TelraamImport.CameraDaysTables | eco_counter/management/commands/import_telraam_to_csv.py:186-235 | in one camera's walk, today's file and every new or overwritten day file hold that day's table; other existing files keep their contents |
| TelraamImport.CameraTurnOk | eco_counter/management/commands/import_telraam_to_csv.py:186-193 | a camera's turn completes exactly when it has no days to walk or it is in the direction table |
| TelraamImport.AllCamerasOk | eco_counter/management/commands/import_telraam_to_csv.py:185-193 | the camera loop completes exactly when there is nothing to walk or every camera is in the direction table |
| TelraamImport.AllCamerasIdle | eco_counter/management/commands/import_telraam_to_csv.py:185-187 | with the start date after today, no camera writes anything |
| TelraamImport.AllCamerasStops | eco_counter/management/commands/import_telraam_to_csv.py:185-193 | once a camera's turn fails, the later cameras change nothing |
| TelraamImport.AllCamerasGrow | eco_counter/management/commands/import_telraam_to_csv.py:229-234 | the import never removes a file for good; it only adds or rewrites files |
| TelraamImport.WalkedCompose | eco_counter/management/commands/import_telraam_to_csv.py:185-235 | a walk over some cameras followed by one more camera with a new mac is a walk over all of them |
| TelraamImport.AllCamerasFiles | eco_counter/management/commands/import_telraam_to_csv.py:185-235 | for cameras with distinct macs that are all in the direction table, the import writes exactly the walk over every camera and every day |
| TelraamImport.SaveOutcome | eco_counter/management/commands/import_telraam_to_csv.py:161-242 | the run succeeds exactly when there is a start date, a cursor row and a camera, and either the start date is after today or every camera has a direction. It then stores and returns today, or the day before a later start date. The directory exists afterwards and no file is lost; a failure leaves the cursor as the set-up made it |
| TelraamImport.Cursor | eco_counter/management/commands/import_telraam_to_csv.py:235-240 | the stored day is today after a walk up to today, and the day before the start date when the start is after today |
| TelraamImport.SaveFiles | eco_counter/management/commands/import_telraam_to_csv.py:161-235 | the files left are the walk from the start date over every camera; overwriting happens exactly when `from_date` was given |
| TelraamImport.CameraLoopStep | eco_counter/management/commands/import_telraam_to_csv.py:186-235 | saving the current day and stepping to the next day keeps the day-loop state |
| TelraamImport.Importer.SaveDay | eco_counter/management/commands/import_telraam_to_csv.py:194-234 | the day's table is built and written under the file policy |
| TelraamImport.Importer.WalkDay | eco_counter/management/commands/import_telraam_to_csv.py:188-234 | the turn fails exactly when the camera has no direction, leaving the files unchanged; otherwise it writes the day's file |
| TelraamImport.Importer.WalkCamera | eco_counter/management/commands/import_telraam_to_csv.py:186-235 | the day loop of one camera computes `CameraTurn` and leaves the loop date at the day after today |
| TelraamImport.Importer.SetUpDirectory | eco_counter/management/commands/import_telraam_to_csv.py:163-173 | a missing directory is created, and the cursor row is reset to day 1 of the start year and month |
| TelraamImport.Importer.WalkCameras | eco_counter/management/commands/import_telraam_to_csv.py:185-235 | the camera loop computes `AllCameras`, stopping at the first camera without a direction |
| TelraamImport.Importer.SaveDataframe | eco_counter/management/commands/import_telraam_to_csv.py:161-242 | the method computes `Save`, about which `SaveOutcome` and `SaveFiles` are proved, and a missing directory still holds no files |
| TelraamImport.Importer.Handle | eco_counter/management/commands/import_telraam_to_csv.py:253-264 | an absent or empty `--from-date` imports from the cursor. An unparsable date logs an error and changes nothing. A valid date imports from it and overwrites |
| Calendar.NextDay | eco_counter/management/commands/import_telraam_to_csv.py:235 | `d + timedelta(days=1)` is a later date, valid below year 9999 |
| Calendar.PrevDay | eco_counter/management/commands/import_telraam_to_csv.py:237 | `d - timedelta(days=1)` is a valid earlier date |
| Calendar.PrevOfNext | eco_counter/management/commands/import_telraam_to_csv.py:235-237 | stepping one day forward and one day back returns to the same date |
| Calendar.NothingBetween | eco_counter/management/commands/import_telraam_to_csv.py:187 | no date lies strictly between a date and the next day |
| Calendar.DayNumberNext | eco_counter/management/commands/import_telraam_to_csv.py:235 | the next day's ordinal is one higher |
| Calendar.ParseIsoDate | eco_counter/management/commands/import_telraam_to_csv.py:259 | `strptime("%Y-%m-%d")` accepts only real dates |
| Calendar.ParseFormat | eco_counter/management/commands/import_telraam_to_csv.py:259 | every date written as `YYYY-MM-DD` parses back to itself |
| Maintenance.FilterWorksMembers | street_maintenance/api/views.py:29-37 | a work is kept exactly when it matches the given `event` and `start_date_time` filters |
| Maintenance.FilterWorksAppend | street_maintenance/api/views.py:29-37 | filtering keeps the order: the works kept from two lists are those of the first, then those of the second |
| Maintenance.FilterWorksNone | street_maintenance/api/views.py:25-43 | without parameters every work is kept |
| Maintenance.FilterWorksIdempotent | street_maintenance/api/views.py:29-37 | filtering twice is filtering once |
| Maintenance.ParseIntToString | street_maintenance/api/views.py:58 | `int(str(n)) == n`, so every integer parameter is accepted |
| Maintenance.MaxWorkLength | street_maintenance/api/views.py:54-60 | the default is 1800 seconds; a given parameter is accepted exactly when `int` accepts it |
| Maintenance.Seconds | street_maintenance/api/views.py:75-78 | `.seconds` of the gap lies in 0..86399 |
| Maintenance.SecondsIgnoreDays | street_maintenance/api/views.py:75-78 | adding whole days to the gap does not change `.seconds` |
| Maintenance.Runs | street_maintenance/api/views.py:69-91 | the runs of a unit are non-empty, and there are none exactly when there is no work |
| Maintenance.RunsLast | street_maintenance/api/views.py:86-91 | the last run ends with the last work's point |
| Maintenance.RunsPartition | street_maintenance/api/views.py:73-87 | the runs hold all points in time order, and there is one more run than there are long gaps |
| Maintenance.RunsCutAtLongGaps | street_maintenance/api/views.py:74-86 | a new run starts at work `i` exactly when the `.seconds` of the gap before it exceed `max_work_length` |
| Maintenance.Out | street_maintenance/api/views.py:79-84 | a run of two or more points becomes a linestring of exactly those points; a shorter run becomes a single point |
| Maintenance.OutputCount | street_maintenance/api/views.py:78-91 | every output is either a linestring or a point |
| Maintenance.SegmentedBreak | street_maintenance/api/views.py:78-86 | a long gap closes the current run: a linestring if it has more than one point, else the current work's point; a new run starts |
| Maintenance.SegmentedExtend | street_maintenance/api/views.py:86-87 | a short gap extends the current run with the work's point |
| Maintenance.SegmentedLast | street_maintenance/api/views.py:88-91 | after the last work, the last run is closed by the last work's point |
| Maintenance.SegmentStep | street_maintenance/api/views.py:73-87 | one turn of the inner loop keeps the segmentation state |
| Maintenance.Segmented | street_maintenance/api/views.py:73-87 | the inner loop's state after `i` works: the closed runs of `Runs` over those works and the open run; `SegmentedBreak`, `SegmentedExtend` and `SegmentedLast` state how it advances |
| Maintenance.SegmentWorks | street_maintenance/api/views.py:72-87 | the loop over a unit's works ends in the segmentation state of all its works |
| Maintenance.SegmentUnit | street_maintenance/api/views.py:70-91 | the unit's outputs are appended to the linestrings and points lists: exactly those of its runs |
| Maintenance.InsertByTimeSorted | street_maintenance/api/views.py:71 | inserting by timestamp keeps works in time order |
| Maintenance.SortByTime | street_maintenance/api/views.py:71 | `order_by("timestamp")` returns a time-ordered permutation of the works |
| Maintenance.SortSorted | street_maintenance/api/views.py:71 | ordering works already in time order changes nothing |
| Maintenance.UnitIds | street_maintenance/api/views.py:64-68 | the distinct unit ids are increasing and are exactly the units that have a work |
| Maintenance.OfUnit | street_maintenance/api/views.py:71 | the works of one unit are those with its id, and there is at least one when the unit has a work |
| Maintenance.OutputsStep | street_maintenance/api/views.py:69-91 | each unit's outputs follow those of the units before it |
| Maintenance.SegmentUnits | street_maintenance/api/views.py:62-93 | the outer loop computes the linestrings and points of every unit in increasing id order |
| Maintenance.GetGeometryHistory | street_maintenance/api/views.py:53-95 | the endpoint returns `GeometryHistory`: a `ParseError` for a non-integer `max_work_length`, else the segmented history of the filtered works |
| Maintenance.EmitWithin | street_maintenance/api/views.py:78-91 | every output of a unit is a linestring of two or more of its points, or one of its points |
| Maintenance.OutputsWithin | street_maintenance/api/views.py:69-91 | every output lies in the query set, and every linestring has two or more points |
| Maintenance.OutputsCount | street_maintenance/api/views.py:69-91 | the outputs number one per run of each unit: one per unit plus one per long gap |
| Maintenance.Outputs | street_maintenance/api/views.py:62-93 | specification of the response geometries; `OutputsWithin`, `OutputsCount` and `OutputsStep` state them |
| Maintenance.HistoryCount | street_maintenance/api/views.py:62-93 | the response holds exactly one linestring or point per run |
| Maintenance.HistoryFromWorks | street_maintenance/api/views.py:25-93 | every linestring has two or more points, and every reported point is the location of a work that passed the filters |
| Maintenance.SingleUnitHistory | street_maintenance/api/views.py:64-91 | time-ordered works of one unit are segmented as they come |
| Maintenance.TwoWorksHistory | street_maintenance/api/views.py:78-91 | of two works with a long gap, the later point is reported twice and the earlier one not at all; with a short gap, they form one linestring |
| Maintenance.DayLongGapIgnored | street_maintenance/api/views.py:75-78 | two works one day and ten seconds apart stay on one linestring under the default limit |
| ImporterUtils.StreetNameAndNumber | mobility_data/importers/utils.py:226-233 | the split fails with `IndexError` exactly when the address is empty or starts with a digit |
| ImporterUtils.StreetNameAndNumberParts | mobility_data/importers/utils.py:226-233 | the name is the leading non-digit run without trailing whitespace. The number is everything from the first digit on, empty exactly when there is no digit |
| ImporterUtils.StreetNameAndNumberCompose | mobility_data/importers/utils.py:226-233 | a name, whitespace and a number are split back into that name and that number |
| ImporterUtils.SetTranslatedFieldEffect | mobility_data/importers/utils.py:212-223 | `{field}_{lang}` is set to `data[lang]` for each of fi, sv and en present in `data`; every other attribute is unchanged and other keys of `data` are ignored |
| ImporterUtils.SetTranslatedField | mobility_data/importers/utils.py:212-223 | the method sets the object's attributes as `SetLanguages` says, about which `SetTranslatedFieldEffect` is proved |
| ImporterUtils.StreetNameTranslationsFacts | mobility_data/importers/utils.py:164-187 | the keys are exactly fi, sv and en. A registered street gives each language its own name, or else the Finnish name. An unknown street gives every language the input name |
| ImporterUtils.GetStreetNameTranslations | mobility_data/importers/utils.py:164-187 | the loop fills the map `StreetNameTranslations` |
| ImporterUtils.GetContentTypeConfig | mobility_data/importers/utils.py:269-274 | a config is returned exactly when one is named `type_name`, and it is the first such config |
| ImporterUtils.ConfiguredAttrsFacts | mobility_data/importers/utils.py:285-292 | `name_{lang}` is the config's name for each language (`None` when missing); `description_{lang}` is set likewise when the config has a description |
| ImporterUtils.ConfiguredAttrsFrame | mobility_data/importers/utils.py:284-292 | every other attribute of the content type is unchanged |
| ImporterUtils.ConfiguredAttrs | mobility_data/importers/utils.py:284-292 | specification of the configured attributes; `ConfiguredAttrsFacts` and `ConfiguredAttrsFrame` state them |
| ImporterUtils.GetOrCreateContentTypeFromConfig | mobility_data/importers/utils.py:269-294 | with no config named `type_name`, the method raises "Configuration not found" and changes nothing. When the first config so named has a `name`, the result is the content type, with its names and descriptions set from that config as `ConfiguredAttrs` states. When it has no `name`, the method raises `KeyError` and changes nothing |
| ImporterUtils.RootDir | mobility_data/importers/utils.py:33-40 | the result is `PROJECT_ROOT` when that setting exists, else `BASE_DIR` |
| BicycleStands.GeojsonFile | mobility_data/importers/bicycle_stands.py:212-217 | without a data source, the GeoJSON path starts with the root directory, followed by a "/" only when the root is non-empty and does not end in "/", then `mobility_data/data/bicycle_stands_for_units.geojson` |
| BicycleStands.PathJoinRelative | mobility_data/importers/bicycle_stands.py:216-217 | `os.path.join` of a directory and a relative name is the directory, the one separator it lacks, and the name |
| BicycleStands.PathJoinTwice | mobility_data/importers/bicycle_stands.py:216-217 | joining the data directory and then the file name equals joining `mobility_data/data/bicycle_stands_for_units.geojson` in one step |
| BicycleStands.GeojsonFileRoots | mobility_data/importers/bicycle_stands.py:212-217 | roots `/srv/` and `/srv` give the same path with one "/", and an empty root gives the relative path |
| BicycleStands.PrefixNames | mobility_data/importers/bicycle_stands.py:125 | prefixed names have the same languages as the names |
| BicycleStands.QualityFlagsIgnoreCase | mobility_data/importers/bicycle_stands.py:103-114 | a feature whose quality text is already lowercase gives a stand with the same `hull_lockable` and `covered` flags, from either source |
| BicycleStands.QualityFlag | mobility_data/importers/bicycle_stands.py:103-114 | specification of one quality flag; `QualityFlags` and `QualityFlagsIgnoreCase` state its effect |
| BicycleStands.StandCount | mobility_data/importers/bicycle_stands.py:159-168 | specification of `number_of_stands` from a WFS feature; `GmlCounts` and `BicycleStand.SetStandCount` state its effect |
| BicycleStands.PlacesCount | mobility_data/importers/bicycle_stands.py:170-176 | specification of the places count; `PlacesCountJoin`, `PlacesCountNumber` and `PlacesCountWord` state its value |
| BicycleStands.AddressSegment | mobility_data/importers/bicycle_stands.py:126-132 | specification of the comma part used; `AddressSkipsPrefix` and `AddressWithoutPrefix` state which part it is |
| BicycleStands.AddressParts | mobility_data/importers/bicycle_stands.py:130-139 | specification of the street and number split; `AddressPartsRoundTrip` states their relation to the segment |
| BicycleStands.ApplyGeojson | mobility_data/importers/bicycle_stands.py:83-143 | specification of `set_geojson_feature`; `GeojsonNaming`, `GeojsonNamesPrefixed`, `GeojsonStreetAddress` and `QualityFlags` state its fields |
| BicycleStands.ApplyGml | mobility_data/importers/bicycle_stands.py:145-196 | specification of `set_gml_feature`; `GmlCounts`, `GmlNames` and `QualityFlags` state its fields |
| BicycleStands.Dedup | mobility_data/importers/bicycle_stands.py:236-243 | keeps at most the given stands; `DedupIsSelection` and `DedupKeepsMaintained` state which |
| BicycleStands.PlacesCountJoin | mobility_data/importers/bicycle_stands.py:170-176 | the count of two texts joined by a space is the sum of their counts |
| BicycleStands.PlacesCountNumber | mobility_data/importers/bicycle_stands.py:175 | a written number counts as itself |
| BicycleStands.PlacesCountWord | mobility_data/importers/bicycle_stands.py:175 | a token with a non-digit counts as nothing |
| BicycleStands.PlacesCountExample | mobility_data/importers/bicycle_stands.py:173-176 | "8 runkolukittavaa ja 10 …" counts 8 + 10 |
| BicycleStands.FirstNonStand | mobility_data/importers/bicycle_stands.py:89-95 | the related unit is a unit named like the stand that does not offer the bicycle-stand service; there is none exactly when every such unit offers it |
| BicycleStands.FirstNonStandIsFirst | mobility_data/importers/bicycle_stands.py:90-95 | every unit before the related unit offers the bicycle-stand service |
| BicycleStands.FindRelatedUnit | mobility_data/importers/bicycle_stands.py:91-95 | the unit loop finds `FirstNonStand` |
| BicycleStands.AddressPartsRoundTrip | mobility_data/importers/bicycle_stands.py:126-139 | the street, a space and the number rebuild the stripped address segment, and the number has no space; a one-token segment gives empty street and number |
| BicycleStands.AddressSkipsPrefix | mobility_data/importers/bicycle_stands.py:127-130 | with more than two comma parts, the street is read from the second part |
| BicycleStands.AddressWithoutPrefix | mobility_data/importers/bicycle_stands.py:131-132 | with two comma parts, the street is read from the first part |
| BicycleStands.StreetAddresses | mobility_data/importers/bicycle_stands.py:140-143 | each of fi, sv and en gets the translated street, a space and the number |
| BicycleStands.GeojsonNamesPrefixed | mobility_data/importers/bicycle_stands.py:117-125 | the fi name is the target; sv and en are the related unit's names or the target; each prefixed name is `NAME_PREFIX[k] + " " + name[k]` |
| BicycleStands.GeojsonNaming | mobility_data/importers/bicycle_stands.py:84-125 | a GeoJSON stand is named by `kohde` stripped, with the related unit's sv and en names when one was found, all prefixed; `maintained_by_turku` stays unset |
| BicycleStands.GeojsonStreetAddress | mobility_data/importers/bicycle_stands.py:126-143 | the street address is the translated street plus the number in each language; an unregistered street gives the address segment as written |
| BicycleStands.GmlCounts | mobility_data/importers/bicycle_stands.py:146-176 | maintained exactly when the id is not "0". The count of stands is dropped exactly when it is absent, or 0 for an unmaintained stand. The count of places is set exactly when there is a text, to the sum of its numbers |
| BicycleStands.GmlNames | mobility_data/importers/bicycle_stands.py:192-196 | WFS names are the closest address's full names, each prefixed in its language |
| BicycleStands.QualityFlags | mobility_data/importers/bicycle_stands.py:103-114 | without a quality text the flags stay unset; otherwise each flag is true exactly when the lowercase text contains its marker |
| BicycleStands.BicycleStand.SetStandCount | mobility_data/importers/bicycle_stands.py:159-168 | a count of 0 for a stand not maintained by Turku becomes no count; an absent field leaves the count unchanged |
| BicycleStands.BicycleStand.SetPlaces | mobility_data/importers/bicycle_stands.py:170-176 | with a text, the count of places is the sum of its digit tokens; without one it is unchanged |
| BicycleStands.BicycleStand.SetQuality | mobility_data/importers/bicycle_stands.py:178-190 | each flag is set from the lowercase quality text when there is one |
| BicycleStands.BicycleStand.SetName | mobility_data/importers/bicycle_stands.py:193-196 | the three names are set and the prefixed names derived from them |
| BicycleStands.BicycleStand.SetRelatedUnit | mobility_data/importers/bicycle_stands.py:89-95 | the related unit becomes the first unit that is not a bicycle stand; with none, it is unchanged |
| BicycleStands.BicycleStand.SetStreetAddress | mobility_data/importers/bicycle_stands.py:126-143 | the street addresses are set from the translated street; the method fails exactly when the municipality is missing, where the source raises |
| BicycleStands.BicycleStand.SetGeojsonFields | mobility_data/importers/bicycle_stands.py:97-116 | the counts, the model when given, the quality flags and the city are copied from the GeoJSON feature |
| BicycleStands.BicycleStand.SetGeojsonName | mobility_data/importers/bicycle_stands.py:117-125 | the names come from the related unit or the target, with prefixes |
| BicycleStands.BicycleStand.SetGeojsonFeature | mobility_data/importers/bicycle_stands.py:83-143 | every field `set_geojson_feature` sets; it fails exactly when the municipality is missing |
| BicycleStands.BicycleStand.SetGmlFeature | mobility_data/importers/bicycle_stands.py:145-196 | every field `set_gml_feature` sets: the maintained flag, model, counts, quality flags, city, names and prefixed names |
| BicycleStands.ExternalNamesMembers | mobility_data/importers/bicycle_stands.py:227-241 | a name is recorded as external exactly when a kept unmaintained stand bears it |
| BicycleStands.DedupExternalNames | mobility_data/importers/bicycle_stands.py:236-243 | the recorded names are the Finnish names of all unmaintained stands seen |
| BicycleStands.DedupIsSelection | mobility_data/importers/bicycle_stands.py:236-243 | the stands kept are exactly those that are maintained, or whose Finnish name no earlier unmaintained stand bore, in order |
| BicycleStands.DedupKeepsMaintained | mobility_data/importers/bicycle_stands.py:236-243 | every stand maintained by Turku is kept, and no two kept unmaintained stands share a Finnish name |
| BicycleStands.NewGmlStand | mobility_data/importers/bicycle_stands.py:231-233 | a new stand filled in from a WFS feature |
| BicycleStands.NewGeojsonStand | mobility_data/importers/bicycle_stands.py:231-235 | a new stand filled in from a GeoJSON feature; it fails exactly when the municipality is missing |
| BicycleStands.AddStand | mobility_data/importers/bicycle_stands.py:236-243 | a stand is appended when it is maintained or its name is new, and the external names track the kept stands |
| BicycleStands.ImportFeature | mobility_data/importers/bicycle_stands.py:229-243 | one turn of the feature loop fails exactly when the feature fails. A stand inside Turku is built and kept when admitted; a feature outside is skipped |
| BicycleStands.ImportNext | mobility_data/importers/bicycle_stands.py:228-243 | one turn keeps the loop state: the stands kept so far are those `BicycleStandObjects` keeps |
| BicycleStands.BicycleStandObjectsFails | mobility_data/importers/bicycle_stands.py:228-235 | a failing feature inside Turku makes the whole import fail |
| BicycleStands.ImportedAll | mobility_data/importers/bicycle_stands.py:228-246 | after the last turn, the stands are those `BicycleStandObjects` keeps |
| BicycleStands.GetBicycleStandObjects | mobility_data/importers/bicycle_stands.py:199-246 | the method returns fresh stands equal to `BicycleStandObjects`, or fails exactly when it does |
| GasFillingStations.FullAddressExtendsStreet | mobility_data/importers/gas_filling_station.py:47-58 | the full address is the street address followed by ", zip city" |
| GasFillingStations.StationOf | mobility_data/importers/gas_filling_station.py:41-42 | construction fails exactly when `get_street_name_and_number` fails on `ADDRESS` |
| GasFillingStations.StationAddresses | mobility_data/importers/gas_filling_station.py:45-59 | with a number, `address` is "street number, zip city" and `street_address` is "street number"; without one, "street, zip city" and "street"; the keys are exactly fi, sv and en |
| GasFillingStations.Build | mobility_data/importers/gas_filling_station.py:29-59 | specification of the station's fields; `StationAddresses`, `StationDefaults` and `FullAddressExtendsStreet` state them |
| GasFillingStations.StationDefaults | mobility_data/importers/gas_filling_station.py:35-44 | stations are active; a missing LON or LAT is 0 and a missing text attribute is "" |
| GasFillingStations.StationWithoutAddress | mobility_data/importers/gas_filling_station.py:41-42 | a missing or empty `ADDRESS` makes construction fail |
| GasFillingStations.UnregisteredStreetAddress | mobility_data/importers/gas_filling_station.py:42-58 | an unregistered "street number" address is every street address as written and the start of every full address |
| GasFillingStations.GasFillingStation.FillLanguage | mobility_data/importers/gas_filling_station.py:47-58 | one language's full and street addresses are set |
| GasFillingStations.GasFillingStation.FillAddresses | mobility_data/importers/gas_filling_station.py:46-60 | the language loop fills both address maps for fi, sv and en and sets the operator |
| GasFillingStations.NewGasFillingStation | mobility_data/importers/gas_filling_station.py:30-61 | a new station with the fields of `StationOf`, or the error its address raises |
| GasFillingStations.StationsFacts | mobility_data/importers/gas_filling_station.py:77 | the stations are built exactly when every feature builds, and they are then the features' stations in order |
| GasFillingStations.InsideMembers | mobility_data/importers/gas_filling_station.py:81 | exactly the stations whose point intersects the boundary are kept |
| GasFillingStations.InsideAppend | mobility_data/importers/gas_filling_station.py:81 | filtering keeps input order |
| GasFillingStations.InsideIdempotent | mobility_data/importers/gas_filling_station.py:81 | filtering twice is filtering once |
| GasFillingStations.FilterByBoundary | mobility_data/importers/gas_filling_station.py:81 | every kept object intersects the boundary, and every intersecting object is kept |
| GasFillingStations.FilterByBoundaryInside | mobility_data/importers/gas_filling_station.py:81 | the objects kept have the fields of the stations `Inside` keeps, in order |
| GasFillingStations.GetFilteredGasFillingStationObjects | mobility_data/importers/gas_filling_station.py:64-87 | the stations of all features filtered by the boundary in order, or the first construction error |
| EcoCounterUtils.YearRange | eco_counter/management/commands/utils.py:28 | the years from the start through the end year, ascending |
| EcoCounterUtils.CsvUrlsFacts | eco_counter/management/commands/utils.py:26-34 | one key per year from the start through the end year, ascending, each mapped to `base + year + "_laskenta.csv"`; other years are missing |
| EcoCounterUtils.Lookup | eco_counter/management/commands/utils.py:67 | `d[k]` is `None` (`KeyError`) exactly when the key is missing, and otherwise the key's value |
| EcoCounterUtils.LookupUnique | eco_counter/management/commands/utils.py:74 | in a dict, looking up the `k`-th key finds the `k`-th value |
| EcoCounterUtils.LaterItemsAfter | eco_counter/management/commands/utils.py:69-74 | every year appended is a table year after the start year |
| EcoCounterUtils.LaterItemsOfRange | eco_counter/management/commands/utils.py:69-77 | for the configured table, the years appended are exactly the later years through the end year, once each, ascending |
| EcoCounterUtils.LaterItemsSuffix | eco_counter/management/commands/utils.py:69-74 | in a table of consecutive years, the appended items are the table's tail after the start year |
| EcoCounterUtils.Concat | eco_counter/management/commands/utils.py:77 | for tables with the same header, `pd.concat` keeps the header; its rows are the first table's, then the second's |
| EcoCounterUtils.AppendFetched | eco_counter/management/commands/utils.py:74-77 | appending tables that share the start table's header keeps that header |
| EcoCounterUtils.AppendFetchedRows | eco_counter/management/commands/utils.py:74-77 | the concatenated rows are the start year's rows followed by every appended table's rows, in the items' order |
| EcoCounterUtils.ConcatenateYears | eco_counter/management/commands/utils.py:66-77 | `KeyError` exactly when the start year is missing; otherwise the start year's table followed by every later year's, in key order |
| EcoCounterUtils.MatchingNone | eco_counter/management/commands/utils.py:92-93 | no column is kept exactly when no column holds "(id)" |
| EcoCounterUtils.MatchingSingle | eco_counter/management/commands/utils.py:92-101 | exactly one column kept means exactly one column holds "(id)" |
| EcoCounterUtils.UniqueMatchKept | eco_counter/management/commands/utils.py:92-101 | the one column holding "(id)" is the one kept |
| EcoCounterUtils.RenameStepEffect | eco_counter/management/commands/utils.py:84-104 | only a unique match is renamed, to `"{name} {type}K"` whatever the direction, and no other column changes. No match counts as not found. Several matches change nothing |
| EcoCounterUtils.RenameStep | eco_counter/management/commands/utils.py:84-104 | specification of one metadata turn; `RenameStepEffect` states its effect |
| EcoCounterUtils.RenameAllBounds | eco_counter/management/commands/utils.py:81-104 | the loop keeps the number of columns and counts each feature at most once |
| EcoCounterUtils.RenameColumns | eco_counter/management/commands/utils.py:81-104 | the metadata loop computes `RenameAll` |
| EcoCounterUtils.GetTrafficCounterCsv | eco_counter/management/commands/utils.py:66-104 | `KeyError` for a missing start year; otherwise the concatenated table with renamed columns and the count of ids not found |
| EcoCounterUtils.Ones | eco_counter/management/commands/utils.py:183 | `[1 for x in range(n)]` is `n` ones, none when `n <= 0` |
| EcoCounterUtils.GenEcoCounterTestCsv | eco_counter/management/commands/utils.py:172-188 | one row per quarter hour from the start while not after the end; each row is the time, then a 1 for every key but the first; no columns with a row to add is an error |
| Text.JoinSplit | mobility_data/importers/bicycle_stands.py:126-134 | joining the pieces of `split(sep)` with `sep` gives the string back |
| Text.WordsConcat | mobility_data/importers/bicycle_stands.py:175 | `(a + c + b).split()` is `a.split() + b.split()` for whitespace `c` |
| Text.NatToStringValue | mobility_data/importers/bicycle_stands.py:175 | the decimal value of `str(n)` is `n` |
| Text.ContainsIffOccurs | mobility_data/importers/bicycle_stands.py:106 | `t in s` holds exactly when `t` occurs at some position of `s` |
| Text.ReplaceAllWhole | eco_counter/management/commands/utils.py:104 | replacing a whole column name gives exactly the new name |
| BicycleStands.AdmittedIsKept | mobility_data/importers/bicycle_stands.py:236-243 | the admission test on the stands kept so far agrees with the selection rule `KeptAt` |

## Left out

- HTTP fetching is not modelled: `fetch_traffic_report`, `get_dataframe`, `fetch_json`, `ZippedShapefileDataSource` and the station savers. Each fetcher is an abstract function parameter.
- ORM persistence is not modelled: the `save_to_database`, `delete_*` and `create_*_content_type` functions, `get_or_create_content_type`, `create_mobile_unit_as_unit_reference` and `delete_mobile_units`. Django objects are plain classes, and `ImportState` is a field of the importer's store.
- GIS primitives are not modelled: `GEOSGeometry`, SRID transforms, `LineString`, GDAL `DataSource` reading and `contains`/`intersects`. `locates_in_turku`, `get_municipality_name` and `get_closest_address_full_name` become values carried by each feature, and the boundary test becomes a predicate parameter.
- `get_closest_street_name`, `get_closest_address`, `get_postal_code` and `get_file_name_from_data_source` are database or file lookups, so they are not modelled.
- The street register is a function parameter. The lookup of `Street` by name and lowercase municipality is not modelled.
- `pytz`, `date.today()` and `datetime.now()` become parameters: the UTC offset in minutes and today's date.
- Telraam.DeltaHours: takes whole minutes rather than a float number of seconds. It states Python's round-half-to-even on whole minutes, and the float division is not modelled.
- Telraam datetimes are whole minutes. The `strftime` and `strptime` strings of the report and the CSV index are not modelled. The index column holds the local start minute of each hour.
- Counts are unbounded integers. The `fillna` and `astype(int)` conversions of the frame are not modelled.
- pandas is not modelled beyond what the code relies on. A frame is an index or header, columns and rows. `to_csv` is a write into a map of files. `pd.concat` is modelled only for frames with the same columns. The digit-column drop, the `groupby` sum and the `startTime` move at the end of `get_traffic_counter_csv` are not modelled.
- EcoCounterUtils.Concat: requires the two tables to share a header, and `AppendFetched`, `ConcatenateYears` and `GetTrafficCounterCsv` require every yearly table to have one header. For tables with different headers, `pd.concat` takes the union of the columns and fills the gaps with NaN; that case is not modelled.
- EcoCounterUtils.RenameStepEffect: the direction `Suunta` of each metadata feature is read and then replaced by "K", so it is not part of `Meta`'s effect. The regex filter is modelled as a substring test for "(id)".
- `get_yaml_config` is not modelled. The content-type configs are a sequence parameter.
- In `get_queryset`, the `start_date_time` parsing error path (`ValidationError`) is not modelled, and the parameter is taken as an already-parsed timestamp. The `list` pagination, `ActiveEventsViewSet` and `MaintenanceUnitViewSet` are not modelled.
- Maintenance geometry is not modelled. A point is a pair of integers, and a linestring is its sequence of points.
- The SRID of the gas station point is not modelled. LON and LAT are reals.
- EcoCounterUtils.GenEcoCounterTestCsv: `str(cur_time)` is a function parameter, and times are whole minutes.
- TelraamImport.AllCamerasFiles: assumes the cameras have distinct macs. With a repeated mac, the later camera's walk rewrites the same files, and that case is not stated.
- TelraamImport.SaveFiles: assumes distinct macs and a direction for every camera, like `AllCamerasFiles`. The failing case is covered by `SaveOutcome` and `AllCamerasStops`.
- BicycleStands.PlacesCount: `isdigit` and `int` accept ASCII digits only. Python also accepts other Unicode decimal digits, and `isdigit` also accepts characters such as '²' that `int` then rejects.
- ImporterUtils.StreetNameAndNumber: the regex class `[^\d]` is modelled on ASCII digits only, while Python's `\d` matches every Unicode decimal digit.
- Calendar.ParseIsoDate: the `%Y`, `%m` and `%d` fields accept ASCII digits only, while `strptime` also accepts other Unicode decimal digits.
- Maintenance.MaxWorkLength: `int` of the parameter accepts ASCII digits only, while Python's `int` also accepts other Unicode decimal digits.
- BicycleStands.QualityFlags: `lower` is modelled on ASCII and Latin-1 letters only. Python lower-cases every Unicode letter (for example the Kelvin sign to 'k'), so a marker spelled with such letters is not found by the model. The same lower-casing feeds the municipality lookup of the street register.
- TelraamImport.Importer.SaveDataframe: with every Telraam walk member, requires today's year to be below 9999. The year 9999 is not modelled, and neither is the `OverflowError` that stepping past 9999-12-31 raises.
- GasFillingStations.StationOf: an attribute is absent or a value, so a JSON `null` is not modelled. In the source, a null `CITY` fails in `get_street_name_translations`, and a null `ZIP_CODE` is written as "None" in the full address.
- Logging calls are not modelled.
- `tasks.py`, `constants.py`, the serializers and the tests hold no behaviour of this core, so they are not part of this model.
