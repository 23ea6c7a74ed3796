/**
 * The Telraam hourly-counter import: the column mapping of a camera, the
 * per-day fetch window, the reconciliation of a fetched hourly report into a
 * full day, the projection of that day onto the output columns (heavy
 * vehicles folded into the car columns) and the day-by-day, camera-by-camera
 * loop that writes one CSV table per (camera, day) and advances the persisted
 * import cursor.
 *
 * Datetimes are whole minutes counted from 0001-01-01 00:00; the UTC offset of
 * the local time zone is a number of minutes; the remote report fetcher is a
 * function from (camera instance id, window start, window end) to the list of
 * hourly records it returns.
 */
module Telraam {
  import opened Wrappers
  import opened Text
  import opened Calendar

  datatype Vehicle = Pedestrian | Bike | Car | Heavy
  datatype Direction = Left | Right | Total
  datatype Field = Field(vehicle: Vehicle, direction: Direction)

  /** The vehicle types in the order the source's `VEHICLE_TYPES` lists them. */
  const VEHICLES: seq<Vehicle> := [Pedestrian, Bike, Car, Heavy]
  /** The directions in the order of `DIRECTIONS`. */
  const DIRECTIONS: seq<Direction> := [Left, Right, Total]

  function VehicleName(v: Vehicle): string {
    match v
    case Pedestrian => "pedestrian"
    case Bike => "bike"
    case Car => "car"
    case Heavy => "heavy"
  }

  /** The output column letter of a vehicle type; heavy vehicles share the car letter. */
  function VehicleLetter(v: Vehicle): char {
    match v
    case Pedestrian => 'J'
    case Bike => 'P'
    case Car => 'A'
    case Heavy => 'A'
  }

  function DirectionSuffix(d: Direction): string {
    match d
    case Left => "lft"
    case Right => "rgt"
    case Total => ""
  }

  /** The report key of a field: `"{vehicle}_{dir}"`, or just `"{vehicle}"` for totals. */
  function KeyName(f: Field): string {
    if f.direction == Total then VehicleName(f.vehicle)
    else VehicleName(f.vehicle) + "_" + DirectionSuffix(f.direction)
  }

  /**
   * The direction letter of a column: with the camera's direction flag set,
   * left is K (towards the centre) and right is P; a cleared flag swaps them;
   * totals are T.
   */
  function DirectionLetter(d: Direction, direction: bool): char {
    match d
    case Left => if direction then 'K' else 'P'
    case Right => if direction then 'P' else 'K'
    case Total => 'T'
  }

  /** `"{station} {vehicle letter}{direction letter}"`. */
  function ColumnName(station: string, f: Field, direction: bool): string {
    station + " " + [VehicleLetter(f.vehicle), DirectionLetter(f.direction, direction)]
  }

  /** The twelve fields in the order of the nested vehicle/direction loops. */
  function FieldAt(i: nat): Field
    requires i < 12
  {
    Field(VEHICLES[i / 3], DIRECTIONS[i % 3])
  }

  /** A Python dict with insertion order: a list of (key, value) pairs. */
  type Pairs = seq<(string, string)>

  /** `d[k] = v` on an insertion-ordered dict. */
  function Put(d: Pairs, k: string, v: string): (r: Pairs)
    ensures |r| == |d| || |r| == |d| + 1
  {
    if d == [] then [(k, v)]
    else if d[0].0 == k then [(k, v)] + d[1..]
    else [d[0]] + Put(d[1..], k, v)
  }

  /** Storing under a new key appends the pair at the end. */
  lemma {:induction false} PutNew(d: Pairs, k: string, v: string)
    requires forall i :: 0 <= i < |d| ==> d[i].0 != k
    ensures Put(d, k, v) == d + [(k, v)]
  {
    if d != [] {
      PutNew(d[1..], k, v);
      assert [d[0]] + (d[1..] + [(k, v)]) == d + [(k, v)];
    }
  }

  /** The letter pair stored for each field before the station prefix is added. */
  function Codes(direction: bool): (m: Pairs)
    ensures |m| == 12
  {
    seq(12, i requires 0 <= i < 12 =>
      (KeyName(FieldAt(i)), [VehicleLetter(FieldAt(i).vehicle), DirectionLetter(FieldAt(i).direction, direction)]))
  }

  lemma FieldAtIndex(vi: nat, di: nat)
    requires vi < 4 && di < 3
    ensures FieldAt(3 * vi + di) == Field(VEHICLES[vi], DIRECTIONS[di])
  {
    assert (3 * vi + di) / 3 == vi && (3 * vi + di) % 3 == di;
  }

  /** The mapping `get_mappings(station, direction)` returns, in insertion order. */
  function Mappings(station: string, direction: bool): (m: Pairs)
    ensures |m| == 12
  {
    seq(12, i requires 0 <= i < 12 => (KeyName(FieldAt(i)), ColumnName(station, FieldAt(i), direction)))
  }

  /** Different fields have different report keys. */
  lemma KeyNameInjective(f: Field, g: Field)
    requires KeyName(f) == KeyName(g)
    ensures f == g
  {
    assert KeyName(f)[0] == VehicleName(f.vehicle)[0] && KeyName(g)[0] == VehicleName(g.vehicle)[0];
    var n := |VehicleName(f.vehicle)|;
    assert f.direction != Total ==> KeyName(f)[n + 1] == DirectionSuffix(f.direction)[0];
    assert g.direction != Total && g.vehicle == f.vehicle ==> KeyName(g)[n + 1] == DirectionSuffix(g.direction)[0];
  }

  /** The vehicle and direction letters determine the column of a station. */
  lemma ColumnNameLetters(station: string, f: Field, g: Field, direction: bool)
    requires ColumnName(station, f, direction) == ColumnName(station, g, direction)
    ensures VehicleLetter(f.vehicle) == VehicleLetter(g.vehicle)
    ensures f.direction == g.direction
  {
    var c := ColumnName(station, f, direction);
    assert c[|station| + 1] == VehicleLetter(f.vehicle);
    assert ColumnName(station, g, direction)[|station| + 1] == VehicleLetter(g.vehicle);
    assert c[|station| + 2] == DirectionLetter(f.direction, direction);
    assert ColumnName(station, g, direction)[|station| + 2] == DirectionLetter(g.direction, direction);
  }

  /**
   * `get_mappings`: twelve distinct report keys, each mapped to the station's
   * column for its vehicle letter and direction letter.
   */
  lemma MappingsKeys(station: string, direction: bool)
    ensures forall i, j :: 0 <= i < j < 12 ==> Mappings(station, direction)[i].0 != Mappings(station, direction)[j].0
    ensures forall i :: 0 <= i < 12 ==>
      Mappings(station, direction)[i].0 == KeyName(FieldAt(i))
      && Mappings(station, direction)[i].1 == ColumnName(station, FieldAt(i), direction)
  {
    forall i, j | 0 <= i < j < 12
      ensures Mappings(station, direction)[i].0 != Mappings(station, direction)[j].0
    {
      if KeyName(FieldAt(i)) == KeyName(FieldAt(j)) {
        KeyNameInjective(FieldAt(i), FieldAt(j));
        assert false;
      }
    }
  }

  /** Heavy vehicles and cars of the same direction share one output column. */
  lemma HeavySharesCarColumn(station: string, direction: bool, d: Direction)
    ensures ColumnName(station, Field(Heavy, d), direction) == ColumnName(station, Field(Car, d), direction)
    ensures ColumnName(station, Field(Car, d), direction) == station + " A" + [DirectionLetter(d, direction)]
  {
  }

  /**
   * Clearing the direction flag exchanges the left and right columns and
   * leaves the total columns where they are.
   */
  lemma DirectionFlagSwapsSides(station: string, v: Vehicle)
    ensures ColumnName(station, Field(v, Left), false) == ColumnName(station, Field(v, Right), true)
    ensures ColumnName(station, Field(v, Right), false) == ColumnName(station, Field(v, Left), true)
    ensures ColumnName(station, Field(v, Total), false) == ColumnName(station, Field(v, Total), true)
    ensures ColumnName(station, Field(v, Left), true)[|station| + 2] == 'K'
    ensures ColumnName(station, Field(v, Right), true)[|station| + 2] == 'P'
    ensures ColumnName(station, Field(v, Total), true)[|station| + 2] == 'T'
  {
  }

  /** One step of the nested loops of `get_mappings`: a new key, stored at the next position. */
  lemma CodesNext(vi: nat, di: nat, direction: bool)
    requires vi < 4 && di < 3
    ensures var f := Field(VEHICLES[vi], DIRECTIONS[di]);
      var prefix := Codes(direction)[..3 * vi + di];
      (forall i :: 0 <= i < |prefix| ==> prefix[i].0 != KeyName(f))
      && prefix + [(KeyName(f), [VehicleLetter(f.vehicle), DirectionLetter(f.direction, direction)])]
         == Codes(direction)[..3 * vi + di + 1]
  {
    var f := Field(VEHICLES[vi], DIRECTIONS[di]);
    FieldAtIndex(vi, di);
    forall i | 0 <= i < 3 * vi + di
      ensures Codes(direction)[i].0 != KeyName(f)
    {
      if Codes(direction)[i].0 == KeyName(f) {
        KeyNameInjective(FieldAt(i), f);
      }
    }
  }

  /**
   * The nested loops of `get_mappings`: the table from every report key to
   * its vehicle letter and direction letter.
   */
  method FillCodes(direction: bool) returns (columnMappings: Pairs)
    ensures columnMappings == Codes(direction)
  {
    var dir1, dir2, dirTotal := 'K', 'P', 'T';
    if !direction {
      dir1, dir2 := dir2, dir1;
    }
    columnMappings := [];
    for vi := 0 to 4
      invariant columnMappings == Codes(direction)[..3 * vi]
    {
      for di := 0 to 3
        invariant columnMappings == Codes(direction)[..3 * vi + di]
      {
        var f := Field(VEHICLES[vi], DIRECTIONS[di]);
        var letter := match DIRECTIONS[di] case Left => dir1 case Right => dir2 case Total => dirTotal;
        assert letter == DirectionLetter(f.direction, direction);
        CodesNext(vi, di, direction);
        PutNew(columnMappings, KeyName(f), [VehicleLetter(VEHICLES[vi]), letter]);
        columnMappings := Put(columnMappings, KeyName(f), [VehicleLetter(VEHICLES[vi]), letter]);
      }
    }
    assert Codes(direction)[..12] == Codes(direction);
  }

  /**
   * `get_mappings`: the code table, then every code prefixed with the
   * station name.
   */
  method GetMappings(station: string, direction: bool) returns (mappings: Pairs)
    ensures mappings == Mappings(station, direction)
  {
    ghost var target := Mappings(station, direction);
    var columnMappings := FillCodes(direction);
    mappings := [];
    for i := 0 to 12
      invariant mappings == target[..i]
    {
      MappingFromCode(station, direction, i);
      mappings := mappings + [(columnMappings[i].0, station + " " + columnMappings[i].1)];
    }
    assert target[..12] == target;
  }

  /** Entry `i` of the mapping is entry `i` of the code table with the station name before the code. */
  lemma MappingFromCode(station: string, direction: bool, i: nat)
    requires i < 12
    ensures Mappings(station, direction)[..i + 1]
      == Mappings(station, direction)[..i] + [(Codes(direction)[i].0, station + " " + Codes(direction)[i].1)]
  {
    var m := Mappings(station, direction);
    assert m[i] == (Codes(direction)[i].0, station + " " + Codes(direction)[i].1);
    assert m[..i + 1] == m[..i] + [m[i]];
  }

  /**
   * `get_delta_hours`: `int(round(delta / 1 hour))` for a whole number of
   * minutes, rounding a half hour to the even number of hours as Python's
   * `round` does.
   */
  function DeltaHours(fromMinute: int, endMinute: int): (h: int)
    ensures -30 <= (endMinute - fromMinute) - 60 * h <= 30
    ensures (endMinute - fromMinute) % 60 == 30 ==> h % 2 == 0
  {
    var delta := endMinute - fromMinute;
    var q, r := delta / 60, delta % 60;
    if r < 30 then q else if r > 30 then q + 1 else if q % 2 == 0 then q else q + 1
  }

  /** Local midnight of a date, in minutes. */
  function Midnight(day: Date): int
    requires Valid(day)
  {
    DayNumber(day) * 1440
  }

  /**
   * The UTC window fetched for a local day: local midnight to local 23:59,
   * both shifted back by the UTC offset.
   */
  function FetchWindow(day: Date, utcOffset: int): (w: (int, int))
    requires Valid(day)
    ensures w.1 - w.0 == 23 * 60 + 59
  {
    (Midnight(day) - utcOffset, Midnight(day) + 23 * 60 + 59 - utcOffset)
  }

  /** The fetch window of a day spans 24 hours by `get_delta_hours`. */
  lemma WindowIsADay(day: Date, utcOffset: int)
    requires Valid(day)
    ensures DeltaHours(FetchWindow(day, utcOffset).0, FetchWindow(day, utcOffset).1) == 24
  {
  }

  /** Consecutive days' windows start 24 hours apart. */
  lemma WindowsAreConsecutive(day: Date, utcOffset: int)
    requires Valid(day) && day.year < 9999
    ensures FetchWindow(NextDay(day), utcOffset).0 == FetchWindow(day, utcOffset).0 + 24 * 60
  {
    DayNumberNext(day);
  }

  /** One fetched hourly record: report key to count (the `date` key is not read). */
  type Record = map<string, int>

  /** One normalised hour: its UTC start and the twelve counts. */
  datatype HourEntry = HourEntry(date: int, counts: map<string, int>)

  /** The report keys of the twelve fields. */
  function FieldKeys(): set<string> {
    set i | 0 <= i < 12 :: KeyName(FieldAt(i))
  }

  /** `item.get(key, 0)`. */
  function Count(item: map<string, int>, key: string): int {
    if key in item then item[key] else 0
  }

  /** A record with every field key present, absent counts read as zero. */
  function Normalize(item: Record): (r: map<string, int>)
    ensures r.Keys == FieldKeys()
    ensures forall k :: k in r ==> r[k] == Count(item, k)
  {
    map k | k in FieldKeys() :: Count(item, k)
  }

  /**
   * The padding step of `get_day_data`: when the report does not hold exactly
   * 24 records (and the check is on), `24 - n` empty records are appended for
   * today and prepended for any other day; `range` of a negative count is
   * empty, so a longer report is kept as it is. (The source's replacement of
   * an empty report by `[{} for a in range(0)]` is the empty list again.)
   */
  function Padded(report: seq<Record>, isToday: bool, checkDeltaHours: bool): seq<Record>
  {
    if checkDeltaHours && |report| != 24 then
      var fill := seq(if |report| < 24 then 24 - |report| else 0, _ => map[]);
      if isToday then report + fill else fill + report
    else report
  }

  /** What `get_day_data` returns for a fetched report: hour `i` starts `i` hours after `from`. */
  function DayEntries(report: seq<Record>, isToday: bool, checkDeltaHours: bool, from: int): seq<HourEntry>
  {
    Hours(Padded(report, isToday, checkDeltaHours), from)
  }

  /** The records as hours, record `i` stamped `i` hours after `from`. */
  function Hours(p: seq<Record>, from: int): seq<HourEntry> {
    seq(|p|, i requires 0 <= i < |p| => HourEntry(from + 60 * i, Normalize(p[i])))
  }

  /** The all-zero hour. */
  predicate IsZero(e: HourEntry) {
    e.counts.Keys == FieldKeys() && forall k :: k in e.counts ==> e.counts[k] == 0
  }

  /** With the check on, a report of at most 24 records becomes exactly 24 hours; a longer one keeps its length. */
  lemma DayEntriesLength(report: seq<Record>, isToday: bool, from: int)
    ensures |report| <= 24 ==> |DayEntries(report, isToday, true, from)| == 24
    ensures |report| > 24 ==> |DayEntries(report, isToday, true, from)| == |report|
  {
  }

  /** Without the check the report's length is kept. */
  lemma DayEntriesUnchecked(report: seq<Record>, isToday: bool, from: int)
    ensures |DayEntries(report, isToday, false, from)| == |report|
    ensures forall i :: 0 <= i < |report| ==> DayEntries(report, isToday, false, from)[i].counts == Normalize(report[i])
  {
  }

  /** Every hour is stamped `i` hours after the window start and carries all twelve keys. */
  lemma DayEntriesShape(report: seq<Record>, isToday: bool, check: bool, from: int)
    ensures forall i :: 0 <= i < |DayEntries(report, isToday, check, from)| ==>
      DayEntries(report, isToday, check, from)[i].date == from + 60 * i
      && DayEntries(report, isToday, check, from)[i].counts.Keys == FieldKeys()
  {
  }

  /** An empty report becomes 24 all-zero hours. */
  lemma EmptyReportIsZeroDay(isToday: bool, from: int)
    ensures |DayEntries([], isToday, true, from)| == 24
    ensures forall i :: 0 <= i < 24 ==> IsZero(DayEntries([], isToday, true, from)[i])
  {
  }

  /** For today the fetched hours come first and zero hours fill the rest of the day. */
  lemma TodayPadsAtEnd(report: seq<Record>, from: int)
    requires |report| <= 24
    ensures var e := DayEntries(report, true, true, from);
      |e| == 24
      && (forall i :: 0 <= i < |report| ==> e[i].counts == Normalize(report[i]))
      && (forall i :: |report| <= i < 24 ==> IsZero(e[i]))
  {
  }

  /** For a past day zero hours come first and the fetched hours end the day. */
  lemma PastDayPadsAtStart(report: seq<Record>, from: int)
    requires |report| <= 24
    ensures var e := DayEntries(report, false, true, from);
      |e| == 24
      && (forall i :: 0 <= i < 24 - |report| ==> IsZero(e[i]))
      && (forall i :: 0 <= i < |report| ==> e[24 - |report| + i].counts == Normalize(report[i]))
  {
  }

  /** `HEAVY in value_key`: `heavy` occurs somewhere in the key. */
  predicate IsHeavy(key: string) {
    exists i | 0 <= i <= |key| :: OccursAt(key, "heavy", i)
  }

  /** Only the heavy-vehicle keys contain `heavy`. */
  lemma HeavyKey(f: Field)
    ensures IsHeavy(KeyName(f)) <==> f.vehicle == Heavy
  {
    if f.vehicle == Heavy {
      assert OccursAt(KeyName(f), "heavy", 0);
    } else {
      assert 'h' !in KeyName(f);
      NotContainsWithoutFirst(KeyName(f), "heavy");
      ContainsIffOccurs(KeyName(f), "heavy");
    }
  }

  /** The columns named by the non-heavy entries of a mapping, in mapping order. */
  function NonHeavyColumns(mp: Pairs): (cs: seq<string>)
    ensures |cs| <= |mp|
  {
    if mp == [] then []
    else NonHeavyColumns(mp[..|mp| - 1]) + (if IsHeavy(mp[|mp| - 1].0) then [] else [mp[|mp| - 1].1])
  }

  /** What lands in column `c` for one hour: the counts of every entry mapped to `c`, added up. */
  function ColumnSum(row: map<string, int>, mp: Pairs, c: string): int {
    if mp == [] then 0
    else ColumnSum(row, mp[..|mp| - 1], c) + (if mp[|mp| - 1].1 == c then Count(row, mp[|mp| - 1].0) else 0)
  }

  /**
   * The mappings the column loop handles without error: every non-heavy entry
   * opens a column of its own, and every heavy entry adds to a column an
   * earlier non-heavy entry started (otherwise `values_list[-1]` fails on an
   * empty list, or two entries append to one column and the frame's columns
   * differ in length).
   */
  predicate WellFormed(mp: Pairs)
    decreases |mp|
  {
    mp == []
    || (var p, e := mp[..|mp| - 1], mp[|mp| - 1];
        WellFormed(p) && if IsHeavy(e.0) then e.1 in NonHeavyColumns(p) else e.1 !in NonHeavyColumns(p))
  }

  lemma {:induction false} WellFormedPrefix(mp: Pairs, j: nat)
    requires WellFormed(mp) && j <= |mp|
    ensures WellFormed(mp[..j])
    decreases |mp|
  {
    if j < |mp| {
      WellFormedPrefix(mp[..|mp| - 1], j);
      assert mp[..|mp| - 1][..j] == mp[..j];
    } else {
      assert mp[..j] == mp;
    }
  }

  /** The columns started by a prefix are started by the whole mapping, and so is each non-heavy entry's column. */
  lemma {:induction false} NonHeavyColumnsPrefix(mp: Pairs, j: nat)
    requires j <= |mp|
    ensures forall c :: c in NonHeavyColumns(mp[..j]) ==> c in NonHeavyColumns(mp)
    ensures j < |mp| && !IsHeavy(mp[j].0) ==> mp[j].1 in NonHeavyColumns(mp)
    decreases |mp|
  {
    if j == |mp| {
      assert mp[..j] == mp;
    } else {
      var p := mp[..|mp| - 1];
      if j < |p| {
        NonHeavyColumnsPrefix(p, j);
        assert p[..j] == mp[..j] && p[j] == mp[j];
      } else {
        assert p == mp[..j];
      }
    }
  }

  /** A column no non-heavy entry started receives nothing. */
  lemma {:induction false} ColumnSumUnopened(row: map<string, int>, mp: Pairs, c: string)
    requires WellFormed(mp) && c !in NonHeavyColumns(mp)
    ensures ColumnSum(row, mp, c) == 0
    decreases |mp|
  {
    if mp != [] {
      ColumnSumUnopened(row, mp[..|mp| - 1], c);
    }
  }

  /** Column `c` over a run of hours: each hour's sum for `c`. */
  function Sums(rows: seq<HourEntry>, mp: Pairs, c: string): (vs: seq<int>)
    ensures |vs| == |rows|
  {
    if rows == [] then [] else Sums(rows[..|rows| - 1], mp, c) + [ColumnSum(rows[|rows| - 1].counts, mp, c)]
  }

  /** Value `i` of a column is hour `i`'s sum. */
  lemma {:induction false} SumsAt(rows: seq<HourEntry>, mp: Pairs, c: string, i: nat)
    requires i < |rows|
    ensures Sums(rows, mp, c)[i] == ColumnSum(rows[i].counts, mp, c)
  {
    if i < |rows| - 1 {
      SumsAt(rows[..|rows| - 1], mp, c, i);
    }
  }

  /** The columns present, in insertion order, after `h` whole hours and `j` entries of hour `h`. */
  function PartialKeys(mp: Pairs, h: nat, j: nat): seq<string>
    requires j <= |mp|
  {
    if h == 0 then NonHeavyColumns(mp[..j]) else NonHeavyColumns(mp)
  }

  /**
   * Column `c` after `h` whole hours and the first `j` entries of hour `h`:
   * a column opened in hour `h` already holds the `h + 1`-th value, summing
   * the first `j` entries.
   */
  function PartialColumn(rows: seq<HourEntry>, mp: Pairs, h: nat, j: nat, c: string): seq<int>
    requires h <= |rows| && j <= |mp| && (h == |rows| ==> j == 0)
  {
    if j > 0 && c in NonHeavyColumns(mp[..j]) then Sums(rows[..h], mp, c) + [ColumnSum(rows[h].counts, mp[..j], c)]
    else Sums(rows[..h], mp, c)
  }

  /**
   * A table as the frame is written out: the index column (the local start of
   * each hour), the column names in order and each column's values.
   */
  datatype Csv = Csv(index: seq<int>, header: seq<string>, columns: map<string, seq<int>>)

  /**
   * The table `save_dataframe` writes for a day's hours: one row per hour,
   * indexed by its local time, one column per column name started by a
   * non-heavy entry holding the per-hour sums of the counts mapped to it; no
   * column at all when there are no hours.
   */
  function Table(rows: seq<HourEntry>, mp: Pairs, utcOffset: int): Csv {
    Csv(
      seq(|rows|, i requires 0 <= i < |rows| => rows[i].date + utcOffset),
      if rows == [] then [] else NonHeavyColumns(mp),
      if rows == [] then map[] else map c | c in NonHeavyColumns(mp) :: Sums(rows, mp, c))
  }

  /** Adding entry `j` to a mapping prefix changes only the sum of its own column. */
  lemma ColumnSumNext(row: map<string, int>, mp: Pairs, j: nat, c: string)
    requires j < |mp|
    ensures ColumnSum(row, mp[..j + 1], c) == ColumnSum(row, mp[..j], c) + (if c == mp[j].1 then Count(row, mp[j].0) else 0)
  {
    assert mp[..j + 1][..j] == mp[..j];
  }

  /** Facts shared by both kinds of inner-loop step. */
  lemma PartialStepFacts(rows: seq<HourEntry>, mp: Pairs, h: nat, j: nat)
    requires WellFormed(mp) && h < |rows| && j < |mp|
    ensures WellFormed(mp[..j]) && WellFormed(mp[..j + 1])
    ensures IsHeavy(mp[j].0) ==> mp[j].1 in NonHeavyColumns(mp[..j]) && NonHeavyColumns(mp[..j + 1]) == NonHeavyColumns(mp[..j])
    ensures !IsHeavy(mp[j].0) ==> mp[j].1 !in NonHeavyColumns(mp[..j]) && NonHeavyColumns(mp[..j + 1]) == NonHeavyColumns(mp[..j]) + [mp[j].1]
    ensures forall c :: c in NonHeavyColumns(mp[..j + 1]) ==> c in NonHeavyColumns(mp)
    ensures !IsHeavy(mp[j].0) ==> mp[j].1 in NonHeavyColumns(mp)
  {
    assert mp[..j + 1][..j] == mp[..j];
    WellFormedPrefix(mp, j + 1);
    WellFormedPrefix(mp, j);
    NonHeavyColumnsPrefix(mp, j);
    NonHeavyColumnsPrefix(mp, j + 1);
  }

  /** Entry `j` leaves every other column as it was. */
  lemma PartialColumnOther(rows: seq<HourEntry>, mp: Pairs, h: nat, j: nat, c: string)
    requires h < |rows| && j < |mp| && c != mp[j].1
    ensures PartialColumn(rows, mp, h, j + 1, c) == PartialColumn(rows, mp, h, j, c)
  {
    assert mp[..j + 1][..j] == mp[..j];
    assert mp[..0] == [];
    ColumnSumNext(rows[h].counts, mp, j, c);
  }

  /** A column with `v` added to its last value, as `values_list[-1] += v` does. */
  function AddToLastValue(x: seq<int>, v: int): (y: seq<int>)
    requires |x| > 0
    ensures |y| == |x| && y[|x| - 1] == x[|x| - 1] + v
    ensures forall i :: 0 <= i < |x| - 1 ==> y[i] == x[i]
  {
    x[|x| - 1 := x[|x| - 1] + v]
  }

  /** Adding to the last value of `before + [a]`. */
  lemma AddToLast(x: seq<int>, before: seq<int>, a: int, v: int, y: seq<int>)
    requires x == before + [a] && y == before + [a + v]
    ensures y == AddToLastValue(x, v)
  {
  }

  /** A heavy entry adds its count to the hour's value of its column, which a car entry already opened. */
  lemma PartialStepHeavy(rows: seq<HourEntry>, mp: Pairs, h: nat, j: nat)
    requires WellFormed(mp) && h < |rows| && j < |mp| && IsHeavy(mp[j].0)
    ensures PartialKeys(mp, h, j + 1) == PartialKeys(mp, h, j) && mp[j].1 in PartialKeys(mp, h, j)
    ensures |PartialColumn(rows, mp, h, j, mp[j].1)| == h + 1
    ensures PartialColumn(rows, mp, h, j + 1, mp[j].1)
      == AddToLastValue(PartialColumn(rows, mp, h, j, mp[j].1), Count(rows[h].counts, mp[j].0))
  {
    var k, v := mp[j].1, Count(rows[h].counts, mp[j].0);
    PartialStepFacts(rows, mp, h, j);
    assert mp[..0] == [];
    ColumnSumNext(rows[h].counts, mp, j, k);
    var before := Sums(rows[..h], mp, k);
    var x, y := PartialColumn(rows, mp, h, j, k), PartialColumn(rows, mp, h, j + 1, k);
    var a := ColumnSum(rows[h].counts, mp[..j], k);
    assert ColumnSum(rows[h].counts, mp[..j + 1], k) == a + v;
    assert x == before + [a];
    assert y == before + [a + v];
    assert |before| == h;
    AddToLast(x, before, a, v, y);
  }

  /** A non-heavy entry opens its column in the first hour and finds it open in the later ones. */
  lemma PartialOpenKeys(mp: Pairs, h: nat, j: nat)
    requires WellFormed(mp) && j < |mp| && !IsHeavy(mp[j].0)
    ensures PartialKeys(mp, h, j + 1) == if h == 0 then PartialKeys(mp, h, j) + [mp[j].1] else PartialKeys(mp, h, j)
    ensures mp[j].1 in PartialKeys(mp, h, j) <==> h > 0
  {
    var k := mp[j].1;
    if h == 0 {
      assert NonHeavyColumns(mp[..j + 1]) == NonHeavyColumns(mp[..j]) + [k] && k !in NonHeavyColumns(mp[..j]) by {
        assert mp[..j + 1][..j] == mp[..j];
        WellFormedPrefix(mp, j + 1);
      }
    } else {
      assert k in NonHeavyColumns(mp) by {
        NonHeavyColumnsPrefix(mp, j);
      }
    }
  }

  /** A non-heavy entry appends its count to its column, which is empty in the first hour. */
  lemma PartialStepOpen(rows: seq<HourEntry>, mp: Pairs, h: nat, j: nat)
    requires WellFormed(mp) && h < |rows| && j < |mp| && !IsHeavy(mp[j].0)
    ensures var k := mp[j].1;
      (h == 0 ==> PartialColumn(rows, mp, h, j, k) == [])
      && PartialColumn(rows, mp, h, j + 1, k) == PartialColumn(rows, mp, h, j, k) + [Count(rows[h].counts, mp[j].0)]
  {
    var k, v := mp[j].1, Count(rows[h].counts, mp[j].0);
    var before := Sums(rows[..h], mp, k);
    assert NonHeavyColumns(mp[..j + 1]) == NonHeavyColumns(mp[..j]) + [k] && k !in NonHeavyColumns(mp[..j]) by {
      assert mp[..j + 1][..j] == mp[..j];
      WellFormedPrefix(mp, j + 1);
    }
    assert ColumnSum(rows[h].counts, mp[..j + 1], k) == v by {
      WellFormedPrefix(mp, j);
      ColumnSumNext(rows[h].counts, mp, j, k);
      ColumnSumUnopened(rows[h].counts, mp[..j], k);
    }
    assert h == 0 ==> before == [] by {
      if h == 0 {
        assert rows[..h] == [];
      }
    }
    assert PartialColumn(rows, mp, h, j, k) == before;
    assert PartialColumn(rows, mp, h, j + 1, k) == before + [v];
  }

  /** Finishing an hour's entries is starting the next hour. */
  lemma PartialNextHour(rows: seq<HourEntry>, mp: Pairs, h: nat, c: string)
    requires h < |rows|
    ensures PartialKeys(mp, h, |mp|) == PartialKeys(mp, h + 1, 0)
    ensures c in PartialKeys(mp, h + 1, 0) ==> PartialColumn(rows, mp, h, |mp|, c) == PartialColumn(rows, mp, h + 1, 0, c)
  {
    assert mp[..|mp|] == mp;
    assert mp[..0] == [];
    assert rows[..h + 1][..h] == rows[..h];
  }

  /**
   * The state of the column loops after `h` whole hours and the first `j`
   * entries of hour `h`: the column names met so far, in order, and each
   * column's values so far.
   */
  ghost predicate Built(rows: seq<HourEntry>, mp: Pairs, h: nat, j: nat, header: seq<string>, columns: map<string, seq<int>>)
    requires h <= |rows| && j <= |mp| && (h == |rows| ==> j == 0)
  {
    header == PartialKeys(mp, h, j)
    && (forall c :: c in columns <==> c in header)
    && (forall c :: c in columns ==> columns[c] == PartialColumn(rows, mp, h, j, c))
  }

  /** Storing entry `j`'s new values under its column completes the step. */
  lemma BuiltStep(rows: seq<HourEntry>, mp: Pairs, h: nat, j: nat, header: seq<string>, columns: map<string, seq<int>>,
                  header': seq<string>, values: seq<int>)
    requires h < |rows| && j < |mp| && Built(rows, mp, h, j, header, columns)
    requires header' == PartialKeys(mp, h, j + 1)
    requires header' == header || header' == header + [mp[j].1]
    requires mp[j].1 in header' && values == PartialColumn(rows, mp, h, j + 1, mp[j].1)
    ensures Built(rows, mp, h, j + 1, header', columns[mp[j].1 := values])
  {
    var key, columns' := mp[j].1, columns[mp[j].1 := values];
    assert forall c :: c in columns' <==> c in header';
    forall c | c in columns'
      ensures columns'[c] == PartialColumn(rows, mp, h, j + 1, c)
    {
      if c != key {
        PartialColumnOther(rows, mp, h, j, c);
      }
    }
  }

  /** Any other entry appends to its column, which is new exactly in the first hour. */
  lemma BuiltOpen(rows: seq<HourEntry>, mp: Pairs, h: nat, j: nat, header: seq<string>, columns: map<string, seq<int>>)
    requires WellFormed(mp) && h < |rows| && j < |mp| && !IsHeavy(mp[j].0)
    requires Built(rows, mp, h, j, header, columns)
    ensures var k := mp[j].1;
      PartialKeys(mp, h, j + 1) == (if k in columns then header else header + [k])
      && PartialColumn(rows, mp, h, j + 1, k) == (if k in columns then columns[k] else []) + [Count(rows[h].counts, mp[j].0)]
  {
    PartialOpenKeys(mp, h, j);
    PartialStepOpen(rows, mp, h, j);
  }

  /**
   * One pass of the inner loop of `save_dataframe`: entry `j` of the mapping
   * for hour `h`. A heavy entry adds its count to the last value of its
   * column; any other entry appends its count, creating the column if it is
   * new.
   */
  method AddEntry(rows: seq<HourEntry>, mp: Pairs, h: nat, j: nat, header: seq<string>, columns: map<string, seq<int>>)
    returns (header': seq<string>, columns': map<string, seq<int>>)
    requires WellFormed(mp) && h < |rows| && j < |mp| && mp[j].0 in rows[h].counts
    requires Built(rows, mp, h, j, header, columns)
    ensures Built(rows, mp, h, j + 1, header', columns')
  {
    var key, valueKey := mp[j].1, mp[j].0;
    var count := rows[h].counts[valueKey];
    var valuesList: seq<int>;
    header' := header;
    assert Contains(valueKey, "heavy") == IsHeavy(valueKey) by {
      ContainsIffOccurs(valueKey, "heavy");
    }
    if Contains(valueKey, "heavy") {
      PartialStepHeavy(rows, mp, h, j);
      valuesList := AddToLastValue(columns[key], count);
    } else {
      BuiltOpen(rows, mp, h, j, header, columns);
      valuesList := (if key in columns then columns[key] else []) + [count];
      if key !in columns {
        header' := header + [key];
      }
    }
    columns' := columns[key := valuesList];
    BuiltStep(rows, mp, h, j, header, columns, header', valuesList);
  }

  /**
   * The column-building loops of `save_dataframe`: for every hour, record its
   * local time, then for every mapping entry append the count to the entry's
   * column, or, for a heavy entry, add it to the value the car entry just
   * appended. The result is the table of the hours.
   */
  method BuildColumns(rows: seq<HourEntry>, mp: Pairs, utcOffset: int) returns (csv: Csv)
    requires WellFormed(mp)
    requires forall h, j :: 0 <= h < |rows| && 0 <= j < |mp| ==> mp[j].0 in rows[h].counts
    ensures csv == Table(rows, mp, utcOffset)
  {
    var index: seq<int> := [];
    var header: seq<string> := [];
    var columns: map<string, seq<int>> := map[];
    assert mp[..0] == [];
    for h := 0 to |rows|
      invariant index == seq(h, i requires 0 <= i < h => rows[i].date + utcOffset)
      invariant Built(rows, mp, h, 0, header, columns)
    {
      index := index + [rows[h].date + utcOffset];
      header, columns := AddHour(rows, mp, h, header, columns);
    }
    BuiltTable(rows, mp, header, columns);
    csv := Csv(index, header, columns);
  }

  /** The inner loop of `save_dataframe` for hour `h`: every mapping entry in turn. */
  method AddHour(rows: seq<HourEntry>, mp: Pairs, h: nat, header0: seq<string>, columns0: map<string, seq<int>>)
    returns (header: seq<string>, columns: map<string, seq<int>>)
    requires WellFormed(mp) && h < |rows| && forall j :: 0 <= j < |mp| ==> mp[j].0 in rows[h].counts
    requires Built(rows, mp, h, 0, header0, columns0)
    ensures Built(rows, mp, h + 1, 0, header, columns)
  {
    header, columns := header0, columns0;
    for j := 0 to |mp|
      invariant Built(rows, mp, h, j, header, columns)
    {
      header, columns := AddEntry(rows, mp, h, j, header, columns);
    }
    forall c | c in columns ensures PartialColumn(rows, mp, h, |mp|, c) == PartialColumn(rows, mp, h + 1, 0, c) {
      PartialNextHour(rows, mp, h, c);
    }
    PartialNextHour(rows, mp, h, "");
  }

  /** After the last hour the columns built are the table's. */
  lemma BuiltTable(rows: seq<HourEntry>, mp: Pairs, header: seq<string>, columns: map<string, seq<int>>)
    requires Built(rows, mp, |rows|, 0, header, columns)
    ensures header == (if rows == [] then [] else NonHeavyColumns(mp))
    ensures columns == if rows == [] then map[] else map c | c in NonHeavyColumns(mp) :: Sums(rows, mp, c)
  {
    var n := |rows|;
    assert rows[..n] == rows;
    assert header == PartialKeys(mp, n, 0);
    if n == 0 {
      assert mp[..0] == [];
      assert NonHeavyColumns(mp[..0]) == [];
      assert forall c :: c !in columns;
    } else {
      assert header == NonHeavyColumns(mp);
      forall c | c in columns ensures columns[c] == Sums(rows, mp, c) {
        assert columns[c] == PartialColumn(rows, mp, n, 0, c);
      }
    }
  }

  /** Distinct positions hold distinct fields. */
  lemma FieldAtInjective(i: nat, m: nat)
    requires i < 12 && m < 12 && FieldAt(i) == FieldAt(m)
    ensures i == m
  {
    assert i / 3 == m / 3 && i % 3 == m % 3;
  }

  /**
   * The layout of a camera's mapping: twelve entries, the last three (and
   * only they) heavy, the first nine naming nine different columns, and each
   * heavy entry naming the column of the entry three places before it.
   */
  predicate Layout(m: Pairs) {
    |m| == 12
    && (forall i :: 0 <= i < 12 ==> (IsHeavy(m[i].0) <==> i >= 9))
    && (forall i, k :: 0 <= i < k < 9 ==> m[i].1 != m[k].1)
    && (forall i :: 9 <= i < 12 ==> m[i].1 == m[i - 3].1)
  }

  /** The entries of a mapping with this layout that open a column are the first nine, in order. */
  lemma {:induction false} LayoutOpenColumns(m: Pairs, k: nat)
    requires Layout(m) && k <= 12
    ensures var open := NonHeavyColumns(m[..k]);
      |open| == (if k < 9 then k else 9) && forall i :: 0 <= i < |open| ==> open[i] == m[i].1
  {
    if k > 0 {
      LayoutOpenColumns(m, k - 1);
      assert m[..k][..k - 1] == m[..k - 1];
    }
  }

  /** One more entry keeps a mapping well formed when it respects the rule for its kind. */
  lemma WellFormedSnoc(p: Pairs, e: (string, string), mp: Pairs)
    requires mp == p + [e] && WellFormed(p)
    requires if IsHeavy(e.0) then e.1 in NonHeavyColumns(p) else e.1 !in NonHeavyColumns(p)
    ensures WellFormed(mp)
  {
    assert mp[..|mp| - 1] == p;
  }

  /** Every prefix of a mapping with this layout is well formed. */
  lemma {:induction false} LayoutWellFormed(m: Pairs, k: nat)
    requires Layout(m) && k <= 12
    ensures WellFormed(m[..k])
  {
    if k == 0 {
      assert m[..k] == [];
    } else {
      var p, e := m[..k - 1], m[k - 1];
      LayoutWellFormed(m, k - 1);
      assert m[..k] == p + [e];
      LayoutOpenColumns(m, k - 1);
      var open := NonHeavyColumns(p);
      if k - 1 >= 9 {
        assert open[k - 4] == e.1;
      } else {
        assert forall i :: 0 <= i < |open| ==> open[i] != e.1;
      }
      WellFormedSnoc(p, e, m[..k]);
    }
  }

  /** Among the first nine entries (pedestrians, bikes and cars) no two name the same column. */
  lemma OpenColumnsDistinct(station: string, direction: bool, i: nat, k: nat)
    requires i < k < 9
    ensures Mappings(station, direction)[i].1 != Mappings(station, direction)[k].1
  {
    if ColumnName(station, FieldAt(i), direction) == ColumnName(station, FieldAt(k), direction) {
      ColumnNameLetters(station, FieldAt(i), FieldAt(k), direction);
      assert FieldAt(i) == FieldAt(k);
      FieldAtInjective(i, k);
    }
  }

  /** Each heavy entry names the column of the car entry three places before it. */
  lemma HeavyEntryColumn(station: string, direction: bool, i: nat)
    requires 9 <= i < 12
    ensures Mappings(station, direction)[i].1 == Mappings(station, direction)[i - 3].1
  {
    assert FieldAt(i) == Field(Heavy, DIRECTIONS[i % 3]);
    assert FieldAt(i - 3) == Field(Car, DIRECTIONS[i % 3]);
    HeavySharesCarColumn(station, direction, DIRECTIONS[i % 3]);
  }

  /**
   * `get_mappings` has the layout the column loops need, so its mapping is
   * well formed and opens nine columns: the pedestrian, bike and car columns
   * of the three directions.
   */
  lemma MappingsLayout(station: string, direction: bool)
    ensures Layout(Mappings(station, direction))
    ensures WellFormed(Mappings(station, direction))
    ensures NonHeavyColumns(Mappings(station, direction)) == seq(9, i requires 0 <= i < 9 => Mappings(station, direction)[i].1)
  {
    var m := Mappings(station, direction);
    MappingsHaveLayout(station, direction);
    LayoutWellFormed(m, 12);
    LayoutOpenColumns(m, 12);
    assert m[..12] == m;
  }

  /** The entries of `get_mappings` in the order of the loops: heavy last, open columns distinct, heavy on the car columns. */
  lemma MappingsHaveLayout(station: string, direction: bool)
    ensures Layout(Mappings(station, direction))
  {
    var m := Mappings(station, direction);
    forall i | 0 <= i < 12 ensures IsHeavy(m[i].0) <==> i >= 9 {
      HeavyKey(FieldAt(i));
    }
    forall i, k | 0 <= i < k < 9 ensures m[i].1 != m[k].1 {
      OpenColumnsDistinct(station, direction, i, k);
    }
    forall i | 9 <= i < 12 ensures m[i].1 == m[i - 3].1 {
      HeavyEntryColumn(station, direction, i);
    }
  }

  /**
   * In a mapping with this layout, column `m[i].1` of one of the first nine
   * entries sums that entry's count and, for the last three of them (the
   * cars), the count of the heavy entry three places later.
   */
  lemma {:induction false} LayoutColumnSum(row: map<string, int>, m: Pairs, i: nat, k: nat)
    requires Layout(m) && i < 9 && k <= 12
    ensures ColumnSum(row, m[..k], m[i].1)
      == (if i < k then Count(row, m[i].0) else 0) + (if 6 <= i && i + 3 < k then Count(row, m[i + 3].0) else 0)
  {
    if k > 0 {
      LayoutColumnSum(row, m, i, k - 1);
      assert m[..k][..k - 1] == m[..k - 1];
      if k - 1 >= 9 {
        assert m[k - 1].1 == m[k - 4].1;
        if k - 4 != i {
          assert m[k - 4].1 != m[i].1 by {
            if k - 4 < i {
              assert m[k - 4].1 != m[i].1;
            } else {
              assert m[i].1 != m[k - 4].1;
            }
          }
        }
      } else if k - 1 != i {
        if k - 1 < i {
          assert m[k - 1].1 != m[i].1;
        } else {
          assert m[i].1 != m[k - 1].1;
        }
      }
    }
  }

  /**
   * The table written for a day: one value per hour in each of the nine
   * columns; a pedestrian or bike column holds that field's count, and a
   * car column holds the car count plus the heavy-vehicle count of the same
   * direction.
   */
  lemma TableColumns(rows: seq<HourEntry>, station: string, direction: bool, utcOffset: int, f: Field)
    requires rows != [] && f.vehicle != Heavy
    ensures var t := Table(rows, Mappings(station, direction), utcOffset);
      var c := ColumnName(station, f, direction);
      |t.header| == 9 && c in t.header && c in t.columns && |t.columns[c]| == |rows|
      && forall h :: 0 <= h < |rows| ==>
           t.columns[c][h] == Count(rows[h].counts, KeyName(f))
                              + (if f.vehicle == Car then Count(rows[h].counts, KeyName(Field(Heavy, f.direction))) else 0)
  {
    var m := Mappings(station, direction);
    var c := ColumnName(station, f, direction);
    MappingsLayout(station, direction);
    var vi := if f.vehicle == Pedestrian then 0 else if f.vehicle == Bike then 1 else 2;
    var di := if f.direction == Left then 0 else if f.direction == Right then 1 else 2;
    var i := 3 * vi + di;
    FieldAtIndex(vi, di);
    assert m[i] == (KeyName(f), c);
    assert NonHeavyColumns(m)[i] == c;
    forall h | 0 <= h < |rows|
      ensures Sums(rows, m, c)[h]
        == Count(rows[h].counts, KeyName(f)) + (if f.vehicle == Car then Count(rows[h].counts, KeyName(Field(Heavy, f.direction))) else 0)
    {
      SumsAt(rows, m, c, h);
      LayoutColumnSum(rows[h].counts, m, i, 12);
      assert m[..12] == m;
      if f.vehicle == Car {
        FieldAtIndex(3, di);
      }
    }
  }

  /** The report keys of the twelve fields, in loop order. */
  function FieldKeyList(): seq<string> {
    seq(12, i requires 0 <= i < 12 => KeyName(FieldAt(i)))
  }

  /** Vehicle `vi`'s three keys sit at positions `3 * vi` to `3 * vi + 2`. */
  lemma VehicleKeys(vi: nat)
    requires vi < 4
    ensures |FieldKeyList()| == 12
    ensures forall di :: 0 <= di < 3 ==> FieldKeyList()[3 * vi + di] == KeyName(Field(VEHICLES[vi], DIRECTIONS[di]))
  {
    forall di | 0 <= di < 3 ensures FieldKeyList()[3 * vi + di] == KeyName(Field(VEHICLES[vi], DIRECTIONS[di])) {
      FieldAtIndex(vi, di);
    }
  }

  /** `d` holds the first `n` of `keys` and nothing else, each read from `item` with a default of zero. */
  ghost predicate NormalizedBelow(item: Record, d: map<string, int>, keys: seq<string>, n: nat)
    requires n <= |keys|
  {
    (forall i :: 0 <= i < n ==> keys[i] in d)
    && (forall k :: k in d ==> (exists i :: 0 <= i < n && k == keys[i]) && d[k] == Count(item, k))
  }

  /** Reading the next key extends the normalised record by that key. */
  lemma NormalizedStep(item: Record, d: map<string, int>, keys: seq<string>, n: nat)
    requires n < |keys| && NormalizedBelow(item, d, keys, n)
    ensures NormalizedBelow(item, d[keys[n] := Count(item, keys[n])], keys, n + 1)
  {
    var d' := d[keys[n] := Count(item, keys[n])];
    forall k | k in d' ensures (exists i :: 0 <= i < n + 1 && k == keys[i]) && d'[k] == Count(item, k) {
      if k != keys[n] {
        var i :| 0 <= i < n && k == keys[i];
      }
    }
  }

  /** All twelve keys read are exactly the report keys. */
  lemma NormalizedAll(item: Record, d: map<string, int>)
    requires |FieldKeyList()| == 12 && NormalizedBelow(item, d, FieldKeyList(), 12)
    ensures d == Normalize(item)
  {
    var keys := FieldKeyList();
    forall k ensures k in d <==> k in FieldKeys() {
      if k in d {
        var i :| 0 <= i < 12 && k == keys[i];
        assert k == KeyName(FieldAt(i));
      }
      if k in FieldKeys() {
        var i :| 0 <= i < 12 && k == KeyName(FieldAt(i));
        assert keys[i] in d;
      }
    }
  }

  /**
   * The inner loops of `get_day_data` for one fetched record: every one of
   * the twelve report keys, read with a default of zero.
   */
  method NormalizeItem(item: Record) returns (d: map<string, int>)
    ensures d == Normalize(item)
  {
    ghost var keys := FieldKeyList();
    d := map[];
    for vi := 0 to 4
      invariant |keys| == 12 && NormalizedBelow(item, d, keys, 3 * vi)
    {
      VehicleKeys(vi);
      d := NormalizeVehicle(item, d, vi, keys);
    }
    NormalizedAll(item, d);
  }

  /** The innermost loop: the three direction keys of vehicle `vi`. */
  method NormalizeVehicle(item: Record, d0: map<string, int>, vi: nat, ghost keys: seq<string>) returns (d: map<string, int>)
    requires vi < 4 && |keys| == 12
    requires forall di :: 0 <= di < 3 ==> keys[3 * vi + di] == KeyName(Field(VEHICLES[vi], DIRECTIONS[di]))
    requires NormalizedBelow(item, d0, keys, 3 * vi)
    ensures NormalizedBelow(item, d, keys, 3 * vi + 3)
  {
    d := d0;
    for di := 0 to 3
      invariant NormalizedBelow(item, d, keys, 3 * vi + di)
    {
      var key := KeyName(Field(VEHICLES[vi], DIRECTIONS[di]));
      NormalizedStep(item, d, keys, 3 * vi + di);
      d := d[key := Count(item, key)];
    }
  }

  /**
   * `get_day_data`: fetch the UTC window of the local day, pad the report to
   * 24 records when it holds any other number (at the end for today, at the
   * start for other days), and turn every record into an hour stamped one
   * hour after the previous one, carrying all twelve counts. The second
   * result is the number of hours.
   */
  method GetDayData(day: Date, today: Date, cameraId: string, utcOffset: int,
                    fetch: (string, int, int) -> seq<Record>, checkDeltaHours: bool)
    returns (entries: seq<HourEntry>, deltaHours: int)
    requires Valid(day)
    ensures var w := FetchWindow(day, utcOffset);
      entries == DayEntries(fetch(cameraId, w.0, w.1), day == today, checkDeltaHours, w.0)
    ensures deltaHours == |entries|
  {
    var window := FetchWindow(day, utcOffset);
    var report := fetch(cameraId, window.0, window.1);
    deltaHours := |report|;
    if checkDeltaHours && deltaHours != 24 {
      var dif := 24 - deltaHours;
      var fill: seq<Record> := seq(if dif > 0 then dif else 0, _ => map[]);
      if day == today {
        report := report + fill;
      } else {
        report := fill + report;
      }
    }
    assert report == Padded(fetch(cameraId, window.0, window.1), day == today, checkDeltaHours);
    deltaHours := |report|;
    entries := HoursOf(report, window.0);
  }

  /** The record loop of `get_day_data`: each record normalised and stamped one hour after the previous one. */
  method HoursOf(report: seq<Record>, from: int) returns (entries: seq<HourEntry>)
    ensures entries == Hours(report, from)
  {
    entries := [];
    var startDate := from;
    for i := 0 to |report|
      invariant startDate == from + 60 * i && |entries| == i
      invariant forall k :: 0 <= k < i ==> entries[k] == HourEntry(from + 60 * k, Normalize(report[k]))
    {
      var d := NormalizeItem(report[i]);
      entries := entries + [HourEntry(startDate, d)];
      startDate := startDate + 60;
    }
  }
}
