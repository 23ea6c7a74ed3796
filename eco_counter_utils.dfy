/**
 * The traffic-counter helpers of the eco-counter import commands: the table
 * of yearly observation CSV URLs, the order in which `get_traffic_counter_csv`
 * concatenates the years, its renaming of the columns whose measurement-point
 * id the metadata names, and the 15-minute rows of the generated test data.
 *
 * A CSV download is a function from URL to table; times are whole minutes
 * and their `str` is a function from minutes to text.
 */
module EcoCounterUtils {
  import opened Wrappers
  import opened Text

  /** `TRAFFIC_COUNTER_CSV_URLS`: a dict from year to URL, as its (year, URL) items in insertion order. */
  type UrlTable = seq<(int, string)>

  /** The URL of one year's observations. */
  function CsvUrl(base: string, year: int): string {
    base + IntToString(year) + "_laskenta.csv"
  }

  /** The years `range(startYear, endYear + 1)`, in order. */
  function YearRange(startYear: int, endYear: int): (years: seq<int>)
    ensures |years| == if startYear <= endYear then endYear - startYear + 1 else 0
    ensures forall i :: 0 <= i < |years| ==> years[i] == startYear + i
    decreases endYear - startYear
  {
    if startYear > endYear then [] else [startYear] + YearRange(startYear + 1, endYear)
  }

  /** `dict([(k, url(k)) for k in years])`, as its items. */
  function YearTable(years: seq<int>, url: int -> string): (t: UrlTable)
    ensures |t| == |years| && forall i :: 0 <= i < |years| ==> t[i] == (years[i], url(years[i]))
  {
    seq(|years|, i requires 0 <= i < |years| => (years[i], url(years[i])))
  }

  /** `dict([(k, f"{base}{k}_laskenta.csv") for k in keys])`. */
  function CsvUrls(base: string, startYear: int, endYear: int): UrlTable {
    YearTable(YearRange(startYear, endYear), y => CsvUrl(base, y))
  }

  /** `d[k]`: the value of the key, `None` where Python raises `KeyError`. */
  function Lookup(d: UrlTable, k: int): (r: Option<string>)
    ensures r.None? <==> forall i :: 0 <= i < |d| ==> d[i].0 != k
    ensures r.Some? ==> exists i :: 0 <= i < |d| && d[i] == (k, r.value)
  {
    if d == [] then None
    else if d[0].0 == k then Some(d[0].1)
    else
      var r := Lookup(d[1..], k);
      assert r.Some? ==> exists i :: 0 <= i < |d[1..]| && d[1..][i] == (k, r.value);
      r
  }

  /**
   * The URL table has one key per year from the start year through the end
   * year, in ascending order, and maps each to its CSV URL; any other year
   * is missing.
   */
  lemma CsvUrlsFacts(base: string, startYear: int, endYear: int, year: int)
    ensures var urls := CsvUrls(base, startYear, endYear);
      && |urls| == (if startYear <= endYear then endYear - startYear + 1 else 0)
      && (forall i, j :: 0 <= i < j < |urls| ==> urls[i].0 < urls[j].0)
      && (startYear <= year <= endYear ==> Lookup(urls, year) == Some(CsvUrl(base, year)))
      && (year < startYear || endYear < year ==> Lookup(urls, year).None?)
  {
    YearTableFacts(startYear, endYear, year, y => CsvUrl(base, y));
  }

  /** A table over the years from `startYear` through `endYear` has each of them once, in order, and no other. */
  lemma YearTableFacts(startYear: int, endYear: int, year: int, url: int -> string)
    ensures var urls := YearTable(YearRange(startYear, endYear), url);
      && |urls| == (if startYear <= endYear then endYear - startYear + 1 else 0)
      && (forall i, j :: 0 <= i < j < |urls| ==> urls[i].0 < urls[j].0)
      && (startYear <= year <= endYear ==> Lookup(urls, year) == Some(url(year)))
      && (year < startYear || endYear < year ==> Lookup(urls, year).None?)
  {
    var urls := YearTable(YearRange(startYear, endYear), url);
    if startYear <= year <= endYear {
      var k := year - startYear;
      assert urls[k].0 == year;
      LookupUnique(urls, k);
    }
  }

  /** A table read from a dict: no key twice. */
  predicate DistinctKeys(d: UrlTable) {
    forall i, j :: 0 <= i < j < |d| ==> d[i].0 != d[j].0
  }

  /** In a table without repeated keys, the lookup of the `k`th key finds the `k`th value. */
  lemma {:induction false} LookupUnique(d: UrlTable, k: nat)
    requires k < |d| && DistinctKeys(d)
    ensures Lookup(d, d[k].0) == Some(d[k].1)
  {
    if k > 0 {
      assert d[0].0 != d[k].0;
      LookupUnique(d[1..], k - 1);
    }
  }

  /**
   * The items of the table `get_traffic_counter_csv` appends to the start
   * year's data, in the table's order: those whose year is after the start
   * year.
   */
  function LaterItems(urls: UrlTable, startYear: int): (r: UrlTable)
    ensures forall x :: x in r ==> x in urls
  {
    if urls == [] then []
    else
      var last := urls[|urls| - 1];
      var init := LaterItems(urls[..|urls| - 1], startYear);
      if last.0 <= startYear then init else init + [last]
  }

  /** Every item appended is an item of the table whose year is after the start year. */
  lemma {:induction false} LaterItemsAfter(urls: UrlTable, startYear: int)
    ensures var items := LaterItems(urls, startYear);
      |items| <= |urls| && forall i :: 0 <= i < |items| ==> items[i] in urls && items[i].0 > startYear
  {
    if urls != [] {
      LaterItemsAfter(urls[..|urls| - 1], startYear);
      assert forall x :: x in urls[..|urls| - 1] ==> x in urls;
    }
  }

  /**
   * For the configured table and a start year inside its range, the items
   * appended are the table's items for every later year through the end
   * year, each once, in ascending order.
   */
  lemma LaterItemsOfRange(base: string, startYear: int, endYear: int, year: int)
    requires startYear <= year
    ensures LaterItems(CsvUrls(base, startYear, endYear), year) == CsvUrls(base, year + 1, endYear)
  {
    LaterYears(startYear, endYear, year, y => CsvUrl(base, y));
  }

  /** The same for a table over consecutive years with any URLs. */
  lemma LaterYears(startYear: int, endYear: int, year: int, url: int -> string)
    requires startYear <= year
    ensures LaterItems(YearTable(YearRange(startYear, endYear), url), year) == YearTable(YearRange(year + 1, endYear), url)
  {
    var urls, later := YearTable(YearRange(startYear, endYear), url), YearTable(YearRange(year + 1, endYear), url);
    var k := year - startYear + 1;
    LaterItemsSuffix(urls, startYear, year);
    if |urls| > k {
      assert |urls[k..]| == |later|;
      forall i | 0 <= i < |later| ensures urls[k..][i] == later[i] {
        assert urls[k + i] == (startYear + k + i, url(startYear + k + i));
      }
    }
  }

  /**
   * In a table of consecutive years from `startYear`, the items after a year
   * at or after `startYear` are the table's tail past that year.
   */
  lemma {:induction false} LaterItemsSuffix(urls: UrlTable, startYear: int, year: int)
    requires startYear <= year
    requires forall i :: 0 <= i < |urls| ==> urls[i].0 == startYear + i
    ensures LaterItems(urls, year) == if |urls| <= year - startYear + 1 then [] else urls[year - startYear + 1..]
    decreases |urls|
  {
    if urls != [] {
      var init, last := urls[..|urls| - 1], urls[|urls| - 1];
      var k := year - startYear + 1;
      assert forall i :: 0 <= i < |init| ==> init[i] == urls[i];
      LaterItemsSuffix(init, startYear, year);
      if |urls| > k {
        assert LaterItems(urls, year) == LaterItems(init, year) + [last];
        if |init| <= k {
          assert urls[k..] == [last];
        } else {
          assert urls[k..] == init[k..] + [last];
        }
      }
    }
  }

  /** A table of counts: a CSV file read as its header and its rows. */
  datatype Frame = Frame(columns: seq<string>, rows: seq<seq<int>>)

  /** `pd.concat([df, app_df], ignore_index=True)` for tables with the same columns. */
  function Concat(df: Frame, app: Frame): (r: Frame)
    requires app.columns == df.columns
    ensures r.columns == df.columns && |r.rows| == |df.rows| + |app.rows|
    ensures r.rows[..|df.rows|] == df.rows && r.rows[|df.rows|..] == app.rows
  {
    Frame(df.columns, df.rows + app.rows)
  }

  /** Every table fetched from the items' URLs has the header `header`. */
  predicate SameHeader(items: UrlTable, fetch: string -> Frame, header: seq<string>) {
    forall x :: x in items ==> fetch(x.1).columns == header
  }

  /** The tables at the items' URLs appended to `df`, one after another; the header stays `df`'s. */
  function AppendFetched(df: Frame, items: UrlTable, fetch: string -> Frame): (r: Frame)
    requires SameHeader(items, fetch, df.columns)
    ensures r.columns == df.columns
  {
    if items == [] then df
    else
      assert forall x :: x in items[..|items| - 1] ==> x in items;
      Concat(AppendFetched(df, items[..|items| - 1], fetch), fetch(items[|items| - 1].1))
  }

  /** The rows of the tables at the items' URLs, in the items' order. */
  function FetchedRows(items: UrlTable, fetch: string -> Frame): seq<seq<int>> {
    if items == [] then [] else FetchedRows(items[..|items| - 1], fetch) + fetch(items[|items| - 1].1).rows
  }

  /** The start year's rows come first, followed by every later table's rows in the items' order. */
  lemma {:induction false} AppendFetchedRows(df: Frame, items: UrlTable, fetch: string -> Frame)
    requires SameHeader(items, fetch, df.columns)
    ensures AppendFetched(df, items, fetch).rows == df.rows + FetchedRows(items, fetch)
  {
    if items != [] {
      var init, last := items[..|items| - 1], items[|items| - 1];
      assert forall x :: x in init ==> x in items;
      AppendFetchedRows(df, init, fetch);
      var rest := fetch(last.1).rows;
      assert AppendFetched(df, items, fetch).rows == AppendFetched(df, init, fetch).rows + rest;
      assert (df.rows + FetchedRows(init, fetch)) + rest == df.rows + (FetchedRows(init, fetch) + rest);
    }
  }

  /** One more item of the table: appended when its year is after the start year. */
  lemma LaterItemsSnoc(urls: UrlTable, i: nat, startYear: int)
    requires i < |urls|
    ensures LaterItems(urls[..i + 1], startYear)
      == LaterItems(urls[..i], startYear) + (if urls[i].0 <= startYear then [] else [urls[i]])
  {
    assert urls[..i + 1][..i] == urls[..i];
  }

  /** One more turn of the key loop. */
  lemma AppendFetchedSnoc(df: Frame, urls: UrlTable, i: nat, startYear: int, fetch: string -> Frame)
    requires i < |urls| && SameHeader(urls, fetch, df.columns)
    ensures AppendFetched(df, LaterItems(urls[..i + 1], startYear), fetch)
      == if urls[i].0 <= startYear then AppendFetched(df, LaterItems(urls[..i], startYear), fetch)
         else Concat(AppendFetched(df, LaterItems(urls[..i], startYear), fetch), fetch(urls[i].1))
  {
    LaterItemsSnoc(urls, i, startYear);
    var items := LaterItems(urls[..i], startYear);
    if urls[i].0 > startYear {
      var items' := items + [urls[i]];
      assert items'[..|items'| - 1] == items && items'[|items'| - 1] == urls[i];
      assert AppendFetched(df, items', fetch) == Concat(AppendFetched(df, items, fetch), fetch(urls[i].1));
    } else {
      assert items + [] == items;
    }
  }

  /**
   * The first half of `get_traffic_counter_csv(start_year)`: the start
   * year's table, then the loop over the table's keys appending every later
   * year; a start year missing from the table raises `KeyError`. Every
   * yearly table has the header `header`.
   */
  method ConcatenateYears(urls: UrlTable, startYear: int, fetch: string -> Frame, ghost header: seq<string>)
    returns (r: Result<Frame>)
    requires DistinctKeys(urls) && SameHeader(urls, fetch, header)
    ensures r.Err? <==> Lookup(urls, startYear).None?
    ensures r.Ok? ==> r.value == AppendFetched(fetch(Lookup(urls, startYear).value), LaterItems(urls, startYear), fetch)
  {
    var first := Lookup(urls, startYear);
    if first.None? {
      return Err("KeyError: " + IntToString(startYear));
    }
    var df := fetch(first.value);
    ghost var start := df;
    for i := 0 to |urls|
      invariant df == AppendFetched(start, LaterItems(urls[..i], startYear), fetch)
    {
      AppendFetchedSnoc(start, urls, i, startYear, fetch);
      var key := urls[i].0;
      if key <= startYear {
        continue;
      }
      LookupUnique(urls, i);
      var app := fetch(Lookup(urls, key).value);
      df := Concat(df, app);
    }
    assert urls[..|urls|] == urls;
    return Ok(df);
  }

  /** A feature of the metadata layer: `Mittauspisteiden_ID`, `Suunta`, `Tyyppi` and `Osoite_fi`. */
  datatype Meta = Meta(id: int, direction: string, measurementType: string, name: string)

  /** What `rf".*\({id}\)"` looks for in a column name: the id in parentheses. */
  function IdTag(id: int): (tag: string)
    ensures |tag| > 0
  {
    "(" + IntToString(id) + ")"
  }

  /**
   * The columns `df.filter(regex=rf".*\({id}\)")` keeps, in their order:
   * those whose name holds `tag`, the id in parentheses.
   */
  function MatchingColumns(columns: seq<string>, tag: string): (r: seq<string>)
    ensures |r| <= |columns|
    ensures forall i :: 0 <= i < |r| ==> Contains(r[i], tag)
  {
    if columns == [] then []
    else
      var last := columns[|columns| - 1];
      MatchingColumns(columns[..|columns| - 1], tag) + if Contains(last, tag) then [last] else []
  }

  /** No column is kept exactly when no column holds the tag. */
  lemma {:induction false} MatchingNone(columns: seq<string>, tag: string)
    ensures MatchingColumns(columns, tag) == [] <==> forall k :: 0 <= k < |columns| ==> !Contains(columns[k], tag)
  {
    if columns != [] {
      var init := columns[..|columns| - 1];
      MatchingNone(init, tag);
      assert forall k :: 0 <= k < |init| ==> init[k] == columns[k];
    }
  }

  /** One column is kept exactly when one column, and no other, holds the tag. */
  lemma {:induction false} MatchingSingle(columns: seq<string>, tag: string)
    requires |MatchingColumns(columns, tag)| == 1
    ensures exists j :: (0 <= j < |columns| && columns[j] == MatchingColumns(columns, tag)[0]
      && Contains(columns[j], tag) && forall k :: 0 <= k < |columns| && k != j ==> !Contains(columns[k], tag))
  {
    var n := |columns| - 1;
    var init := columns[..n];
    assert forall k :: 0 <= k < n ==> init[k] == columns[k];
    if Contains(columns[n], tag) {
      MatchingNone(init, tag);
      assert MatchingColumns(columns, tag)[0] == columns[n];
    } else {
      MatchingSingle(init, tag);
      var j :| 0 <= j < |init| && init[j] == MatchingColumns(init, tag)[0]
        && Contains(init[j], tag) && forall k :: 0 <= k < |init| && k != j ==> !Contains(init[k], tag);
      assert columns[j] == MatchingColumns(columns, tag)[0];
    }
  }

  /** Column `j` is the one column holding the tag. */
  predicate UniqueMatch(columns: seq<string>, tag: string, j: int) {
    0 <= j < |columns| && Contains(columns[j], tag)
    && forall k :: 0 <= k < |columns| && k != j ==> !Contains(columns[k], tag)
  }

  /** The one column holding the tag is the one column kept. */
  lemma {:induction false} UniqueMatchKept(columns: seq<string>, tag: string, j: int)
    requires UniqueMatch(columns, tag, j)
    ensures MatchingColumns(columns, tag) == [columns[j]]
  {
    var n := |columns| - 1;
    var init := columns[..n];
    assert forall k :: 0 <= k < n ==> init[k] == columns[k];
    if j == n {
      MatchingNone(init, tag);
    } else {
      UniqueMatchKept(init, tag, j);
    }
  }

  /** The new name of a column: the metadata's name, its measurement type and the direction "K". */
  function NewName(m: Meta): string {
    m.name + " " + m.measurementType + "K"
  }

  /** `df.columns.str.replace(col_name, new_name, regex=False)`. */
  function ReplaceInColumns(columns: seq<string>, pat: string, rep: string): (r: seq<string>)
    requires |pat| > 0
    ensures |r| == |columns|
  {
    seq(|columns|, i requires 0 <= i < |columns| => ReplaceAll(columns[i], pat, rep))
  }

  /** The columns and the count of ids not found, as the metadata loop leaves them. */
  datatype Renaming = Renaming(columns: seq<string>, idsNotFound: nat)

  /** One turn of the metadata loop. */
  function RenameStep(r: Renaming, m: Meta): Renaming {
    var matching := MatchingColumns(r.columns, IdTag(m.id));
    if |matching| > 1 then r
    else if |matching| == 0 then r.(idsNotFound := r.idsNotFound + 1)
    else
      assert Contains(matching[0], IdTag(m.id));
      Renaming(ReplaceInColumns(r.columns, matching[0], NewName(m)), r.idsNotFound)
  }

  /** The metadata loop over the first `|metas|` features. */
  function RenameAll(columns: seq<string>, metas: seq<Meta>): Renaming {
    if metas == [] then Renaming(columns, 0)
    else RenameStep(RenameAll(columns, metas[..|metas| - 1]), metas[|metas| - 1])
  }

  /**
   * One feature of the metadata: a column is renamed only when it is the one
   * column holding the feature's id, and then only that column changes, to
   * the feature's name and type with direction "K" whatever the feature's
   * direction; an id no column holds counts as not found; an id several
   * columns hold changes nothing.
   */
  lemma RenameStepEffect(r: Renaming, m: Meta)
    ensures var next := RenameStep(r, m);
      && |next.columns| == |r.columns|
      && ((forall k :: 0 <= k < |r.columns| ==> !Contains(r.columns[k], IdTag(m.id))) ==>
            next == Renaming(r.columns, r.idsNotFound + 1))
      && (forall j :: UniqueMatch(r.columns, IdTag(m.id), j) ==>
            next == Renaming(r.columns[j := NewName(m)], r.idsNotFound))
      && (|MatchingColumns(r.columns, IdTag(m.id))| > 1 ==> next == r)
  {
    var matching := MatchingColumns(r.columns, IdTag(m.id));
    MatchingNone(r.columns, IdTag(m.id));
    if |matching| == 1 {
      MatchingSingle(r.columns, IdTag(m.id));
      var j :| 0 <= j < |r.columns| && r.columns[j] == matching[0]
        && Contains(r.columns[j], IdTag(m.id)) && forall k :: 0 <= k < |r.columns| && k != j ==> !Contains(r.columns[k], IdTag(m.id));
      var col := r.columns[j];
      ReplaceAllWhole(col, NewName(m));
      forall k | 0 <= k < |r.columns| && k != j
        ensures ReplaceAll(r.columns[k], col, NewName(m)) == r.columns[k]
      {
        if Contains(r.columns[k], col) {
          ContainsTrans(r.columns[k], col, IdTag(m.id));
        }
        ReplaceAllAbsent(r.columns[k], col, NewName(m));
      }
      assert RenameStep(r, m).columns == r.columns[j := NewName(m)];
      forall j' | 0 <= j' < |r.columns| && Contains(r.columns[j'], IdTag(m.id))
        ensures j' == j
      {
      }
    } else {
      forall j | UniqueMatch(r.columns, IdTag(m.id), j)
        ensures false
      {
        UniqueMatchKept(r.columns, IdTag(m.id), j);
      }
    }
  }

  /** The loop keeps the number of columns and counts each feature at most once. */
  lemma {:induction false} RenameAllBounds(columns: seq<string>, metas: seq<Meta>)
    ensures |RenameAll(columns, metas).columns| == |columns|
    ensures RenameAll(columns, metas).idsNotFound <= |metas|
  {
    if metas != [] {
      RenameAllBounds(columns, metas[..|metas| - 1]);
      RenameStepEffect(RenameAll(columns, metas[..|metas| - 1]), metas[|metas| - 1]);
    }
  }

  /**
   * The metadata loop of `get_traffic_counter_csv`: for each feature, the
   * columns holding its id; the one such column renamed, or the feature
   * skipped when there are several and counted when there are none.
   */
  method RenameColumns(columns: seq<string>, metas: seq<Meta>) returns (cols: seq<string>, idsNotFound: nat)
    ensures Renaming(cols, idsNotFound) == RenameAll(columns, metas)
  {
    cols, idsNotFound := columns, 0;
    for i := 0 to |metas|
      invariant Renaming(cols, idsNotFound) == RenameAll(columns, metas[..i])
    {
      assert metas[..i + 1][..i] == metas[..i];
      var m := metas[i];
      var direction := "K";
      var column := MatchingColumns(cols, IdTag(m.id));
      if |column| > 1 {
        continue;
      }
      if |column| == 0 {
        idsNotFound := idsNotFound + 1;
        continue;
      }
      var colName := column[0];
      var newName := m.name + " " + m.measurementType + direction;
      cols := ReplaceInColumns(cols, colName, newName);
    }
    assert metas[..|metas|] == metas;
  }

  /**
   * `get_traffic_counter_csv(start_year)` up to the renaming: the start
   * year's table with the later years appended, its columns renamed from the
   * metadata, and the count of ids not found.
   */
  method GetTrafficCounterCsv(urls: UrlTable, startYear: int, fetch: string -> Frame, metas: seq<Meta>,
                              ghost header: seq<string>)
    returns (r: Result<(Frame, nat)>)
    requires DistinctKeys(urls) && SameHeader(urls, fetch, header)
    ensures r.Err? <==> Lookup(urls, startYear).None?
    ensures r.Ok? ==>
      var df := AppendFetched(fetch(Lookup(urls, startYear).value), LaterItems(urls, startYear), fetch);
      var renamed := RenameAll(df.columns, metas);
      r.value == (Frame(renamed.columns, df.rows), renamed.idsNotFound)
  {
    var df := ConcatenateYears(urls, startYear, fetch, header);
    if df.Err? {
      return Err(df.error);
    }
    var cols, idsNotFound := RenameColumns(df.value.columns, metas);
    return Ok((df.value.(columns := cols), idsNotFound));
  }

  /** A row of generated test data: the time as text, then a count per station. */
  datatype TestRow = TestRow(time: string, values: seq<int>)

  /** `[1 for x in range(n)]`. */
  function Ones(n: int): (r: seq<int>)
    ensures |r| == if n > 0 then n else 0
    ensures forall i :: 0 <= i < |r| ==> r[i] == 1
  {
    if n <= 0 then [] else Ones(n - 1) + [1]
  }

  /** The number of quarter hours from `startTime` through `endTime`, both included. */
  function RowCount(startTime: int, endTime: int): nat {
    if startTime <= endTime then (endTime - startTime) / 15 + 1 else 0
  }

  /**
   * `gen_eco_counter_test_csv(keys, start_time, end_time)`: one row every 15
   * minutes from the start time while the time is not after the end time,
   * each the time followed by a 1 for every key but the first; pandas
   * refuses a row for a frame without columns.
   */
  method GenEcoCounterTestCsv(keys: seq<string>, startTime: int, endTime: int, show: int -> string)
    returns (r: Result<seq<TestRow>>)
    ensures r.Err? <==> keys == [] && startTime <= endTime
    ensures r.Ok? ==> |r.value| == RowCount(startTime, endTime)
    ensures r.Ok? ==> forall c :: 0 <= c < |r.value| ==>
      startTime + 15 * c <= endTime && r.value[c] == TestRow(show(startTime + 15 * c), Ones(|keys| - 1))
    ensures r.Ok? ==> endTime < startTime + 15 * |r.value|
  {
    var rows: seq<TestRow> := [];
    var curTime := startTime;
    var c := 0;
    while curTime <= endTime
      invariant c == |rows| && curTime == startTime + 15 * c
      invariant c > 0 ==> startTime + 15 * (c - 1) <= endTime
      invariant keys == [] ==> c == 0
      invariant forall k :: 0 <= k < c ==>
        startTime + 15 * k <= endTime && rows[k] == TestRow(show(startTime + 15 * k), Ones(|keys| - 1))
      decreases endTime - curTime
    {
      if keys == [] {
        return Err("ValueError: cannot set a frame with no defined columns");
      }
      var vals := Ones(|keys| - 1);
      rows := rows + [TestRow(show(curTime), vals)];
      curTime := curTime + 15;
      c := c + 1;
    }
    return Ok(rows);
  }
}
