/**
 * The resumable Telraam import of `save_dataframe` and the `--from-date`
 * handling of the management command. The CSV directory, its files (one per
 * camera and day) and the persisted import cursor are the fields of an
 * `Importer`; the clock, the time-zone offset, the camera list, the camera
 * direction table and the report fetcher are parameters.
 */
module TelraamImport {
  import opened Wrappers
  import opened Calendar
  import opened Telraam

  /** A camera as `get_telraam_cameras` lists it. */
  datatype Camera = Camera(mac: string, instanceId: string)

  /** The file of a camera and day: the file name holds the mac and the date. */
  type FileKey = (string, Date)

  /** Every key of the mapping is one of the twelve report keys each hour carries. */
  lemma MappingKeysAreFieldKeys(station: string, direction: bool)
    ensures forall j :: 0 <= j < 12 ==> Mappings(station, direction)[j].0 in FieldKeys()
  {
    MappingsKeys(station, direction);
    forall j | 0 <= j < 12 ensures Mappings(station, direction)[j].0 in FieldKeys() {
      assert KeyName(FieldAt(j)) in FieldKeys();
    }
  }

  /** The table of one camera and day: the padded hours of its fetched report, projected onto its columns. */
  function DayTable(camera: Camera, direction: bool, day: Date, today: Date, utcOffset: int,
                    fetch: (string, int, int) -> seq<Record>): Csv
    requires Valid(day)
  {
    var w := FetchWindow(day, utcOffset);
    Table(DayEntries(fetch(camera.instanceId, w.0, w.1), day == today, true, w.0), Mappings(camera.mac, direction), utcOffset)
  }

  /**
   * The file policy: today's file is removed and written again; any other
   * day's file is written when it does not exist yet or when overwriting
   * was asked for.
   */
  function WriteDay(files: map<FileKey, Csv>, key: FileKey, csv: Csv, isToday: bool, overwrite: bool): (r: map<FileKey, Csv>)
    ensures r.Keys == files.Keys + {key}
    ensures forall k :: k in files && k != key ==> r[k] == files[k]
    ensures isToday || overwrite || key !in files ==> r[key] == csv
    ensures !isToday && !overwrite && key in files ==> r[key] == files[key]
  {
    if isToday || key !in files || overwrite then files[key := csv] else files
  }

  /** Removing today's file and then writing the file unless it exists and overwriting was not asked for is the file policy. */
  lemma RemoveThenWrite(files: map<FileKey, Csv>, key: FileKey, csv: Csv, isToday: bool, overwrite: bool)
    ensures var removed := if isToday && key in files then files - {key} else files;
      (if key !in removed || overwrite then removed[key := csv] else removed) == WriteDay(files, key, csv, isToday, overwrite)
  {
    var removed := if isToday && key in files then files - {key} else files;
    if isToday && key in files {
      assert removed[key := csv] == files[key := csv];
    }
  }

  /** The files after one camera's days from `day` through `today`. */
  function CameraDays(files: map<FileKey, Csv>, camera: Camera, direction: bool, day: Date, today: Date,
                      utcOffset: int, fetch: (string, int, int) -> seq<Record>, overwrite: bool): map<FileKey, Csv>
    requires Valid(day) && Valid(today) && today.year < 9999
    decreases today.year - day.year, 12 - day.month, 31 - day.day
  {
    if Before(today, day) then files
    else
      var csv := DayTable(camera, direction, day, today, utcOffset, fetch);
      CameraDays(WriteDay(files, (camera.mac, day), csv, day == today, overwrite), camera, direction,
                 NextDay(day), today, utcOffset, fetch, overwrite)
  }

  /** Date `d` lies in the walk from `from` through `today`. */
  predicate InWalk(d: Date, from: Date, today: Date) {
    Valid(d) && NotAfter(from, d) && NotAfter(d, today)
  }

  /** Every day of the walk is the walk's first day or a day of the walk from the next day. */
  lemma WalkSplit(day: Date, today: Date)
    requires Valid(day) && Valid(today) && today.year < 9999 && !Before(today, day)
    ensures forall d | Valid(d) :: InWalk(d, day, today) <==> d == day || InWalk(d, NextDay(day), today)
  {
    forall d | Valid(d) ensures InWalk(d, day, today) <==> d == day || InWalk(d, NextDay(day), today) {
      NothingBetween(day, d);
    }
  }

  /** One camera's walk adds a file for every day of the walk and no other file. */
  lemma {:induction false} CameraDaysKeys(files: map<FileKey, Csv>, camera: Camera, direction: bool, day: Date, today: Date,
                                          utcOffset: int, fetch: (string, int, int) -> seq<Record>, overwrite: bool)
    requires Valid(day) && Valid(today) && today.year < 9999
    ensures var r := CameraDays(files, camera, direction, day, today, utcOffset, fetch, overwrite);
      forall k :: k in r <==> k in files || (k.0 == camera.mac && InWalk(k.1, day, today))
    decreases today.year - day.year, 12 - day.month, 31 - day.day
  {
    if !Before(today, day) {
      var files' := WriteDay(files, (camera.mac, day), DayTable(camera, direction, day, today, utcOffset, fetch), day == today, overwrite);
      CameraDaysKeys(files', camera, direction, NextDay(day), today, utcOffset, fetch, overwrite);
      WalkSplit(day, today);
    }
  }

  /** One camera's walk leaves every file of another camera or of a day outside the walk as it was. */
  lemma {:induction false} CameraDaysKept(files: map<FileKey, Csv>, camera: Camera, direction: bool, day: Date, today: Date,
                                          utcOffset: int, fetch: (string, int, int) -> seq<Record>, overwrite: bool)
    requires Valid(day) && Valid(today) && today.year < 9999
    ensures var r := CameraDays(files, camera, direction, day, today, utcOffset, fetch, overwrite);
      forall k :: k in files && !(k.0 == camera.mac && InWalk(k.1, day, today)) ==> k in r && r[k] == files[k]
    decreases today.year - day.year, 12 - day.month, 31 - day.day
  {
    if !Before(today, day) {
      var files' := WriteDay(files, (camera.mac, day), DayTable(camera, direction, day, today, utcOffset, fetch), day == today, overwrite);
      CameraDaysKept(files', camera, direction, NextDay(day), today, utcOffset, fetch, overwrite);
      WalkSplit(day, today);
    }
  }

  /**
   * One camera's walk writes the days' tables: today's file holds today's
   * table, any other day's file holds its table when it was new or
   * overwriting was asked for and its earlier contents otherwise.
   */
  lemma {:induction false} CameraDaysTables(files: map<FileKey, Csv>, camera: Camera, direction: bool, day: Date, today: Date,
                                            utcOffset: int, fetch: (string, int, int) -> seq<Record>, overwrite: bool)
    requires Valid(day) && Valid(today) && today.year < 9999
    ensures var r := CameraDays(files, camera, direction, day, today, utcOffset, fetch, overwrite);
      forall d | InWalk(d, day, today) :: (camera.mac, d) in r
        && (d == today || overwrite || (camera.mac, d) !in files ==> r[(camera.mac, d)] == DayTable(camera, direction, d, today, utcOffset, fetch))
        && (d != today && !overwrite && (camera.mac, d) in files ==> r[(camera.mac, d)] == files[(camera.mac, d)])
    decreases today.year - day.year, 12 - day.month, 31 - day.day
  {
    if !Before(today, day) {
      var next := NextDay(day);
      var files' := WriteDay(files, (camera.mac, day), DayTable(camera, direction, day, today, utcOffset, fetch), day == today, overwrite);
      CameraDaysTables(files', camera, direction, next, today, utcOffset, fetch, overwrite);
      CameraDaysKept(files', camera, direction, next, today, utcOffset, fetch, overwrite);
      WalkSplit(day, today);
      assert !InWalk(day, next, today);
    }
  }

  /**
   * One camera's turn: nothing to do when `from` is after `today`; a camera
   * missing from the direction table fails on its first day (the flag is
   * false); otherwise its walk.
   */
  function CameraTurn(files: map<FileKey, Csv>, camera: Camera, directions: map<string, bool>, from: Date,
                      today: Date, utcOffset: int, fetch: (string, int, int) -> seq<Record>, overwrite: bool)
    : (map<FileKey, Csv>, bool)
    requires Valid(from) && Valid(today) && today.year < 9999
  {
    if Before(today, from) then (files, true)
    else if camera.mac !in directions then (files, false)
    else (CameraDays(files, camera, directions[camera.mac], from, today, utcOffset, fetch, overwrite), true)
  }

  /**
   * The files after the cameras' turns, in order, and whether every turn
   * completed; a failed turn ends the import with the files written so far.
   */
  function AllCameras(files: map<FileKey, Csv>, cameras: seq<Camera>, directions: map<string, bool>, from: Date,
                      today: Date, utcOffset: int, fetch: (string, int, int) -> seq<Record>, overwrite: bool)
    : (map<FileKey, Csv>, bool)
    requires Valid(from) && Valid(today) && today.year < 9999
  {
    if cameras == [] then (files, true)
    else
      var before := AllCameras(files, cameras[..|cameras| - 1], directions, from, today, utcOffset, fetch, overwrite);
      if !before.1 then before
      else CameraTurn(before.0, cameras[|cameras| - 1], directions, from, today, utcOffset, fetch, overwrite)
  }

  /** The import walks every camera exactly when there is nothing to walk or every camera has a direction. */
  lemma {:induction false} AllCamerasOk(files: map<FileKey, Csv>, cameras: seq<Camera>, directions: map<string, bool>, from: Date,
                                        today: Date, utcOffset: int, fetch: (string, int, int) -> seq<Record>, overwrite: bool)
    requires Valid(from) && Valid(today) && today.year < 9999
    ensures AllCameras(files, cameras, directions, from, today, utcOffset, fetch, overwrite).1
      <==> Before(today, from) || forall i :: 0 <= i < |cameras| ==> cameras[i].mac in directions
  {
    if cameras != [] {
      var init, last := cameras[..|cameras| - 1], cameras[|cameras| - 1];
      AllCamerasOk(files, init, directions, from, today, utcOffset, fetch, overwrite);
      var before := AllCameras(files, init, directions, from, today, utcOffset, fetch, overwrite);
      assert AllCameras(files, cameras, directions, from, today, utcOffset, fetch, overwrite)
        == if !before.1 then before else CameraTurn(before.0, last, directions, from, today, utcOffset, fetch, overwrite);
      CameraTurnOk(before.0, last, directions, from, today, utcOffset, fetch, overwrite);
      assert (forall i :: 0 <= i < |cameras| ==> cameras[i].mac in directions)
        <==> (forall i :: 0 <= i < |init| ==> init[i].mac in directions) && last.mac in directions by {
        assert forall i :: 0 <= i < |init| ==> init[i] == cameras[i];
      }
    }
  }

  /** A camera's turn completes exactly when there is nothing to walk or the camera has a direction. */
  lemma CameraTurnOk(files: map<FileKey, Csv>, camera: Camera, directions: map<string, bool>, from: Date,
                     today: Date, utcOffset: int, fetch: (string, int, int) -> seq<Record>, overwrite: bool)
    requires Valid(from) && Valid(today) && today.year < 9999
    ensures CameraTurn(files, camera, directions, from, today, utcOffset, fetch, overwrite).1
      <==> Before(today, from) || camera.mac in directions
  {
  }

  /** The macs of the cameras, in order. */
  function Macs(cameras: seq<Camera>): (ms: seq<string>)
    ensures |ms| == |cameras| && forall i :: 0 <= i < |cameras| ==> ms[i] == cameras[i].mac
  {
    seq(|cameras|, i requires 0 <= i < |cameras| => cameras[i].mac)
  }

  predicate DistinctMacs(cameras: seq<Camera>) {
    forall i, j :: 0 <= i < j < |cameras| ==> cameras[i].mac != cameras[j].mac
  }

  /** A walk over cameras adds a file for every camera and every day from `from` through `today`, and no other file. */
  ghost predicate WalkedKeys(files: map<FileKey, Csv>, r: map<FileKey, Csv>, cameras: seq<Camera>, from: Date, today: Date) {
    forall k :: k in r <==> k in files || (k.0 in Macs(cameras) && InWalk(k.1, from, today))
  }

  /** A walk over cameras leaves every file of another camera or of a day outside the walk as it was. */
  ghost predicate WalkedKept(files: map<FileKey, Csv>, r: map<FileKey, Csv>, cameras: seq<Camera>, from: Date, today: Date) {
    forall k :: k in files && !(k.0 in Macs(cameras) && InWalk(k.1, from, today)) ==> k in r && r[k] == files[k]
  }

  /**
   * A walk over cameras writes each camera's today file with that camera's
   * table, and other days' files too when they are new or overwriting was
   * asked for; existing files of other days keep their contents.
   */
  ghost predicate WalkedTables(files: map<FileKey, Csv>, r: map<FileKey, Csv>, cameras: seq<Camera>, directions: map<string, bool>,
                   from: Date, today: Date, utcOffset: int, fetch: (string, int, int) -> seq<Record>, overwrite: bool)
    requires forall i :: 0 <= i < |cameras| ==> cameras[i].mac in directions
  {
    forall i, d | 0 <= i < |cameras| && InWalk(d, from, today) :: (cameras[i].mac, d) in r
      && (d == today || overwrite || (cameras[i].mac, d) !in files ==>
            r[(cameras[i].mac, d)] == DayTable(cameras[i], directions[cameras[i].mac], d, today, utcOffset, fetch))
      && (d != today && !overwrite && (cameras[i].mac, d) in files ==> r[(cameras[i].mac, d)] == files[(cameras[i].mac, d)])
  }

  /** What a completed walk over cameras leaves behind, from `files` to `r`. */
  ghost predicate Walked(files: map<FileKey, Csv>, r: map<FileKey, Csv>, cameras: seq<Camera>, directions: map<string, bool>,
                   from: Date, today: Date, utcOffset: int, fetch: (string, int, int) -> seq<Record>, overwrite: bool)
    requires forall i :: 0 <= i < |cameras| ==> cameras[i].mac in directions
  {
    WalkedKeys(files, r, cameras, from, today) && WalkedKept(files, r, cameras, from, today)
    && WalkedTables(files, r, cameras, directions, from, today, utcOffset, fetch, overwrite)
  }

  /** One camera's walk is a walk over that camera alone. */
  lemma CameraDaysWalked(files: map<FileKey, Csv>, camera: Camera, directions: map<string, bool>, from: Date,
                         today: Date, utcOffset: int, fetch: (string, int, int) -> seq<Record>, overwrite: bool)
    requires Valid(from) && Valid(today) && today.year < 9999 && camera.mac in directions
    ensures Walked(files, CameraDays(files, camera, directions[camera.mac], from, today, utcOffset, fetch, overwrite),
                   [camera], directions, from, today, utcOffset, fetch, overwrite)
  {
    CameraDaysKeys(files, camera, directions[camera.mac], from, today, utcOffset, fetch, overwrite);
    CameraDaysKept(files, camera, directions[camera.mac], from, today, utcOffset, fetch, overwrite);
    CameraDaysTables(files, camera, directions[camera.mac], from, today, utcOffset, fetch, overwrite);
    assert Macs([camera]) == [camera.mac];
  }

  /** The macs of some cameras and one more. */
  lemma MacsSnoc(init: seq<Camera>, last: Camera)
    ensures forall m :: m in Macs(init + [last]) <==> m in Macs(init) || m == last.mac
    ensures Macs([last]) == [last.mac]
  {
    assert Macs(init + [last]) == Macs(init) + [last.mac];
  }

  /** A walk over some cameras followed by a walk over one more camera with a new mac is a walk over all of them. */
  lemma WalkedCompose(files: map<FileKey, Csv>, mid: map<FileKey, Csv>, r: map<FileKey, Csv>, init: seq<Camera>, last: Camera,
                      directions: map<string, bool>, from: Date, today: Date, utcOffset: int,
                      fetch: (string, int, int) -> seq<Record>, overwrite: bool)
    requires forall i :: 0 <= i < |init| ==> init[i].mac in directions
    requires last.mac in directions && last.mac !in Macs(init)
    requires Walked(files, mid, init, directions, from, today, utcOffset, fetch, overwrite)
    requires Walked(mid, r, [last], directions, from, today, utcOffset, fetch, overwrite)
    ensures Walked(files, r, init + [last], directions, from, today, utcOffset, fetch, overwrite)
  {
    MacsSnoc(init, last);
    WalkedComposeTables(files, mid, r, init, last, directions, from, today, utcOffset, fetch, overwrite);
  }

  /** The tables part of `WalkedCompose`. */
  lemma WalkedComposeTables(files: map<FileKey, Csv>, mid: map<FileKey, Csv>, r: map<FileKey, Csv>, init: seq<Camera>, last: Camera,
                            directions: map<string, bool>, from: Date, today: Date, utcOffset: int,
                            fetch: (string, int, int) -> seq<Record>, overwrite: bool)
    requires forall i :: 0 <= i < |init| ==> init[i].mac in directions
    requires last.mac in directions && last.mac !in Macs(init)
    requires WalkedTables(files, mid, init, directions, from, today, utcOffset, fetch, overwrite)
    requires WalkedKeys(files, mid, init, from, today) && WalkedKept(files, mid, init, from, today)
    requires WalkedKept(mid, r, [last], from, today)
    requires WalkedTables(mid, r, [last], directions, from, today, utcOffset, fetch, overwrite)
    ensures WalkedTables(files, r, init + [last], directions, from, today, utcOffset, fetch, overwrite)
  {
    var cameras := init + [last];
    MacsSnoc(init, last);
    forall i, d | 0 <= i < |cameras| && InWalk(d, from, today)
      ensures var key := (cameras[i].mac, d);
        key in r
        && (d == today || overwrite || key !in files ==> r[key] == DayTable(cameras[i], directions[cameras[i].mac], d, today, utcOffset, fetch))
        && (d != today && !overwrite && key in files ==> r[key] == files[key])
    {
      if i < |init| {
        assert cameras[i] == init[i];
        assert init[i].mac in Macs(init);
        assert init[i].mac !in Macs([last]);
        var key := (init[i].mac, d);
        assert key in mid && r[key] == mid[key];
      } else {
        assert cameras[i] == last;
        assert [last][0] == last;
        var key := (last.mac, d);
        assert key in mid <==> key in files;
        assert key in files ==> mid[key] == files[key];
      }
    }
  }

  /** Once `from` is after `today`, no camera writes a file. */
  lemma {:induction false} AllCamerasIdle(files: map<FileKey, Csv>, cameras: seq<Camera>, directions: map<string, bool>, from: Date,
                                          today: Date, utcOffset: int, fetch: (string, int, int) -> seq<Record>, overwrite: bool)
    requires Valid(from) && Valid(today) && today.year < 9999 && Before(today, from)
    ensures AllCameras(files, cameras, directions, from, today, utcOffset, fetch, overwrite) == (files, true)
  {
    if cameras != [] {
      AllCamerasIdle(files, cameras[..|cameras| - 1], directions, from, today, utcOffset, fetch, overwrite);
    }
  }

  /** With nothing to walk, leaving the files as they are is a walk. */
  lemma WalkedIdle(files: map<FileKey, Csv>, cameras: seq<Camera>, directions: map<string, bool>, from: Date,
                   today: Date, utcOffset: int, fetch: (string, int, int) -> seq<Record>, overwrite: bool)
    requires Before(today, from) && forall i :: 0 <= i < |cameras| ==> cameras[i].mac in directions
    ensures Walked(files, files, cameras, directions, from, today, utcOffset, fetch, overwrite)
  {
  }

  /** Cameras with distinct macs, all with a direction: so are all but the last, whose mac is not theirs. */
  lemma DropLastCamera(cameras: seq<Camera>, directions: map<string, bool>)
    requires cameras != [] && DistinctMacs(cameras) && forall i :: 0 <= i < |cameras| ==> cameras[i].mac in directions
    ensures var init := cameras[..|cameras| - 1];
      DistinctMacs(init) && (forall i :: 0 <= i < |init| ==> init[i].mac in directions)
      && cameras[|cameras| - 1].mac !in Macs(init) && cameras[|cameras| - 1].mac in directions
  {
    var init := cameras[..|cameras| - 1];
    assert forall i :: 0 <= i < |init| ==> init[i] == cameras[i];
  }

  /** With every camera's direction known, every turn completes. */
  lemma AllCamerasComplete(files: map<FileKey, Csv>, cameras: seq<Camera>, directions: map<string, bool>, from: Date,
                           today: Date, utcOffset: int, fetch: (string, int, int) -> seq<Record>, overwrite: bool)
    requires Valid(from) && Valid(today) && today.year < 9999
    requires forall i :: 0 <= i < |cameras| ==> cameras[i].mac in directions
    ensures AllCameras(files, cameras, directions, from, today, utcOffset, fetch, overwrite).1
  {
    AllCamerasOk(files, cameras, directions, from, today, utcOffset, fetch, overwrite);
  }

  /** The import's walk over cameras with distinct macs, all with a direction, is a walk over all of them. */
  lemma {:induction false} AllCamerasFiles(files: map<FileKey, Csv>, cameras: seq<Camera>, directions: map<string, bool>, from: Date,
                                           today: Date, utcOffset: int, fetch: (string, int, int) -> seq<Record>, overwrite: bool)
    requires Valid(from) && Valid(today) && today.year < 9999 && DistinctMacs(cameras)
    requires forall i :: 0 <= i < |cameras| ==> cameras[i].mac in directions
    ensures Walked(files, AllCameras(files, cameras, directions, from, today, utcOffset, fetch, overwrite).0,
                   cameras, directions, from, today, utcOffset, fetch, overwrite)
  {
    if Before(today, from) {
      AllCamerasIdle(files, cameras, directions, from, today, utcOffset, fetch, overwrite);
      WalkedIdle(files, cameras, directions, from, today, utcOffset, fetch, overwrite);
    } else if cameras != [] {
      var init, last := cameras[..|cameras| - 1], cameras[|cameras| - 1];
      assert init + [last] == cameras;
      DropLastCamera(cameras, directions);
      var step := AllCameras(files, init, directions, from, today, utcOffset, fetch, overwrite);
      AllCamerasComplete(files, init, directions, from, today, utcOffset, fetch, overwrite);
      AllCamerasFiles(files, init, directions, from, today, utcOffset, fetch, overwrite);
      CameraDaysWalked(step.0, last, directions, from, today, utcOffset, fetch, overwrite);
      WalkedCompose(files, step.0, CameraDays(step.0, last, directions[last.mac], from, today, utcOffset, fetch, overwrite),
                    init, last, directions, from, today, utcOffset, fetch, overwrite);
    }
  }

  /** The persisted part of the import: the CSV directory, its files and the import cursor row. */
  datatype Store = Store(dataDirExists: bool, files: map<FileKey, Csv>, importState: Option<Date>)

  /**
   * The surroundings of a run: the current date, the local UTC offset in
   * minutes, the cameras, the camera direction table
   * (`TELRAAM_COUNTER_CAMERAS`), the report fetcher and the configured start
   * year and month.
   */
  datatype Env = Env(today: Date, utcOffset: int, cameras: seq<Camera>, directions: map<string, bool>,
                     fetch: (string, int, int) -> seq<Record>, startYear: int, startMonth: int)

  predicate GoodEnv(env: Env) {
    Valid(env.today) && env.today.year < 9999 && Valid(Date(env.startYear, env.startMonth, 1))
  }

  /** A store whose directory is missing holds no files. */
  predicate Consistent(s: Store) {
    !s.dataDirExists ==> s.files == map[]
  }

  /** The day the cursor is set to: today after a walk up to today, the day before `from` when there was nothing to walk. */
  function Cursor(from: Date, today: Date): (c: Date)
    requires Valid(from) && Valid(today) && today.year < 9999
    ensures Valid(c)
    ensures !Before(today, from) ==> c == today
    ensures Before(today, from) ==> c == PrevDay(from)
  {
    PrevOfNext(today);
    if Before(today, from) then PrevDay(from) else PrevDay(NextDay(today))
  }

  const NO_IMPORT_STATE := "AttributeError: no Telraam import state"
  const INVALID_CURSOR := "ValueError: the import cursor is not a date"
  const UNKNOWN_CAMERA := "KeyError: camera missing from TELRAAM_COUNTER_CAMERAS"
  const NO_CAMERAS := "UnboundLocalError: no cameras"
  const INVALID_DATE_ARGUMENT := "Invalid date argument format. use YYYY-MM-DD."

  /** The import only adds files. */
  lemma {:induction false} AllCamerasGrow(files: map<FileKey, Csv>, cameras: seq<Camera>, directions: map<string, bool>, from: Date,
                                          today: Date, utcOffset: int, fetch: (string, int, int) -> seq<Record>, overwrite: bool)
    requires Valid(from) && Valid(today) && today.year < 9999
    ensures AllCameras(files, cameras, directions, from, today, utcOffset, fetch, overwrite).0.Keys >= files.Keys
  {
    if cameras != [] {
      var init, last := cameras[..|cameras| - 1], cameras[|cameras| - 1];
      AllCamerasGrow(files, init, directions, from, today, utcOffset, fetch, overwrite);
      var step := AllCameras(files, init, directions, from, today, utcOffset, fetch, overwrite);
      if step.1 && !Before(today, from) && last.mac in directions {
        CameraDaysKeys(step.0, last, directions[last.mac], from, today, utcOffset, fetch, overwrite);
      }
    }
  }

  /** A missing directory is created, and the cursor row replaced by day one of the start month. */
  function SetUp(s: Store, env: Env): Store {
    if s.dataDirExists then s else Store(true, s.files, Some(Date(env.startYear, env.startMonth, 1)))
  }

  /** The first day of the walk: `from_date` when given, else the cursor after the set-up. */
  function StartDate(s: Store, fromDate: Option<Date>, env: Env): Option<Date> {
    if fromDate.Some? then fromDate else SetUp(s, env).importState
  }

  /**
   * `save_dataframe(from_date)`: the set-up, the walk from the start date
   * over every camera (explicit dates overwrite files), then the cursor set
   * to the last day walked. Python's exceptions are the `Err` results, with
   * the store as it was when they were raised.
   */
  function Save(s: Store, fromDate: Option<Date>, env: Env): (Store, Result<Date>)
    requires GoodEnv(env) && (fromDate.Some? ==> Valid(fromDate.value))
  {
    var s1 := SetUp(s, env);
    var from := StartDate(s, fromDate, env);
    if from.None? then (s1, Err(NO_IMPORT_STATE))
    else if !Valid(from.value) then (s1, Err(INVALID_CURSOR))
    else
      var walk := AllCameras(s1.files, env.cameras, env.directions, from.value, env.today, env.utcOffset, env.fetch, fromDate.Some?);
      var s2 := s1.(files := walk.0);
      if !walk.1 then (s2, Err(UNKNOWN_CAMERA))
      else if env.cameras == [] then (s2, Err(NO_CAMERAS))
      else if s1.importState.None? then (s2, Err(NO_IMPORT_STATE))
      else
        var c := Cursor(from.value, env.today);
        (s2.(importState := Some(c)), Ok(c))
  }

  /**
   * When `save_dataframe` succeeds and when it fails: it succeeds exactly
   * when there is a start date, a cursor row, at least one camera and a
   * direction for every camera that has days to walk; it then returns, and
   * stores as the cursor, today (or the day before the start date when that
   * is after today). A failure leaves the cursor as the set-up made it.
   */
  lemma SaveOutcome(s: Store, fromDate: Option<Date>, env: Env)
    requires GoodEnv(env) && (fromDate.Some? ==> Valid(fromDate.value))
    ensures var out, from, row := Save(s, fromDate, env), StartDate(s, fromDate, env), SetUp(s, env).importState;
      out.0.dataDirExists && out.0.files.Keys >= s.files.Keys
      && (out.1.Ok? <==>
            from.Some? && Valid(from.value) && row.Some? && env.cameras != []
            && (Before(env.today, from.value) || forall i :: 0 <= i < |env.cameras| ==> env.cameras[i].mac in env.directions))
      && (out.1.Ok? ==> out.0.importState == Some(out.1.value)
                        && out.1.value == (if Before(env.today, from.value) then PrevDay(from.value) else env.today))
      && (out.1.Err? ==> out.0.importState == row)
  {
    var from := StartDate(s, fromDate, env);
    if from.Some? && Valid(from.value) {
      AllCamerasOk(s.files, env.cameras, env.directions, from.value, env.today, env.utcOffset, env.fetch, fromDate.Some?);
      AllCamerasGrow(s.files, env.cameras, env.directions, from.value, env.today, env.utcOffset, env.fetch, fromDate.Some?);
      PrevOfNext(env.today);
    }
  }

  /**
   * The files `save_dataframe` leaves, for cameras with distinct macs that
   * all have a direction: the walk from the start date over every camera,
   * overwriting exactly when `from_date` was given.
   */
  lemma SaveFiles(s: Store, fromDate: Option<Date>, env: Env, from: Date)
    requires GoodEnv(env) && (fromDate.Some? ==> Valid(fromDate.value))
    requires StartDate(s, fromDate, env) == Some(from) && Valid(from)
    requires DistinctMacs(env.cameras) && forall i :: 0 <= i < |env.cameras| ==> env.cameras[i].mac in env.directions
    ensures Walked(s.files, Save(s, fromDate, env).0.files, env.cameras, env.directions, from, env.today, env.utcOffset,
                   env.fetch, fromDate.Some?)
  {
    AllCamerasFiles(s.files, env.cameras, env.directions, from, env.today, env.utcOffset, env.fetch, fromDate.Some?);
  }

  /** The day after a day of the walk is, once past today, the day after today. */
  lemma NextAfterWalkDay(d: Date, today: Date)
    requires Valid(d) && Valid(today) && today.year < 9999 && NotAfter(d, today)
    ensures Valid(NextDay(d))
    ensures Before(today, NextDay(d)) ==> NextDay(d) == NextDay(today)
  {
    NothingBetween(d, today);
  }

  /** After `k` completed turns, camera `k` takes the next turn. */
  lemma AllCamerasNext(files: map<FileKey, Csv>, cameras: seq<Camera>, k: nat, directions: map<string, bool>,
                       from: Date, today: Date, utcOffset: int, fetch: (string, int, int) -> seq<Record>, overwrite: bool)
    requires Valid(from) && Valid(today) && today.year < 9999 && k < |cameras|
    requires AllCameras(files, cameras[..k], directions, from, today, utcOffset, fetch, overwrite).1
    ensures AllCameras(files, cameras[..k + 1], directions, from, today, utcOffset, fetch, overwrite)
      == CameraTurn(AllCameras(files, cameras[..k], directions, from, today, utcOffset, fetch, overwrite).0,
                    cameras[k], directions, from, today, utcOffset, fetch, overwrite)
  {
    assert cameras[..k + 1][..k] == cameras[..k];
  }

  /** Once a turn has failed, the later cameras change nothing. */
  lemma {:induction false} AllCamerasStops(files: map<FileKey, Csv>, cameras: seq<Camera>, i: nat, directions: map<string, bool>,
                                           from: Date, today: Date, utcOffset: int, fetch: (string, int, int) -> seq<Record>,
                                           overwrite: bool)
    requires Valid(from) && Valid(today) && today.year < 9999 && i <= |cameras|
    requires !AllCameras(files, cameras[..i], directions, from, today, utcOffset, fetch, overwrite).1
    ensures AllCameras(files, cameras, directions, from, today, utcOffset, fetch, overwrite)
      == AllCameras(files, cameras[..i], directions, from, today, utcOffset, fetch, overwrite)
    decreases |cameras|
  {
    if i == |cameras| {
      assert cameras[..i] == cameras;
    } else {
      assert cameras[..|cameras| - 1][..i] == cameras[..i];
      AllCamerasStops(files, cameras[..|cameras| - 1], i, directions, from, today, utcOffset, fetch, overwrite);
    }
  }

  /** The hours of a day carry every key the camera's mapping reads. */
  lemma DayRowsCarryMappingKeys(rows: seq<HourEntry>, station: string, direction: bool)
    requires forall h :: 0 <= h < |rows| ==> rows[h].counts.Keys == FieldKeys()
    ensures WellFormed(Mappings(station, direction))
    ensures forall h, j :: 0 <= h < |rows| && 0 <= j < |Mappings(station, direction)| ==>
      Mappings(station, direction)[j].0 in rows[h].counts
  {
    MappingsLayout(station, direction);
    MappingKeysAreFieldKeys(station, direction);
  }

  /** The hours `get_day_data` returns for a day carry all twelve keys. */
  lemma DayEntriesKeys(camera: Camera, day: Date, today: Date, utcOffset: int, fetch: (string, int, int) -> seq<Record>)
    requires Valid(day)
    ensures var w := FetchWindow(day, utcOffset);
      var rows := DayEntries(fetch(camera.instanceId, w.0, w.1), day == today, true, w.0);
      forall h :: 0 <= h < |rows| ==> rows[h].counts.Keys == FieldKeys()
  {
    var w := FetchWindow(day, utcOffset);
    DayEntriesShape(fetch(camera.instanceId, w.0, w.1), day == today, true, w.0);
  }

  /**
   * The state of one camera's day loop at `startDate`: the walk still to do
   * from `startDate` ends where the whole walk from `from` ends.
   */
  ghost predicate CameraLoop(files0: map<FileKey, Csv>, files: map<FileKey, Csv>, camera: Camera, from: Date, startDate: Date,
                             env: Env, overwrite: bool)
    requires GoodEnv(env) && Valid(from)
  {
    Valid(startDate) && startDate.month <= 12 && startDate.day <= 31
    && (Before(env.today, startDate) ==> startDate == from || startDate == NextDay(env.today))
    && (startDate != from ==> camera.mac in env.directions)
    && (camera.mac !in env.directions ==> files == files0)
    && (camera.mac in env.directions ==>
          CameraDays(files, camera, env.directions[camera.mac], startDate, env.today, env.utcOffset, env.fetch, overwrite)
          == CameraDays(files0, camera, env.directions[camera.mac], from, env.today, env.utcOffset, env.fetch, overwrite))
  }

  /** Saving the day at `startDate` and moving to the next day keeps the loop state. */
  lemma CameraLoopStep(files0: map<FileKey, Csv>, files: map<FileKey, Csv>, camera: Camera, from: Date, startDate: Date,
                       env: Env, overwrite: bool)
    requires GoodEnv(env) && Valid(from) && CameraLoop(files0, files, camera, from, startDate, env, overwrite)
    requires NotAfter(startDate, env.today) && camera.mac in env.directions
    ensures var direction := env.directions[camera.mac];
      var files' := WriteDay(files, (camera.mac, startDate),
                             DayTable(camera, direction, startDate, env.today, env.utcOffset, env.fetch), startDate == env.today, overwrite);
      CameraLoop(files0, files', camera, from, NextDay(startDate), env, overwrite)
  {
    NextAfterWalkDay(startDate, env.today);
  }

  /** The command's view of the persisted data. */
  class Importer {
    var dataDirExists: bool
    var files: map<FileKey, Csv>
    var importState: Option<Date>

    function State(): Store
      reads this
    {
      Store(dataDirExists, files, importState)
    }

    constructor(s: Store)
      requires Consistent(s)
      ensures State() == s
    {
      dataDirExists, files, importState := s.dataDirExists, s.files, s.importState;
    }

    /**
     * The end of the day loop's body in `save_dataframe`: the day's table
     * built from its hours and the camera's mapping, then today's file
     * removed and the file written unless it exists and overwriting was not
     * asked for.
     */
    method SaveDay(camera: Camera, direction: bool, day: Date, today: Date, utcOffset: int,
                   fetch: (string, int, int) -> seq<Record>, overwrite: bool, report: seq<HourEntry>)
      requires Valid(day) && forall h :: 0 <= h < |report| ==> report[h].counts.Keys == FieldKeys()
      requires var w := FetchWindow(day, utcOffset);
        report == DayEntries(fetch(camera.instanceId, w.0, w.1), day == today, true, w.0)
      modifies this`files
      ensures files == WriteDay(old(files), (camera.mac, day), DayTable(camera, direction, day, today, utcOffset, fetch), day == today, overwrite)
    {
      var mappings := GetMappings(camera.mac, direction);
      DayRowsCarryMappingKeys(report, camera.mac, direction);
      var csv := BuildColumns(report, mappings, utcOffset);
      var key := (camera.mac, day);
      assert csv == DayTable(camera, direction, day, today, utcOffset, fetch);
      RemoveThenWrite(files, key, csv, day == today, overwrite);
      if day == today && key in files {
        files := files - {key};
      }
      if key !in files || overwrite {
        files := files[key := csv];
      }
    }

    /**
     * One turn of the day loop: the day's hours fetched, then a `KeyError`
     * when the camera has no direction, else the day's file saved.
     */
    method WalkDay(camera: Camera, day: Date, env: Env, overwrite: bool) returns (ok: bool)
      requires GoodEnv(env) && Valid(day)
      modifies this`files
      ensures ok <==> camera.mac in env.directions
      ensures !ok ==> files == old(files)
      ensures ok ==> files == WriteDay(old(files), (camera.mac, day),
        DayTable(camera, env.directions[camera.mac], day, env.today, env.utcOffset, env.fetch), day == env.today, overwrite)
    {
      var report, deltaHours := GetDayData(day, env.today, camera.instanceId, env.utcOffset, env.fetch, true);
      if camera.mac !in env.directions {
        return false;
      }
      DayEntriesKeys(camera, day, env.today, env.utcOffset, env.fetch);
      SaveDay(camera, env.directions[camera.mac], day, env.today, env.utcOffset, env.fetch, overwrite, report);
      ok := true;
    }

    /**
     * The day loop of `save_dataframe` for one camera: every day from `from`
     * through today, failing on the first day when the camera is missing
     * from the direction table. The returned date is the loop variable at
     * the end.
     */
    method WalkCamera(camera: Camera, from: Date, env: Env, overwrite: bool) returns (ok: bool, startDate: Date)
      requires GoodEnv(env) && Valid(from)
      modifies this`files
      ensures (files, ok) == CameraTurn(old(files), camera, env.directions, from, env.today, env.utcOffset, env.fetch, overwrite)
      ensures ok ==> startDate == if Before(env.today, from) then from else NextDay(env.today)
    {
      var today := env.today;
      startDate := from;
      while NotAfter(startDate, today)
        invariant CameraLoop(old(files), files, camera, from, startDate, env, overwrite)
        decreases today.year - startDate.year, 12 - startDate.month, 31 - startDate.day
      {
        ghost var before := files;
        var dayOk := WalkDay(camera, startDate, env, overwrite);
        if !dayOk {
          return false, startDate;
        }
        CameraLoopStep(old(files), before, camera, from, startDate, env, overwrite);
        startDate := NextDay(startDate);
      }
      ok := true;
    }

    /** The set-up of `save_dataframe`: a missing directory created, with the cursor row reset. */
    method SetUpDirectory(env: Env)
      modifies this
      ensures State() == SetUp(old(State()), env)
    {
      if !dataDirExists {
        dataDirExists := true;
        importState := Some(Date(env.startYear, env.startMonth, 1));
      }
    }

    /**
     * The camera loop of `save_dataframe`: each camera's walk in turn,
     * stopping at the first camera without a direction. The returned date
     * is the day loop's variable after the last walk.
     */
    method WalkCameras(from: Date, env: Env, overwrite: bool) returns (ok: bool, startDate: Date)
      requires GoodEnv(env) && Valid(from)
      modifies this`files
      ensures (files, ok) == AllCameras(old(files), env.cameras, env.directions, from, env.today, env.utcOffset, env.fetch, overwrite)
      ensures ok && env.cameras != [] ==> startDate == if Before(env.today, from) then from else NextDay(env.today)
    {
      ghost var start := files;
      startDate := from;
      for ci := 0 to |env.cameras|
        invariant (files, true) == AllCameras(start, env.cameras[..ci], env.directions, from, env.today, env.utcOffset, env.fetch, overwrite)
        invariant ci > 0 ==> startDate == if Before(env.today, from) then from else NextDay(env.today)
      {
        AllCamerasNext(start, env.cameras, ci, env.directions, from, env.today, env.utcOffset, env.fetch, overwrite);
        ok, startDate := WalkCamera(env.cameras[ci], from, env, overwrite);
        if !ok {
          AllCamerasStops(start, env.cameras, ci + 1, env.directions, from, env.today, env.utcOffset, env.fetch, overwrite);
          return;
        }
      }
      assert env.cameras[..|env.cameras|] == env.cameras;
      ok := true;
    }

    /**
     * `save_dataframe`: the directory and cursor set-up, the camera loop,
     * then the cursor update.
     */
    method SaveDataframe(fromDate: Option<Date>, env: Env) returns (r: Result<Date>)
      requires GoodEnv(env) && (fromDate.Some? ==> Valid(fromDate.value)) && Consistent(State())
      modifies this
      ensures (State(), r) == Save(old(State()), fromDate, env)
      ensures Consistent(State())
    {
      var overwrite := fromDate.Some?;
      SetUpDirectory(env);
      var from: Date;
      if fromDate.Some? {
        from := fromDate.value;
      } else if importState.None? {
        return Err(NO_IMPORT_STATE);
      } else if !Valid(importState.value) {
        return Err(INVALID_CURSOR);
      } else {
        from := importState.value;
      }
      var ok, startDate := WalkCameras(from, env, overwrite);
      if !ok {
        return Err(UNKNOWN_CAMERA);
      }
      if |env.cameras| == 0 {
        return Err(NO_CAMERAS);
      }
      startDate := PrevDay(startDate);
      if importState.None? {
        return Err(NO_IMPORT_STATE);
      }
      importState := Some(startDate);
      r := Ok(startDate);
    }

    /**
     * `Command.handle`: an empty or absent `--from-date` runs the import from
     * the cursor; otherwise the argument must parse as `YYYY-MM-DD`, and a
     * bad one ends the command with an error and nothing changed.
     */
    method Handle(fromDateArg: Option<string>, env: Env) returns (r: Result<Date>)
      requires GoodEnv(env) && Consistent(State())
      modifies this
      ensures var arg := fromDateArg.GetOr("");
        if arg == "" then (State(), r) == Save(old(State()), None, env)
        else if ParseIsoDate(arg).None? then r == Err(INVALID_DATE_ARGUMENT) && State() == old(State())
        else (State(), r) == Save(old(State()), ParseIsoDate(arg), env)
      ensures Consistent(State())
    {
      var fromDate: Option<Date> := None;
      if fromDateArg.Some? && fromDateArg.value != "" {
        fromDate := ParseIsoDate(fromDateArg.value);
        if fromDate.None? {
          return Err(INVALID_DATE_ARGUMENT);
        }
      }
      r := SaveDataframe(fromDate, env);
    }
  }
}
