/**
 * The street-maintenance history endpoint: the `event` and
 * `start_date_time` filters of the work query set, and the segmentation of
 * each maintenance unit's time-ordered GPS points into linestrings and lone
 * points wherever the gap between consecutive points is too long.
 *
 * Timestamps are whole microseconds; points are opaque coordinate pairs.
 */
module Maintenance {
  import opened Wrappers
  import opened Text

  datatype Point = Point(x: int, y: int)

  /** A `MaintenanceWork` row: its unit, its time, its location and its event names. */
  datatype Work = Work(unitId: int, timestamp: int, point: Point, events: seq<string>)

  /** The query parameters of `get_queryset`: `event` and `start_date_time` (already a timestamp). */
  datatype Filters = Filters(event: Option<string>, startDateTime: Option<int>)

  predicate Matches(w: Work, f: Filters) {
    (f.event.Some? ==> f.event.value in w.events)
    && (f.startDateTime.Some? ==> w.timestamp >= f.startDateTime.value)
  }

  /**
   * `get_queryset`: the works whose events include the `event` parameter and
   * whose timestamp is not before `start_date_time`, each filter applied
   * only when its parameter is given; the order is kept.
   */
  function FilterWorks(ws: seq<Work>, f: Filters): (r: seq<Work>)
    ensures |r| <= |ws|
  {
    if ws == [] then []
    else (if Matches(ws[0], f) then [ws[0]] else []) + FilterWorks(ws[1..], f)
  }

  /** A work is kept exactly when it is one of the works and matches the filters. */
  lemma {:induction false} FilterWorksMembers(ws: seq<Work>, f: Filters)
    ensures forall w :: w in FilterWorks(ws, f) <==> w in ws && Matches(w, f)
  {
    if ws != [] {
      FilterWorksMembers(ws[1..], f);
      assert ws == [ws[0]] + ws[1..];
    }
  }

  /** Without parameters every work is kept. */
  lemma {:induction false} FilterWorksNone(ws: seq<Work>)
    ensures FilterWorks(ws, Filters(None, None)) == ws
  {
    if ws != [] {
      FilterWorksNone(ws[1..]);
      assert ws == [ws[0]] + ws[1..];
    }
  }

  /** Filtering keeps the order: the works kept from two lists are those of the first, then those of the second. */
  lemma {:induction false} FilterWorksAppend(a: seq<Work>, b: seq<Work>, f: Filters)
    ensures FilterWorks(a + b, f) == FilterWorks(a, f) + FilterWorks(b, f)
  {
    if a == [] {
      assert a + b == b;
    } else {
      var t, ab := a[1..], a + b;
      var head := if Matches(a[0], f) then [a[0]] else [];
      FilterWorksAppend(t, b, f);
      assert ab[1..] == t + b && ab[0] == a[0];
      assert FilterWorks(ab, f) == head + FilterWorks(t + b, f);
      assert FilterWorks(a, f) == head + FilterWorks(t, f);
      assert head + (FilterWorks(t, f) + FilterWorks(b, f)) == (head + FilterWorks(t, f)) + FilterWorks(b, f);
    }
  }

  /** Filtering twice by the same parameters is filtering once. */
  lemma {:induction false} FilterWorksIdempotent(ws: seq<Work>, f: Filters)
    ensures FilterWorks(FilterWorks(ws, f), f) == FilterWorks(ws, f)
  {
    if ws != [] {
      FilterWorksIdempotent(ws[1..], f);
      var rest := FilterWorks(ws[1..], f);
      if Matches(ws[0], f) {
        var r := [ws[0]] + rest;
        assert r[0] == ws[0] && r[1..] == rest;
        assert FilterWorks(ws, f) == r;
        assert FilterWorks(r, f) == [ws[0]] + FilterWorks(rest, f);
      } else {
        assert FilterWorks(ws, f) == [] + rest == rest;
      }
    }
  }

  /** The digits of a Python integer literal: digit groups separated by single underscores. */
  predicate IsDigitGroups(groups: seq<string>) {
    forall i :: 0 <= i < |groups| ==> IsDigits(groups[i])
  }

  function Concat(groups: seq<string>): (s: string)
    requires IsDigitGroups(groups)
    ensures AllDigits(s)
  {
    if groups == [] then "" else groups[0] + Concat(groups[1..])
  }

  /**
   * Python's `int(s)` on a string: surrounding whitespace, an optional sign,
   * then ASCII digits with single underscores allowed between them; `None`
   * where Python raises `ValueError`.
   */
  function ParseInt(s: string): Option<int> {
    var t := Strip(s);
    var signed := |t| > 0 && (t[0] == '-' || t[0] == '+');
    var body := if signed then t[1..] else t;
    var groups := Split(body, '_');
    if !IsDigitGroups(groups) then None
    else
      var n: int := DecimalValue(Concat(groups));
      Some(if signed && t[0] == '-' then -n else n)
  }

  /** A string with no whitespace at either end is its own strip. */
  lemma StripNoSpace(s: string)
    requires s != [] && !IsSpace(s[0]) && !IsSpace(s[|s| - 1])
    ensures Strip(s) == s
  {
  }

  /** A digit string reads as one digit group worth its decimal value. */
  lemma ParseDigits(digits: string)
    requires IsDigits(digits)
    ensures Split(digits, '_') == [digits]
    ensures IsDigitGroups([digits]) && Concat([digits]) == digits
  {
    assert forall i :: 0 <= i < |digits| ==> digits[i] != '_';
    SplitWithoutSep(digits, '_');
    assert Concat([digits]) == digits + Concat([]);
  }

  /** `str(n)` has no whitespace to strip. */
  lemma StripIntToString(n: int)
    ensures Strip(IntToString(n)) == IntToString(n)
  {
    var s := IntToString(n);
    var digits := NatToString(if n < 0 then -n else n);
    assert s[|s| - 1] == digits[|digits| - 1];
    assert IsDigit(s[|s| - 1]);
    assert IsDigit(s[0]) || s[0] == '-';
    StripNoSpace(s);
  }

  /** `int(str(n)) == n`. */
  lemma ParseIntToString(n: int)
    ensures ParseInt(IntToString(n)) == Some(n)
  {
    var s := IntToString(n);
    var m: nat := if n < 0 then -n else n;
    var digits := NatToString(m);
    StripIntToString(n);
    var body := if n < 0 then s[1..] else s;
    assert body == digits;
    assert s[0] != '+' by {
      if n >= 0 { assert IsDigit(digits[0]); }
    }
    ParseDigits(digits);
    NatToStringValue(m);
  }

  /** `max_work_length` in seconds: 30 minutes unless the parameter is given, which must then be an integer. */
  function MaxWorkLength(param: Option<string>): (r: Result<int>)
    ensures param.None? ==> r == Ok(1800)
    ensures param.Some? ==> (r.Ok? <==> ParseInt(param.value).Some?)
  {
    if param.None? then Ok(30 * 60)
    else match ParseInt(param.value)
      case None => Err("'max_work_length' needs to be of type integer.")
      case Some(n) => Ok(n)
  }

  /**
   * `(cur - prev).seconds` for timestamps in microseconds: the seconds
   * component of the `timedelta`, which drops whole days (and fractions of
   * a second) and is never negative.
   */
  function Seconds(prev: int, cur: int): (r: int)
    ensures 0 <= r < 86400
  {
    ((cur - prev) / 1000000) % 86400
  }

  /** A gap of a whole number of days more has the same `.seconds`. */
  lemma SecondsIgnoreDays(prev: int, cur: int, days: nat)
    ensures Seconds(prev, cur + days * 86400 * 1000000) == Seconds(prev, cur)
  {
    var d := cur - prev;
    assert (d + days * 86400 * 1000000) / 1000000 == d / 1000000 + days * 86400;
  }

  /** The gap before work `i` is too long: its `.seconds` exceed `max_work_length`. */
  predicate Breaks(ws: seq<Work>, i: int, maxWorkLength: int)
    requires 0 < i < |ws|
  {
    Seconds(ws[i - 1].timestamp, ws[i].timestamp) > maxWorkLength
  }

  function Points(ws: seq<Work>): (ps: seq<Point>)
    ensures |ps| == |ws| && forall i :: 0 <= i < |ws| ==> ps[i] == ws[i].point
  {
    seq(|ws|, i requires 0 <= i < |ws| => ws[i].point)
  }

  /**
   * The runs of a unit's time-ordered works: the points cut before every
   * work whose gap to the previous one is too long.
   */
  function Runs(ws: seq<Work>, maxWorkLength: int): (rs: seq<seq<Point>>)
    ensures |rs| <= |ws| && (rs == [] <==> ws == [])
    ensures forall k :: 0 <= k < |rs| ==> rs[k] != []
  {
    if ws == [] then []
    else if |ws| == 1 then [[ws[0].point]]
    else
      var runs, p := Runs(ws[..|ws| - 1], maxWorkLength), ws[|ws| - 1].point;
      if Breaks(ws, |ws| - 1, maxWorkLength) then runs + [[p]]
      else runs[..|runs| - 1] + [runs[|runs| - 1] + [p]]
  }

  /** The last run ends with the last work's point. */
  lemma RunsLast(ws: seq<Work>, maxWorkLength: int)
    requires ws != []
    ensures var rs := Runs(ws, maxWorkLength); rs[|rs| - 1][|rs[|rs| - 1]| - 1] == ws[|ws| - 1].point
  {
  }

  function Flatten(rs: seq<seq<Point>>): seq<Point> {
    if rs == [] then [] else Flatten(rs[..|rs| - 1]) + rs[|rs| - 1]
  }

  /** The number of gaps that are too long. */
  function BreakCount(ws: seq<Work>, maxWorkLength: int): nat {
    if |ws| <= 1 then 0
    else BreakCount(ws[..|ws| - 1], maxWorkLength) + if Breaks(ws, |ws| - 1, maxWorkLength) then 1 else 0
  }

  /** The runs hold all the points, in time order, and there is one more run than there are long gaps. */
  lemma {:induction false} RunsPartition(ws: seq<Work>, maxWorkLength: int)
    ensures Flatten(Runs(ws, maxWorkLength)) == Points(ws)
    ensures ws != [] ==> |Runs(ws, maxWorkLength)| == 1 + BreakCount(ws, maxWorkLength)
  {
    if |ws| == 1 {
      assert Flatten([[ws[0].point]]) == Flatten([]) + [ws[0].point];
    } else if |ws| > 1 {
      var init := ws[..|ws| - 1];
      var runs, p := Runs(init, maxWorkLength), ws[|ws| - 1].point;
      RunsPartition(init, maxWorkLength);
      assert Points(ws) == Points(init) + [p];
      if Breaks(ws, |ws| - 1, maxWorkLength) {
        assert (runs + [[p]])[..|runs|] == runs;
      } else {
        var last := runs[|runs| - 1];
        var r' := runs[..|runs| - 1] + [last + [p]];
        assert r'[..|r'| - 1] == runs[..|runs| - 1];
        assert Flatten(runs) == Flatten(runs[..|runs| - 1]) + last;
      }
    }
  }

  /** Where run `k` starts among the unit's works: the number of points in the runs before it. */
  function Offset(rs: seq<seq<Point>>, k: nat): nat
    requires k <= |rs|
  {
    |Flatten(rs[..k])|
  }

  /** Every run but none after it starts before the end. */
  lemma {:induction false} OffsetBelow(rs: seq<seq<Point>>, k: nat)
    requires k < |rs| && forall j :: 0 <= j < |rs| ==> rs[j] != []
    ensures Offset(rs, k) < |Flatten(rs)|
  {
    var init := rs[..|rs| - 1];
    assert rs[..|rs|] == rs;
    if k < |rs| - 1 {
      assert rs[..k] == init[..k];
      OffsetBelow(init, k);
    }
  }

  /** The runs of one more work keep the starts of the runs before it. */
  lemma OffsetPrefix(rs: seq<seq<Point>>, rs': seq<seq<Point>>, k: nat)
    requires k <= |rs| && k <= |rs'| && rs'[..k] == rs[..k]
    ensures Offset(rs', k) == Offset(rs, k)
  {
  }

  /** The runs of one more work keep the starts of the runs before, and a new run starts at the new work. */
  lemma OffsetsOfSnoc(ws: seq<Work>, maxWorkLength: int)
    requires |ws| > 1
    ensures var n := |ws|;
      var rs, rs' := Runs(ws[..n - 1], maxWorkLength), Runs(ws, maxWorkLength);
      && |rs'| == (if Breaks(ws, n - 1, maxWorkLength) then |rs| + 1 else |rs|)
      && (forall k :: 0 <= k < |rs| ==> Offset(rs', k) == Offset(rs, k) && Offset(rs, k) < n - 1)
      && (Breaks(ws, n - 1, maxWorkLength) ==> Offset(rs', |rs|) == n - 1)
  {
    var n := |ws|;
    var init := ws[..n - 1];
    var rs, rs' := Runs(init, maxWorkLength), Runs(ws, maxWorkLength);
    var m := |rs|;
    var cut := Breaks(ws, n - 1, maxWorkLength);
    assert |rs'| == if cut then m + 1 else m;
    RunsPartition(init, maxWorkLength);
    forall k | 0 <= k < m
      ensures Offset(rs', k) == Offset(rs, k) && Offset(rs, k) < n - 1
    {
      assert rs'[..k] == rs[..k];
      OffsetPrefix(rs, rs', k);
      OffsetBelow(rs, k);
    }
    if cut {
      assert rs'[..m] == rs;
    }
  }

  /**
   * A new run starts at work `i` exactly when the gap before it is too long:
   * the runs are cut at the long gaps and nowhere else.
   */
  lemma {:induction false} RunsCutAtLongGaps(ws: seq<Work>, maxWorkLength: int)
    ensures var rs := Runs(ws, maxWorkLength);
      forall i :: 0 < i < |ws| ==>
        (Breaks(ws, i, maxWorkLength) <==> exists k :: 0 < k < |rs| && Offset(rs, k) == i)
  {
    if |ws| > 1 {
      var n := |ws|;
      var init := ws[..n - 1];
      var rs, rs' := Runs(init, maxWorkLength), Runs(ws, maxWorkLength);
      var m := |rs|;
      var cut := Breaks(ws, n - 1, maxWorkLength);
      RunsCutAtLongGaps(init, maxWorkLength);
      OffsetsOfSnoc(ws, maxWorkLength);
      forall i | 0 < i < n
        ensures Breaks(ws, i, maxWorkLength) <==> exists k :: 0 < k < |rs'| && Offset(rs', k) == i
      {
        if i < n - 1 {
          assert Breaks(ws, i, maxWorkLength) == Breaks(init, i, maxWorkLength);
          if Breaks(ws, i, maxWorkLength) {
            var k :| 0 < k < m && Offset(rs, k) == i;
            assert Offset(rs', k) == i;
          }
          if exists k :: 0 < k < |rs'| && Offset(rs', k) == i {
            var k :| 0 < k < |rs'| && Offset(rs', k) == i;
            assert k < m && Offset(rs, k) == i;
          }
        } else if !cut {
          assert forall k :: 0 < k < |rs'| ==> Offset(rs', k) < n - 1;
        }
      }
    }
  }

  /** What a closed run contributes: a linestring of two or more points, or else a single point. */
  datatype Output = Line(points: seq<Point>) | Lone(point: Point)

  /**
   * The output for a run closed by a work with point `closer`: the run as a
   * linestring when it has two or more points, otherwise `closer`, the
   * point of the work that closed it (not the run's own point).
   */
  function Out(run: seq<Point>, closer: Point): (o: Output)
    ensures o.Line? ==> |o.points| >= 2 && o.points == run
    ensures o.Lone? <==> |run| <= 1
  {
    if |run| > 1 then Line(run) else Lone(closer)
  }

  /** The outputs of every run but the last, each closed by the first work of the next run. */
  function Closed(rs: seq<seq<Point>>): (os: seq<Output>)
    requires forall k :: 0 <= k < |rs| ==> rs[k] != []
    ensures |os| == if rs == [] then 0 else |rs| - 1
  {
    if |rs| <= 1 then [] else seq(|rs| - 1, k requires 0 <= k < |rs| - 1 => Out(rs[k], rs[k + 1][0]))
  }

  /** The outputs of a unit: the closed runs', then the last run's, closed by the unit's last work. */
  function Emit(rs: seq<seq<Point>>): (os: seq<Output>)
    requires forall k :: 0 <= k < |rs| ==> rs[k] != []
    ensures |os| == |rs|
  {
    if rs == [] then [] else
    var last := rs[|rs| - 1];
    Closed(rs) + [Out(last, last[|last| - 1])]
  }

  function Lines(os: seq<Output>): seq<seq<Point>> {
    if os == [] then [] else Lines(os[..|os| - 1]) + if os[|os| - 1].Line? then [os[|os| - 1].points] else []
  }

  function Lones(os: seq<Output>): seq<Point> {
    if os == [] then [] else Lones(os[..|os| - 1]) + if os[|os| - 1].Lone? then [os[|os| - 1].point] else []
  }

  /** Every output is a linestring or a point, so a unit gives one more output than it has long gaps. */
  lemma {:induction false} OutputCount(os: seq<Output>)
    ensures |Lines(os)| + |Lones(os)| == |os|
  {
    if os != [] {
      OutputCount(os[..|os| - 1]);
    }
  }

  /** Lines of two output lists are the first's, then the second's. */
  lemma {:induction false} LinesAppend(a: seq<Output>, b: seq<Output>)
    ensures Lines(a + b) == Lines(a) + Lines(b)
    decreases |b|
  {
    if b == [] {
      assert a + b == a;
    } else {
      LinesAppend(a, b[..|b| - 1]);
      assert (a + b)[..|a + b| - 1] == a + b[..|b| - 1];
    }
  }

  /** Lone points of two output lists are the first's, then the second's. */
  lemma {:induction false} LonesAppend(a: seq<Output>, b: seq<Output>)
    ensures Lones(a + b) == Lones(a) + Lones(b)
    decreases |b|
  {
    if b == [] {
      assert a + b == a;
    } else {
      LonesAppend(a, b[..|b| - 1]);
      assert (a + b)[..|a + b| - 1] == a + b[..|b| - 1];
    }
  }

  /** Starting a new run closes the previous one. */
  lemma ClosedNewRun(rs: seq<seq<Point>>, p: Point)
    requires rs != [] && forall k :: 0 <= k < |rs| ==> rs[k] != []
    ensures Closed(rs + [[p]]) == Closed(rs) + [Out(rs[|rs| - 1], p)]
  {
  }

  /** Extending the last run closes nothing. */
  lemma ClosedExtend(rs: seq<seq<Point>>, p: Point)
    requires rs != [] && forall k :: 0 <= k < |rs| ==> rs[k] != []
    ensures Closed(rs[..|rs| - 1] + [rs[|rs| - 1] + [p]]) == Closed(rs)
  {
  }

  /** The loop state of `get_geometry_history` after the first `i` works of a unit. */
  ghost predicate Segmented(ws: seq<Work>, maxWorkLength: int, i: nat, points: seq<Point>, prev: Option<int>,
                            lines: seq<seq<Point>>, lones: seq<Point>)
    requires i <= |ws|
  {
    var rs := Runs(ws[..i], maxWorkLength);
    (if i == 0 then points == [] && prev.None?
     else prev == Some(ws[i - 1].timestamp) && points == rs[|rs| - 1])
    && lines == Lines(Closed(rs)) && lones == Lones(Closed(rs))
  }

  /** The runs of one more work. */
  lemma RunsSnoc(ws: seq<Work>, maxWorkLength: int, i: nat)
    requires 0 < i < |ws|
    ensures var rs, p := Runs(ws[..i], maxWorkLength), ws[i].point;
      Runs(ws[..i + 1], maxWorkLength)
      == if Seconds(ws[i - 1].timestamp, ws[i].timestamp) > maxWorkLength then rs + [[p]]
         else rs[..|rs| - 1] + [rs[|rs| - 1] + [p]]
  {
    var w := ws[..i + 1];
    assert w[..i] == ws[..i];
    assert w[i - 1] == ws[i - 1] && w[i] == ws[i];
  }

  /** Appending one output at the end. */
  lemma LinesSnoc(os: seq<Output>, o: Output)
    ensures Lines(os + [o]) == Lines(os) + (if o.Line? then [o.points] else [])
    ensures Lones(os + [o]) == Lones(os) + (if o.Lone? then [o.point] else [])
  {
    assert (os + [o])[..|os|] == os;
  }

  /** A work whose gap is too long closes the current run and starts the next. */
  lemma SegmentedBreak(ws: seq<Work>, maxWorkLength: int, i: nat, points: seq<Point>, prev: Option<int>,
                       lines: seq<seq<Point>>, lones: seq<Point>)
    requires 0 < i < |ws| && Segmented(ws, maxWorkLength, i, points, prev, lines, lones)
    requires Seconds(prev.value, ws[i].timestamp) > maxWorkLength
    ensures var p := ws[i].point;
      Segmented(ws, maxWorkLength, i + 1, [p], Some(ws[i].timestamp),
                lines + (if |points| > 1 then [points] else []), lones + (if |points| > 1 then [] else [p]))
  {
    var p := ws[i].point;
    var rs := Runs(ws[..i], maxWorkLength);
    RunsSnoc(ws, maxWorkLength, i);
    ClosedNewRun(rs, p);
    LinesSnoc(Closed(rs), Out(rs[|rs| - 1], p));
  }

  /** A work whose gap is not too long extends the current run. */
  lemma SegmentedExtend(ws: seq<Work>, maxWorkLength: int, i: nat, points: seq<Point>, prev: Option<int>,
                        lines: seq<seq<Point>>, lones: seq<Point>)
    requires i < |ws| && Segmented(ws, maxWorkLength, i, points, prev, lines, lones)
    requires i > 0 ==> Seconds(prev.value, ws[i].timestamp) <= maxWorkLength
    ensures Segmented(ws, maxWorkLength, i + 1, points + [ws[i].point], Some(ws[i].timestamp), lines, lones)
  {
    var p := ws[i].point;
    var rs := Runs(ws[..i], maxWorkLength);
    if i > 0 {
      RunsSnoc(ws, maxWorkLength, i);
      ClosedExtend(rs, p);
    } else {
      assert ws[..1] == [ws[0]];
    }
  }

  /** After the last work, the current run is closed by the last work itself. */
  lemma SegmentedLast(ws: seq<Work>, maxWorkLength: int, points: seq<Point>, prev: Option<int>,
                      lines: seq<seq<Point>>, lones: seq<Point>)
    requires ws != [] && Segmented(ws, maxWorkLength, |ws|, points, prev, lines, lones)
    ensures Lines(Emit(Runs(ws, maxWorkLength))) == lines + (if |points| > 1 then [points] else [])
    ensures Lones(Emit(Runs(ws, maxWorkLength))) == lones + (if |points| > 1 then [] else [ws[|ws| - 1].point])
  {
    assert ws[..|ws|] == ws;
    var rs := Runs(ws, maxWorkLength);
    assert lines == Lines(Closed(rs));
    assert points == rs[|rs| - 1];
    RunsLast(ws, maxWorkLength);
    assert Emit(rs) == Closed(rs) + [Out(points, ws[|ws| - 1].point)];
    LinesSnoc(Closed(rs), Out(points, ws[|ws| - 1].point));
  }

  /** One turn of the inner loop: the work `ws[i]` either extends the current run or closes it. */
  method SegmentStep(ws: seq<Work>, maxWorkLength: int, i: nat, points0: seq<Point>, prev0: Option<int>,
                     lines0: seq<seq<Point>>, lones0: seq<Point>)
    returns (points: seq<Point>, prev: Option<int>, unitLines: seq<seq<Point>>, unitLones: seq<Point>)
    requires i < |ws| && Segmented(ws, maxWorkLength, i, points0, prev0, lines0, lones0)
    ensures Segmented(ws, maxWorkLength, i + 1, points, prev, unitLines, unitLones)
  {
    points, prev, unitLines, unitLones := points0, prev0, lines0, lones0;
    var elem := ws[i];
    if prev.Some? && Seconds(prev.value, elem.timestamp) > maxWorkLength {
      SegmentedBreak(ws, maxWorkLength, i, points, prev, unitLines, unitLones);
      if |points| > 1 {
        unitLines := unitLines + [points];
      } else {
        unitLones := unitLones + [elem.point];
      }
      points := [];
    } else {
      SegmentedExtend(ws, maxWorkLength, i, points, prev, unitLines, unitLones);
    }
    points := points + [elem.point];
    prev := Some(elem.timestamp);
  }

  /**
   * The inner loop of `get_geometry_history` for one unit's time-ordered
   * works: appends the unit's linestrings and lone points to the lists built
   * so far.
   */
  method SegmentUnit(ws: seq<Work>, maxWorkLength: int, lines0: seq<seq<Point>>, lones0: seq<Point>)
    returns (lines: seq<seq<Point>>, lones: seq<Point>)
    requires ws != []
    ensures lines == lines0 + Lines(Emit(Runs(ws, maxWorkLength)))
    ensures lones == lones0 + Lones(Emit(Runs(ws, maxWorkLength)))
  {
    var points, prev, unitLines, unitLones := SegmentWorks(ws, maxWorkLength);
    SegmentedLast(ws, maxWorkLength, points, prev, unitLines, unitLones);
    ghost var os := Emit(Runs(ws, maxWorkLength));
    if |points| > 1 {
      unitLines := unitLines + [points];
    } else {
      unitLones := unitLones + [ws[|ws| - 1].point];
    }
    assert unitLines == Lines(os) && unitLones == Lones(os);
    lines := lines0 + unitLines;
    lones := lones0 + unitLones;
  }

  /** The loop over a unit's works: the closed runs' outputs and the last run still open. */
  method SegmentWorks(ws: seq<Work>, maxWorkLength: int)
    returns (points: seq<Point>, prev: Option<int>, unitLines: seq<seq<Point>>, unitLones: seq<Point>)
    ensures Segmented(ws, maxWorkLength, |ws|, points, prev, unitLines, unitLones)
  {
    points, prev, unitLines, unitLones := [], None, [], [];
    for i := 0 to |ws|
      invariant Segmented(ws, maxWorkLength, i, points, prev, unitLines, unitLones)
    {
      points, prev, unitLines, unitLones := SegmentStep(ws, maxWorkLength, i, points, prev, unitLines, unitLones);
    }
  }

  predicate TimeSorted(ws: seq<Work>) {
    forall i, j :: 0 <= i < j < |ws| ==> ws[i].timestamp <= ws[j].timestamp
  }

  /** Inserts `w` after every work that is not later than it. */
  function InsertByTime(w: Work, ws: seq<Work>): seq<Work> {
    if ws == [] then [w]
    else if w.timestamp < ws[0].timestamp then [w] + ws
    else [ws[0]] + InsertByTime(w, ws[1..])
  }

  /** Inserting adds exactly `w`. */
  lemma {:induction false} InsertByTimeAdds(w: Work, ws: seq<Work>)
    ensures multiset(InsertByTime(w, ws)) == multiset(ws) + multiset{w}
  {
    if ws != [] {
      assert ws == [ws[0]] + ws[1..];
      if w.timestamp >= ws[0].timestamp {
        InsertByTimeAdds(w, ws[1..]);
      }
    }
  }

  /** A time no later than `w` and every work is no later than any work after inserting. */
  lemma {:induction false} InsertByTimeBound(w: Work, ws: seq<Work>, t: int)
    requires t <= w.timestamp && forall i :: 0 <= i < |ws| ==> t <= ws[i].timestamp
    ensures forall j :: 0 <= j < |InsertByTime(w, ws)| ==> t <= InsertByTime(w, ws)[j].timestamp
  {
    if ws != [] && w.timestamp >= ws[0].timestamp {
      InsertByTimeBound(w, ws[1..], t);
    }
  }

  /** Inserting into a time-ordered list keeps it in time order. */
  lemma {:induction false} InsertByTimeSorted(w: Work, ws: seq<Work>)
    requires TimeSorted(ws)
    ensures TimeSorted(InsertByTime(w, ws))
  {
    if ws != [] {
      if w.timestamp >= ws[0].timestamp {
        InsertByTimeSorted(w, ws[1..]);
        InsertByTimeBound(w, ws[1..], ws[0].timestamp);
      } else {
        InsertByTimeBound(w, [], w.timestamp);
      }
    }
  }

  /** `order_by("timestamp")`: the works in time order; works with equal timestamps keep their order. */
  function SortByTime(ws: seq<Work>): (r: seq<Work>)
    ensures TimeSorted(r) && multiset(r) == multiset(ws)
  {
    if ws == [] then []
    else
      var init := SortByTime(ws[..|ws| - 1]);
      assert ws == ws[..|ws| - 1] + [ws[|ws| - 1]];
      InsertByTimeSorted(ws[|ws| - 1], init);
      InsertByTimeAdds(ws[|ws| - 1], init);
      InsertByTime(ws[|ws| - 1], init)
  }

  /** Ordering works that are already in time order changes nothing. */
  lemma {:induction false} SortSorted(ws: seq<Work>)
    requires TimeSorted(ws)
    ensures SortByTime(ws) == ws
  {
    if ws != [] {
      var init, w := ws[..|ws| - 1], ws[|ws| - 1];
      SortSorted(init);
      InsertLast(w, init);
      assert init + [w] == ws;
    }
  }

  /** A work not earlier than all the others goes at the end. */
  lemma {:induction false} InsertLast(w: Work, ws: seq<Work>)
    requires TimeSorted(ws) && forall i :: 0 <= i < |ws| ==> ws[i].timestamp <= w.timestamp
    ensures InsertByTime(w, ws) == ws + [w]
  {
    if ws != [] {
      InsertLast(w, ws[1..]);
      assert ws == [ws[0]] + ws[1..];
    }
  }

  predicate Increasing(ids: seq<int>) {
    forall i, j :: 0 <= i < j < |ids| ==> ids[i] < ids[j]
  }

  /** Inserts `u` into an increasing list unless it is there already. */
  function InsertId(u: int, ids: seq<int>): seq<int> {
    if ids == [] then [u]
    else if u < ids[0] then [u] + ids
    else if u == ids[0] then ids
    else [ids[0]] + InsertId(u, ids[1..])
  }

  /** Inserting adds exactly `u`. */
  lemma {:induction false} InsertIdMembers(u: int, ids: seq<int>)
    ensures forall v :: v in InsertId(u, ids) <==> v == u || v in ids
  {
    if ids != [] && u > ids[0] {
      InsertIdMembers(u, ids[1..]);
      assert ids == [ids[0]] + ids[1..];
    }
  }

  /** Inserting keeps the list increasing. */
  lemma {:induction false} InsertIdIncreasing(u: int, ids: seq<int>)
    requires Increasing(ids)
    ensures Increasing(InsertId(u, ids))
  {
    if ids != [] && u > ids[0] {
      var rest := InsertId(u, ids[1..]);
      InsertIdIncreasing(u, ids[1..]);
      InsertIdMembers(u, ids[1..]);
      assert forall v :: v in rest ==> ids[0] < v by {
        forall v | v in rest ensures ids[0] < v {
          if v != u {
            var k :| 1 <= k < |ids| && ids[k] == v by {
              assert v in ids[1..];
            }
          }
        }
      }
      var r := [ids[0]] + rest;
      assert InsertId(u, ids) == r;
      forall i, j | 0 <= i < j < |r| ensures r[i] < r[j] {
        if i == 0 {
          assert r[j] in rest;
        }
      }
    }
  }

  /**
   * `order_by("maintenance_unit_id").distinct("maintenance_unit_id")`: every
   * unit that has a work, once each, in increasing order.
   */
  function UnitIds(ws: seq<Work>): (ids: seq<int>)
    ensures Increasing(ids)
    ensures forall i :: 0 <= i < |ws| ==> ws[i].unitId in ids
    ensures forall u :: u in ids ==> exists i :: 0 <= i < |ws| && ws[i].unitId == u
  {
    if ws == [] then []
    else
      var ids := UnitIds(ws[..|ws| - 1]);
      assert forall i :: 0 <= i < |ws| - 1 ==> ws[..|ws| - 1][i] == ws[i];
      InsertIdMembers(ws[|ws| - 1].unitId, ids);
      InsertIdIncreasing(ws[|ws| - 1].unitId, ids);
      InsertId(ws[|ws| - 1].unitId, ids)
  }

  /** `queryset.filter(maintenance_unit_id=u)`, in query-set order. */
  function OfUnit(ws: seq<Work>, u: int): (r: seq<Work>)
    ensures forall w :: w in r <==> w in ws && w.unitId == u
    ensures (exists i :: 0 <= i < |ws| && ws[i].unitId == u) ==> r != []
  {
    if ws == [] then []
    else
      assert ws[0] in ws;
      (if ws[0].unitId == u then [ws[0]] else []) + OfUnit(ws[1..], u)
  }

  /** The outputs of the given units, one after another. */
  function Outputs(qs: seq<Work>, units: seq<int>, maxWorkLength: int): seq<Output> {
    if units == [] then []
    else
      var u := units[|units| - 1];
      Outputs(qs, units[..|units| - 1], maxWorkLength) + Emit(Runs(SortByTime(OfUnit(qs, u)), maxWorkLength))
  }

  /** The body of the `get_geometry_history` response: all linestrings and all lone points. */
  datatype History = History(linestrings: seq<seq<Point>>, points: seq<Point>)

  /**
   * `get_geometry_history`: the segmented works of every unit in the query
   * set, units in increasing order; an error when `max_work_length` is not
   * an integer.
   */
  function GeometryHistory(works: seq<Work>, f: Filters, maxParam: Option<string>): Result<History> {
    match MaxWorkLength(maxParam)
    case Err(e) => Err(e)
    case Ok(maxWorkLength) => Ok(HistoryOf(FilterWorks(works, f), maxWorkLength))
  }

  /** The linestrings and lone points of every unit of the query set, units in increasing order. */
  function HistoryOf(qs: seq<Work>, maxWorkLength: int): History {
    var os := Outputs(qs, UnitIds(qs), maxWorkLength);
    History(Lines(os), Lones(os))
  }

  /** One more unit: its works are not empty, and its outputs follow those of the units before it. */
  lemma OutputsStep(qs: seq<Work>, unitIds: seq<int>, k: nat, maxWorkLength: int)
    requires k < |unitIds| && forall u :: u in unitIds ==> OfUnit(qs, u) != []
    ensures var ws, before := SortByTime(OfUnit(qs, unitIds[k])), Outputs(qs, unitIds[..k], maxWorkLength);
      && ws != []
      && Lines(Outputs(qs, unitIds[..k + 1], maxWorkLength)) == Lines(before) + Lines(Emit(Runs(ws, maxWorkLength)))
      && Lones(Outputs(qs, unitIds[..k + 1], maxWorkLength)) == Lones(before) + Lones(Emit(Runs(ws, maxWorkLength)))
  {
    var u := unitIds[k];
    var ws := SortByTime(OfUnit(qs, u));
    assert unitIds[..k + 1][..k] == unitIds[..k] && unitIds[..k + 1][k] == u;
    assert ws != [] by {
      assert u in unitIds;
      assert multiset(ws) == multiset(OfUnit(qs, u));
    }
    LinesAppend(Outputs(qs, unitIds[..k], maxWorkLength), Emit(Runs(ws, maxWorkLength)));
    LonesAppend(Outputs(qs, unitIds[..k], maxWorkLength), Emit(Runs(ws, maxWorkLength)));
  }

  /** The outer loop of `get_geometry_history`: each unit's time-ordered works segmented in turn. */
  method SegmentUnits(qs: seq<Work>, unitIds: seq<int>, maxWorkLength: int) returns (h: History)
    requires forall u :: u in unitIds ==> OfUnit(qs, u) != []
    ensures h == History(Lines(Outputs(qs, unitIds, maxWorkLength)), Lones(Outputs(qs, unitIds, maxWorkLength)))
  {
    var lines: seq<seq<Point>> := [];
    var lones: seq<Point> := [];
    for k := 0 to |unitIds|
      invariant lines == Lines(Outputs(qs, unitIds[..k], maxWorkLength))
      invariant lones == Lones(Outputs(qs, unitIds[..k], maxWorkLength))
    {
      var u := unitIds[k];
      var unitWorks := SortByTime(OfUnit(qs, u));
      OutputsStep(qs, unitIds, k, maxWorkLength);
      lines, lones := SegmentUnit(unitWorks, maxWorkLength, lines, lones);
    }
    assert unitIds[..|unitIds|] == unitIds;
    h := History(lines, lones);
  }

  /**
   * The endpoint: `max_work_length` read from the parameters (an error when
   * it is not an integer), then the units of the filtered query set in turn.
   */
  method GetGeometryHistory(works: seq<Work>, f: Filters, maxParam: Option<string>) returns (r: Result<History>)
    ensures r == GeometryHistory(works, f, maxParam)
  {
    var maxWorkLength := 30 * 60;
    if maxParam.Some? {
      var n := ParseInt(maxParam.value);
      if n.None? {
        return Err("'max_work_length' needs to be of type integer.");
      }
      maxWorkLength := n.value;
    }
    var qs := FilterWorks(works, f);
    var unitIds := UnitIds(qs);
    var h := SegmentUnits(qs, unitIds, maxWorkLength);
    r := Ok(h);
  }

  /** A linestring or lone point is an entry of the outputs it was filtered from. */
  lemma {:induction false} LinesOf(os: seq<Output>)
    ensures forall l :: l in Lines(os) ==> Line(l) in os
    ensures forall x :: x in Lones(os) ==> Lone(x) in os
  {
    if os != [] {
      var init := os[..|os| - 1];
      LinesOf(init);
      assert forall o :: o in init ==> o in os;
    }
  }

  /** The output's points all lie in `ps`. */
  predicate Within(o: Output, ps: seq<Point>) {
    match o
    case Line(l) => forall x :: x in l ==> x in ps
    case Lone(x) => x in ps
  }

  /** A run's points are among all the runs' points. */
  lemma {:induction false} FlattenMember(rs: seq<seq<Point>>, k: nat)
    requires k < |rs|
    ensures forall x :: x in rs[k] ==> x in Flatten(rs)
  {
    var init := rs[..|rs| - 1];
    if k < |rs| - 1 {
      FlattenMember(init, k);
    }
  }

  /** Every output of a unit is a linestring of two or more of its points, or one of its points. */
  lemma EmitWithin(ws: seq<Work>, maxWorkLength: int)
    ensures forall o :: o in Emit(Runs(ws, maxWorkLength)) ==>
      Within(o, Points(ws)) && (o.Line? ==> |o.points| >= 2)
  {
    var rs := Runs(ws, maxWorkLength);
    RunsPartition(ws, maxWorkLength);
    forall k | 0 <= k < |rs| ensures forall x :: x in rs[k] ==> x in Points(ws) {
      FlattenMember(rs, k);
    }
    forall o | o in Emit(rs) ensures Within(o, Points(ws)) && (o.Line? ==> |o.points| >= 2) {
      var j :| 0 <= j < |rs| && Emit(rs)[j] == o;
      EmitAtWithin(rs, j, Points(ws));
    }
  }

  /** Output `j` of a unit: run `j` closed by the first point of the next run, or the last run closed by its own last point. */
  lemma EmitAt(rs: seq<seq<Point>>, j: nat)
    requires j < |rs| && forall k :: 0 <= k < |rs| ==> rs[k] != []
    ensures Emit(rs)[j] == if j < |rs| - 1 then Out(rs[j], rs[j + 1][0]) else Out(rs[j], rs[j][|rs[j]| - 1])
  {
    if j < |rs| - 1 {
      assert Emit(rs)[j] == Closed(rs)[j];
    }
  }

  /** A run drawn from `pts` closed by a point of `pts` gives an output drawn from `pts`. */
  lemma OutWithin(run: seq<Point>, closer: Point, pts: seq<Point>)
    requires (forall x :: x in run ==> x in pts) && closer in pts
    ensures Within(Out(run, closer), pts) && (Out(run, closer).Line? ==> |Out(run, closer).points| >= 2)
  {
  }

  /** Output `j` of runs drawn from `pts` is drawn from `pts`. */
  lemma EmitAtWithin(rs: seq<seq<Point>>, j: nat, pts: seq<Point>)
    requires j < |rs| && forall k :: 0 <= k < |rs| ==> rs[k] != []
    requires forall k :: 0 <= k < |rs| ==> forall x :: x in rs[k] ==> x in pts
    ensures Within(Emit(rs)[j], pts) && (Emit(rs)[j].Line? ==> |Emit(rs)[j].points| >= 2)
  {
    EmitAt(rs, j);
    var run := rs[j];
    assert forall x :: x in run ==> x in pts;
    if j < |rs| - 1 {
      var next := rs[j + 1];
      assert forall x :: x in next ==> x in pts;
      assert next[0] in next;
      OutWithin(run, next[0], pts);
    } else {
      assert run[|run| - 1] in run;
      OutWithin(run, run[|run| - 1], pts);
    }
  }

  /** The points of a unit's time-ordered works are points of the query set. */
  lemma UnitPoints(qs: seq<Work>, u: int)
    ensures forall x :: x in Points(SortByTime(OfUnit(qs, u))) ==> x in Points(qs)
  {
    var ws := SortByTime(OfUnit(qs, u));
    forall x | x in Points(ws) ensures x in Points(qs) {
      var i :| 0 <= i < |ws| && Points(ws)[i] == x;
      assert ws[i] in multiset(OfUnit(qs, u));
      var j :| 0 <= j < |qs| && qs[j] == ws[i];
      assert Points(qs)[j] == x;
    }
  }

  /** Every output of the given units lies in the query set and every linestring has two or more points. */
  lemma {:induction false} OutputsWithin(qs: seq<Work>, units: seq<int>, maxWorkLength: int)
    ensures forall o :: o in Outputs(qs, units, maxWorkLength) ==>
      Within(o, Points(qs)) && (o.Line? ==> |o.points| >= 2)
  {
    if units != [] {
      var u := units[|units| - 1];
      var ws := SortByTime(OfUnit(qs, u));
      OutputsWithin(qs, units[..|units| - 1], maxWorkLength);
      EmitWithin(ws, maxWorkLength);
      UnitPoints(qs, u);
    }
  }

  /** The total number of runs of the given units: one per unit plus one per long gap. */
  function RunTotal(qs: seq<Work>, units: seq<int>, maxWorkLength: int): nat {
    if units == [] then 0
    else RunTotal(qs, units[..|units| - 1], maxWorkLength)
         + 1 + BreakCount(SortByTime(OfUnit(qs, units[|units| - 1])), maxWorkLength)
  }

  /** The given units, each with at least one work, give one output per run. */
  lemma {:induction false} OutputsCount(qs: seq<Work>, units: seq<int>, maxWorkLength: int)
    requires forall u :: u in units ==> OfUnit(qs, u) != []
    ensures |Outputs(qs, units, maxWorkLength)| == RunTotal(qs, units, maxWorkLength)
  {
    if units != [] {
      var u := units[|units| - 1];
      var ws := SortByTime(OfUnit(qs, u));
      OutputsCount(qs, units[..|units| - 1], maxWorkLength);
      assert multiset(ws) == multiset(OfUnit(qs, u));
      assert ws != [];
      RunsPartition(ws, maxWorkLength);
    }
  }

  /** The response holds one linestring or lone point per run of each unit. */
  lemma HistoryCount(qs: seq<Work>, maxWorkLength: int)
    ensures var h := HistoryOf(qs, maxWorkLength);
      |h.linestrings| + |h.points| == RunTotal(qs, UnitIds(qs), maxWorkLength)
  {
    var os := Outputs(qs, UnitIds(qs), maxWorkLength);
    OutputsCount(qs, UnitIds(qs), maxWorkLength);
    OutputCount(os);
  }

  /** A point of the filtered query set is the location of a work that passed the filters. */
  lemma FilteredPoints(works: seq<Work>, f: Filters)
    ensures forall x :: x in Points(FilterWorks(works, f)) ==> exists w :: w in works && Matches(w, f) && w.point == x
  {
    var qs := FilterWorks(works, f);
    FilterWorksMembers(works, f);
    forall x | x in Points(qs) ensures exists w :: w in works && Matches(w, f) && w.point == x {
      var i :| 0 <= i < |qs| && Points(qs)[i] == x;
      assert qs[i] in qs;
    }
  }

  /**
   * Every linestring of the response has two or more points, and every
   * point reported is the location of a work that passed the filters.
   */
  lemma HistoryFromWorks(works: seq<Work>, f: Filters, maxWorkLength: int)
    ensures var h := HistoryOf(FilterWorks(works, f), maxWorkLength);
      && (forall l :: l in h.linestrings ==> |l| >= 2)
      && (forall l, x :: l in h.linestrings && x in l ==> exists w :: w in works && Matches(w, f) && w.point == x)
      && (forall x :: x in h.points ==> exists w :: w in works && Matches(w, f) && w.point == x)
  {
    var qs := FilterWorks(works, f);
    var os := Outputs(qs, UnitIds(qs), maxWorkLength);
    var h := HistoryOf(qs, maxWorkLength);
    assert h == History(Lines(os), Lones(os));
    OutputsWithin(qs, UnitIds(qs), maxWorkLength);
    LinesOf(os);
    FilteredPoints(works, f);
    forall l, x | l in h.linestrings && x in l ensures exists w :: w in works && Matches(w, f) && w.point == x {
      assert Within(Line(l), Points(qs));
    }
    forall x | x in h.points ensures exists w :: w in works && Matches(w, f) && w.point == x {
      assert Within(Lone(x), Points(qs));
    }
  }

  /** Selecting the unit of every work keeps them all. */
  lemma {:induction false} OfUnitAll(ws: seq<Work>, u: int)
    requires forall i :: 0 <= i < |ws| ==> ws[i].unitId == u
    ensures OfUnit(ws, u) == ws
  {
    if ws != [] {
      OfUnitAll(ws[1..], u);
      assert ws == [ws[0]] + ws[1..];
    }
  }

  /** The works of a single unit have that one unit id. */
  lemma {:induction false} UnitIdsSingle(ws: seq<Work>, u: int)
    requires ws != [] && forall i :: 0 <= i < |ws| ==> ws[i].unitId == u
    ensures UnitIds(ws) == [u]
  {
    if |ws| > 1 {
      UnitIdsSingle(ws[..|ws| - 1], u);
    }
  }

  /** Time-ordered works of a single unit are segmented as they come. */
  lemma SingleUnitHistory(ws: seq<Work>, u: int, maxWorkLength: int)
    requires ws != [] && TimeSorted(ws) && forall i :: 0 <= i < |ws| ==> ws[i].unitId == u
    ensures var os := Emit(Runs(ws, maxWorkLength)); HistoryOf(ws, maxWorkLength) == History(Lines(os), Lones(os))
  {
    var ids := UnitIds(ws);
    UnitIdsSingle(ws, u);
    OfUnitAll(ws, u);
    SortSorted(ws);
    var os := Emit(Runs(ws, maxWorkLength));
    assert [u][..0] == [];
    assert Outputs(ws, [u], maxWorkLength) == Outputs(ws, [], maxWorkLength) + os;
    assert Outputs(ws, ids, maxWorkLength) == os;
  }

  /** The runs of two works. */
  lemma TwoWorksRuns(w0: Work, w1: Work, maxWorkLength: int)
    ensures Runs([w0, w1], maxWorkLength)
      == if Seconds(w0.timestamp, w1.timestamp) > maxWorkLength then [[w0.point], [w1.point]]
         else [[w0.point, w1.point]]
  {
    var ws := [w0, w1];
    assert ws[..1] == [w0];
    assert Runs([w0], maxWorkLength) == [[w0.point]];
    var rs := [[w0.point]];
    assert Breaks(ws, 1, maxWorkLength) == (Seconds(w0.timestamp, w1.timestamp) > maxWorkLength);
    assert [w0.point] + [w1.point] == [w0.point, w1.point];
    assert rs[..0] + [rs[0] + [w1.point]] == [[w0.point, w1.point]];
  }

  /**
   * A run of a single work closed by a long gap is reported as the point of
   * the work that closed it: of two works of one unit with a long gap
   * between them, the later point is reported twice and the earlier one not
   * at all; with a short gap they make one linestring.
   */
  lemma TwoWorksHistory(w0: Work, w1: Work, maxWorkLength: int)
    requires w0.unitId == w1.unitId && w0.timestamp <= w1.timestamp
    ensures HistoryOf([w0, w1], maxWorkLength)
      == if Seconds(w0.timestamp, w1.timestamp) > maxWorkLength then History([], [w1.point, w1.point])
         else History([[w0.point, w1.point]], [])
  {
    SingleUnitHistory([w0, w1], w0.unitId, maxWorkLength);
    TwoWorksRuns(w0, w1, maxWorkLength);
    TwoRunsOutputs(w0.point, w1.point);
  }

  /** The outputs of two runs of one point each, and of one run of two points. */
  lemma TwoRunsOutputs(p0: Point, p1: Point)
    ensures Lines(Emit([[p0], [p1]])) == [] && Lones(Emit([[p0], [p1]])) == [p1, p1]
    ensures Lines(Emit([[p0, p1]])) == [[p0, p1]] && Lones(Emit([[p0, p1]])) == []
  {
    var os := [Lone(p1), Lone(p1)];
    assert Emit([[p0], [p1]]) == os;
    assert os[..1] == [Lone(p1)] && os[..1][..0] == [];
    assert Lones(os[..1]) == [p1] && Lines(os[..1]) == [];
    var os' := [Line([p0, p1])];
    assert Emit([[p0, p1]]) == os';
    assert os'[..0] == [];
  }

  /**
   * Only the seconds part of a gap counts, not its days: two works of one
   * unit a day and ten seconds apart stay on one linestring.
   */
  lemma DayLongGapIgnored(w0: Work, w1: Work)
    requires w0.unitId == w1.unitId && w1.timestamp == w0.timestamp + (86400 + 10) * 1000000
    ensures HistoryOf([w0, w1], 1800) == History([[w0.point, w1.point]], [])
  {
    assert w1.timestamp - w0.timestamp == 86410000000;
    assert Seconds(w0.timestamp, w1.timestamp) == 10;
    TwoWorksHistory(w0, w1, 1800);
  }
}
