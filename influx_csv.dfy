/**
 * The CSV path of the stand-alone script src/main.py: `format_timestamp`,
 * `parse_influxdb_csv` and `influx_to_prometheus`. The CSV text is taken as
 * the rows `csv.reader` yields, each a sequence of cells.
 */
module InfluxCsv {
  import opened Wrappers
  import opened Text
  import opened Python
  import opened Collections

  /** The exceptions of this path: the two ValueErrors of the parser and a timestamp `float()` rejects. */
  datatype CsvError =
    | MissingHeaders
    | MissingColumns
    | InvalidTimestamp(timestamp: string)

  /** One parsed data row: the dict `parse_influxdb_csv` appends. */
  datatype InfluxPoint = InfluxPoint(
    timestamp: string,
    measurement: string,
    field: string,
    value: string,
    tags: Dict)

  /** The positions of `_time`, `_measurement`, `_field` and `_value` in the header row. */
  datatype Columns = Columns(time: nat, measurement: nat, field: nat, value: nat)

  // ---------------------------------------------------------------------------
  // format_timestamp
  // ---------------------------------------------------------------------------

  /**
   * `format_timestamp`: an ISO 8601 string (a 'Z' read as "+00:00") becomes
   * epoch milliseconds; otherwise a string longer than 12 characters is taken to
   * be milliseconds already and kept, and a shorter one is read as seconds. A
   * decimal integer of at most 12 characters times 1000 stays below 2^53, so
   * `int(float(s) * 1000)` is exact there; other short strings go through the
   * float arithmetic of `rt.secondsToMillis`.
   */
  function FormatTimestamp(rt: Runtime, ts: string): (r: Result<string, CsvError>)
    ensures r.Success? ==> |r.value| > 0
    ensures r.Failure? ==> r.error == InvalidTimestamp(ts) && |ts| <= 12
  {
    match rt.isoMillis(ReplaceChar(ts, 'Z', "+00:00"))
    case Some(ms) => Success(IntToString(ms))
    case None =>
      if |ts| > 12 then Success(ts)
      else if ParseInt(ts).Some? then Success(IntToString(ParseInt(ts).value * 1000))
      else
        match rt.secondsToMillis(ts)
        case Some(ms) => Success(IntToString(ms))
        case None => Failure(InvalidTimestamp(ts))
  }

  /**
   * A formatted timestamp is the long input itself or the canonical decimal
   * text of an integer, and that of the epoch milliseconds whenever the ISO
   * parse succeeds; failure needs a short non-number.
   */
  lemma FormattedTimestampIsInteger(rt: Runtime, ts: string)
    ensures rt.isoMillis(ReplaceChar(ts, 'Z', "+00:00")).Some? ==>
      && FormatTimestamp(rt, ts).Success?
      && FormatTimestamp(rt, ts) == Success(IntToString(rt.isoMillis(ReplaceChar(ts, 'Z', "+00:00")).value))
      && ParseInt(FormatTimestamp(rt, ts).value) == rt.isoMillis(ReplaceChar(ts, 'Z', "+00:00"))
    ensures FormatTimestamp(rt, ts).Success? ==>
      || (|ts| > 12 && FormatTimestamp(rt, ts).value == ts)
      || (&& ParseInt(FormatTimestamp(rt, ts).value).Some?
          && FormatTimestamp(rt, ts).value == IntToString(ParseInt(FormatTimestamp(rt, ts).value).value))
    ensures rt.isoMillis(ReplaceChar(ts, 'Z', "+00:00")).None? && |ts| > 12 ==> FormatTimestamp(rt, ts) == Success(ts)
    ensures FormatTimestamp(rt, ts).Failure? ==>
      |ts| <= 12 && ParseInt(ts).None? && FormatTimestamp(rt, ts) == Failure(InvalidTimestamp(ts))
  {
    match rt.isoMillis(ReplaceChar(ts, 'Z', "+00:00"))
    case Some(ms) => IntToStringRoundTrip(ms);
    case None =>
      if |ts| <= 12 {
        if ParseInt(ts).Some? {
          IntToStringRoundTrip(ParseInt(ts).value * 1000);
        } else if rt.secondsToMillis(ts).Some? {
          IntToStringRoundTrip(rt.secondsToMillis(ts).value);
        }
      }
  }

  /** Epoch seconds written as a short decimal integer come out as that many milliseconds, exactly. */
  lemma EpochSecondsToMillis(rt: Runtime, ts: string, n: int)
    requires rt.isoMillis(ReplaceChar(ts, 'Z', "+00:00")).None?
    requires |ts| <= 12 && ParseInt(ts) == Some(n)
    ensures FormatTimestamp(rt, ts) == Success(IntToString(n * 1000))
    ensures ParseInt(FormatTimestamp(rt, ts).value) == Some(n * 1000)
  {
    IntToStringRoundTrip(n * 1000);
  }

  /** The text of an integer has no line break in it. */
  lemma IntToStringOneLine(i: int)
    ensures '\n' !in IntToString(i)
  {
  }

  // ---------------------------------------------------------------------------
  // parse_influxdb_csv: the specification
  // ---------------------------------------------------------------------------

  /** A row the header search does not skip: not empty and not an annotation (`#...`). */
  predicate IsHeaderCandidate(row: seq<string>) {
    row != [] && !StartsWith(row[0], "#")
  }

  /** The position of the header row: the first row that is neither empty nor an annotation. */
  function HeaderIndex(rows: seq<seq<string>>): (r: Option<nat>)
    ensures r.Some? ==> r.value < |rows| && IsHeaderCandidate(rows[r.value])
    ensures r.Some? ==> forall i :: 0 <= i < r.value ==> !IsHeaderCandidate(rows[i])
    ensures r.None? <==> forall i :: 0 <= i < |rows| ==> !IsHeaderCandidate(rows[i])
    decreases |rows|
  {
    if rows == [] then None
    else if IsHeaderCandidate(rows[0]) then Some(0)
    else
      match HeaderIndex(rows[1..])
      case None => None
      case Some(j) => Some(j + 1)
  }

  /** The four required columns, each at its first occurrence in the header. */
  function FindColumns(header: seq<string>): (r: Option<Columns>)
    ensures r.None? <==>
      ("_time" !in header || "_measurement" !in header || "_field" !in header || "_value" !in header)
  {
    match (IndexOf(header, "_time"), IndexOf(header, "_measurement"), IndexOf(header, "_field"), IndexOf(header, "_value"))
    case (Some(t), Some(m), Some(f), Some(v)) => Some(Columns(t, m, f, v))
    case _ => None
  }

  function Max(a: nat, b: nat): nat {
    if a < b then b else a
  }

  /** `max(time_idx, measurement_idx, field_idx, value_idx) + 1`: the fewest cells a data row needs. */
  function Width(c: Columns): nat {
    Max(Max(c.time, c.measurement), Max(c.field, c.value)) + 1
  }

  /** The cell at position i is a tag: its header does not start with '_' and the row has a non-empty cell there. */
  predicate IsTagCell(header: seq<string>, row: seq<string>, i: nat)
    requires i < |header|
  {
    !StartsWith(header[i], "_") && i < |row| && row[i] != ""
  }

  /** The tag dict after the first n headers; a repeated tag name keeps its place and takes the later value. */
  function TagsUpTo(header: seq<string>, row: seq<string>, n: nat): Dict
    requires n <= |header|
    decreases n
  {
    if n == 0 then []
    else
      var tags := TagsUpTo(header, row, n - 1);
      if IsTagCell(header, row, n - 1) then Put(tags, header[n - 1], row[n - 1]) else tags
  }

  function RowTags(header: seq<string>, row: seq<string>): Dict {
    TagsUpTo(header, row, |header|)
  }

  /** The point one data row becomes. */
  function RowPoint(header: seq<string>, c: Columns, row: seq<string>): InfluxPoint
    requires |row| >= Width(c)
  {
    InfluxPoint(row[c.time], row[c.measurement], row[c.field], row[c.value], RowTags(header, row))
  }

  /** A data row with too few cells (an empty row among them) is skipped. */
  predicate IsComplete(c: Columns, row: seq<string>) {
    row != [] && |row| >= Width(c)
  }

  /** The points of the rows after the header, in order. */
  function DataPoints(header: seq<string>, c: Columns, rows: seq<seq<string>>): seq<InfluxPoint>
    decreases |rows|
  {
    if rows == [] then []
    else
      var row := rows[|rows| - 1];
      DataPoints(header, c, rows[..|rows| - 1]) + (if IsComplete(c, row) then [RowPoint(header, c, row)] else [])
  }

  /** What `parse_influxdb_csv` returns for the rows of a CSV text, or the error it raises. */
  function ParseCsv(rows: seq<seq<string>>): Result<seq<InfluxPoint>, CsvError> {
    match HeaderIndex(rows)
    case None => Failure(MissingHeaders)
    case Some(h) =>
      match FindColumns(rows[h])
      case None => Failure(MissingColumns)
      case Some(c) => Success(DataPoints(rows[h], c, rows[h + 1..]))
  }

  // ---------------------------------------------------------------------------
  // parse_influxdb_csv: the loops
  // ---------------------------------------------------------------------------

  /** The tag dict of one data row, built by the source's `enumerate(headers)` loop. */
  method CollectTags(header: seq<string>, row: seq<string>) returns (tags: Dict)
    ensures tags == RowTags(header, row)
  {
    tags := [];
    for i := 0 to |header|
      invariant tags == TagsUpTo(header, row, i)
    {
      if !StartsWith(header[i], "_") && i < |row| && row[i] != "" {
        tags := Put(tags, header[i], row[i]);
      }
    }
  }

  /**
   * `parse_influxdb_csv`: one pass over the rows. The header search stops at
   * the header; the data loop goes on from the row after it.
   */
  method ParseInfluxCsv(rows: seq<seq<string>>) returns (r: Result<seq<InfluxPoint>, CsvError>)
    ensures r == ParseCsv(rows)
  {
    var pos, headers := FindHeader(rows);
    if headers.None? {
      return Failure(MissingHeaders);
    }
    var header := headers.value;

    var timeIdx := IndexOf(header, "_time");
    var measurementIdx := IndexOf(header, "_measurement");
    var fieldIdx := IndexOf(header, "_field");
    var valueIdx := IndexOf(header, "_value");
    if timeIdx.None? || measurementIdx.None? || fieldIdx.None? || valueIdx.None? {
      return Failure(MissingColumns);
    }
    var c := Columns(timeIdx.value, measurementIdx.value, fieldIdx.value, valueIdx.value);
    assert FindColumns(header) == Some(c);

    var points := ReadDataRows(header, c, rows, pos);
    return Success(points);
  }

  /**
   * The header loop: skips empty and `#` rows and stops after the first other
   * row, which is the header. `pos` is where the reader stands afterwards.
   */
  method FindHeader(rows: seq<seq<string>>) returns (pos: nat, headers: Option<seq<string>>)
    ensures headers.None? <==> HeaderIndex(rows).None?
    ensures headers.Some? ==> 0 < pos <= |rows| && HeaderIndex(rows) == Some(pos - 1) && headers.value == rows[pos - 1]
  {
    pos := 0;
    headers := None;
    while pos < |rows|
      invariant 0 <= pos <= |rows|
      invariant headers.None?
      invariant forall i :: 0 <= i < pos ==> !IsHeaderCandidate(rows[i])
    {
      var row := rows[pos];
      pos := pos + 1;
      if row == [] {
        continue;
      }
      if StartsWith(row[0], "#") {
        continue;
      }
      headers := Some(row);
      break;
    }
    if headers.Some? {
      var h := HeaderIndex(rows);
      assert h.Some?;
      assert !(h.value < pos - 1) && !(pos - 1 < h.value);
    }
  }

  /** The data loop: from position `start` on, every complete row becomes a point, the others are skipped. */
  method ReadDataRows(header: seq<string>, c: Columns, rows: seq<seq<string>>, start: nat)
    returns (points: seq<InfluxPoint>)
    requires start <= |rows|
    ensures points == DataPoints(header, c, rows[start..])
  {
    var width := Max(Max(c.time, c.measurement), Max(c.field, c.value)) + 1;
    var pos := start;
    points := [];
    while pos < |rows|
      invariant start <= pos <= |rows|
      invariant points == DataPoints(header, c, rows[start..pos])
    {
      var row := rows[pos];
      pos := pos + 1;
      assert rows[start..pos] == rows[start..pos - 1] + [row];
      if row == [] || |row| < width {
        continue;
      }
      var tags := CollectTags(header, row);
      points := points + [InfluxPoint(row[c.time], row[c.measurement], row[c.field], row[c.value], tags)];
    }
    assert rows[start..pos] == rows[start..];
  }

  // ---------------------------------------------------------------------------
  // Properties of the parser
  // ---------------------------------------------------------------------------

  /** The parser fails exactly when no row can be the header, or the header lacks a required column. */
  lemma ParseCsvFailures(rows: seq<seq<string>>)
    ensures ParseCsv(rows) == Failure(MissingHeaders) <==> forall i :: 0 <= i < |rows| ==> !IsHeaderCandidate(rows[i])
    ensures ParseCsv(rows) == Failure(MissingColumns) <==>
      exists h :: 0 <= h < |rows| && IsHeaderCandidate(rows[h])
        && (forall i :: 0 <= i < h ==> !IsHeaderCandidate(rows[i]))
        && ("_time" !in rows[h] || "_measurement" !in rows[h] || "_field" !in rows[h] || "_value" !in rows[h])
    ensures ParseCsv(rows).Failure? ==> !ParseCsv(rows).error.InvalidTimestamp?
  {
    var hi := HeaderIndex(rows);
    if hi.Some? {
      forall h | 0 <= h < |rows| && IsHeaderCandidate(rows[h]) && (forall i :: 0 <= i < h ==> !IsHeaderCandidate(rows[i]))
        ensures h == hi.value
      {
        assert !(h < hi.value) && !(hi.value < h);
      }
    }
  }

  /** The data rows are read as a stream: the points of two consecutive stretches of rows are concatenated. */
  lemma {:induction false} DataPointsAppend(header: seq<string>, c: Columns, a: seq<seq<string>>, b: seq<seq<string>>)
    ensures DataPoints(header, c, a + b) == DataPoints(header, c, a) + DataPoints(header, c, b)
    decreases |b|
  {
    if b == [] {
      assert a + b == a;
    } else {
      DataPointsAppend(header, c, a, b[..|b| - 1]);
      assert (a + b)[..|a + b| - 1] == a + b[..|b| - 1];
    }
  }

  /**
   * Each point comes from one complete data row, in row order; annotation rows
   * after the header are not skipped, so a long enough one becomes a point too.
   */
  lemma {:induction false} DataPointsFromRows(header: seq<string>, c: Columns, rows: seq<seq<string>>)
    ensures |DataPoints(header, c, rows)| <= |rows|
    ensures forall p :: p in DataPoints(header, c, rows) ==>
      exists i :: 0 <= i < |rows| && IsComplete(c, rows[i]) && p == RowPoint(header, c, rows[i])
    ensures (forall i :: 0 <= i < |rows| ==> IsComplete(c, rows[i])) ==> |DataPoints(header, c, rows)| == |rows|
    decreases |rows|
  {
    if rows != [] {
      var init := rows[..|rows| - 1];
      DataPointsFromRows(header, c, init);
      forall p | p in DataPoints(header, c, rows)
        ensures exists i :: 0 <= i < |rows| && IsComplete(c, rows[i]) && p == RowPoint(header, c, rows[i])
      {
        if p in DataPoints(header, c, init) {
          var i :| 0 <= i < |init| && IsComplete(c, init[i]) && p == RowPoint(header, c, init[i]);
          assert rows[i] == init[i];
        }
      }
    }
  }

  /** The required columns are read at the first header cell that carries their name. */
  lemma ColumnsAreFirstOccurrences(header: seq<string>, c: Columns)
    requires FindColumns(header) == Some(c)
    ensures c.time < |header| && header[c.time] == "_time" && "_time" !in header[..c.time]
    ensures c.measurement < |header| && header[c.measurement] == "_measurement" && "_measurement" !in header[..c.measurement]
    ensures c.field < |header| && header[c.field] == "_field" && "_field" !in header[..c.field]
    ensures c.value < |header| && header[c.value] == "_value" && "_value" !in header[..c.value]
  {
  }

  /**
   * A name is a tag exactly when some header cell with that name, not starting
   * with '_', has a non-empty cell in the row; its value is the one at the last
   * such position.
   */
  lemma {:induction false} TagsContent(header: seq<string>, row: seq<string>, n: nat, k: string)
    requires n <= |header|
    ensures Get(TagsUpTo(header, row, n), k).None? <==>
      forall i :: 0 <= i < n && header[i] == k ==> !IsTagCell(header, row, i)
    ensures Get(TagsUpTo(header, row, n), k).Some? ==>
      exists i :: 0 <= i < n && header[i] == k && IsTagCell(header, row, i)
        && row[i] == Get(TagsUpTo(header, row, n), k).value
        && forall j :: i < j < n && header[j] == k ==> !IsTagCell(header, row, j)
    decreases n
  {
    if n > 0 {
      TagsContent(header, row, n - 1, k);
      TagsStep(header, row, n, k);
      var before := Get(TagsUpTo(header, row, n - 1), k);
      var after := Get(TagsUpTo(header, row, n), k);
      if !(header[n - 1] == k && IsTagCell(header, row, n - 1)) {
        if before.Some? {
          var i :| 0 <= i < n - 1 && header[i] == k && IsTagCell(header, row, i)
            && row[i] == before.value
            && forall j :: i < j < n - 1 && header[j] == k ==> !IsTagCell(header, row, j);
          assert forall j :: i < j < n && header[j] == k ==> !IsTagCell(header, row, j);
        }
      }
    }
  }

  /** The names of the tag cells among the first n headers, in column order, once per cell. */
  function TagCellNames(header: seq<string>, row: seq<string>, n: nat): seq<string>
    requires n <= |header|
    decreases n
  {
    if n == 0 then []
    else TagCellNames(header, row, n - 1) + if IsTagCell(header, row, n - 1) then [header[n - 1]] else []
  }

  /**
   * The tag dict's keys, which `FormatTags` writes unsorted, are the tag cell
   * names, each once, ordered by the first cell that makes each a tag.
   */
  lemma {:induction false} TagsKeyOrder(header: seq<string>, row: seq<string>, n: nat)
    requires n <= |header|
    ensures FirstSeenOrder(Keys(TagsUpTo(header, row, n)), TagCellNames(header, row, n))
    decreases n
  {
    if n > 0 {
      TagsKeyOrder(header, row, n - 1);
      var names0 := TagCellNames(header, row, n - 1);
      var keys0 := Keys(TagsUpTo(header, row, n - 1));
      if IsTagCell(header, row, n - 1) {
        var h := header[n - 1];
        assert TagCellNames(header, row, n) == names0 + [h];
        assert Keys(TagsUpTo(header, row, n)) == if h in keys0 then keys0 else keys0 + [h];
        FirstSeenOrderAppend(keys0, names0, h);
      } else {
        assert TagCellNames(header, row, n) == names0;
      }
    }
  }

  /** The lookup of k after one more header: the new cell's value when it is a tag named k, the old lookup otherwise. */
  lemma TagsStep(header: seq<string>, row: seq<string>, n: nat, k: string)
    requires 0 < n <= |header|
    ensures Get(TagsUpTo(header, row, n), k)
         == if header[n - 1] == k && IsTagCell(header, row, n - 1) then Some(row[n - 1])
            else Get(TagsUpTo(header, row, n - 1), k)
  {
  }

  /** Reserved names (a leading '_', as in `_start`) never become tags. */
  lemma ReservedColumnsAreNotTags(header: seq<string>, row: seq<string>, k: string)
    requires StartsWith(k, "_")
    ensures k !in Keys(RowTags(header, row))
  {
    TagsContent(header, row, |header|, k);
  }

  /** A row's cells hold no line break. */
  predicate OneLineCells(row: seq<string>) {
    forall j :: 0 <= j < |row| ==> '\n' !in row[j]
  }

  /** Every field and every tag name and value of a point holds no line break, when its header and row hold none. */
  predicate OneLinePoint(p: InfluxPoint) {
    && '\n' !in p.timestamp && '\n' !in p.measurement && '\n' !in p.field && '\n' !in p.value
    && forall i :: 0 <= i < |p.tags| ==> '\n' !in p.tags[i].0 && '\n' !in p.tags[i].1
  }

  lemma RowPointOneLine(header: seq<string>, c: Columns, row: seq<string>)
    requires |row| >= Width(c)
    requires OneLineCells(header) && OneLineCells(row)
    ensures OneLinePoint(RowPoint(header, c, row))
  {
    var tags := RowTags(header, row);
    forall i | 0 <= i < |tags| ensures '\n' !in tags[i].0 && '\n' !in tags[i].1 {
      ItemsAreLookups(tags, i);
      TagsContent(header, row, |header|, tags[i].0);
    }
  }

  // ---------------------------------------------------------------------------
  // influx_to_prometheus
  // ---------------------------------------------------------------------------

  /** `f'{k}="{v}"'` for the tags in insertion order; values are not escaped. */
  function TagPairs(tags: seq<(string, string)>): seq<string> {
    seq(|tags|, i requires 0 <= i < |tags| => tags[i].0 + "=\"" + tags[i].1 + "\"")
  }

  /** `labels_str`: nothing without tags, otherwise the pairs joined by ',' in braces. */
  function TagsText(tags: Dict): string {
    if tags == [] then "" else "{" + Join(TagPairs(tags), ",") + "}"
  }

  /** `f"{measurement}_{field}{labels_str} {value} {timestamp}"`, or the error of the timestamp. */
  function PointLine(rt: Runtime, p: InfluxPoint): Result<string, CsvError> {
    match FormatTimestamp(rt, p.timestamp)
    case Failure(e) => Failure(e)
    case Success(ts) => Success(p.measurement + "_" + p.field + TagsText(p.tags) + " " + p.value + " " + ts)
  }

  /** The lines of all points, or the error of the first point whose timestamp cannot be formatted. */
  function PointLines(rt: Runtime, ps: seq<InfluxPoint>): Result<seq<string>, CsvError>
    decreases |ps|
  {
    if ps == [] then Success([])
    else
      var init := ps[..|ps| - 1];
      match PointLines(rt, init)
      case Failure(e) => Failure(e)
      case Success(lines) =>
        match PointLine(rt, ps[|ps| - 1])
        case Failure(e) => Failure(e)
        case Success(line) => Success(lines + [line])
  }

  /** What `influx_to_prometheus` returns for the rows of a CSV text, or the error it raises. */
  function PrometheusText(rt: Runtime, rows: seq<seq<string>>): Result<string, CsvError> {
    match ParseCsv(rows)
    case Failure(e) => Failure(e)
    case Success(points) =>
      match PointLines(rt, points)
      case Failure(e) => Failure(e)
      case Success(lines) => Success(Join(lines, "\n"))
  }

  /** On success there is one line per point, each that point's line; a failure is the first point's failure. */
  lemma {:induction false} PointLinesSpec(rt: Runtime, ps: seq<InfluxPoint>)
    ensures PointLines(rt, ps).Success? ==>
      |PointLines(rt, ps).value| == |ps|
      && forall i :: 0 <= i < |ps| ==> PointLine(rt, ps[i]) == Success(PointLines(rt, ps).value[i])
    ensures PointLines(rt, ps).Failure? ==>
      exists i :: 0 <= i < |ps| && PointLine(rt, ps[i]) == Failure(PointLines(rt, ps).error)
        && forall j :: 0 <= j < i ==> PointLine(rt, ps[j]).Success?
    decreases |ps|
  {
    if ps != [] {
      var init := ps[..|ps| - 1];
      var last := ps[|ps| - 1];
      PointLinesSpec(rt, init);
      assert forall i :: 0 <= i < |init| ==> ps[i] == init[i];
      if PointLines(rt, init).Failure? {
        var i :| 0 <= i < |init| && PointLine(rt, init[i]) == Failure(PointLines(rt, init).error)
          && forall j :: 0 <= j < i ==> PointLine(rt, init[j]).Success?;
        assert PointLine(rt, ps[i]) == Failure(PointLines(rt, ps).error);
      } else if PointLine(rt, last).Failure? {
        assert PointLine(rt, ps[|ps| - 1]) == Failure(PointLines(rt, ps).error);
      }
    }
  }

  /** One more point adds its line, or its error. */
  lemma PointLinesAppendOne(rt: Runtime, ps: seq<InfluxPoint>, p: InfluxPoint)
    requires PointLines(rt, ps).Success?
    ensures PointLines(rt, ps + [p]) ==
      match PointLine(rt, p)
      case Failure(e) => Failure(e)
      case Success(line) => Success(PointLines(rt, ps).value + [line])
  {
    assert (ps + [p])[..|ps|] == ps;
    assert (ps + [p])[|ps|] == p;
  }

  lemma {:induction false} PointLinesKeepFirstFailure(rt: Runtime, a: seq<InfluxPoint>, b: seq<InfluxPoint>)
    requires PointLines(rt, a).Failure?
    ensures PointLines(rt, a + b) == PointLines(rt, a)
    decreases |b|
  {
    if b != [] {
      PointLinesKeepFirstFailure(rt, a, b[..|b| - 1]);
      assert (a + b)[..|a + b| - 1] == a + b[..|b| - 1];
    } else {
      assert a + b == a;
    }
  }

  /** `influx_to_prometheus`: parses, then writes one line per point and joins them with newlines. */
  method InfluxToPrometheus(rt: Runtime, rows: seq<seq<string>>) returns (r: Result<string, CsvError>)
    ensures r == PrometheusText(rt, rows)
  {
    var parsed := ParseInfluxCsv(rows);
    if parsed.Failure? {
      return Failure(parsed.error);
    }
    var lines := WriteLines(rt, parsed.value);
    if lines.Failure? {
      return Failure(lines.error);
    }
    return Success(Join(lines.value, "\n"));
  }

  /** The loop over the parsed items: one line per item, stopping at the first timestamp that cannot be formatted. */
  method WriteLines(rt: Runtime, items: seq<InfluxPoint>) returns (r: Result<seq<string>, CsvError>)
    ensures r == PointLines(rt, items)
  {
    var lines: seq<string> := [];
    for i := 0 to |items|
      invariant PointLines(rt, items[..i]) == Success(lines)
    {
      var item := items[i];
      assert items[..i + 1] == items[..i] + [item];
      PointLinesAppendOne(rt, items[..i], item);
      var timestamp := FormatTimestamp(rt, item.timestamp);
      if timestamp.Failure? {
        assert PointLines(rt, items[..i + 1]) == Failure(timestamp.error);
        PointLinesKeepFirstFailure(rt, items[..i + 1], items[i + 1..]);
        assert items[..i + 1] + items[i + 1..] == items;
        return Failure(timestamp.error);
      }
      var metricName := item.measurement + "_" + item.field;
      var labelsStr := FormatTags(item.tags);
      var line := metricName + labelsStr + " " + item.value + " " + timestamp.value;
      assert PointLine(rt, item) == Success(line);
      lines := lines + [line];
    }
    assert items[..|items|] == items;
    return Success(lines);
  }

  /** The `labels` loop and `labels_str` of one point. */
  method FormatTags(tags: Dict) returns (labelsStr: string)
    ensures labelsStr == TagsText(tags)
  {
    var labels: seq<string> := [];
    for j := 0 to |tags|
      invariant labels == TagPairs(tags[..j])
    {
      labels := labels + [tags[j].0 + "=\"" + tags[j].1 + "\""];
    }
    assert tags[..|tags|] == tags;
    labelsStr := if labels != [] then "{" + Join(labels, ",") + "}" else "";
  }

  // ---------------------------------------------------------------------------
  // Properties of the conversion
  // ---------------------------------------------------------------------------

  lemma {:induction false} TagPairsOneLine(tags: seq<(string, string)>)
    requires forall i :: 0 <= i < |tags| ==> '\n' !in tags[i].0 && '\n' !in tags[i].1
    ensures forall i :: 0 <= i < |tags| ==> '\n' !in TagPairs(tags)[i]
  {
  }

  lemma {:induction false} JoinOneLine(parts: seq<string>, sep: string)
    requires '\n' !in sep
    requires forall i :: 0 <= i < |parts| ==> '\n' !in parts[i]
    ensures '\n' !in Join(parts, sep)
    decreases |parts|
  {
    if |parts| > 1 {
      JoinOneLine(parts[1..], sep);
    }
  }

  lemma PointLineOneLine(rt: Runtime, p: InfluxPoint)
    requires OneLinePoint(p)
    requires PointLine(rt, p).Success?
    ensures '\n' !in PointLine(rt, p).value
  {
    TagPairsOneLine(p.tags);
    JoinOneLine(TagPairs(p.tags), ",");
    var ts := FormatTimestamp(rt, p.timestamp).value;
    FormattedTimestampIsInteger(rt, p.timestamp);
    if ts != p.timestamp {
      match rt.isoMillis(ReplaceChar(p.timestamp, 'Z', "+00:00"))
      case Some(ms) => IntToStringOneLine(ms);
      case None =>
        if ParseInt(p.timestamp).Some? {
          IntToStringOneLine(ParseInt(p.timestamp).value * 1000);
        } else {
          IntToStringOneLine(rt.secondsToMillis(p.timestamp).value);
        }
    }
  }

  /**
   * When no cell holds a line break, splitting the output at newlines gives
   * back one line per parsed point, in order.
   */
  lemma OneLinePerPoint(rt: Runtime, rows: seq<seq<string>>)
    requires forall i :: 0 <= i < |rows| ==> OneLineCells(rows[i])
    requires ParseCsv(rows).Success? && ParseCsv(rows).value != []
    requires PrometheusText(rt, rows).Success?
    ensures |Split(PrometheusText(rt, rows).value, '\n')| == |ParseCsv(rows).value|
    ensures forall i :: 0 <= i < |ParseCsv(rows).value| ==>
      Success(Split(PrometheusText(rt, rows).value, '\n')[i]) == PointLine(rt, ParseCsv(rows).value[i])
  {
    var h := HeaderIndex(rows).value;
    var c := FindColumns(rows[h]).value;
    var data := rows[h + 1..];
    assert forall i :: 0 <= i < |data| ==> data[i] == rows[h + 1 + i];
    DataPointsOneLine(rows[h], c, data);
    SplitPointLines(rt, ParseCsv(rows).value);
  }

  /** A successful conversion is empty exactly when the CSV holds no points: `"\n".join([])` is "". */
  lemma EmptyTextIffNoPoints(rt: Runtime, rows: seq<seq<string>>)
    requires PrometheusText(rt, rows).Success?
    ensures PrometheusText(rt, rows).value == "" <==> ParseCsv(rows).value == []
  {
    var points := ParseCsv(rows).value;
    if points != [] {
      PointLinesSpec(rt, points);
      var lines := PointLines(rt, points).value;
      assert PointLine(rt, points[0]) == Success(lines[0]);
      assert |lines[0]| > 0;
      assert Join(lines, "\n")[..|lines[0]|] == lines[0];
    }
  }

  /** Splitting the joined lines of one-line points at line feeds gives back each point's line. */
  lemma SplitPointLines(rt: Runtime, points: seq<InfluxPoint>)
    requires forall i :: 0 <= i < |points| ==> OneLinePoint(points[i])
    requires points != [] && PointLines(rt, points).Success?
    ensures |Split(Join(PointLines(rt, points).value, "\n"), '\n')| == |points|
    ensures forall i :: 0 <= i < |points| ==>
      Success(Split(Join(PointLines(rt, points).value, "\n"), '\n')[i]) == PointLine(rt, points[i])
  {
    var lines := PointLines(rt, points).value;
    PointLinesSpec(rt, points);
    forall i | 0 <= i < |lines| ensures '\n' !in lines[i] {
      PointLineOneLine(rt, points[i]);
    }
    SplitJoin(lines, '\n');
  }

  /** The points of rows without line breaks hold none either. */
  lemma DataPointsOneLine(header: seq<string>, c: Columns, rows: seq<seq<string>>)
    requires OneLineCells(header)
    requires forall i :: 0 <= i < |rows| ==> OneLineCells(rows[i])
    ensures forall i :: 0 <= i < |DataPoints(header, c, rows)| ==> OneLinePoint(DataPoints(header, c, rows)[i])
  {
    var points := DataPoints(header, c, rows);
    DataPointsFromRows(header, c, rows);
    forall i | 0 <= i < |points| ensures OneLinePoint(points[i]) {
      assert points[i] in points;
      var k :| 0 <= k < |rows| && IsComplete(c, rows[k]) && points[i] == RowPoint(header, c, rows[k]);
      RowPointOneLine(header, c, rows[k]);
    }
  }

  /**
   * The header and first data row of a Flux query result: the `table` column
   * has no leading '_', so it becomes a tag (beside `host`).
   */
  lemma TableColumnBecomesTag(header: seq<string>, row: seq<string>)
    requires header == ["", "result", "table", "_start", "_stop", "_time", "_value", "_field", "_measurement", "host"]
    requires row == ["", "", "0", "2023-01-01T00:00:00Z", "2023-01-01T12:00:00Z", "2023-01-01T06:00:00Z",
                     "90.5", "usage_user", "cpu", "server01"]
    ensures Get(RowTags(header, row), "table") == Some("0")
  {
    assert IsTagCell(header, row, 2) by {
      assert header[2][..1] == "t";
    }
    var k := "table";
    assert forall j :: 0 <= j < |header| && j != 2 ==> header[j] != k by {
      assert k[..1] == "t";
    }
    TagsContent(header, row, |header|, k);
  }
}
