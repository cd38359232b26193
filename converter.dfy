/**
 * The record-to-metric conversion of `InfluxToPromConverter.convert_data`
 * (src/influx2prom/converter.py) and the metric it produces.
 */
module Converter {
  import opened Wrappers
  import opened Text
  import opened Python
  import opened Collections

  /** One Prometheus sample: the fields of `PrometheusMetric`. `labels or {}` makes a missing label dict empty. */
  datatype PrometheusMetric = PrometheusMetric(
    name: string,
    value: Float,
    metricType: string,
    labels: Dict,
    help: Option<string>,
    timestamp: Option<int>)

  /** `InfluxToPromConverter.VALID_TYPES` */
  const ValidTypes: seq<string> := ["counter", "gauge", "histogram", "summary"]

  /** One input data point: a flat mapping from column name to scalar. */
  type Record = map<string, Scalar>

  /** The exceptions `convert_data` raises, one constructor per cause. */
  datatype ConvertError =
    | InvalidMetricType(metricType: string)
    | MissingValueColumn(column: string)
    | InvalidValue(column: string, raw: Scalar)
    | ValueOverflow(column: string, rawInt: int)
    | UnconvertibleTimestamp(column: string, rawFloat: Float)

  // ---------------------------------------------------------------------------
  // What one record becomes
  // ---------------------------------------------------------------------------

  /** The label dict of one record: `labels[label] = str(record[label])` for each present, non-None column. */
  function RecordLabels(rt: Runtime, rec: Record, columns: seq<string>): Dict
    decreases |columns|
  {
    if columns == [] then []
    else
      var labels := RecordLabels(rt, rec, columns[..|columns| - 1]);
      var c := columns[|columns| - 1];
      if c in rec && rec[c] != Null then Put(labels, c, ToStr(rt, rec[c])) else labels
  }

  /** `timestamp_column` was given (and is not the empty string, which Python treats as false). */
  predicate UsesTimestampColumn(column: Option<string>) {
    column.Some? && column.value != ""
  }

  /**
   * The timestamp of one record: numbers are truncated with `int()`, strings are
   * read as ISO 8601 after turning every 'Z' into "+00:00", and a string that
   * does not parse leaves the timestamp out. `int()` of NaN or an infinity raises.
   */
  function RecordTimestamp(rt: Runtime, rec: Record, column: Option<string>): Result<Option<int>, ConvertError> {
    if UsesTimestampColumn(column) && column.value in rec then
      match rec[column.value]
      case Null => Success(None)
      case Bool(b) => Success(Some(if b then 1 else 0))
      case Int(i) => Success(Some(i))
      case Real(x) =>
        if rt.floatToInt(x).Some? then Success(Some(rt.floatToInt(x).value))
        else Failure(UnconvertibleTimestamp(column.value, x))
      case Str(s) => Success(rt.isoMillis(ReplaceChar(s, 'Z', "+00:00")))
    else
      Success(None)
  }

  /** The metric one record becomes, or the error that the record makes `convert_data` raise. */
  function RecordToMetric(rt: Runtime, rec: Record, metricName: string, metricType: string,
                          valueColumn: string, labelColumns: seq<string>, helpText: Option<string>,
                          timestampColumn: Option<string>): Result<PrometheusMetric, ConvertError>
  {
    if valueColumn !in rec then Failure(MissingValueColumn(valueColumn))
    else
      match ToFloat(rt, rec[valueColumn])
      case Failure(Rejected) => Failure(InvalidValue(valueColumn, rec[valueColumn]))
      case Failure(TooLarge) => Failure(ValueOverflow(valueColumn, rec[valueColumn].i))
      case Success(value) =>
        match RecordTimestamp(rt, rec, timestampColumn)
        case Failure(e) => Failure(e)
        case Success(ts) =>
          Success(PrometheusMetric(metricName, value, metricType, RecordLabels(rt, rec, labelColumns), helpText, ts))
  }

  // ---------------------------------------------------------------------------
  // convert_data
  // ---------------------------------------------------------------------------

  /**
   * `convert_data`: checks the metric type first, then turns every record into
   * a metric, in order, or raises on the first record that cannot be converted.
   */
  method ConvertData(rt: Runtime, data: seq<Record>, metricName: string, metricType: string,
                     valueColumn: string, labelColumns: seq<string>, helpText: Option<string>,
                     timestampColumn: Option<string>)
    returns (r: Result<seq<PrometheusMetric>, ConvertError>)
    ensures metricType !in ValidTypes ==> r == Failure(InvalidMetricType(metricType))
    ensures r.Success? ==>
      && metricType in ValidTypes
      && |r.value| == |data|
      && forall i :: 0 <= i < |data| ==>
           RecordToMetric(rt, data[i], metricName, metricType, valueColumn, labelColumns, helpText, timestampColumn)
           == Success(r.value[i])
    ensures r.Failure? && metricType in ValidTypes ==>
      exists i :: 0 <= i < |data|
        && RecordToMetric(rt, data[i], metricName, metricType, valueColumn, labelColumns, helpText, timestampColumn)
           == Failure(r.error)
        && forall j :: 0 <= j < i ==>
             RecordToMetric(rt, data[j], metricName, metricType, valueColumn, labelColumns, helpText, timestampColumn).Success?
  {
    if metricType !in ValidTypes {
      return Failure(InvalidMetricType(metricType));
    }
    var metrics: seq<PrometheusMetric> := [];
    for i := 0 to |data|
      invariant |metrics| == i
      invariant forall j :: 0 <= j < i ==>
        RecordToMetric(rt, data[j], metricName, metricType, valueColumn, labelColumns, helpText, timestampColumn)
        == Success(metrics[j])
    {
      var record := data[i];
      if valueColumn !in record {
        return Failure(MissingValueColumn(valueColumn));
      }
      var parsed := ToFloat(rt, record[valueColumn]);
      if parsed == Failure(Rejected) {
        return Failure(InvalidValue(valueColumn, record[valueColumn]));
      } else if parsed == Failure(TooLarge) {
        // not caught by `except (ValueError, TypeError)`: the OverflowError propagates
        return Failure(ValueOverflow(valueColumn, record[valueColumn].i));
      }
      var value := parsed.value;

      var labels: Dict := [];
      for k := 0 to |labelColumns|
        invariant labels == RecordLabels(rt, record, labelColumns[..k])
      {
        var column := labelColumns[k];
        assert labelColumns[..k + 1][..k] == labelColumns[..k];
        if column in record && record[column] != Null {
          labels := Put(labels, column, ToStr(rt, record[column]));
        }
      }
      assert labelColumns[..|labelColumns|] == labelColumns;

      var timestamp: Option<int> := None;
      if UsesTimestampColumn(timestampColumn) && timestampColumn.value in record {
        var raw := record[timestampColumn.value];
        match raw {
          case Null =>
          case Bool(b) =>
            timestamp := Some(if b then 1 else 0);
          case Int(n) =>
            timestamp := Some(n);
          case Real(x) =>
            var truncated := rt.floatToInt(x);
            if truncated.None? {
              return Failure(UnconvertibleTimestamp(timestampColumn.value, x));
            }
            timestamp := truncated;
          case Str(s) =>
            timestamp := rt.isoMillis(ReplaceChar(s, 'Z', "+00:00"));
        }
      }

      var metric := PrometheusMetric(metricName, value, metricType, labels, helpText, timestamp);
      metrics := metrics + [metric];
    }
    return Success(metrics);
  }

  // ---------------------------------------------------------------------------
  // Properties of one record's conversion
  // ---------------------------------------------------------------------------

  /**
   * The label dict holds exactly the label columns that the record has with a
   * non-None value, each mapped to `str()` of that value.
   */
  lemma {:induction false} RecordLabelsContent(rt: Runtime, rec: Record, columns: seq<string>, k: string)
    ensures Get(RecordLabels(rt, rec, columns), k)
         == if k in columns && k in rec && rec[k] != Null then Some(ToStr(rt, rec[k])) else None
    decreases |columns|
  {
    if columns != [] {
      var init := columns[..|columns| - 1];
      RecordLabelsContent(rt, rec, init, k);
      assert columns == init + [columns[|columns| - 1]];
    }
  }

  /** Every metric carries the requested name, type and help text, and the record's label dict. */
  lemma RecordMetricFields(rt: Runtime, rec: Record, metricName: string, metricType: string,
                           valueColumn: string, labelColumns: seq<string>, helpText: Option<string>,
                           timestampColumn: Option<string>, m: PrometheusMetric)
    requires RecordToMetric(rt, rec, metricName, metricType, valueColumn, labelColumns, helpText, timestampColumn)
             == Success(m)
    ensures m.name == metricName && m.metricType == metricType && m.help == helpText
    ensures Success(m.value) == ToFloat(rt, rec[valueColumn])
    ensures forall k :: k in Keys(m.labels) ==> k in labelColumns && k in rec && rec[k] != Null
  {
    forall k | k in Keys(m.labels)
      ensures k in labelColumns && k in rec && rec[k] != Null
    {
      RecordLabelsContent(rt, rec, labelColumns, k);
    }
  }

  /** A record fails exactly when its value column is missing or not float-parseable, or its timestamp is a non-finite float. */
  lemma RecordFailureCauses(rt: Runtime, rec: Record, metricName: string, metricType: string,
                            valueColumn: string, labelColumns: seq<string>, helpText: Option<string>,
                            timestampColumn: Option<string>)
    ensures RecordToMetric(rt, rec, metricName, metricType, valueColumn, labelColumns, helpText, timestampColumn).Failure?
        <==> (|| valueColumn !in rec
              || ToFloat(rt, rec[valueColumn]).Failure?
              || (UsesTimestampColumn(timestampColumn) && timestampColumn.value in rec
                  && rec[timestampColumn.value].Real? && rt.floatToInt(rec[timestampColumn.value].x).None?))
    ensures valueColumn in rec && rec[valueColumn].Int? && FloatOverflows(rec[valueColumn].i) ==>
      RecordToMetric(rt, rec, metricName, metricType, valueColumn, labelColumns, helpText, timestampColumn)
      == Failure(ValueOverflow(valueColumn, rec[valueColumn].i))
  {
  }

  /** A timestamp is only ever taken from a given, present, non-None timestamp column. */
  lemma TimestampNeedsColumn(rt: Runtime, rec: Record, column: Option<string>, t: int)
    requires RecordTimestamp(rt, rec, column) == Success(Some(t))
    ensures UsesTimestampColumn(column) && column.value in rec && rec[column.value] != Null
  {
  }

  /** A string timestamp never fails the conversion: an unparsable one is simply dropped. */
  lemma StringTimestampNeverFails(rt: Runtime, rec: Record, column: Option<string>)
    requires UsesTimestampColumn(column) && column.value in rec && rec[column.value].Str?
    ensures RecordTimestamp(rt, rec, column).Success?
    ensures rt.isoMillis(ReplaceChar(rec[column.value].s, 'Z', "+00:00")).None? ==>
              RecordTimestamp(rt, rec, column) == Success(None)
  {
  }

  /** A string with a 'Z' UTC designator is handed to the ISO parser with no 'Z' left in it. */
  lemma IsoInputHasNoZ(s: string)
    ensures 'Z' !in ReplaceChar(s, 'Z', "+00:00")
  {
    ReplaceCharRemoves(s, 'Z', "+00:00");
  }
}
