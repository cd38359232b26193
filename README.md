# influx2prom in Dafny

This project models the core of influx2prom, a tool that turns InfluxDB data and queries into their Prometheus counterparts. It covers three pieces.

- **The exposition converter** (`src/influx2prom/converter.py`, module `Converter` and module `Exposition`).
  - `InfluxToPromConverter.convert_data` validates the metric type against `VALID_TYPES`. It then turns each flat record into a `PrometheusMetric`: the value column read with `float()`, labels from the chosen columns, and the optional timestamp rule (an `int()` of a number, or an ISO-8601 string parsed to epoch milliseconds).
  - `format_metrics` groups the metrics by `name:type` in first-seen order. Each group gets an optional `# HELP` line, one `# TYPE` line, one sample line per metric and a blank line. Labels are sorted by key, and values are escaped as the Prometheus text exposition format 0.0.4 requires for label values (backslash, double quote, line feed).
- **The annotated-CSV path** of the stand-alone script (`src/main.py`, module `InfluxCsv`).
  - `format_timestamp` normalises a timestamp.
  - `parse_influxdb_csv` finds the header row, locates `_time`, `_measurement`, `_field` and `_value`, skips short rows and collects tags.
  - `influx_to_prometheus` writes one flat line per data row, joined by line feeds.
  - `influx2prom/influx2prom/src/main.py` is a byte-identical copy, so every row below citing `src/main.py` holds for it too.
- **The query translator** (`src/influx2promql.py`, module `Translator`).
  - `detect_query_type` and the `influx_to_promql` dispatch.
  - The PromQL that `convert_flux_to_promql` and `convert_influxql_to_promql` assemble from what their regular expressions capture.
  - `influx2prom/influx2prom/src/influx2promql.py` is a byte-identical copy, covered by the same members.

Supporting modules:

- `Wrappers`: `Option` and `Result`.
- `Text`: the Python string methods the code calls: `startswith`, `in`, `join`, `replace`, `strip`, `lower`/`upper`, `str(int)`.
- `Collections`: `list.index`, and a Python dict as an insertion-ordered sequence of pairs with distinct keys.
- `Python`: record scalars, and a `Runtime` value standing for the library functions the model does not re-implement (`float()`, `repr` of a float, `int()` of a float, `datetime.fromisoformat(...).timestamp()`). Every property holds whatever those functions return. Which ints make `float()` overflow is decided in the model itself: those of magnitude at least 2^1024 - 2^970.

Each loop in the source is a method proved equal to a specification function:
- `ConvertData` is proved against `RecordToMetric`, applied per record.
- `FormatMetrics` is proved against `Exposition`.
- `ParseInfluxCsv` against `ParseCsv`, and `InfluxToPrometheus` against `PrometheusText`.
- `ConvertFluxToPromql` and `ConvertInfluxQLToPromql` against `FluxToPromql` and `InfluxQLToPromql`.

The lemmas then state what the source promises about those functions.

A raised exception is a `Failure` result:
- `convert_data` raises `ValueError` for a bad type, a missing value column or an unparseable value.
- A numeric timestamp that `int()` rejects (NaN, infinity) is also a `Failure`.
- `parse_influxdb_csv` fails on a missing header or a missing reserved column.
- `format_timestamp` fails on a short timestamp that `float()` rejects.

Where the repository's tests expect output the code does not produce, the model follows the code:
- the `table` column of an annotated CSV becomes a label (`TableColumnBecomesTag`);
- a Flux query filtering on `_measurement` alone gets an empty metric name (`MeasurementOnlyFluxQuery`).

## Model

| member | source | states |
|---|---|---|
| Converter.ConvertData | src/influx2prom/converter.py:45-131 | A type outside `VALID_TYPES` fails before any record is read, even with no data. On success there is exactly one metric per record, in order, each the metric of its own record. Any failure is the failure of the first failing record, with every record before it converting; no partial result is returned. |
| Converter.RecordMetricFields | src/influx2prom/converter.py:120-129 | A converted metric carries the given name, type and help text, and the `float()` of the record's value column; its label keys are label columns present in the record with a non-None value. |
| Converter.RecordLabelsContent | src/influx2prom/converter.py:94-98 | The label under key k is `str(record[k])` exactly when k is one of the label columns, is in the record and is not None; otherwise there is no label k. |
| Converter.RecordFailureCauses | src/influx2prom/converter.py:81-118 | A record fails exactly when the value column is missing, `float()` of its value raises, or a numeric timestamp cannot be truncated by `int()`. An int value too large for a double raises the `OverflowError`, which the `except` clause does not catch. |
| Converter.TimestampNeedsColumn | src/influx2prom/converter.py:100-104 | A timestamp is set only when a timestamp column is given, present in the record and not None. |
| Converter.StringTimestampNeverFails | src/influx2prom/converter.py:108-118 | A string timestamp never makes a record fail; when the ISO parse fails the timestamp is simply None. |
| Converter.IsoInputHasNoZ | src/influx2prom/converter.py:112-114 | After the `Z` to `+00:00` replacement no `Z` is left in the text handed to the ISO parser. |
| Exposition.EscapeIsPerCharacter | src/influx2prom/converter.py:173-178 | The chained replace (backslash, then quote, then line feed) equals escaping each character on its own, so no escape is escaped twice. |
| Exposition.UnescapeEscape | src/influx2prom/converter.py:173-178 | Unescaping an escaped label value gives back the original value. |
| Exposition.EscapedHasNoNewline | src/influx2prom/converter.py:177 | An escaped label value contains no line feed. |
| Exposition.SortByKeySpec | src/influx2prom/converter.py:171 | Sorting the label items yields items ordered by key and a permutation of the labels. |
| Exposition.StrLessTotal | src/influx2prom/converter.py:171 | The string order used for `sorted` is total: of two different keys one comes first. |
| Exposition.StrLessTransitive | src/influx2prom/converter.py:171 | The string order used for `sorted` is transitive. |
| Exposition.SortedUnique | src/influx2prom/converter.py:171 | Two key-sorted sequences with the same items are equal, so the sorted order is unique. |
| Exposition.LabelsTextIgnoresInsertionOrder | src/influx2prom/converter.py:168-180 | The rendered label set depends only on the labels, not on the order they were inserted in. |
| Exposition.FormatSample | src/influx2prom/converter.py:166-188 | The sample line built label part by label part is the name, the label text, the value and the optional timestamp. |
| Exposition.SampleLineShape | src/influx2prom/converter.py:182-188 | ` <timestamp>` ends the line exactly when the metric has a timestamp; without labels there are no braces. |
| Exposition.FormatMetrics | src/influx2prom/converter.py:133-193 | The text built by the grouping and output loops is the exposition of the metrics: groups in first-seen key order, each its header lines, samples and a blank line, joined by line feeds. |
| Exposition.GroupMetrics | src/influx2prom/converter.py:146-152 | The grouping loop builds the dictionary from group key to members: keys in first-seen order, each with its metrics in input order. |
| Exposition.WriteGroups | src/influx2prom/converter.py:154-191 | The output loop over the groups emits, per group in key order, its header lines, its sample lines and a blank line. |
| Exposition.WriteGroup | src/influx2prom/converter.py:155-191 | One group's lines: HELP only for non-empty help of the first metric, one TYPE line, one sample line per member, then the blank line. |
| Exposition.AddGroup | src/influx2prom/converter.py:150-151 | A metric with an unseen key opens a new group at the end of the group dict. |
| Exposition.ExtendGroup | src/influx2prom/converter.py:152 | A metric with a seen key is appended to that key's group, which keeps its place. |
| Exposition.GroupKeysSpec | src/influx2prom/converter.py:147-152 | The group keys have no duplicates, and a key is a group key exactly when some metric has it. |
| Exposition.GroupsInFirstSeenOrder | src/influx2prom/converter.py:155 | Groups come out in the order their keys were first seen in the input. |
| Exposition.MembersAppend | src/influx2prom/converter.py:148-152 | A group's members follow input order: the members from a concatenation are the members of each part, in turn. |
| Exposition.MembersHaveKey | src/influx2prom/converter.py:149 | Every member of a group has that group's key. |
| Exposition.GroupingIsPermutation | src/influx2prom/converter.py:147-152 | Grouping loses and duplicates no metric: the groups together are a permutation of the input. |
| Exposition.SampleLineCount | src/influx2prom/converter.py:165-188 | Every group is non-empty, and the output lines are one per input metric plus the header and blank lines of the groups. |
| Exposition.ExpositionEndsWithNewline | src/influx2prom/converter.py:142-193 | The output is empty exactly when there are no metrics, and otherwise ends with a line feed. |
| Exposition.GroupKeyIdentifiesNameAndType | src/influx2prom/converter.py:149 | For types without `:`, two metrics share a group key exactly when they share name and type. |
| Exposition.ValidTypesHaveNoColon | src/influx2prom/converter.py:43 | No valid metric type contains `:`. |
| Exposition.OneNameAndTypeIsOneGroup | src/influx2prom/converter.py:147-193 | Metrics of one name and type make a single block: headers from the first, all samples in order, a blank line. |
| InfluxCsv.FormatTimestamp | src/main.py:12-23 | A failure names the input timestamp and happens only for a string of at most 12 characters; a successful result is never empty. |
| InfluxCsv.FormattedTimestampIsInteger | src/main.py:12-23 | A successful ISO parse gives exactly `str()` of the epoch milliseconds. Otherwise a string longer than 12 characters is returned unchanged, and any other result is the canonical `str()` text of an integer. Failure happens only for a short string that is no integer and that `float()` rejects. |
| InfluxCsv.EpochSecondsToMillis | src/main.py:19-23 | A short decimal integer n that is not ISO comes out as exactly `str(n * 1000)`, which parses back to n * 1000. |
| InfluxCsv.HeaderIndex | src/main.py:53-62 | The header is the first non-empty row whose first cell does not start with `#`; None exactly when there is no such row. |
| InfluxCsv.FindColumns | src/main.py:67-74 | The reserved columns are found exactly when all four names occur in the header. |
| InfluxCsv.ColumnsAreFirstOccurrences | src/main.py:68-71 | Each reserved column index is the first occurrence of its name, so column order does not matter. |
| InfluxCsv.ParseCsvFailures | src/main.py:64-74 | Parsing fails with the missing-header error exactly when no row qualifies as header, and with the missing-columns error exactly when the header lacks a reserved name; it never fails otherwise. |
| InfluxCsv.ParseInfluxCsv | src/main.py:46-102 | The two loops over one reader, with `continue` and `break`, compute the parse result: header, columns, then one point per complete data row. |
| InfluxCsv.FindHeader | src/main.py:53-62 | The header loop finds a header exactly when one exists: the first non-empty row not starting with `#`, and the reader resumes just after it. |
| InfluxCsv.ReadDataRows | src/main.py:76-100 | The data loop yields the points of the remaining rows: one per complete row, in order. |
| InfluxCsv.DataPointsFromRows | src/main.py:77-100 | Every point comes from a complete data row; short rows are skipped without error, and when all rows are complete there is one point per row. |
| InfluxCsv.DataPointsAppend | src/main.py:94-100 | Points keep row order: the points of concatenated rows are the points of each part, in turn. |
| InfluxCsv.CollectTags | src/main.py:87-91 | The tag loop builds the row's tag dict. |
| InfluxCsv.TagsContent | src/main.py:88-91 | A key is a tag exactly when some header with that name does not start with `_` and its cell exists and is non-empty; its value is the cell of the last such column. |
| InfluxCsv.TagsKeyOrder | src/main.py:88-91 | The tag dict's keys are the names of the tag cells, each once, ordered by the first column that makes each a tag. `FormatTags` writes them in this order. |
| InfluxCsv.ReservedColumnsAreNotTags | src/main.py:90 | No `_`-prefixed column (`_start`, `_stop`, ...) is ever a tag. |
| InfluxCsv.TableColumnBecomesTag | src/main.py:89-91 | In the sample annotated CSV, the `table` column with cell `0` becomes the tag `table="0"`. |
| InfluxCsv.PointLinesSpec | src/main.py:113-132 | On success there is one line per point, each that point's line; a failure is the first point's failure. |
| InfluxCsv.WriteLines | src/main.py:113-132 | The output loop yields exactly the point lines of the parsed points, or the first timestamp failure. |
| InfluxCsv.PointLinesKeepFirstFailure | src/main.py:117 | Once a timestamp fails, later points do not change the failure. |
| InfluxCsv.FormatTags | src/main.py:124-128 | The label loop yields the unsorted, unescaped `k="v"` pairs in braces, or nothing without tags. |
| InfluxCsv.InfluxToPrometheus | src/main.py:105-134 | The output loop computes the flat text: the point lines joined by line feeds. |
| InfluxCsv.PointLineOneLine | src/main.py:131 | A point line whose cells have no line feed has none either. |
| InfluxCsv.OneLinePerPoint | src/main.py:134 | For cells without line feeds, splitting the output at line feeds gives back exactly one line per parsed point, in order, with no trailing newline. |
| InfluxCsv.EmptyTextIffNoPoints | src/main.py:134 | A successful conversion is the empty text exactly when the CSV has no points. |
| Collections.Put | src/main.py:91 | Assigning a dict key sets it, leaves every other key alone, and keeps the key's place or appends it. |
| Collections.IndexOf | src/main.py:68-71 | `list.index` returns the first occurrence, and there is none exactly when the item is absent. |
| Translator.Assemble | src/influx2promql.py:89-104 | The assembly is the name, then filters in braces only if any, then the range token, wrapped as `agg(...)` only when there is an aggregation. |
| Translator.RenderAggregationIsOutermost | src/influx2promql.py:197-212 | An aggregation wraps the whole selector; the selector starts with the name and ends with the range token. |
| Translator.ConvertFluxToPromql | src/influx2promql.py:9-104 | The Flux converter's steps compute the rendering of the captured name, filters, range and mapped aggregation. |
| Translator.FluxRangeIsStart | src/influx2promql.py:53-58 | The replacement chain is the identity: the range token is `[start]` exactly when the start begins with `-`, and empty otherwise. |
| Translator.FluxFiltersFromCaptures | src/influx2promql.py:67-72 | Every filter renders a captured comparison on a tag other than `_measurement` and `_field`, and every such capture is rendered; all-reserved captures give no filters. |
| Translator.FluxFiltersAppend | src/influx2promql.py:67-72 | Filters keep match order. |
| Translator.MeasurementOnlyFluxQuery | src/influx2promql.py:61-64 | With a measurement but no field capture, no other filter and no aggregation, the output is the range token alone. |
| Translator.ConvertInfluxQLToPromql | src/influx2promql.py:107-212 | The InfluxQL converter returns the fixed SELECT error without a select capture, and otherwise the rendering of the collected pieces. |
| Translator.ReadSelectClause | src/influx2promql.py:140-167 | The metric name always begins with `measurement_`. The PromQL function is empty or one of avg, sum, count, min, max, and it is non-empty exactly when the clause is a function call whose lower-cased name is in the map. |
| Translator.ReadWhereClause | src/influx2promql.py:169-195 | The where clause yields one filter per tag match, in order, and the range token of its time bound. |
| Translator.AggregationMapsDifferOnlyOnStddev | src/influx2promql.py:152-158 | The InfluxQL function map agrees with the Flux aggregation map except for `stddev`, which only Flux maps. |
| Translator.UnmappedFunctionStillNamesMetric | src/influx2promql.py:147-163 | An unmapped function adds no wrapper, but its argument still names the metric. |
| Translator.InfluxQLRangeOnlyFromNow | src/influx2promql.py:183-188 | A range token comes only from a `now()` time value with a minus sign and a duration capture, as `[amount unit]`. |
| Translator.ParenFreeTimeValueGivesNoRange | src/influx2promql.py:124 | A time value without `)` (all the time pattern can capture) never yields a range token. |
| Translator.DetectQueryType | src/influx2promql.py:215-236 | A query is Flux exactly when it contains `|>` or, after leading whitespace, starts with `from` in any ASCII letter case. One starting with `select` in any letter case is InfluxQL unless it contains `|>`. When the stripped query's first six characters are ASCII, it is unknown exactly when it has no pipe and starts with neither keyword. |
| Translator.UpperSelectOnAscii | src/influx2promql.py:233 | When the first six characters are ASCII, the upper-cased `SELECT` test holds only for `select` in some mix of ASCII letter cases. |
| Translator.NoKeywordIsUnknown | src/influx2promql.py:230-236 | A query without a pipe whose stripped form starts with an ASCII character other than `f`/`F` and `s`/`S` is unknown. |
| Translator.UnpaddedNoKeywordIsUnknown | src/influx2promql.py:230-236 | The same for a query with no whitespace at either end. |
| Translator.NotAQueryIsUnknown | tests/test_influx2promql.py:20-22 | `this is not a valid query` is detected as unknown. |
| Translator.PipeWinsOverSelect | src/influx2promql.py:230-234 | A SELECT query containing `|>` is classified as Flux. |
| Translator.DetectIgnoresLeadingWhitespace | src/influx2promql.py:230-236 | Leading whitespace does not change the detected type. |
| Translator.InfluxToPromql | src/influx2promql.py:239-262 | Without a forced type, or with an empty one, a query detected as Flux goes to the Flux converter and one detected as InfluxQL to the InfluxQL converter. A query of unknown type gets the fixed error text. |
| Translator.ForcedTypeOverridesDetection | src/influx2promql.py:255-262 | A non-empty forced type replaces detection, an empty one counts as none, and any other resolved type gives the fixed error text. |

## Left out

- `query_influxdb` (src/main.py:26-43): an HTTP call.
- The `main()` drivers of src/main.py and src/influx2promql.py, and src/influx2prom/cli.py: argument parsing, file and JSON I/O, printing. This includes the `# Query: ...` prefix the CLI writes.
- src/influx2prom/csv_processor.py is not part of this model: a `pandas.read_csv` wrapper that hands its rows to `convert_data`.
- The CSV tokenizer (`csv.reader`, quoting): rows are taken as sequences of cells, a blank line being the empty row.
- Floats:
  - `float()` of a string, `float()` of an int, `int()` of a float and the `repr` of a float are fields of `Runtime`, not computed.
  - A float is its 64-bit pattern.
- Time parsing:
  - `datetime.fromisoformat(...).timestamp()` is `Runtime.isoMillis`, a partial function to epoch milliseconds. A naive datetime's dependence on the local time zone is therefore not modelled.
  - `int(float(s) * 1000)` is computed exactly only for decimal integers; other strings go through `Runtime.secondsToMillis`.
- Converter.ConvertData: exceptions other than `ValueError` from `dt.timestamp()` (such as `OverflowError` for dates out of range) are not modelled; the ISO parse is treated as either a value or "no timestamp".
- InfluxCsv.FormatTimestamp: in the same way, exceptions other than `ValueError` from `dt.timestamp()` (src/main.py:16-18, such as `OverflowError` for dates out of range) are not modelled; the ISO parse is treated as either epoch milliseconds or a `ValueError`.
- `str()` of a record value: only JSON scalars (None, bool, int, float, string) are modelled as record values.
- `str()` of an int with more than 4300 digits raises ValueError from Python 3.11 on (the default integer string-conversion limit). This applies to an int label value (converter.py:97) and to an int timestamp written into a sample line (converter.py:185). The model renders both like any other int.
- `str.lower`/`str.upper`:
  - `Lower` maps ASCII letters and the two non-ASCII characters whose lower case begins with an ASCII letter (U+0130 and U+212A).
  - `Upper` maps ASCII letters and the non-ASCII characters whose upper case begins with S, E, L, C, T or I (U+00DF, U+0131, U+017F, U+1E97, U+FB05, U+FB06).
  - Every other character is left unchanged. This includes characters whose upper case begins with another ASCII letter, such as U+FB01 (upper case "FI") or U+01F0 (upper case J with caron).
  - `Upper` is used only to test for a leading `SELECT`. Such a character fails that test whether it is mapped or not.
- The regular-expression engine: each search is a scanner field that maps the searched text to its captures. The quirks of the patterns are therefore not derived but taken as given:
  - `[^FROM]` in the SELECT pattern;
  - a Flux filter must close right after its first comparison;
  - the time pattern's value excludes `)`, stated by `ParenFreeTimeValueGivesNoRange`.
- Values the translator computes but never uses: `bucket`, `stop_time`, the time `operator` and the GROUP BY match.
- Prometheus name syntax and HELP-text escaping are not checked, because the source does not check them.
