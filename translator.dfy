/**
 * The query translator of src/influx2promql.py: query-type detection, the
 * dispatch of `influx_to_promql`, and the PromQL that `convert_flux_to_promql`
 * and `convert_influxql_to_promql` assemble from what their regular
 * expressions capture. The regular-expression searches are inputs: a scanner
 * maps the searched text to the captured groups.
 */
module Translator {
  import opened Wrappers
  import opened Text

  // ---------------------------------------------------------------------------
  // The PromQL the converters assemble
  // ---------------------------------------------------------------------------

  /** The pieces both converters collect before assembling a PromQL string. */
  datatype PromQuery = PromQuery(name: string, filters: seq<string>, range: string, aggregation: string)

  /** The name, then `{f1, f2}` when there are filters, then the range token, all wrapped in `agg(...)` when there is an aggregation. */
  function Render(p: PromQuery): string {
    var selector := p.name + (if p.filters != [] then "{" + Join(p.filters, ", ") + "}" else "") + p.range;
    if p.aggregation != "" then p.aggregation + "(" + selector + ")" else selector
  }

  /** `f'{tag}="{value}"'` */
  function FilterText(tag: string, value: string): string {
    tag + "=\"" + value + "\""
  }

  /** The assembly step both converters end with, reassigning `promql` piece by piece. */
  method Assemble(metricName: string, filters: seq<string>, timeRange: string, aggregation: string)
    returns (promql: string)
    ensures promql == Render(PromQuery(metricName, filters, timeRange, aggregation))
  {
    promql := metricName;
    if filters != [] {
      promql := promql + "{" + Join(filters, ", ") + "}";
    }
    if timeRange != "" {
      promql := promql + timeRange;
    }
    if aggregation != "" {
      promql := aggregation + "(" + promql + ")";
    }
  }

  /** Without an aggregation the selector stands alone; with one, it is the single argument of the aggregation. */
  lemma RenderAggregationIsOutermost(p: PromQuery)
    ensures p.aggregation != "" ==>
      Render(p) == p.aggregation + "(" + Render(p.(aggregation := "")) + ")"
    ensures StartsWith(Render(p.(aggregation := "")), p.name)
    ensures EndsWith(Render(p.(aggregation := "")), p.range)
  {
    var q := p.(aggregation := "");
    var mid := if p.filters != [] then "{" + Join(p.filters, ", ") + "}" else "";
    assert Render(q) == p.name + mid + p.range;
    assert Render(q)[..|p.name|] == p.name;
    assert Render(q)[|Render(q)| - |p.range|..] == p.range;
  }

  // ---------------------------------------------------------------------------
  // convert_flux_to_promql
  // ---------------------------------------------------------------------------

  /** The captures `convert_flux_to_promql` reads from its regular-expression searches of the query. */
  datatype FluxScanner = FluxScanner(
    // range_match.group(1): the start argument of range()
    rangeStart: string -> Option<string>,
    // measurement_match.group(1)
    measurement: string -> Option<string>,
    // field_match.group(1)
    field: string -> Option<string>,
    // (group(1), group(2)) of every filter_pattern match, in match order
    filters: string -> seq<(string, string)>,
    // aggregate_match.group(1)
    aggregate: string -> Option<string>)

  /** `agg_map` of the Flux converter. */
  function FluxAggregation(f: string): Option<string> {
    if f == "mean" then Some("avg")
    else if f == "sum" then Some("sum")
    else if f == "count" then Some("count")
    else if f == "min" then Some("min")
    else if f == "max" then Some("max")
    else if f == "stddev" then Some("stddev")
    else None
  }

  /** The range token as the source writes it: the start time run through four replacements, in brackets. */
  function FluxRange(start: Option<string>): string {
    match start
    case None => ""
    case Some(s) =>
      if StartsWith(s, "-") then
        "[" + ReplaceChar(ReplaceChar(ReplaceChar(ReplaceChar(s, 'h', "h"), 'd', "d"), 'm', "m"), 's', "s") + "]"
      else ""
  }

  /** The metric name: `measurement_field` only when both were captured. */
  function FluxName(measurement: Option<string>, field: Option<string>): string {
    if measurement.Some? && field.Some? then measurement.value + "_" + field.value else ""
  }

  predicate IsReservedTag(tag: string) {
    tag == "_measurement" || tag == "_field"
  }

  /** The filters of the `finditer` loop: every captured comparison except those on `_measurement` and `_field`. */
  function FluxFilters(captures: seq<(string, string)>): seq<string>
    decreases |captures|
  {
    if captures == [] then []
    else
      var c := captures[|captures| - 1];
      FluxFilters(captures[..|captures| - 1]) + (if IsReservedTag(c.0) then [] else [FilterText(c.0, c.1)])
  }

  function FluxAggregationOf(captured: Option<string>): string {
    if captured.Some? && FluxAggregation(captured.value).Some? then FluxAggregation(captured.value).value else ""
  }

  /** The pieces `convert_flux_to_promql` collects from a query. */
  function FluxQuery(sc: FluxScanner, q: string): PromQuery {
    PromQuery(FluxName(sc.measurement(q), sc.field(q)), FluxFilters(sc.filters(q)),
              FluxRange(sc.rangeStart(q)), FluxAggregationOf(sc.aggregate(q)))
  }

  function FluxToPromql(sc: FluxScanner, q: string): string {
    Render(FluxQuery(sc, q))
  }

  /** `convert_flux_to_promql` */
  method ConvertFluxToPromql(sc: FluxScanner, q: string) returns (promql: string)
    ensures promql == FluxToPromql(sc, q)
  {
    var rangeMatch := sc.rangeStart(q);
    var measurementMatch := sc.measurement(q);
    var fieldMatch := sc.field(q);
    var aggregateMatch := sc.aggregate(q);

    var metricName := "";
    var filters: seq<string> := [];
    var timeRange := "";
    var aggregation := "";

    if rangeMatch.Some? {
      var startTime := rangeMatch.value;
      if StartsWith(startTime, "-") {
        timeRange := "[" + ReplaceChar(ReplaceChar(ReplaceChar(ReplaceChar(startTime, 'h', "h"), 'd', "d"), 'm', "m"), 's', "s") + "]";
      } else {
        timeRange := "";
      }
    }

    if measurementMatch.Some? && fieldMatch.Some? {
      metricName := measurementMatch.value + "_" + fieldMatch.value;
    }

    var filterMatches := sc.filters(q);
    for i := 0 to |filterMatches|
      invariant filters == FluxFilters(filterMatches[..i])
    {
      var tag := filterMatches[i].0;
      var value := filterMatches[i].1;
      assert filterMatches[..i + 1][..i] == filterMatches[..i];
      if tag != "_measurement" && tag != "_field" {
        filters := filters + [tag + "=\"" + value + "\""];
      }
    }
    assert filterMatches[..|filterMatches|] == filterMatches;

    if aggregateMatch.Some? {
      var aggFunc := aggregateMatch.value;
      var mapped := FluxAggregation(aggFunc);
      if mapped.Some? {
        aggregation := mapped.value;
      }
    }

    promql := Assemble(metricName, filters, timeRange, aggregation);
  }

  /** The replacement chain is the identity, so the range token is the start time itself, in brackets. */
  lemma FluxRangeIsStart(s: string)
    ensures FluxRange(Some(s)) == if StartsWith(s, "-") then "[" + s + "]" else ""
  {
    ReplaceCharByItself(s, 'h');
    ReplaceCharByItself(s, 'd');
    ReplaceCharByItself(s, 'm');
    ReplaceCharByItself(s, 's');
  }

  /** The filter loop keeps match order: filters of consecutive stretches of matches are concatenated. */
  lemma {:induction false} FluxFiltersAppend(a: seq<(string, string)>, b: seq<(string, string)>)
    ensures FluxFilters(a + b) == FluxFilters(a) + FluxFilters(b)
    decreases |b|
  {
    if b == [] {
      assert a + b == a;
    } else {
      FluxFiltersAppend(a, b[..|b| - 1]);
      assert (a + b)[..|a + b| - 1] == a + b[..|b| - 1];
    }
  }

  /** Each filter renders one captured comparison whose tag is neither `_measurement` nor `_field`; there are no more filters than matches. */
  lemma {:induction false} FluxFiltersFromCaptures(captures: seq<(string, string)>)
    ensures |FluxFilters(captures)| <= |captures|
    ensures forall f :: f in FluxFilters(captures) ==>
      exists i :: 0 <= i < |captures| && !IsReservedTag(captures[i].0) && f == FilterText(captures[i].0, captures[i].1)
    ensures (forall i :: 0 <= i < |captures| ==> IsReservedTag(captures[i].0)) ==> FluxFilters(captures) == []
    ensures forall i :: 0 <= i < |captures| && !IsReservedTag(captures[i].0) ==>
      FilterText(captures[i].0, captures[i].1) in FluxFilters(captures)
    decreases |captures|
  {
    if captures != [] {
      var init := captures[..|captures| - 1];
      FluxFiltersFromCaptures(init);
      forall f | f in FluxFilters(captures)
        ensures exists i :: 0 <= i < |captures| && !IsReservedTag(captures[i].0) && f == FilterText(captures[i].0, captures[i].1)
      {
        if f in FluxFilters(init) {
          var i :| 0 <= i < |init| && !IsReservedTag(init[i].0) && f == FilterText(init[i].0, init[i].1);
          assert captures[i] == init[i];
        }
      }
    }
  }

  /**
   * A query that filters on `_measurement` alone, over a relative range, with
   * no aggregation, gets an empty metric name: the output is the range token alone.
   */
  lemma MeasurementOnlyFluxQuery(sc: FluxScanner, q: string, start: string)
    requires sc.measurement(q).Some? && sc.field(q).None?
    requires forall i :: 0 <= i < |sc.filters(q)| ==> IsReservedTag(sc.filters(q)[i].0)
    requires sc.rangeStart(q) == Some(start) && StartsWith(start, "-")
    requires sc.aggregate(q).None?
    ensures FluxToPromql(sc, q) == "[" + start + "]"
  {
    FluxFiltersFromCaptures(sc.filters(q));
    FluxRangeIsStart(start);
  }

  // ---------------------------------------------------------------------------
  // convert_influxql_to_promql
  // ---------------------------------------------------------------------------

  /** The captures `convert_influxql_to_promql` reads, each from the text the source searches. */
  datatype InfluxQLScanner = InfluxQLScanner(
    // select_match groups 1 and 2, from the query
    select: string -> Option<(string, string)>,
    // where_match.group(1), from the query
    where: string -> Option<string>,
    // function_match groups 1 and 2, from the stripped select clause
    call: string -> Option<(string, string)>,
    // time_match.group(2), from the stripped where clause
    time: string -> Option<string>,
    // duration_match groups 1 and 2, from the time value
    duration: string -> Option<(string, string)>,
    // (group(1), group(2)) of every tag_pattern match in the stripped where clause
    tags: string -> seq<(string, string)>)

  const SelectError: string := "Error: Could not parse InfluxQL SELECT statement"

  /** `func_map` of the InfluxQL converter. */
  function InfluxQLFunction(f: string): Option<string> {
    if f == "mean" then Some("avg")
    else if f == "sum" then Some("sum")
    else if f == "count" then Some("count")
    else if f == "min" then Some("min")
    else if f == "max" then Some("max")
    else None
  }

  /** The range token of a where clause: only a relative `now() - <amount><unit>` time bound gives one. */
  function InfluxQLRange(sc: InfluxQLScanner, whereClause: string): string {
    match sc.time(whereClause)
    case None => ""
    case Some(timeValue) =>
      if Contains(timeValue, "now()") && Contains(timeValue, "-") then
        match sc.duration(timeValue)
        case None => ""
        case Some(d) => "[" + d.0 + d.1 + "]"
      else ""
  }

  function TagFilters(captures: seq<(string, string)>): seq<string> {
    seq(|captures|, i requires 0 <= i < |captures| => FilterText(captures[i].0, captures[i].1))
  }

  /** The metric name and PromQL function of a select clause: the function's argument is the field, lowercased names are mapped. */
  function SelectParts(sc: InfluxQLScanner, measurement: string, selectClause: string): (string, string) {
    match sc.call(selectClause)
    case Some(fm) =>
      var mapped := InfluxQLFunction(Lower(fm.0));
      (measurement + "_" + StripQuotes(fm.1), if mapped.Some? then mapped.value else "")
    case None =>
      (measurement + "_" + StripQuotes(selectClause), "")
  }

  /** The metric name extends `measurement_`; the function is a mapped PromQL aggregation, present exactly for a mapped call. */
  lemma SelectPartsShape(sc: InfluxQLScanner, measurement: string, selectClause: string)
    ensures StartsWith(SelectParts(sc, measurement, selectClause).0, measurement + "_")
    ensures SelectParts(sc, measurement, selectClause).1 == ""
         || SelectParts(sc, measurement, selectClause).1 in ["avg", "sum", "count", "min", "max"]
    ensures SelectParts(sc, measurement, selectClause).1 != "" <==>
      sc.call(selectClause).Some? && InfluxQLFunction(Lower(sc.call(selectClause).value.0)).Some?
  {
    var prefix := measurement + "_";
    var field := if sc.call(selectClause).Some? then StripQuotes(sc.call(selectClause).value.1) else StripQuotes(selectClause);
    assert SelectParts(sc, measurement, selectClause).0 == prefix + field;
    assert (prefix + field)[..|prefix|] == prefix;
  }

  /** The pieces `convert_influxql_to_promql` collects, or None when the SELECT pattern does not match. */
  function InfluxQLQuery(sc: InfluxQLScanner, q: string): Option<PromQuery> {
    match sc.select(q)
    case None => None
    case Some(sm) =>
      var parts := SelectParts(sc, Strip(sm.1), Strip(sm.0));
      match sc.where(q)
      case None => Some(PromQuery(parts.0, [], "", parts.1))
      case Some(w) =>
        var whereClause := Strip(w);
        Some(PromQuery(parts.0, TagFilters(sc.tags(whereClause)), InfluxQLRange(sc, whereClause), parts.1))
  }

  function InfluxQLToPromql(sc: InfluxQLScanner, q: string): string {
    match InfluxQLQuery(sc, q)
    case None => SelectError
    case Some(p) => Render(p)
  }

  /** `convert_influxql_to_promql` */
  method ConvertInfluxQLToPromql(sc: InfluxQLScanner, q: string) returns (promql: string)
    ensures promql == InfluxQLToPromql(sc, q)
  {
    var selectMatch := sc.select(q);
    var whereMatch := sc.where(q);
    if selectMatch.None? {
      return SelectError;
    }

    var selectClause := Strip(selectMatch.value.0);
    var measurement := Strip(selectMatch.value.1);
    var metricName, promqlFunction := ReadSelectClause(sc, measurement, selectClause);

    var filters: seq<string> := [];
    var timeRange := "";
    if whereMatch.Some? {
      filters, timeRange := ReadWhereClause(sc, Strip(whereMatch.value));
    }

    promql := Assemble(metricName, filters, timeRange, promqlFunction);
  }

  /** The metric name and PromQL function of the select clause, as the source's `if function_match` branches set them. */
  method ReadSelectClause(sc: InfluxQLScanner, measurement: string, selectClause: string)
    returns (metricName: string, promqlFunction: string)
    ensures (metricName, promqlFunction) == SelectParts(sc, measurement, selectClause)
    ensures StartsWith(metricName, measurement + "_")
    ensures promqlFunction == "" || promqlFunction in ["avg", "sum", "count", "min", "max"]
    ensures promqlFunction != "" <==>
      sc.call(selectClause).Some? && InfluxQLFunction(Lower(sc.call(selectClause).value.0)).Some?
  {
    SelectPartsShape(sc, measurement, selectClause);
    var functionMatch := sc.call(selectClause);
    promqlFunction := "";
    if functionMatch.Some? {
      var funcName := Lower(functionMatch.value.0);
      var field := StripQuotes(functionMatch.value.1);
      var mapped := InfluxQLFunction(funcName);
      if mapped.Some? {
        promqlFunction := mapped.value;
      }
      metricName := measurement + "_" + field;
    } else {
      var field := StripQuotes(selectClause);
      metricName := measurement + "_" + field;
    }
  }

  /** The filters and range token of a stripped where clause, as the source's `if where_match` block sets them. */
  method ReadWhereClause(sc: InfluxQLScanner, whereClause: string) returns (filters: seq<string>, timeRange: string)
    ensures filters == TagFilters(sc.tags(whereClause))
    ensures timeRange == InfluxQLRange(sc, whereClause)
  {
    timeRange := "";
    var timeMatch := sc.time(whereClause);
    if timeMatch.Some? {
      var timeValue := timeMatch.value;
      if Contains(timeValue, "now()") && Contains(timeValue, "-") {
        var durationMatch := sc.duration(timeValue);
        if durationMatch.Some? {
          timeRange := "[" + durationMatch.value.0 + durationMatch.value.1 + "]";
        }
      }
    }
    filters := [];
    var tagMatches := sc.tags(whereClause);
    for i := 0 to |tagMatches|
      invariant filters == TagFilters(tagMatches[..i])
    {
      filters := filters + [tagMatches[i].0 + "=\"" + tagMatches[i].1 + "\""];
    }
    assert tagMatches[..|tagMatches|] == tagMatches;
  }

  /** The two aggregation maps agree on every name but `stddev`, which only the Flux side maps. */
  lemma AggregationMapsDifferOnlyOnStddev(f: string)
    ensures f != "stddev" ==> FluxAggregation(f) == InfluxQLFunction(f)
    ensures FluxAggregation("stddev") == Some("stddev") && InfluxQLFunction("stddev") == None
    ensures FluxAggregation(f).Some? ==> FluxAggregation(f).value in ["avg", "sum", "count", "min", "max", "stddev"]
  {
  }

  /** A function the map does not know adds no wrapper, but its argument still names the metric. */
  lemma UnmappedFunctionStillNamesMetric(sc: InfluxQLScanner, q: string, fname: string, arg: string)
    requires sc.select(q).Some?
    requires sc.call(Strip(sc.select(q).value.0)) == Some((fname, arg))
    requires InfluxQLFunction(Lower(fname)).None?
    ensures InfluxQLQuery(sc, q).Some?
    ensures InfluxQLQuery(sc, q).value.aggregation == ""
    ensures InfluxQLQuery(sc, q).value.name == Strip(sc.select(q).value.1) + "_" + StripQuotes(arg)
  {
    var sm := sc.select(q).value;
    UnmappedSelectParts(sc, Strip(sm.1), Strip(sm.0), fname, arg);
    InfluxQLQueryParts(sc, q);
  }

  lemma UnmappedSelectParts(sc: InfluxQLScanner, measurement: string, selectClause: string, fname: string, arg: string)
    requires sc.call(selectClause) == Some((fname, arg))
    requires InfluxQLFunction(Lower(fname)).None?
    ensures SelectParts(sc, measurement, selectClause) == (measurement + "_" + StripQuotes(arg), "")
  {
  }

  /** A matching SELECT gives a query whose name and aggregation are those of its select clause. */
  lemma InfluxQLQueryParts(sc: InfluxQLScanner, q: string)
    requires sc.select(q).Some?
    ensures InfluxQLQuery(sc, q).Some?
    ensures (InfluxQLQuery(sc, q).value.name, InfluxQLQuery(sc, q).value.aggregation)
         == SelectParts(sc, Strip(sc.select(q).value.1), Strip(sc.select(q).value.0))
  {
    var sm := sc.select(q).value;
    var parts := SelectParts(sc, Strip(sm.1), Strip(sm.0));
    match sc.where(q) {
      case None =>
        assert InfluxQLQuery(sc, q) == Some(PromQuery(parts.0, [], "", parts.1));
      case Some(w) =>
        var whereClause := Strip(w);
        assert InfluxQLQuery(sc, q)
            == Some(PromQuery(parts.0, TagFilters(sc.tags(whereClause)), InfluxQLRange(sc, whereClause), parts.1));
    }
  }

  /** A range token is produced only from a `now()` time bound with a minus sign and a duration capture. */
  lemma InfluxQLRangeOnlyFromNow(sc: InfluxQLScanner, whereClause: string)
    ensures InfluxQLRange(sc, whereClause) != "" ==>
      && sc.time(whereClause).Some?
      && Contains(sc.time(whereClause).value, "now()")
      && Contains(sc.time(whereClause).value, "-")
      && sc.duration(sc.time(whereClause).value).Some?
      && InfluxQLRange(sc, whereClause)
         == "[" + sc.duration(sc.time(whereClause).value).value.0 + sc.duration(sc.time(whereClause).value).value.1 + "]"
  {
  }

  /**
   * The time pattern's value group excludes ')', so a time value it captures
   * never contains "now()" and no range token is produced.
   */
  lemma ParenFreeTimeValueGivesNoRange(sc: InfluxQLScanner, whereClause: string)
    requires sc.time(whereClause).Some? ==> ')' !in sc.time(whereClause).value
    ensures InfluxQLRange(sc, whereClause) == ""
  {
    if sc.time(whereClause).Some? {
      MissingCharNotContained(sc.time(whereClause).value, "now()", 4);
    }
  }

  // ---------------------------------------------------------------------------
  // detect_query_type and influx_to_promql
  // ---------------------------------------------------------------------------

  datatype QueryType = Flux | InfluxQL | Unknown

  /** The names `detect_query_type` returns. */
  function QueryTypeName(t: QueryType): string {
    match t
    case Flux => "flux"
    case InfluxQL => "influxql"
    case Unknown => "unknown"
  }

  /** Flux if the trimmed, lower-cased query starts with "from" or the query has a pipe; else InfluxQL if it starts with SELECT in any case. */
  function DetectQueryType(q: string): (t: QueryType)
    ensures Contains(q, "|>") ==> t == Flux
    ensures StartsWithIgnoringCase(Strip(q), "from") ==> t == Flux
    ensures StartsWithIgnoringCase(Strip(q), "select") ==> t == if Contains(q, "|>") then Flux else InfluxQL
    ensures t == Unknown ==>
      !Contains(q, "|>") && !StartsWithIgnoringCase(Strip(q), "from") && !StartsWithIgnoringCase(Strip(q), "select")
    ensures t == Flux <==> Contains(q, "|>") || StartsWithIgnoringCase(Strip(q), "from")
    ensures (forall i :: 0 <= i < |Strip(q)| && i < 6 ==> Strip(q)[i] as int < 128) ==>
      (t == Unknown <==>
        !Contains(q, "|>") && !StartsWithIgnoringCase(Strip(q), "from") && !StartsWithIgnoringCase(Strip(q), "select"))
  {
    var s := Strip(q);
    FromPrefix(s);
    SelectPrefix(s);
    LowerStartsWithWord(s, "from");
    UpperSelectOnAscii(s);
    if StartsWith(Lower(s), "from") || Contains(q, "|>") then Flux
    else if StartsWith(Upper(s), "SELECT") then InfluxQL
    else Unknown
  }

  /** FROM in any letter case survives the lower-casing that detection applies. */
  lemma FromPrefix(s: string)
    ensures StartsWithIgnoringCase(s, "from") ==> StartsWith(Lower(s), "from")
  {
    if StartsWithIgnoringCase(s, "from") {
      AsciiLetterCases(s[0], 'f');
      AsciiLetterCases(s[1], 'r');
      AsciiLetterCases(s[2], 'o');
      AsciiLetterCases(s[3], 'm');
      CaseMapAsciiPrefix(s, 4);
      assert Lower(s)[..4] == "from";
    }
  }

  /** SELECT in any letter case survives the upper-casing that detection applies, and is never taken for FROM. */
  lemma SelectPrefix(s: string)
    ensures StartsWithIgnoringCase(s, "select") ==> StartsWith(Upper(s), "SELECT") && !StartsWith(Lower(s), "from")
  {
    if StartsWithIgnoringCase(s, "select") {
      AsciiLetterCases(s[0], 's');
      AsciiLetterCases(s[1], 'e');
      AsciiLetterCases(s[2], 'l');
      AsciiLetterCases(s[3], 'e');
      AsciiLetterCases(s[4], 'c');
      AsciiLetterCases(s[5], 't');
      CaseMapAsciiPrefix(s, 6);
      assert Upper(s)[..6] == "SELECT";
      assert Lower(s)[0] == 's' != "from"[0];
    }
  }

  /**
   * When the first six characters are ASCII, the upper-cased SELECT test holds
   * only for SELECT in some mix of ASCII cases. (Non-ASCII characters such as
   * U+017F upper-case to 'S', so the condition is needed.)
   */
  lemma UpperSelectOnAscii(s: string)
    ensures (forall i :: 0 <= i < |s| && i < 6 ==> s[i] as int < 128) && StartsWith(Upper(s), "SELECT") ==>
      StartsWithIgnoringCase(s, "select")
  {
    SelectSpelling();
    UpperStartsWithWord(s, "SELECT", "select");
  }

  /** "select" is "SELECT" letter by letter in lower case. */
  lemma SelectSpelling()
    ensures |"select"| == |"SELECT"| == 6
    ensures forall j :: 0 <= j < 6 ==> 'A' <= "SELECT"[j] <= 'Z' && "select"[j] == ("SELECT"[j] as int + 32) as char
  {
  }

  /** A character that is the lower-case ASCII letter l in either case is ASCII and case-maps to l and its capital. */
  lemma AsciiLetterCases(c: char, l: char)
    requires 'a' <= l <= 'z' && AsciiLower(c) == l
    ensures c as int < 128
    ensures LowerChar(c) == [l] && UpperChar(c) == [(l as int - 32) as char]
  {
  }

  /**
   * A query without a pipe whose stripped form starts with an ASCII character
   * that begins neither keyword is of unknown type.
   */
  lemma NoKeywordIsUnknown(q: string)
    requires '|' !in q
    requires Strip(q) != [] && Strip(q)[0] as int < 128
    requires AsciiLower(Strip(q)[0]) != 'f' && AsciiLower(Strip(q)[0]) != 's'
    ensures DetectQueryType(q) == Unknown
  {
    MissingCharNotContained(q, "|>", 0);
    FirstLetterRulesOutKeywords(Strip(q));
  }

  /** A string whose first character is ASCII and neither f nor s in any case passes neither case-mapped keyword test. */
  lemma FirstLetterRulesOutKeywords(s: string)
    requires s != [] && s[0] as int < 128
    requires AsciiLower(s[0]) != 'f' && AsciiLower(s[0]) != 's'
    ensures !StartsWith(Lower(s), "from") && !StartsWith(Upper(s), "SELECT")
  {
    CaseMapAsciiPrefix(s, 1);
    AsciiCaseHeads(s[0]);
    FirstCharOfPrefix(Lower(s), "from");
    FirstCharOfPrefix(Upper(s), "SELECT");
  }

  /** An ASCII character lower-cases to its ASCII lower case, and upper-cases to S only when it is s or S. */
  lemma AsciiCaseHeads(c: char)
    requires c as int < 128
    ensures LowerChar(c)[0] == AsciiLower(c)
    ensures UpperChar(c)[0] == 'S' ==> AsciiLower(c) == 's'
  {
  }

  /** The same for a query with no whitespace at either end, which is its own stripped form. */
  lemma UnpaddedNoKeywordIsUnknown(q: string)
    requires q != [] && !IsSpace(q[0]) && !IsSpace(q[|q| - 1]) && '|' !in q
    requires q[0] as int < 128 && AsciiLower(q[0]) != 'f' && AsciiLower(q[0]) != 's'
    ensures DetectQueryType(q) == Unknown
  {
    StripUnchanged(q);
    NoKeywordIsUnknown(q);
  }

  /** The sentence the tests use as a non-query is of unknown type. */
  lemma NotAQueryIsUnknown()
    ensures DetectQueryType("this is not a valid query") == Unknown
  {
    NotAQueryShape();
    UnpaddedNoKeywordIsUnknown("this is not a valid query");
  }

  /** The sentence starts with 't', ends with 'y' and has no '|'. */
  lemma NotAQueryShape()
    ensures var q := "this is not a valid query"; |q| == 25 && q[0] == 't' && q[24] == 'y' && '|' !in q
  {
  }

  /** The pipe test comes first: a SELECT query with a `|>` in it is taken for Flux. */
  lemma PipeWinsOverSelect(q: string)
    requires StartsWith(Upper(Strip(q)), "SELECT") && Contains(q, "|>")
    ensures DetectQueryType(q) == Flux
  {
  }

  /** Leading whitespace never changes the detected type. */
  lemma DetectIgnoresLeadingWhitespace(ws: string, q: string)
    requires forall i :: 0 <= i < |ws| ==> IsSpace(ws[i])
    ensures DetectQueryType(ws + q) == DetectQueryType(q)
  {
    StripLeadingSpace(ws, q);
    assert !IsSpace('|');
    ContainsAfterPrefix(ws, q, "|>");
    DetectionInputs(ws + q, q);
  }

  /** Detection looks only at the stripped query and at whether the query has a pipe. */
  lemma DetectionInputs(q1: string, q2: string)
    requires Strip(q1) == Strip(q2) && Contains(q1, "|>") == Contains(q2, "|>")
    ensures DetectQueryType(q1) == DetectQueryType(q2)
  {
  }

  const TypeError: string := "Error: Could not determine query type. Please specify using --type"

  /** The scanners of both converters. */
  datatype Scanners = Scanners(flux: FluxScanner, influxql: InfluxQLScanner)

  /** `force_type if force_type else detect_query_type(query)`: a non-empty forced type wins. */
  function ResolvedType(q: string, forceType: Option<string>): string {
    if forceType.Some? && forceType.value != "" then forceType.value else QueryTypeName(DetectQueryType(q))
  }

  /** `influx_to_promql`: converts by the resolved type, or returns the fixed error text. */
  function InfluxToPromql(sc: Scanners, q: string, forceType: Option<string>): (r: string)
    ensures forceType.None? || forceType == Some("") ==>
      r == match DetectQueryType(q)
           case Flux => FluxToPromql(sc.flux, q)
           case InfluxQL => InfluxQLToPromql(sc.influxql, q)
           case Unknown => TypeError
  {
    var queryType := ResolvedType(q, forceType);
    if queryType == "flux" then FluxToPromql(sc.flux, q)
    else if queryType == "influxql" then InfluxQLToPromql(sc.influxql, q)
    else TypeError
  }

  /**
   * Forcing a type bypasses detection; an empty forced type counts as none;
   * a query of unknown type, or a forced type other than the two, gets the error text.
   */
  lemma ForcedTypeOverridesDetection(sc: Scanners, q: string, t: string)
    ensures InfluxToPromql(sc, q, Some("flux")) == FluxToPromql(sc.flux, q)
    ensures InfluxToPromql(sc, q, Some("influxql")) == InfluxQLToPromql(sc.influxql, q)
    ensures InfluxToPromql(sc, q, Some("")) == InfluxToPromql(sc, q, None)
    ensures t != "" && t != "flux" && t != "influxql" ==> InfluxToPromql(sc, q, Some(t)) == TypeError
    ensures DetectQueryType(q) == Unknown ==> InfluxToPromql(sc, q, None) == TypeError
  {
    assert ResolvedType(q, Some("flux")) == "flux";
    assert ResolvedType(q, Some("influxql")) == "influxql";
    assert ResolvedType(q, Some("")) == ResolvedType(q, None);
    assert QueryTypeName(Unknown) != "flux" && QueryTypeName(Unknown) != "influxql";
  }
}
