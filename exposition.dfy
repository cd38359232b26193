/**
 * `InfluxToPromConverter.format_metrics` (src/influx2prom/converter.py): the
 * grouped Prometheus text exposition, with label-value escaping and labels
 * sorted by name.
 */
module Exposition {
  import opened Wrappers
  import opened Text
  import opened Python
  import opened Collections
  import opened Converter

  // ---------------------------------------------------------------------------
  // Label-value escaping
  // ---------------------------------------------------------------------------

  /** The escaping as the source writes it: three whole-string replacements, backslash first. */
  function EscapeLabelValue(v: string): string {
    ReplaceChar(ReplaceChar(ReplaceChar(v, '\\', "\\\\"), '"', "\\\""), '\n', "\\n")
  }

  /** The escape of one character, as the exposition format defines it for label values. */
  function EscapeChar(c: char): string {
    if c == '\\' then "\\\\" else if c == '"' then "\\\"" else if c == '\n' then "\\n" else [c]
  }

  /** Reference escaping: every character replaced by its own escape, independently of its neighbours. */
  function EscapeEach(v: string): string
    decreases |v|
  {
    if v == [] then "" else EscapeChar(v[0]) + EscapeEach(v[1..])
  }

  /** Reads the escapes `\\`, `\"` and `\n` of a label value back. */
  function UnescapeLabelValue(s: string): string
    decreases |s|
  {
    if s == [] then ""
    else if |s| >= 2 && s[0] == '\\' && s[1] == '\\' then "\\" + UnescapeLabelValue(s[2..])
    else if |s| >= 2 && s[0] == '\\' && s[1] == '"' then "\"" + UnescapeLabelValue(s[2..])
    else if |s| >= 2 && s[0] == '\\' && s[1] == 'n' then "\n" + UnescapeLabelValue(s[2..])
    else [s[0]] + UnescapeLabelValue(s[1..])
  }

  /**
   * The chained replacements equal the per-character substitution: because the
   * backslash is replaced first, no escape produced by one step is escaped again.
   */
  lemma {:induction false} EscapeIsPerCharacter(v: string)
    ensures EscapeLabelValue(v) == EscapeEach(v)
    decreases |v|
  {
    if v != [] {
      var c, rest := v[0], v[1..];
      assert v == [c] + rest;
      EscapeIsPerCharacter(rest);
      ReplaceCharAppend([c], rest, '\\', "\\\\");
      var a1, b1 := ReplaceChar([c], '\\', "\\\\"), ReplaceChar(rest, '\\', "\\\\");
      ReplaceCharAppend(a1, b1, '"', "\\\"");
      var a2, b2 := ReplaceChar(a1, '"', "\\\""), ReplaceChar(b1, '"', "\\\"");
      ReplaceCharAppend(a2, b2, '\n', "\\n");
      EscapeOneChar(c);
    }
  }

  lemma EscapeOneChar(c: char)
    ensures EscapeLabelValue([c]) == EscapeChar(c)
  {
    var s := [c];
    assert s[1..] == [];
    if c == '\\' {
      var a := "\\\\";
      assert ReplaceChar(s, '\\', "\\\\") == a + ReplaceChar([], '\\', "\\\\");
      assert a == [a[0]] + [a[1]] && a[1..] == [a[1]];
      assert ReplaceChar(a, '"', "\\\"") == a;
      assert ReplaceChar(a, '\n', "\\n") == a;
    } else if c == '"' {
      var a := "\\\"";
      assert ReplaceChar(s, '\\', "\\\\") == s;
      assert ReplaceChar(s, '"', "\\\"") == a + ReplaceChar([], '"', "\\\"");
      assert a[1..] == [a[1]];
      assert ReplaceChar(a, '\n', "\\n") == a;
    } else if c == '\n' {
      assert ReplaceChar(s, '\\', "\\\\") == s;
      assert ReplaceChar(s, '"', "\\\"") == s;
    } else {
      assert ReplaceChar(s, '\\', "\\\\") == s;
      assert ReplaceChar(s, '"', "\\\"") == s;
    }
  }

  /** Unescaping an escaped label value gives the original value back. */
  lemma {:induction false} UnescapeEscape(v: string)
    ensures UnescapeLabelValue(EscapeLabelValue(v)) == v
  {
    EscapeIsPerCharacter(v);
    UnescapeEscapeEach(v);
  }

  lemma {:induction false} UnescapeEscapeEach(v: string)
    ensures UnescapeLabelValue(EscapeEach(v)) == v
    decreases |v|
  {
    if v != [] {
      var c, rest := v[0], v[1..];
      UnescapeEscapeEach(rest);
      var tail := EscapeEach(rest);
      var e := EscapeChar(c) + tail;
      if c == '\\' || c == '"' || c == '\n' {
        assert e[2..] == tail;
      } else {
        assert e[1..] == tail;
      }
      assert v == [c] + rest;
    }
  }

  /** An escaped label value holds no raw newline, so a sample always stays on one line. */
  lemma EscapedHasNoNewline(v: string)
    ensures '\n' !in EscapeLabelValue(v)
  {
    ReplaceCharRemoves(ReplaceChar(ReplaceChar(v, '\\', "\\\\"), '"', "\\\""), '\n', "\\n");
  }

  // ---------------------------------------------------------------------------
  // Sorting labels: `sorted(labels.items())`
  // ---------------------------------------------------------------------------

  /** Python's `a < b` on str: lexicographic by code point, a proper prefix first. */
  predicate StrLess(a: string, b: string)
    decreases |a|
  {
    if a == [] then b != []
    else if b == [] then false
    else if a[0] != b[0] then a[0] < b[0]
    else StrLess(a[1..], b[1..])
  }

  lemma {:induction false} StrLessIrreflexive(a: string)
    ensures !StrLess(a, a)
    decreases |a|
  {
    if a != [] {
      StrLessIrreflexive(a[1..]);
    }
  }

  lemma {:induction false} StrLessTransitive(a: string, b: string, c: string)
    requires StrLess(a, b) && StrLess(b, c)
    ensures StrLess(a, c)
    decreases |a|
  {
    if a != [] && b != [] && c != [] && a[0] == b[0] && b[0] == c[0] {
      StrLessTransitive(a[1..], b[1..], c[1..]);
    }
  }

  lemma {:induction false} StrLessTotal(a: string, b: string)
    ensures a == b || StrLess(a, b) || StrLess(b, a)
    decreases |a|
  {
    if a != [] && b != [] && a[0] == b[0] {
      StrLessTotal(a[1..], b[1..]);
      if a[1..] == b[1..] {
        assert a == [a[0]] + a[1..] && b == [b[0]] + b[1..];
      }
    }
  }

  lemma {:induction false} StrLessAsymmetric(a: string, b: string)
    requires StrLess(a, b)
    ensures !StrLess(b, a)
    decreases |a|
  {
    if a != [] && b != [] && a[0] == b[0] {
      StrLessAsymmetric(a[1..], b[1..]);
    }
  }

  /** Items in strictly increasing key order. */
  predicate SortedByKey(s: seq<(string, string)>) {
    forall i, j :: 0 <= i < j < |s| ==> StrLess(s[i].0, s[j].0)
  }

  function InsertByKey(p: (string, string), s: seq<(string, string)>): seq<(string, string)>
    decreases |s|
  {
    if s == [] then [p]
    else if StrLess(p.0, s[0].0) then [p] + s
    else [s[0]] + InsertByKey(p, s[1..])
  }

  /** `sorted(d.items())`: an insertion sort by key. */
  function SortByKey(items: seq<(string, string)>): seq<(string, string)>
    decreases |items|
  {
    if items == [] then [] else InsertByKey(items[0], SortByKey(items[1..]))
  }

  lemma {:induction false} InsertByKeyContents(p: (string, string), s: seq<(string, string)>)
    ensures multiset(InsertByKey(p, s)) == multiset(s) + multiset{p}
    decreases |s|
  {
    if s != [] && !StrLess(p.0, s[0].0) {
      InsertByKeyContents(p, s[1..]);
      assert s == [s[0]] + s[1..];
    }
  }

  lemma {:induction false} InsertByKeySorted(p: (string, string), s: seq<(string, string)>)
    requires SortedByKey(s)
    requires forall i :: 0 <= i < |s| ==> s[i].0 != p.0
    ensures SortedByKey(InsertByKey(p, s))
    decreases |s|
  {
    if s == [] {
    } else if StrLess(p.0, s[0].0) {
      forall j | 1 <= j < |s| ensures StrLess(p.0, s[j].0) {
        StrLessTransitive(p.0, s[0].0, s[j].0);
      }
    } else {
      StrLessTotal(p.0, s[0].0);
      InsertByKeySorted(p, s[1..]);
      var t := InsertByKey(p, s[1..]);
      InsertByKeyContents(p, s[1..]);
      forall j | 0 <= j < |t| ensures StrLess(s[0].0, t[j].0) {
        assert t[j] in multiset(t);
        if t[j] != p {
          assert t[j] in multiset(s[1..]);
          var k :| 1 <= k < |s| && s[k] == t[j] by {
            assert t[j] in s[1..];
            var k' :| 0 <= k' < |s[1..]| && s[1..][k'] == t[j];
            assert s[k' + 1] == t[j];
          }
        }
      }
    }
  }

  /** The sorted items are strictly increasing by key and are exactly the dict's items. */
  lemma {:induction false} SortByKeySpec(items: seq<(string, string)>)
    requires DistinctKeys(items)
    ensures SortedByKey(SortByKey(items))
    ensures multiset(SortByKey(items)) == multiset(items)
    decreases |items|
  {
    if items != [] {
      var rest := items[1..];
      HeadKeyNotInTail(items);
      SortByKeySpec(rest);
      var t := SortByKey(rest);
      InsertByKeyContents(items[0], t);
      KeysStayOutside(items[0], rest, t);
      InsertByKeySorted(items[0], t);
      assert items == [items[0]] + rest;
    }
  }

  /** In a dict, the tail is a dict and none of its keys is the first key. */
  lemma HeadKeyNotInTail(items: seq<(string, string)>)
    requires items != [] && DistinctKeys(items)
    ensures DistinctKeys(items[1..])
    ensures forall k :: 0 <= k < |items[1..]| ==> items[1..][k].0 != items[0].0
  {
    forall k | 0 <= k < |items[1..]| ensures items[1..][k].0 != items[0].0 {
      assert items[1..][k] == items[k + 1];
    }
  }

  /** A rearrangement of items none of which has p's key has none either. */
  lemma KeysStayOutside(p: (string, string), s: seq<(string, string)>, t: seq<(string, string)>)
    requires multiset(t) == multiset(s)
    requires forall k :: 0 <= k < |s| ==> s[k].0 != p.0
    ensures forall i :: 0 <= i < |t| ==> t[i].0 != p.0
  {
    forall i | 0 <= i < |t| ensures t[i].0 != p.0 {
      assert t[i] in multiset(s);
      var k :| 0 <= k < |s| && s[k] == t[i];
    }
  }

  /** Two key-sorted arrangements of the same items are the same sequence. */
  lemma {:induction false} SortedUnique(a: seq<(string, string)>, b: seq<(string, string)>)
    requires SortedByKey(a) && SortedByKey(b)
    requires multiset(a) == multiset(b)
    ensures a == b
    decreases |a|
  {
    if a == [] {
      assert |multiset(b)| == 0;
    } else {
      SortedSameHead(a, b);
      SameTails(a, b);
      SortedUnique(a[1..], b[1..]);
      assert a == [a[0]] + a[1..] && b == [b[0]] + b[1..];
    }
  }

  /** Removing the same first item from two arrangements of the same items leaves arrangements of the same items. */
  lemma SameTails(a: seq<(string, string)>, b: seq<(string, string)>)
    requires a != [] && b != [] && a[0] == b[0]
    requires multiset(a) == multiset(b)
    ensures multiset(a[1..]) == multiset(b[1..])
  {
    assert a == [a[0]] + a[1..] && b == [b[0]] + b[1..];
    assert multiset(a[1..]) == multiset(a) - multiset{a[0]};
    assert multiset(b[1..]) == multiset(b) - multiset{a[0]};
  }

  lemma SortedSameHead(a: seq<(string, string)>, b: seq<(string, string)>)
    requires SortedByKey(a) && SortedByKey(b)
    requires multiset(a) == multiset(b)
    requires a != []
    ensures b != [] && a[0] == b[0]
  {
    assert a[0] in multiset(b);
    var k :| 0 <= k < |b| && b[k] == a[0];
    assert b[0] in multiset(a);
    var m :| 0 <= m < |a| && a[m] == b[0];
    if k != 0 {
      if m == 0 {
        StrLessIrreflexive(b[0].0);
      } else {
        StrLessAsymmetric(a[0].0, a[m].0);
      }
      assert false;
    }
  }

  // ---------------------------------------------------------------------------
  // One sample line
  // ---------------------------------------------------------------------------

  /** `f'{k}="{escaped_value}"'` */
  function LabelPair(p: (string, string)): string {
    p.0 + "=\"" + EscapeLabelValue(p.1) + "\""
  }

  function LabelPairs(items: seq<(string, string)>): seq<string> {
    seq(|items|, i requires 0 <= i < |items| => LabelPair(items[i]))
  }

  /** `labels_str`: nothing for no labels, otherwise the sorted pairs joined by ',' in braces. */
  function LabelsText(labels: Dict): string {
    if labels == [] then "" else "{" + Join(LabelPairs(SortByKey(labels)), ",") + "}"
  }

  /** The rendered labels depend only on the dict's contents, not on the order its keys were inserted in. */
  lemma LabelsTextIgnoresInsertionOrder(a: Dict, b: Dict)
    requires multiset(a) == multiset(b)
    ensures LabelsText(a) == LabelsText(b)
  {
    SortByKeySpec(a);
    SortByKeySpec(b);
    SortedUnique(SortByKey(a), SortByKey(b));
    if a == [] {
      assert |multiset(b)| == 0;
    }
  }

  /** `f"{metric.name}{labels_str} {metric.value}"`, plus `f" {metric.timestamp}"` when there is one. */
  function SampleLine(rt: Runtime, m: PrometheusMetric): string {
    m.name + LabelsText(m.labels) + " " + rt.floatRepr(m.value)
    + (if m.timestamp.Some? then " " + IntToString(m.timestamp.value) else "")
  }

  /** The line of one sample, built as the source builds it (one label part per sorted item). */
  method FormatSample(rt: Runtime, m: PrometheusMetric) returns (line: string)
    ensures line == SampleLine(rt, m)
  {
    var labelsStr := "";
    if m.labels != [] {
      var items := SortByKey(m.labels);
      var parts: seq<string> := [];
      for i := 0 to |items|
        invariant parts == LabelPairs(items[..i])
      {
        parts := parts + [LabelPair(items[i])];
        assert items[..i + 1] == items[..i] + [items[i]];
      }
      assert items[..|items|] == items;
      labelsStr := "{" + Join(parts, ",") + "}";
    }
    if m.timestamp.Some? {
      line := m.name + labelsStr + " " + rt.floatRepr(m.value) + " " + IntToString(m.timestamp.value);
    } else {
      line := m.name + labelsStr + " " + rt.floatRepr(m.value);
    }
  }

  /** The timestamp is appended, after one space, exactly when the metric has one; no labels means no braces. */
  lemma SampleLineShape(rt: Runtime, m: PrometheusMetric)
    ensures m.timestamp.None? ==> SampleLine(rt, m) == m.name + LabelsText(m.labels) + " " + rt.floatRepr(m.value)
    ensures m.timestamp.Some? ==> EndsWith(SampleLine(rt, m), " " + IntToString(m.timestamp.value))
    ensures m.labels == [] ==> StartsWith(SampleLine(rt, m), m.name + " ")
  {
    var line := SampleLine(rt, m);
    if m.timestamp.Some? {
      var suffix := " " + IntToString(m.timestamp.value);
      var prefix := m.name + LabelsText(m.labels) + " " + rt.floatRepr(m.value);
      assert line == prefix + suffix;
      assert line[|line| - |suffix|..] == suffix;
    }
    if m.labels == [] {
      assert line[..|m.name + " "|] == m.name + " ";
    }
  }

  // ---------------------------------------------------------------------------
  // Grouping by (name, type)
  // ---------------------------------------------------------------------------

  /** `f"{metric.name}:{metric.type}"`, the dict key a metric is grouped under. */
  function GroupKey(m: PrometheusMetric): string {
    m.name + ":" + m.metricType
  }

  /** The group keys in the order the dict first sees them. */
  function GroupKeys(ms: seq<PrometheusMetric>): seq<string>
    decreases |ms|
  {
    if ms == [] then []
    else
      var keys := GroupKeys(ms[..|ms| - 1]);
      var k := GroupKey(ms[|ms| - 1]);
      if k in keys then keys else keys + [k]
  }

  /** The metrics grouped under one key, in input order. */
  function Members(ms: seq<PrometheusMetric>, key: string): seq<PrometheusMetric>
    decreases |ms|
  {
    if ms == [] then []
    else Members(ms[..|ms| - 1], key) + (if GroupKey(ms[|ms| - 1]) == key then [ms[|ms| - 1]] else [])
  }

  /** The optional `# HELP` line and the `# TYPE` line, both taken from the group's first metric. */
  function HeaderLines(first: PrometheusMetric): seq<string> {
    (if first.help.Some? && first.help.value != "" then ["# HELP " + first.name + " " + first.help.value] else [])
    + ["# TYPE " + first.name + " " + first.metricType]
  }

  function SampleLines(rt: Runtime, group: seq<PrometheusMetric>): seq<string> {
    seq(|group|, i requires 0 <= i < |group| => SampleLine(rt, group[i]))
  }

  /** A group's lines: headers, one line per sample, then the blank separator line. */
  function GroupLines(rt: Runtime, group: seq<PrometheusMetric>): seq<string>
    requires group != []
  {
    HeaderLines(group[0]) + SampleLines(rt, group) + [""]
  }

  /** The lines of the groups with the given keys, in the given order. */
  function BlockLines(rt: Runtime, ms: seq<PrometheusMetric>, keys: seq<string>): seq<string>
    requires forall i :: 0 <= i < |keys| ==> Members(ms, keys[i]) != []
    decreases |keys|
  {
    if keys == [] then []
    else BlockLines(rt, ms, keys[..|keys| - 1]) + GroupLines(rt, Members(ms, keys[|keys| - 1]))
  }

  /** The text `format_metrics` returns. */
  function Exposition(rt: Runtime, ms: seq<PrometheusMetric>): string {
    if ms == [] then ""
    else
      GroupKeysHaveMembers(ms);
      Join(BlockLines(rt, ms, GroupKeys(ms)), "\n")
  }

  /** `groups` is the source's `metric_groups` dict for `ms`: first-seen keys, each with its members. */
  predicate GroupsOf(ms: seq<PrometheusMetric>, groups: seq<(string, seq<PrometheusMetric>)>) {
    && |groups| == |GroupKeys(ms)|
    && forall j :: 0 <= j < |groups| ==>
         groups[j].0 == GroupKeys(ms)[j] && groups[j].1 == Members(ms, groups[j].0)
  }

  /** `format_metrics`: groups the metrics in a first-seen-ordered dict, then writes each group. */
  method FormatMetrics(rt: Runtime, ms: seq<PrometheusMetric>) returns (out: string)
    ensures out == Exposition(rt, ms)
  {
    if ms == [] {
      return "";
    }
    var groups := GroupMetrics(ms);
    GroupKeysHaveMembers(ms);
    var lines := WriteGroups(rt, ms, groups);
    out := Join(lines, "\n");
  }

  /** The grouping loop: fills `metric_groups`, opening a group at the first metric of each key. */
  method GroupMetrics(ms: seq<PrometheusMetric>) returns (groups: seq<(string, seq<PrometheusMetric>)>)
    ensures GroupsOf(ms, groups)
  {
    groups := [];
    for i := 0 to |ms|
      invariant GroupsOf(ms[..i], groups)
    {
      var metric := ms[i];
      var key := GroupKey(metric);
      assert ms[..i + 1] == ms[..i] + [metric];
      var keys := seq(|groups|, j requires 0 <= j < |groups| => groups[j].0);
      assert keys == GroupKeys(ms[..i]);
      var found := IndexOf(keys, key);
      if found.None? {
        AddGroup(ms[..i], metric, groups);
        groups := groups + [(key, [metric])];
      } else {
        var j := found.value;
        ExtendGroup(ms[..i], metric, groups, j);
        groups := groups[j := (key, groups[j].1 + [metric])];
      }
    }
    assert ms[..|ms|] == ms;
  }

  /** The output loop over `metric_groups.items()`: the lines of each group, in dict order. */
  method WriteGroups(rt: Runtime, ms: seq<PrometheusMetric>, groups: seq<(string, seq<PrometheusMetric>)>)
    returns (lines: seq<string>)
    requires GroupsOf(ms, groups)
    requires forall i :: 0 <= i < |GroupKeys(ms)| ==> Members(ms, GroupKeys(ms)[i]) != []
    ensures lines == BlockLines(rt, ms, GroupKeys(ms))
  {
    lines := [];
    for j := 0 to |groups|
      invariant lines == BlockLines(rt, ms, GroupKeys(ms)[..j])
    {
      var block := WriteGroup(rt, groups[j].1);
      lines := lines + block;
      assert GroupKeys(ms)[..j + 1][..j] == GroupKeys(ms)[..j];
    }
    assert GroupKeys(ms)[..|groups|] == GroupKeys(ms);
  }

  /** The lines of one group, as the body of the source's group loop appends them. */
  method WriteGroup(rt: Runtime, group: seq<PrometheusMetric>) returns (lines: seq<string>)
    requires group != []
    ensures lines == GroupLines(rt, group)
  {
    var first := group[0];
    lines := [];
    if first.help.Some? && first.help.value != "" {
      lines := lines + ["# HELP " + first.name + " " + first.help.value];
    }
    lines := lines + ["# TYPE " + first.name + " " + first.metricType];
    for t := 0 to |group|
      invariant lines == HeaderLines(first) + SampleLines(rt, group[..t])
    {
      var line := FormatSample(rt, group[t]);
      assert group[..t + 1] == group[..t] + [group[t]];
      SampleLinesAppend(rt, group[..t], group[t]);
      lines := lines + [line];
    }
    assert group[..|group|] == group;
    lines := lines + [""];
  }

  lemma SampleLinesAppend(rt: Runtime, group: seq<PrometheusMetric>, m: PrometheusMetric)
    ensures SampleLines(rt, group + [m]) == SampleLines(rt, group) + [SampleLine(rt, m)]
  {
    var a := SampleLines(rt, group + [m]);
    var b := SampleLines(rt, group) + [SampleLine(rt, m)];
    assert |a| == |b|;
    forall i | 0 <= i < |a|
      ensures a[i] == b[i]
    {
      if i < |group| {
        assert (group + [m])[i] == group[i];
      }
    }
  }

  lemma AddGroup(ms: seq<PrometheusMetric>, m: PrometheusMetric, groups: seq<(string, seq<PrometheusMetric>)>)
    requires GroupsOf(ms, groups)
    requires GroupKey(m) !in GroupKeys(ms)
    ensures GroupsOf(ms + [m], groups + [(GroupKey(m), [m])])
  {
    var ms' := ms + [m];
    assert ms'[..|ms'| - 1] == ms;
    MembersOfAbsentKey(ms, GroupKey(m));
    forall j | 0 <= j < |groups| ensures Members(ms', groups[j].0) == groups[j].1 {
      assert groups[j].0 in GroupKeys(ms);
    }
  }

  lemma ExtendGroup(ms: seq<PrometheusMetric>, m: PrometheusMetric, groups: seq<(string, seq<PrometheusMetric>)>, j: nat)
    requires GroupsOf(ms, groups)
    requires j < |groups| && groups[j].0 == GroupKey(m)
    ensures GroupsOf(ms + [m], groups[j := (GroupKey(m), groups[j].1 + [m])])
  {
    var ms' := ms + [m];
    assert ms'[..|ms'| - 1] == ms;
    assert GroupKey(m) in GroupKeys(ms);
    assert GroupKeys(ms') == GroupKeys(ms);
    GroupKeysSpec(ms);
    var groups' := groups[j := (GroupKey(m), groups[j].1 + [m])];
    forall i | 0 <= i < |groups'| ensures groups'[i].1 == Members(ms', groups'[i].0) {
      if i != j {
        assert groups[i].0 != groups[j].0;
      }
    }
  }

  // ---------------------------------------------------------------------------
  // Properties of the grouping
  // ---------------------------------------------------------------------------

  /**
   * The group keys are distinct and are exactly the keys of the input metrics;
   * a key has members exactly when it is one of them.
   */
  lemma {:induction false} GroupKeysSpec(ms: seq<PrometheusMetric>)
    ensures forall a, b :: 0 <= a < b < |GroupKeys(ms)| ==> GroupKeys(ms)[a] != GroupKeys(ms)[b]
    ensures forall k :: k in GroupKeys(ms) <==> exists i :: 0 <= i < |ms| && GroupKey(ms[i]) == k
    decreases |ms|
  {
    if ms != [] {
      var init := ms[..|ms| - 1];
      GroupKeysSpec(init);
      forall k | (exists i :: 0 <= i < |ms| && GroupKey(ms[i]) == k)
        ensures k in GroupKeys(ms)
      {
        var i :| 0 <= i < |ms| && GroupKey(ms[i]) == k;
        if i < |ms| - 1 {
          assert init[i] == ms[i];
        }
      }
      forall k | k in GroupKeys(ms)
        ensures exists i :: 0 <= i < |ms| && GroupKey(ms[i]) == k
      {
        if k in GroupKeys(init) {
          var i :| 0 <= i < |init| && GroupKey(init[i]) == k;
          assert ms[i] == init[i];
        } else {
          assert GroupKey(ms[|ms| - 1]) == k;
        }
      }
    }
  }

  lemma {:induction false} MembersOfAbsentKey(ms: seq<PrometheusMetric>, key: string)
    requires key !in GroupKeys(ms)
    ensures Members(ms, key) == []
    decreases |ms|
  {
    if ms != [] {
      var init := ms[..|ms| - 1];
      MembersOfAbsentKey(init, key);
    }
  }

  lemma {:induction false} GroupKeysHaveMembers(ms: seq<PrometheusMetric>)
    ensures forall i :: 0 <= i < |GroupKeys(ms)| ==> Members(ms, GroupKeys(ms)[i]) != []
    decreases |ms|
  {
    if ms != [] {
      GroupKeysHaveMembers(ms[..|ms| - 1]);
    }
  }

  /** Grouping keeps input order inside a group: the members of a concatenation are the members of its parts, in turn. */
  lemma {:induction false} MembersAppend(a: seq<PrometheusMetric>, b: seq<PrometheusMetric>, key: string)
    ensures Members(a + b, key) == Members(a, key) + Members(b, key)
    decreases |b|
  {
    if b == [] {
      assert a + b == a;
    } else {
      var binit := b[..|b| - 1];
      MembersAppend(a, binit, key);
      var ab := a + b;
      assert ab[..|ab| - 1] == a + binit && ab[|ab| - 1] == b[|b| - 1];
    }
  }

  /** Every member of a group has that group's key, so shares its name and type when types hold no ':'. */
  lemma {:induction false} MembersHaveKey(ms: seq<PrometheusMetric>, key: string)
    ensures forall i :: 0 <= i < |Members(ms, key)| ==> GroupKey(Members(ms, key)[i]) == key
    decreases |ms|
  {
    if ms != [] {
      MembersHaveKey(ms[..|ms| - 1], key);
    }
  }

  /** The group key of every metric, in input order. */
  function KeySeq(ms: seq<PrometheusMetric>): seq<string> {
    seq(|ms|, i requires 0 <= i < |ms| => GroupKey(ms[i]))
  }

  lemma GroupKeyInKeySeq(ms: seq<PrometheusMetric>, key: string)
    requires key in GroupKeys(ms)
    ensures key in KeySeq(ms)
  {
    GroupKeysSpec(ms);
    var i :| 0 <= i < |ms| && GroupKey(ms[i]) == key;
    assert KeySeq(ms)[i] == key;
  }

  /** The position of the first metric with a given key. */
  function FirstIndexOfKey(ms: seq<PrometheusMetric>, key: string): nat
    requires key in GroupKeys(ms)
  {
    GroupKeyInKeySeq(ms, key);
    IndexOf(KeySeq(ms), key).value
  }

  /** Groups come in first-seen order: an earlier group's first metric precedes a later group's first metric. */
  lemma {:induction false} GroupsInFirstSeenOrder(ms: seq<PrometheusMetric>, a: nat, b: nat)
    requires a < b < |GroupKeys(ms)|
    ensures FirstIndexOfKey(ms, GroupKeys(ms)[a]) < FirstIndexOfKey(ms, GroupKeys(ms)[b])
    decreases |ms|
  {
    var init := ms[..|ms| - 1];
    var last := GroupKey(ms[|ms| - 1]);
    var ka, kb := GroupKeys(ms)[a], GroupKeys(ms)[b];
    assert KeySeq(ms) == KeySeq(init) + [last];
    if b < |GroupKeys(init)| {
      assert ka == GroupKeys(init)[a] && kb == GroupKeys(init)[b];
      GroupsInFirstSeenOrder(init, a, b);
      GroupKeyInKeySeq(init, ka);
      GroupKeyInKeySeq(init, kb);
      IndexOfAppend(KeySeq(init), last, ka);
      IndexOfAppend(KeySeq(init), last, kb);
    } else {
      GroupKeysSpec(init);
      assert kb == last && kb !in GroupKeys(init);
      assert kb !in KeySeq(init);
      assert ka == GroupKeys(init)[a];
      GroupKeyInKeySeq(init, ka);
      IndexOfAppend(KeySeq(init), last, ka);
      assert KeySeq(ms)[|init|] == kb && KeySeq(ms)[..|init|] == KeySeq(init);
    }
  }

  /** All metrics of all groups, group after group. */
  function Grouped(ms: seq<PrometheusMetric>, keys: seq<string>): seq<PrometheusMetric>
    decreases |keys|
  {
    if keys == [] then [] else Grouped(ms, keys[..|keys| - 1]) + Members(ms, keys[|keys| - 1])
  }

  lemma {:induction false} GroupedAppendMetric(ms: seq<PrometheusMetric>, m: PrometheusMetric, keys: seq<string>)
    requires forall a, b :: 0 <= a < b < |keys| ==> keys[a] != keys[b]
    ensures multiset(Grouped(ms + [m], keys))
         == multiset(Grouped(ms, keys)) + (if GroupKey(m) in keys then multiset{m} else multiset{})
    decreases |keys|
  {
    if keys != [] {
      var init, k := keys[..|keys| - 1], keys[|keys| - 1];
      GroupedAppendMetric(ms, m, init);
      assert (ms + [m])[..|ms + [m]| - 1] == ms;
      assert keys == init + [k];
      assert GroupKey(m) in keys <==> GroupKey(m) in init || GroupKey(m) == k;
    }
  }

  /** Grouping is a permutation of the input: every metric lands in exactly one group. */
  lemma GroupingIsPermutation(ms: seq<PrometheusMetric>)
    ensures multiset(Grouped(ms, GroupKeys(ms))) == multiset(ms)
    ensures |Grouped(ms, GroupKeys(ms))| == |ms|
  {
    GroupedMultiset(ms);
    assert |multiset(Grouped(ms, GroupKeys(ms)))| == |multiset(ms)|;
  }

  lemma {:induction false} GroupedMultiset(ms: seq<PrometheusMetric>)
    ensures multiset(Grouped(ms, GroupKeys(ms))) == multiset(ms)
    decreases |ms|
  {
    if ms != [] {
      var init, m := ms[..|ms| - 1], ms[|ms| - 1];
      assert init + [m] == ms;
      GroupedMultiset(init);
      GroupedLastMetric(init, m);
      MultisetSnoc(init, m);
    }
  }

  lemma MultisetSnoc(s: seq<PrometheusMetric>, m: PrometheusMetric)
    ensures multiset(s + [m]) == multiset(s) + multiset{m}
  {
  }

  /** A metric appended to the input adds itself, once, to the grouped metrics. */
  lemma GroupedLastMetric(ms: seq<PrometheusMetric>, m: PrometheusMetric)
    ensures multiset(Grouped(ms + [m], GroupKeys(ms + [m]))) == multiset(Grouped(ms, GroupKeys(ms))) + multiset{m}
  {
    var ms', k := ms + [m], GroupKey(m);
    assert ms'[..|ms'| - 1] == ms;
    var keys := GroupKeys(ms);
    GroupKeysSpec(ms);
    GroupedAppendMetric(ms, m, keys);
    if k in keys {
      assert GroupKeys(ms') == keys;
    } else {
      assert GroupKeys(ms') == keys + [k];
      assert (keys + [k])[..|keys|] == keys;
      MembersOfAbsentKey(ms, k);
      assert Members(ms', k) == [m];
      assert Grouped(ms', keys + [k]) == Grouped(ms', keys) + [m];
    }
  }

  /** The header and separator lines a group adds around its samples. */
  function FrameLines(ms: seq<PrometheusMetric>, keys: seq<string>): nat
    requires forall i :: 0 <= i < |keys| ==> Members(ms, keys[i]) != []
    decreases |keys|
  {
    if keys == [] then 0
    else FrameLines(ms, keys[..|keys| - 1]) + |HeaderLines(Members(ms, keys[|keys| - 1])[0])| + 1
  }

  lemma {:induction false} BlockLinesCount(rt: Runtime, ms: seq<PrometheusMetric>, keys: seq<string>)
    requires forall i :: 0 <= i < |keys| ==> Members(ms, keys[i]) != []
    ensures |BlockLines(rt, ms, keys)| == |Grouped(ms, keys)| + FrameLines(ms, keys)
    decreases |keys|
  {
    if keys != [] {
      BlockLinesCount(rt, ms, keys[..|keys| - 1]);
    }
  }

  /** There is one sample line per input metric; the other lines are the groups' headers and separators. */
  lemma SampleLineCount(rt: Runtime, ms: seq<PrometheusMetric>)
    ensures forall i :: 0 <= i < |GroupKeys(ms)| ==> Members(ms, GroupKeys(ms)[i]) != []
    ensures |BlockLines(rt, ms, GroupKeys(ms))| == |ms| + FrameLines(ms, GroupKeys(ms))
  {
    GroupKeysHaveMembers(ms);
    BlockLinesCount(rt, ms, GroupKeys(ms));
    GroupingIsPermutation(ms);
  }

  /** The exposition is empty exactly for no metrics; otherwise it ends with a newline (the blank line after the last group). */
  lemma ExpositionEndsWithNewline(rt: Runtime, ms: seq<PrometheusMetric>)
    ensures Exposition(rt, ms) == "" <==> ms == []
    ensures ms != [] ==> EndsWith(Exposition(rt, ms), "\n")
  {
    if ms != [] {
      GroupKeysHaveMembers(ms);
      GroupKeysSpec(ms);
      assert GroupKey(ms[0]) in GroupKeys(ms);
      BlockLinesEndBlank(rt, ms, GroupKeys(ms));
      JoinEndsWithSeparator(BlockLines(rt, ms, GroupKeys(ms)), "\n");
    }
  }

  lemma BlockLinesEndBlank(rt: Runtime, ms: seq<PrometheusMetric>, keys: seq<string>)
    requires keys != []
    requires forall i :: 0 <= i < |keys| ==> Members(ms, keys[i]) != []
    ensures |BlockLines(rt, ms, keys)| >= 2 && BlockLines(rt, ms, keys)[|BlockLines(rt, ms, keys)| - 1] == ""
  {
    var last := GroupLines(rt, Members(ms, keys[|keys| - 1]));
    assert |last| >= 2 && last[|last| - 1] == "";
  }

  /** The text after the last ':' of a key (all of it when there is none). */
  function AfterLastColon(k: string): string
    decreases |k|
  {
    if k == [] then []
    else if k[|k| - 1] == ':' then []
    else AfterLastColon(k[..|k| - 1]) + [k[|k| - 1]]
  }

  lemma {:induction false} AfterLastColonOfKey(name: string, t: string)
    requires ':' !in t
    ensures AfterLastColon(name + ":" + t) == t
    decreases |t|
  {
    var k := name + ":" + t;
    if t != [] {
      var init := t[..|t| - 1];
      AfterLastColonOfKey(name, init);
      assert k[..|k| - 1] == name + ":" + init;
      assert t == init + [t[|t| - 1]];
    }
  }

  /** With types free of ':', the string key identifies the (name, type) pair. */
  lemma GroupKeyIdentifiesNameAndType(m1: PrometheusMetric, m2: PrometheusMetric)
    requires ':' !in m1.metricType && ':' !in m2.metricType
    ensures GroupKey(m1) == GroupKey(m2) <==> m1.name == m2.name && m1.metricType == m2.metricType
  {
    var k := GroupKey(m1);
    AfterLastColonOfKey(m1.name, m1.metricType);
    AfterLastColonOfKey(m2.name, m2.metricType);
    if k == GroupKey(m2) {
      var n := |k| - |m1.metricType| - 1;
      assert m1.name == k[..n] == m2.name;
    }
  }

  /** Every valid metric type is free of ':'. */
  lemma ValidTypesHaveNoColon(t: string)
    requires t in ValidTypes
    ensures ':' !in t
  {
  }

  lemma {:induction false} SingleKeyGroups(ms: seq<PrometheusMetric>, key: string)
    requires ms != []
    requires forall i :: 0 <= i < |ms| ==> GroupKey(ms[i]) == key
    ensures GroupKeys(ms) == [key] && Members(ms, key) == ms
    decreases |ms|
  {
    var init := ms[..|ms| - 1];
    if init != [] {
      SingleKeyGroups(init, key);
    }
    assert ms == init + [ms[|ms| - 1]];
  }

  /**
   * The output of one `convert_data` call, whose metrics share name and type,
   * is written as a single group: its headers, all samples in input order, a blank line.
   */
  lemma OneNameAndTypeIsOneGroup(rt: Runtime, ms: seq<PrometheusMetric>)
    requires ms != []
    requires forall i :: 0 <= i < |ms| ==> ms[i].name == ms[0].name && ms[i].metricType == ms[0].metricType
    ensures Exposition(rt, ms) == Join(HeaderLines(ms[0]) + SampleLines(rt, ms) + [""], "\n")
  {
    var key := GroupKey(ms[0]);
    SingleKeyGroups(ms, key);
    assert [key][..0] == [];
    assert BlockLines(rt, ms, [key]) == GroupLines(rt, ms);
  }
}
