/** The data behind the benchmark's HTML report: per-test tables across
    models, per-model totals and averages, chart labels and colours, and the
    summary rows (`_build_html_report` in `ollama-benchmark.py`). */
module Report {
  import opened Wrappers
  import opened Text
  import opened Benchmark

  /** One model of the saved report: its name and its benchmark records. */
  datatype ModelRun = ModelRun(name: string, benchmark: seq<Record>)

  /** `[p["name"] for p in BENCHMARK_PROMPTS]`. */
  const TEST_NAMES: seq<string> := ["greeting", "reasoning", "coding", "expression"]

  /** The test names are the prompts' names, in prompt order, and pairwise
      different, so each names one table row. */
  lemma TestNamesDistinct()
    ensures |TEST_NAMES| == |BENCHMARK_PROMPTS|
    ensures forall k :: 0 <= k < |TEST_NAMES| ==> TEST_NAMES[k] == BENCHMARK_PROMPTS[k].name
    ensures forall q, r :: 0 <= q < r < |TEST_NAMES| ==> TEST_NAMES[q] != TEST_NAMES[r]
  {
  }

  // ---- test_map: {b["test"]: b for b in benchmarks} ----

  /** The position of the last record for test `t`, if any. */
  function LastWithTest(bs: seq<Record>, t: string): (r: Option<nat>)
    ensures r.None? <==> forall k :: 0 <= k < |bs| ==> bs[k].test != t
    ensures r.Some? ==> r.value < |bs| && bs[r.value].test == t
                        && forall j :: r.value < j < |bs| ==> bs[j].test != t
  {
    if bs == [] then None
    else if bs[|bs| - 1].test == t then Some(|bs| - 1)
    else
      var r := LastWithTest(bs[..|bs| - 1], t);
      assert forall k :: 0 <= k < |bs| - 1 ==> bs[..|bs| - 1][k] == bs[k];
      r
  }

  /** The records keyed by test name; a later record with the same test
      replaces an earlier one. */
  function TestMap(bs: seq<Record>): (m: map<string, Record>)
    ensures forall t :: t in m <==> LastWithTest(bs, t).Some?
    ensures forall t :: t in m ==> m[t] == bs[LastWithTest(bs, t).value]
  {
    if bs == [] then map[]
    else
      var init := bs[..|bs| - 1];
      var last := bs[|bs| - 1];
      var m := TestMap(init);
      assert forall t :: t != last.test ==> LastWithTest(bs, t) == LastWithTest(init, t);
      m[last.test := last]
  }

  /** `test_map.get(t, {}).get("latency")`. */
  function LatencyOf(bs: seq<Record>, t: string): Option<nat> {
    var m := TestMap(bs);
    if t in m then m[t].latencyMs else None
  }

  /** `test_map.get(t, {}).get("length", 0)`. */
  function LengthOf(bs: seq<Record>, t: string): nat {
    var m := TestMap(bs);
    if t in m then m[t].length else 0
  }

  /** When no two records share a test name, the value for record `k`'s test
      is record `k`'s own. */
  lemma {:induction false} DistinctTestsLookup(bs: seq<Record>, k: nat)
    requires k < |bs|
    requires forall p, q :: 0 <= p < q < |bs| ==> bs[p].test != bs[q].test
    ensures LatencyOf(bs, bs[k].test) == bs[k].latencyMs
    ensures LengthOf(bs, bs[k].test) == bs[k].length
  {
    var j := LastWithTest(bs, bs[k].test);
    assert j == Some(k);
  }

  // ---- latency_data / length_data ----

  /** The lists for test `t` hold the values of the first `n` models. */
  predicate Filled(latencyData: map<string, seq<Option<nat>>>, lengthData: map<string, seq<nat>>,
                   runs: seq<ModelRun>, t: string, n: nat)
  {
    && t in latencyData && t in lengthData && n <= |runs|
    && |latencyData[t]| == n && |lengthData[t]| == n
    && forall m :: 0 <= m < n ==>
         latencyData[t][m] == LatencyOf(runs[m].benchmark, t) && lengthData[t][m] == LengthOf(runs[m].benchmark, t)
  }

  lemma FilledStep(latencyData: map<string, seq<Option<nat>>>, lengthData: map<string, seq<nat>>,
                   runs: seq<ModelRun>, t: string, i: nat)
    requires Filled(latencyData, lengthData, runs, t, i) && i < |runs|
    ensures Filled(latencyData[t := latencyData[t] + [LatencyOf(runs[i].benchmark, t)]],
                   lengthData[t := lengthData[t] + [LengthOf(runs[i].benchmark, t)]], runs, t, i + 1)
  {
  }

  lemma FilledOther(latencyData: map<string, seq<Option<nat>>>, lengthData: map<string, seq<nat>>,
                    runs: seq<ModelRun>, t: string, u: string, n: nat, latency: seq<Option<nat>>, length: seq<nat>)
    requires Filled(latencyData, lengthData, runs, u, n) && t != u
    ensures Filled(latencyData[t := latency], lengthData[t := length], runs, u, n)
  {
  }

  /** Fill one list per test name with one value per model, in model order. */
  method BuildTables(runs: seq<ModelRun>)
    returns (latencyData: map<string, seq<Option<nat>>>, lengthData: map<string, seq<nat>>)
    ensures latencyData.Keys == lengthData.Keys == set t | t in TEST_NAMES
    ensures forall t :: t in TEST_NAMES ==> |latencyData[t]| == |runs| && |lengthData[t]| == |runs|
    ensures forall t, i :: t in TEST_NAMES && 0 <= i < |runs| ==>
              latencyData[t][i] == LatencyOf(runs[i].benchmark, t)
    ensures forall t, i :: t in TEST_NAMES && 0 <= i < |runs| ==>
              lengthData[t][i] == LengthOf(runs[i].benchmark, t)
  {
    TestNamesDistinct();
    latencyData, lengthData := FillTables(runs, TEST_NAMES);
  }

  /** The loops of `BuildTables`, over any list of distinct test names. */
  method FillTables(runs: seq<ModelRun>, names: seq<string>)
    returns (latencyData: map<string, seq<Option<nat>>>, lengthData: map<string, seq<nat>>)
    requires forall q, r :: 0 <= q < r < |names| ==> names[q] != names[r]
    ensures latencyData.Keys == lengthData.Keys == set t | t in names
    ensures forall q :: 0 <= q < |names| ==> Filled(latencyData, lengthData, runs, names[q], |runs|)
  {
    latencyData := map t | t in names :: [];
    lengthData := map t | t in names :: [];
    var i := 0;
    while i < |runs|
      invariant 0 <= i <= |runs|
      invariant latencyData.Keys == lengthData.Keys == set t | t in names
      invariant forall q :: 0 <= q < |names| ==> Filled(latencyData, lengthData, runs, names[q], i)
    {
      latencyData, lengthData := AppendModel(latencyData, lengthData, runs, names, i);
      i := i + 1;
    }
  }

  /** The inner loop: append model `i`'s value to the list of every test name. */
  method AppendModel(latencyData0: map<string, seq<Option<nat>>>, lengthData0: map<string, seq<nat>>,
                     runs: seq<ModelRun>, names: seq<string>, i: nat)
    returns (latencyData: map<string, seq<Option<nat>>>, lengthData: map<string, seq<nat>>)
    requires i < |runs|
    requires forall q, r :: 0 <= q < r < |names| ==> names[q] != names[r]
    requires forall q :: 0 <= q < |names| ==> Filled(latencyData0, lengthData0, runs, names[q], i)
    ensures latencyData.Keys == latencyData0.Keys && lengthData.Keys == lengthData0.Keys
    ensures forall q :: 0 <= q < |names| ==> Filled(latencyData, lengthData, runs, names[q], i + 1)
  {
    latencyData, lengthData := latencyData0, lengthData0;
    var benchmarks := runs[i].benchmark;
    var testMap := TestMap(benchmarks);
    var j := 0;
    while j < |names|
      invariant 0 <= j <= |names|
      invariant latencyData.Keys == latencyData0.Keys && lengthData.Keys == lengthData0.Keys
      invariant forall q :: 0 <= q < |names| ==>
                  Filled(latencyData, lengthData, runs, names[q], if q < j then i + 1 else i)
    {
      var t := names[j];
      var latency := if t in testMap then testMap[t].latencyMs else None;
      var length := if t in testMap then testMap[t].length else 0;
      assert latency == LatencyOf(benchmarks, t) && length == LengthOf(benchmarks, t);
      ghost var latencyBefore, lengthBefore := latencyData, lengthData;
      latencyData := latencyData[t := latencyData[t] + [latency]];
      lengthData := lengthData[t := lengthData[t] + [length]];
      forall q | 0 <= q < |names|
        ensures Filled(latencyData, lengthData, runs, names[q], if q < j + 1 then i + 1 else i)
      {
        if q == j {
          FilledStep(latencyBefore, lengthBefore, runs, t, i);
        } else {
          FilledOther(latencyBefore, lengthBefore, runs, t, names[q], if q < j then i + 1 else i,
                      latencyData[t], lengthData[t]);
        }
      }
      j := j + 1;
    }
  }

  // ---- avg_latencies / total_lengths ----

  /** The tables hold one entry per test name for each of `count` models. */
  predicate TablesShaped(latencyData: map<string, seq<Option<nat>>>, lengthData: map<string, seq<nat>>, count: nat) {
    forall t :: t in TEST_NAMES ==>
      t in latencyData && t in lengthData && |latencyData[t]| == count && |lengthData[t]| == count
  }

  /** `[latency_data[t][i] for t in test_names]`. */
  function LatencyColumn(latencyData: map<string, seq<Option<nat>>>, i: nat): seq<Option<nat>>
    requires forall t :: t in TEST_NAMES ==> t in latencyData && i < |latencyData[t]|
  {
    seq(|TEST_NAMES|, j requires 0 <= j < |TEST_NAMES| => latencyData[TEST_NAMES[j]][i])
  }

  /** `[length_data[t][i] for t in test_names]`. */
  function LengthColumn(lengthData: map<string, seq<nat>>, i: nat): seq<nat>
    requires forall t :: t in TEST_NAMES ==> t in lengthData && i < |lengthData[t]|
  {
    seq(|TEST_NAMES|, j requires 0 <= j < |TEST_NAMES| => lengthData[TEST_NAMES[j]][i])
  }

  /** The values that are present, in order (the `is not None` filter). */
  function Present(xs: seq<Option<nat>>): (r: seq<nat>)
    ensures |r| <= |xs|
    ensures r == [] <==> forall k :: 0 <= k < |xs| ==> xs[k].None?
    ensures forall v :: v in r <==> Some(v) in xs
    ensures |xs| == 1 ==> r == (if xs[0].Some? then [xs[0].value] else [])
  {
    if xs == [] then []
    else
      var init := Present(xs[..|xs| - 1]);
      assert xs == xs[..|xs| - 1] + [xs[|xs| - 1]];
      match xs[|xs| - 1]
      case None => init
      case Some(v) => init + [v]
  }

  /** The filter keeps order and multiplicity: it distributes over concatenation. */
  lemma {:induction false} PresentConcat(xs: seq<Option<nat>>, ys: seq<Option<nat>>)
    ensures Present(xs + ys) == Present(xs) + Present(ys)
  {
    if ys == [] {
      assert xs + ys == xs;
    } else {
      var init, y := ys[..|ys| - 1], ys[|ys| - 1];
      assert xs + ys == (xs + init) + [y] && ys == init + [y];
      PresentSnoc(xs + init, y);
      PresentSnoc(init, y);
      PresentConcat(xs, init);
    }
  }

  lemma PresentSnoc(xs: seq<Option<nat>>, x: Option<nat>)
    ensures Present(xs + [x]) == Present(xs) + (if x.Some? then [x.value] else [])
  {
    assert (xs + [x])[..|xs|] == xs;
  }

  function Sum(xs: seq<nat>): nat {
    if xs == [] then 0 else Sum(xs[..|xs| - 1]) + xs[|xs| - 1]
  }

  /** `round(sum(lats) / len(lats), 3) if lats else 0`, without the rounding. */
  function Average(xs: seq<nat>): real {
    if xs == [] then 0.0 else Sum(xs) as real / |xs| as real
  }

  lemma {:induction false} SumBounded(xs: seq<nat>, hi: nat)
    requires forall k :: 0 <= k < |xs| ==> xs[k] <= hi
    ensures Sum(xs) <= |xs| * hi
  {
    if xs != [] {
      var init := xs[..|xs| - 1];
      SumBounded(init, hi);
      assert (|xs| - 1) * hi + hi == |xs| * hi;
    }
  }

  /** The average lies between 0 and any bound on the latencies it averages. */
  lemma AverageWithin(xs: seq<nat>, hi: nat)
    requires forall k :: 0 <= k < |xs| ==> xs[k] <= hi
    ensures 0.0 <= Average(xs) <= hi as real
  {
    if xs != [] {
      SumBounded(xs, hi);
      var s, n := Sum(xs) as real, |xs| as real;
      assert s <= n * hi as real;
      assert s / n <= hi as real;
    }
  }

  /** A model with no recorded latency averages 0. */
  lemma NoLatencyAveragesZero(col: seq<Option<nat>>)
    requires forall k :: 0 <= k < |col| ==> col[k].None?
    ensures Average(Present(col)) == 0.0
  {
  }

  /** One average and one total per model, in model order. */
  method Summarize(count: nat, latencyData: map<string, seq<Option<nat>>>, lengthData: map<string, seq<nat>>)
    returns (avgLatencies: seq<real>, totalLengths: seq<nat>)
    requires TablesShaped(latencyData, lengthData, count)
    ensures |avgLatencies| == count && |totalLengths| == count
    ensures forall i :: 0 <= i < count ==>
              avgLatencies[i] == Average(Present(LatencyColumn(latencyData, i)))
              && totalLengths[i] == Sum(LengthColumn(lengthData, i))
  {
    avgLatencies, totalLengths := [], [];
    var i := 0;
    while i < count
      invariant 0 <= i <= count
      invariant |avgLatencies| == i && |totalLengths| == i
      invariant forall m :: 0 <= m < i ==>
                  avgLatencies[m] == Average(Present(LatencyColumn(latencyData, m)))
                  && totalLengths[m] == Sum(LengthColumn(lengthData, m))
    {
      var lats := Present(LatencyColumn(latencyData, i));
      avgLatencies := avgLatencies + [Average(lats)];
      totalLengths := totalLengths + [Sum(LengthColumn(lengthData, i))];
      i := i + 1;
    }
  }

  /** A run holding one record per test, in test order (what
      `RunBenchmarkForModel` produces). */
  predicate Aligned(bs: seq<Record>) {
    |bs| == |TEST_NAMES| && forall k :: 0 <= k < |bs| ==> bs[k].test == TEST_NAMES[k]
  }

  /** The records' own lengths. */
  function Lengths(bs: seq<Record>): seq<nat> {
    seq(|bs|, k requires 0 <= k < |bs| => bs[k].length)
  }

  /** Every run of the suite is aligned. */
  lemma RunIsAligned(exchanges: seq<Exchange>, results: seq<Record>)
    requires |results| == |exchanges| == |BENCHMARK_PROMPTS|
    requires forall k :: 0 <= k < |results| ==> RecordFits(results[k], BENCHMARK_PROMPTS[k], exchanges[k])
    ensures Aligned(results)
  {
  }

  /** For an aligned run, the model's total length is the sum of its records' lengths. */
  lemma TotalOfAlignedRun(runs: seq<ModelRun>, lengthData: map<string, seq<nat>>, i: nat)
    requires i < |runs|
    requires forall t :: t in TEST_NAMES ==> t in lengthData && |lengthData[t]| == |runs|
    requires forall t, m :: t in TEST_NAMES && 0 <= m < |runs| ==>
               lengthData[t][m] == LengthOf(runs[m].benchmark, t)
    requires Aligned(runs[i].benchmark)
    ensures Sum(LengthColumn(lengthData, i)) == Sum(Lengths(runs[i].benchmark))
  {
    TestNamesDistinct();
    var bs := runs[i].benchmark;
    forall j | 0 <= j < |TEST_NAMES| ensures LengthColumn(lengthData, i)[j] == Lengths(bs)[j] {
      DistinctTestsLookup(bs, j);
    }
    assert LengthColumn(lengthData, i) == Lengths(bs);
  }

  // ---- short_names ----

  /** `m.split(":")[0] if ":" in m else m`: the name up to its first colon. */
  function ShortName(m: string): (r: string)
    ensures r <= m
    ensures ':' !in r
    ensures ':' in m <==> |r| < |m|
    ensures |r| < |m| ==> m[|r|] == ':'
  {
    if m == [] then []
    else if m[0] == ':' then []
    else
      var rest := ShortName(m[1..]);
      assert m == [m[0]] + m[1..];
      [m[0]] + rest
  }

  lemma ShortNameWithoutColon(m: string)
    requires ':' !in m
    ensures ShortName(m) == m
  {
  }

  /** A tagged name `family:tag` is shortened to its family. */
  lemma {:induction false} ShortNameOfTagged(family: string, tag: string)
    requires ':' !in family
    ensures ShortName(family + ":" + tag) == family
  {
    if family != [] {
      assert (family + ":" + tag)[1..] == family[1..] + ":" + tag;
      ShortNameOfTagged(family[1..], tag);
    }
  }

  // ---- colors / borders ----

  const CHART_COLORS: seq<string> := [
    "rgba(54, 162, 235, 0.8)",
    "rgba(255, 99, 132, 0.8)",
    "rgba(75, 192, 192, 0.8)",
    "rgba(255, 206, 86, 0.8)",
    "rgba(153, 102, 255, 0.8)",
    "rgba(255, 159, 64, 0.8)",
    "rgba(46, 204, 113, 0.8)",
    "rgba(231, 76, 60, 0.8)"
  ]

  /** `s.replace(pattern, replacement)`: every non-overlapping occurrence, left to right. */
  function ReplaceAll(s: string, pattern: string, replacement: string): (r: string)
    requires pattern != []
    ensures !Contains(s, pattern) ==> r == s
    decreases |s|
  {
    if |s| < |pattern| then s
    else if s[..|pattern|] == pattern then
      assert OccursAt(s, pattern, 0);
      replacement + ReplaceAll(s[|pattern|..], pattern, replacement)
    else
      var rest := ReplaceAll(s[1..], pattern, replacement);
      assert !Contains(s, pattern) ==> !Contains(s[1..], pattern) by {
        if Contains(s[1..], pattern) {
          var i :| 0 <= i <= |s[1..]| - |pattern| && OccursAt(s[1..], pattern, i);
          OccursShift(s, pattern, i);
        }
      }
      assert s == [s[0]] + s[1..];
      [s[0]] + rest
  }

  /** With exactly one occurrence of the pattern, `replace` substitutes that
      occurrence and keeps the text on both sides of it. */
  lemma {:induction false} ReplaceSingle(pre: string, pattern: string, post: string, replacement: string)
    requires pattern != []
    requires forall k :: 0 <= k < |pre| ==> !OccursAt(pre + pattern + post, pattern, k)
    requires !Contains(post, pattern)
    ensures ReplaceAll(pre + pattern + post, pattern, replacement) == pre + replacement + post
  {
    var s := pre + pattern + post;
    if pre == [] {
      assert s == pattern + post && s[..|pattern|] == pattern && s[|pattern|..] == post;
    } else {
      ReplaceSkipsFirst(s, pattern, replacement);
      NoOccurrenceShifts(pre, pattern, post);
      ReplaceSingle(pre[1..], pattern, post, replacement);
      SplitFirst(pre, pattern, post, replacement);
    }
  }

  lemma SplitFirst(pre: string, pattern: string, post: string, replacement: string)
    requires pre != []
    ensures (pre + pattern + post)[1..] == pre[1..] + pattern + post
    ensures [pre[0]] + (pre[1..] + replacement + post) == pre + replacement + post
  {
  }

  /** Without an occurrence at the front, the first character is kept. */
  lemma ReplaceSkipsFirst(s: string, pattern: string, replacement: string)
    requires pattern != [] && |s| >= |pattern| && !OccursAt(s, pattern, 0)
    ensures ReplaceAll(s, pattern, replacement) == [s[0]] + ReplaceAll(s[1..], pattern, replacement)
  {
    assert s[..|pattern|] != pattern;
  }

  lemma NoOccurrenceShifts(pre: string, pattern: string, post: string)
    requires pre != []
    requires forall k :: 0 <= k < |pre| ==> !OccursAt(pre + pattern + post, pattern, k)
    ensures !OccursAt(pre + pattern + post, pattern, 0)
    ensures forall k :: 0 <= k < |pre[1..]| ==> !OccursAt(pre[1..] + pattern + post, pattern, k)
  {
    var s := pre + pattern + post;
    assert s[1..] == pre[1..] + pattern + post;
    forall k | 0 <= k < |pre[1..]| ensures !OccursAt(s[1..], pattern, k) {
      if OccursAt(s[1..], pattern, k) {
        OccursShift(s, pattern, k);
      }
    }
  }

  /** An occurrence in the tail is an occurrence one place further on. */
  lemma OccursShift(s: string, pattern: string, k: int)
    requires s != [] && OccursAt(s[1..], pattern, k)
    ensures OccursAt(s, pattern, k + 1)
  {
    assert s[1..][k..k + |pattern|] == s[k + 1..k + 1 + |pattern|];
  }

  const CHART_BORDERS: seq<string> :=
    seq(|CHART_COLORS|, k requires 0 <= k < |CHART_COLORS| => ReplaceAll(CHART_COLORS[k], "0.8", "1"))

  /** The red, green and blue parts of the chart colours. */
  const RGB_PARTS: seq<string> :=
    ["rgba(54, 162, 235, ", "rgba(255, 99, 132, ", "rgba(75, 192, 192, ", "rgba(255, 206, 86, ",
     "rgba(153, 102, 255, ", "rgba(255, 159, 64, ", "rgba(46, 204, 113, ", "rgba(231, 76, 60, "]

  /** Each fill colour has alpha 0.8, and its border is the same colour with alpha 1. */
  lemma BordersOpaque()
    ensures |CHART_COLORS| == |CHART_BORDERS| == |RGB_PARTS|
    ensures forall k :: 0 <= k < |RGB_PARTS| ==>
              CHART_COLORS[k] == RGB_PARTS[k] + "0.8)" && CHART_BORDERS[k] == RGB_PARTS[k] + "1)"
  {
    ColorsHaveAlpha();
    forall k | 0 <= k < |RGB_PARTS| ensures CHART_BORDERS[k] == RGB_PARTS[k] + "1)" {
      OpaqueBorder(RGB_PARTS[k]);
    }
  }

  lemma ColorsHaveAlpha()
    ensures |CHART_COLORS| == |RGB_PARTS|
    ensures forall k :: 0 <= k < |RGB_PARTS| ==> '.' !in RGB_PARTS[k] && CHART_COLORS[k] == RGB_PARTS[k] + "0.8" + ")"
  {
  }

  /** A colour whose alpha "0.8" is its only dot is given alpha 1. */
  lemma OpaqueBorder(pre: string)
    requires '.' !in pre
    ensures ReplaceAll(pre + "0.8" + ")", "0.8", "1") == pre + "1)"
  {
    var s := pre + "0.8" + ")";
    forall k | 0 <= k < |pre| ensures !OccursAt(s, "0.8", k) {
      if k + 1 < |pre| {
        assert s[k + 1] == pre[k + 1] && pre[k + 1] in pre;
      } else {
        assert s[k + 1] == '0';
      }
      assert k + 3 <= |s| ==> s[k..k + 3][1] == s[k + 1];
    }
    ReplaceSingle(pre, "0.8", ")", "1");
  }

  /** `[CHART_COLORS[i % len(CHART_COLORS)] for i in range(count)]`. */
  function Colors(count: nat): seq<string> {
    seq(count, i requires 0 <= i < count => CHART_COLORS[i % |CHART_COLORS|])
  }

  /** `[CHART_BORDERS[i % len(CHART_BORDERS)] for i in range(count)]`. */
  function Borders(count: nat): seq<string> {
    seq(count, i requires 0 <= i < count => CHART_BORDERS[i % |CHART_BORDERS|])
  }

  /** Model `i` gets the border made from its own fill colour, and the
      palette repeats every eight models. */
  lemma PaletteCycles(count: nat)
    ensures |Colors(count)| == |Borders(count)| == count
    ensures |CHART_BORDERS| == |CHART_COLORS| == 8
    ensures forall i :: 0 <= i < count ==> Borders(count)[i] == ReplaceAll(Colors(count)[i], "0.8", "1")
    ensures forall i :: 0 <= i < count - 8 ==> Colors(count)[i + 8] == Colors(count)[i]
  {
    forall i | 0 <= i < count - 8 ensures Colors(count)[i + 8] == Colors(count)[i] {
      assert (i + 8) % 8 == i % 8;
    }
  }

  // ---- summary rows ----

  /** `sum(1 for b in benchmarks if b.get("success"))`. */
  function SuccessCount(bs: seq<Record>): (n: nat)
    ensures n <= |bs|
    ensures n == |bs| <==> forall k :: 0 <= k < |bs| ==> bs[k].success
    ensures n == 0 <==> forall k :: 0 <= k < |bs| ==> !bs[k].success
  {
    if bs == [] then 0
    else
      var init := SuccessCount(bs[..|bs| - 1]);
      assert forall k :: 0 <= k < |bs| - 1 ==> bs[..|bs| - 1][k] == bs[k];
      init + if bs[|bs| - 1].success then 1 else 0
  }

  /** One row of the summary table: model, average latency, total length, and successes out of tests. */
  datatype SummaryRow = SummaryRow(model: string, avgLatency: real, totalLength: nat, successes: nat, tests: nat)

  method BuildSummaryRows(runs: seq<ModelRun>, avgLatencies: seq<real>, totalLengths: seq<nat>)
    returns (rows: seq<SummaryRow>)
    requires |avgLatencies| == |runs| && |totalLengths| == |runs|
    ensures |rows| == |runs|
    ensures forall i :: 0 <= i < |rows| ==>
              rows[i] == SummaryRow(runs[i].name, avgLatencies[i], totalLengths[i],
                                    SuccessCount(runs[i].benchmark), |TEST_NAMES|)
  {
    rows := [];
    var i := 0;
    while i < |runs|
      invariant 0 <= i <= |runs|
      invariant |rows| == i
      invariant forall m :: 0 <= m < i ==>
                  rows[m] == SummaryRow(runs[m].name, avgLatencies[m], totalLengths[m],
                                        SuccessCount(runs[m].benchmark), |TEST_NAMES|)
    {
      var successCount := SuccessCount(runs[i].benchmark);
      rows := rows + [SummaryRow(runs[i].name, avgLatencies[i], totalLengths[i], successCount, |TEST_NAMES|)];
      i := i + 1;
    }
  }

  /** An aligned run never reports more successes than tests. */
  lemma SuccessesWithinTests(bs: seq<Record>)
    requires Aligned(bs)
    ensures SuccessCount(bs) <= |TEST_NAMES|
  {
  }

  /** The successes of a run are exactly its answered requests (each record
      of a run fits its exchange, and `RecordFits` makes a record successful
      exactly when its request was answered). */
  lemma {:induction false} SuccessesAreAnswers(exchanges: seq<Exchange>, results: seq<Record>)
    requires |results| == |exchanges|
    requires forall k :: 0 <= k < |results| ==> (results[k].success <==> exchanges[k].Answered?)
    ensures SuccessCount(results) == Answered(exchanges)
  {
    if results != [] {
      var n := |results| - 1;
      SuccessesAreAnswers(exchanges[..n], results[..n]);
    }
  }

  /** The number of requests that came back with a response. */
  function Answered(exchanges: seq<Exchange>): nat {
    if exchanges == [] then 0
    else Answered(exchanges[..|exchanges| - 1]) + if exchanges[|exchanges| - 1].Answered? then 1 else 0
  }

  // ---- the whole data preparation ----

  /** Everything the page is rendered from. */
  datatype ReportData = ReportData(
    latencyData: map<string, seq<Option<nat>>>,
    lengthData: map<string, seq<nat>>,
    avgLatencies: seq<real>,
    totalLengths: seq<nat>,
    shortNames: seq<string>,
    colors: seq<string>,
    borders: seq<string>,
    rows: seq<SummaryRow>)

  /** The data-preparation steps of `_build_html_report`, for the models of
      the report in their saved order. */
  method PrepareReport(runs: seq<ModelRun>) returns (d: ReportData)
    ensures d.latencyData.Keys == d.lengthData.Keys == set t | t in TEST_NAMES
    ensures TablesShaped(d.latencyData, d.lengthData, |runs|)
    ensures forall t, i :: t in TEST_NAMES && 0 <= i < |runs| ==>
              d.latencyData[t][i] == LatencyOf(runs[i].benchmark, t)
              && d.lengthData[t][i] == LengthOf(runs[i].benchmark, t)
    ensures |d.avgLatencies| == |d.totalLengths| == |d.shortNames| == |d.rows| == |runs|
    ensures forall i :: 0 <= i < |runs| ==>
              d.avgLatencies[i] == Average(Present(LatencyColumn(d.latencyData, i)))
              && d.totalLengths[i] == Sum(LengthColumn(d.lengthData, i))
    ensures forall i :: 0 <= i < |runs| && Aligned(runs[i].benchmark) ==>
              d.totalLengths[i] == Sum(Lengths(runs[i].benchmark))
    ensures forall i :: 0 <= i < |runs| && NoLatency(runs[i].benchmark) ==> d.avgLatencies[i] == 0.0
    ensures forall i :: 0 <= i < |runs| ==> d.shortNames[i] == ShortName(runs[i].name)
    ensures d.colors == Colors(|runs|) && d.borders == Borders(|runs|)
    ensures forall i :: 0 <= i < |runs| ==>
              d.rows[i] == SummaryRow(runs[i].name, d.avgLatencies[i], d.totalLengths[i],
                                      SuccessCount(runs[i].benchmark), |TEST_NAMES|)
  {
    var latencyData, lengthData := BuildTables(runs);
    var avgLatencies, totalLengths := Summarize(|runs|, latencyData, lengthData);
    forall i | 0 <= i < |runs| && Aligned(runs[i].benchmark)
      ensures totalLengths[i] == Sum(Lengths(runs[i].benchmark))
    {
      TotalOfAlignedRun(runs, lengthData, i);
    }
    forall i | 0 <= i < |runs| && NoLatency(runs[i].benchmark)
      ensures avgLatencies[i] == 0.0
    {
      NoLatencyAveragesZero(LatencyColumn(latencyData, i));
    }
    var shortNames := seq(|runs|, i requires 0 <= i < |runs| => ShortName(runs[i].name));
    var rows := BuildSummaryRows(runs, avgLatencies, totalLengths);
    d := ReportData(latencyData, lengthData, avgLatencies, totalLengths, shortNames,
                    Colors(|runs|), Borders(|runs|), rows);
  }

  /** No record of the run carries a latency (every request failed). */
  predicate NoLatency(bs: seq<Record>) {
    forall k :: 0 <= k < |bs| ==> bs[k].latencyMs.None?
  }
}
