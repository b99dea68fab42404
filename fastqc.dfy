/** The report reader of `parse_fastqc_zip`: sample id, choice of the report
    member, the basic-statistics scan and the adapter-content scan. An
    archive is given as its file stem and its members, each a name and the
    member's text as decoded, stripped lines. */
module Fastqc {
  import opened Wrappers
  import opened Text

  const STEM_SUFFIX: string := "_fastqc"
  const REPORT_FILE: string := "fastqc_data.txt"
  const TOTAL_SEQUENCES: string := "Total Sequences"
  const GC_PERCENT: string := "%GC"
  const ADAPTER_START: string := ">>Adapter Content"
  const MODULE_END: string := ">>END_MODULE"
  const TAB: char := '\t'

  datatype Entry = Entry(name: string, lines: seq<string>)
  datatype Archive = Archive(stem: string, entries: seq<Entry>)

  /** The metrics record; `None` is Python's `None`. */
  datatype Metrics = Metrics(
    sample: string,
    totalSequences: Option<int>,
    gcContent: Option<real>,
    pctQ30: Option<real>,
    adapterContentMax: Option<real>)

  /** What a matching line raises: `IndexError` when it has no second tab
      field, `ValueError` when that field is not a number. `line` is the index
      of the offending line in the report. */
  datatype ScanError = MissingField(line: nat) | NotANumber(line: nat)

  // ---------------------------------------------------------------- sample id

  /** The sample id: the stem with `_fastqc` removed wherever it occurs. */
  function SampleId(stem: string): (id: string)
    ensures |id| <= |stem|
  {
    RemoveAll(stem, STEM_SUFFIX)
  }

  /** A stem that does not mention `_fastqc` is its own sample id. */
  lemma {:induction false} SampleIdUnchanged(stem: string)
    requires !Contains(stem, STEM_SUFFIX)
    ensures SampleId(stem) == stem
  {
    RemoveAllAbsent(stem, STEM_SUFFIX);
  }

  /** Appending `_fastqc` to a stem does not change its sample id; in
      particular `X_fastqc` names sample `X` when `X` does not mention it. */
  lemma {:induction false} SampleIdDropsSuffix(x: string)
    ensures SampleId(x + STEM_SUFFIX) == SampleId(x)
    ensures !Contains(x, STEM_SUFFIX) ==> SampleId(x + STEM_SUFFIX) == x
  {
    RemoveAllSplice(x, STEM_SUFFIX, "");
    assert x + STEM_SUFFIX + "" == x + STEM_SUFFIX;
    if !Contains(x, STEM_SUFFIX) {
      RemoveAllAbsent(x, STEM_SUFFIX);
    }
  }

  lemma {:induction false} SampleIdExample()
    ensures SampleId("sampleA_fastqc") == "sampleA"
  {
    var x := "sampleA";
    assert "sampleA_fastqc" == x + STEM_SUFFIX;
    assert !Contains(x, STEM_SUFFIX) by {
      AbsentFirstChar(x, STEM_SUFFIX);
    }
    SampleIdDropsSuffix(x);
  }

  /** One occurrence between two texts free of `_fastqc` is cut out. */
  lemma {:induction false} SampleIdCutsOnce(a: string, b: string)
    requires !Contains(a, STEM_SUFFIX) && !Contains(b, STEM_SUFFIX)
    ensures SampleId(a + STEM_SUFFIX + b) == a + b
  {
    RemoveAllSplice(a, STEM_SUFFIX, b);
    RemoveAllAbsent(a, STEM_SUFFIX);
    RemoveAllAbsent(b, STEM_SUFFIX);
  }

  /** Removal is a single pass: what is left may spell `_fastqc` again. */
  lemma {:induction false} SampleIdSinglePass()
    ensures SampleId("x_fas_fastqctqc") == "x_fastqc"
  {
    var a, b := "x_fas", "tqc";
    assert !Contains(a, STEM_SUFFIX) by {
      forall i | 0 <= i <= |a| ensures !(STEM_SUFFIX <= a[i..]) {
        assert |a[i..]| < |STEM_SUFFIX|;
      }
    }
    AbsentFirstChar(b, STEM_SUFFIX);
    SampleIdCutsOnce(a, b);
    assert "x_fas_fastqctqc" == a + STEM_SUFFIX + b;
    assert a + b == "x_fastqc";
  }

  // ---------------------------------------------------------- report member

  predicate IsReportName(name: string)
  {
    EndsWith(name, REPORT_FILE)
  }

  /** Position of the first member whose name ends with `fastqc_data.txt`. */
  function FirstReport(entries: seq<Entry>): (r: Option<nat>)
    ensures r.Some? ==> r.value < |entries| && IsReportName(entries[r.value].name)
    ensures r.Some? ==> forall j :: 0 <= j < r.value ==> !IsReportName(entries[j].name)
    ensures r.None? <==> forall j :: 0 <= j < |entries| ==> !IsReportName(entries[j].name)
  {
    if entries == [] then None
    else if IsReportName(entries[0].name) then Some(0)
    else
      match FirstReport(entries[1..])
      case None => None
      case Some(i) => Some(i + 1)
  }

  /** Opening a member by name opens the last member of that name. */
  function LastEntryNamed(entries: seq<Entry>, name: string): (r: Option<nat>)
    ensures r.Some? ==> r.value < |entries| && entries[r.value].name == name
    ensures r.Some? ==> forall j :: r.value < j < |entries| ==> entries[j].name != name
    ensures r.None? <==> forall j :: 0 <= j < |entries| ==> entries[j].name != name
  {
    if entries == [] then None
    else if entries[|entries| - 1].name == name then Some(|entries| - 1)
    else LastEntryNamed(entries[..|entries| - 1], name)
  }

  /** The lines of the report, when the archive has one. */
  function ReportLines(archive: Archive): (r: Option<seq<string>>)
    ensures r.None? <==> forall j :: 0 <= j < |archive.entries| ==> !IsReportName(archive.entries[j].name)
  {
    match FirstReport(archive.entries)
    case None => None
    case Some(i) =>
      match LastEntryNamed(archive.entries, archive.entries[i].name)
      case Some(k) => Some(archive.entries[k].lines)
      case None => assert false; None
  }

  // -------------------------------------------------- basic statistics scan

  predicate IsTotalLine(line: string)
  {
    StartsWith(line, TOTAL_SEQUENCES)
  }

  predicate IsGcLine(line: string)
  {
    StartsWith(line, GC_PERCENT)
  }

  /** `line.split("\t")[1]`, absent where Python raises `IndexError`. */
  function SecondField(line: string): (f: Option<string>)
    ensures f.Some? <==> TAB in line
    ensures f.Some? ==> TAB !in f.value
    ensures f.Some? ==>
      exists i :: 0 <= i < |line| && line[i] == TAB && TAB !in line[..i]
        && f.value <= line[i + 1..]
        && (i + 1 + |f.value| == |line| || line[i + 1 + |f.value|] == TAB)
  {
    var parts := Split(line, TAB);
    if |parts| >= 2 then
      SecondFieldShape(line);
      Some(parts[1])
    else None
  }

  /** Where the second field sits: after the first tab, up to the next tab or
      the end of the line. */
  lemma {:induction false} SecondFieldShape(line: string)
    requires |Split(line, TAB)| >= 2
    ensures var parts := Split(line, TAB);
      var i := |parts[0]|;
      && i < |line| && line[i] == TAB && TAB !in line[..i]
      && parts[1] <= line[i + 1..]
      && (i + 1 + |parts[1]| == |line| || line[i + 1 + |parts[1]|] == TAB)
  {
    var parts := Split(line, TAB);
    JoinSplit(line, TAB);
    JoinHead(parts, TAB);
    JoinHead(parts[1..], TAB);
    assert parts[1..][0] == parts[1];
    var i := |parts[0]|;
    assert line[..i] == parts[0];
    var rest := line[i + 1..];
    assert rest == Join(parts[1..], TAB);
    if |parts| > 2 {
      assert parts[1..][1..] == parts[2..];
      assert rest[|parts[1]|] == TAB;
    }
  }

  /** The second field of a line is the first field of what follows the
      first tab. */
  lemma {:induction false} SecondFieldAfterFirstTab(a: string, rest: string)
    requires TAB !in a
    ensures SecondField(a + [TAB] + rest) == Some(Split(rest, TAB)[0])
  {
    SplitAtFirst(a, TAB, rest);
    assert ([a] + Split(rest, TAB))[1] == Split(rest, TAB)[0];
  }

  /** `int(line.split("\t")[1])`, absent where it raises. */
  function IntField(line: string, syn: NumberSyntax): Option<int>
  {
    match SecondField(line)
    case None => None
    case Some(f) => syn.toInt(f)
  }

  /** `float(line.split("\t")[1])`, absent where it raises. */
  function RealField(line: string, syn: NumberSyntax): Option<real>
  {
    match SecondField(line)
    case None => None
    case Some(f) => syn.toReal(f)
  }

  /** A line on which the basic-statistics scan raises: only a marker line
      can. */
  predicate Malformed(line: string, syn: NumberSyntax)
    ensures Malformed(line, syn) ==> IsTotalLine(line) || IsGcLine(line)
  {
    if IsTotalLine(line) then IntField(line, syn).None?
    else IsGcLine(line) && RealField(line, syn).None?
  }

  /** The error raised on a malformed line with index `index`. */
  function ErrorAt(line: string, index: nat): (e: ScanError)
    ensures e.line == index
    ensures e.MissingField? <==> TAB !in line
  {
    if TAB in line then NotANumber(index) else MissingField(index)
  }

  /** One iteration of the first loop over the report (`if`/`elif`). */
  function ScanLine(m: Metrics, line: string, index: nat, syn: NumberSyntax): (r: Result<Metrics, ScanError>)
    ensures r.Err? <==> Malformed(line, syn)
    ensures r.Err? ==> r.error == ErrorAt(line, index)
    ensures r.Ok? ==> r.value.sample == m.sample && r.value.pctQ30 == m.pctQ30
                      && r.value.adapterContentMax == m.adapterContentMax
    ensures r.Ok? ==> r.value.totalSequences == m.totalSequences || r.value.gcContent == m.gcContent
    ensures r.Ok? && IsTotalLine(line) ==> r.value.totalSequences == IntField(line, syn)
    ensures r.Ok? && !IsTotalLine(line) ==> r.value.totalSequences == m.totalSequences
    ensures r.Ok? && IsGcLine(line) ==> r.value.gcContent == RealField(line, syn)
    ensures r.Ok? && !IsGcLine(line) ==> r.value.gcContent == m.gcContent
  {
    if IsTotalLine(line) then
      match SecondField(line)
      case None => Err(MissingField(index))
      case Some(f) =>
        match syn.toInt(f)
        case None => Err(NotANumber(index))
        case Some(n) => Ok(m.(totalSequences := Some(n)))
    else if IsGcLine(line) then
      match SecondField(line)
      case None => Err(MissingField(index))
      case Some(f) =>
        match syn.toReal(f)
        case None => Err(NotANumber(index))
        case Some(g) => Ok(m.(gcContent := Some(g)))
    else Ok(m)
  }

  /** The first loop over the report, starting from `m0`: each line in turn,
      and the first line that raises ends the scan. */
  function ScanBasic(m0: Metrics, lines: seq<string>, syn: NumberSyntax): (r: Result<Metrics, ScanError>)
    ensures r.Ok? ==> r.value.sample == m0.sample && r.value.pctQ30 == m0.pctQ30
                      && r.value.adapterContentMax == m0.adapterContentMax
    decreases |lines|
  {
    if lines == [] then Ok(m0)
    else
      match ScanBasic(m0, lines[..|lines| - 1], syn)
      case Err(e) => Err(e)
      case Ok(m) => ScanLine(m, lines[|lines| - 1], |lines| - 1, syn)
  }

  /** The scan fails exactly when some line is malformed, and then it reports
      the first malformed line. */
  lemma {:induction false} ScanBasicErrors(m0: Metrics, lines: seq<string>, syn: NumberSyntax)
    ensures ScanBasic(m0, lines, syn).Err? <==> exists i :: 0 <= i < |lines| && Malformed(lines[i], syn)
    ensures ScanBasic(m0, lines, syn).Err? ==>
      var e := ScanBasic(m0, lines, syn).error;
      && e.line < |lines|
      && Malformed(lines[e.line], syn)
      && e == ErrorAt(lines[e.line], e.line)
      && forall j :: 0 <= j < e.line ==> !Malformed(lines[j], syn)
    decreases |lines|
  {
    if lines != [] {
      var n := |lines| - 1;
      var init := lines[..n];
      ScanBasicErrors(m0, init, syn);
      assert forall j :: 0 <= j < n ==> init[j] == lines[j];
      match ScanBasic(m0, init, syn)
      case Err(e) =>
        assert ScanBasic(m0, lines, syn) == Err(e);
      case Ok(m) =>
        assert forall j :: 0 <= j < n ==> !Malformed(lines[j], syn);
        assert ScanBasic(m0, lines, syn) == ScanLine(m, lines[n], n, syn);
    }
  }

  /** The last `Total Sequences` line decides the read count. */
  lemma {:induction false} ScanBasicLastTotal(m0: Metrics, lines: seq<string>, syn: NumberSyntax, i: nat)
    requires ScanBasic(m0, lines, syn).Ok?
    requires i < |lines| && IsTotalLine(lines[i])
    requires forall j :: i < j < |lines| ==> !IsTotalLine(lines[j])
    ensures ScanBasic(m0, lines, syn).value.totalSequences == IntField(lines[i], syn)
    ensures ScanBasic(m0, lines, syn).value.totalSequences.Some?
    decreases |lines|
  {
    var init := lines[..|lines| - 1];
    if i < |lines| - 1 {
      assert init[i] == lines[i];
      assert forall j :: i < j < |init| ==> init[j] == lines[j];
      ScanBasicLastTotal(m0, init, syn, i);
    }
  }

  /** Without a `Total Sequences` line the read count keeps its start value. */
  lemma {:induction false} ScanBasicNoTotal(m0: Metrics, lines: seq<string>, syn: NumberSyntax)
    requires ScanBasic(m0, lines, syn).Ok?
    requires forall j :: 0 <= j < |lines| ==> !IsTotalLine(lines[j])
    ensures ScanBasic(m0, lines, syn).value.totalSequences == m0.totalSequences
    decreases |lines|
  {
    if lines != [] {
      var init := lines[..|lines| - 1];
      assert forall j :: 0 <= j < |init| ==> init[j] == lines[j];
      ScanBasicNoTotal(m0, init, syn);
    }
  }

  /** The last `%GC` line decides the GC content. */
  lemma {:induction false} ScanBasicLastGc(m0: Metrics, lines: seq<string>, syn: NumberSyntax, i: nat)
    requires ScanBasic(m0, lines, syn).Ok?
    requires i < |lines| && IsGcLine(lines[i])
    requires forall j :: i < j < |lines| ==> !IsGcLine(lines[j])
    ensures ScanBasic(m0, lines, syn).value.gcContent == RealField(lines[i], syn)
    ensures ScanBasic(m0, lines, syn).value.gcContent.Some?
    decreases |lines|
  {
    var init := lines[..|lines| - 1];
    if i < |lines| - 1 {
      assert init[i] == lines[i];
      assert forall j :: i < j < |init| ==> init[j] == lines[j];
      ScanBasicLastGc(m0, init, syn, i);
    }
  }

  /** Without a `%GC` line the GC content keeps its start value. */
  lemma {:induction false} ScanBasicNoGc(m0: Metrics, lines: seq<string>, syn: NumberSyntax)
    requires ScanBasic(m0, lines, syn).Ok?
    requires forall j :: 0 <= j < |lines| ==> !IsGcLine(lines[j])
    ensures ScanBasic(m0, lines, syn).value.gcContent == m0.gcContent
    decreases |lines|
  {
    if lines != [] {
      var init := lines[..|lines| - 1];
      assert forall j :: 0 <= j < |init| ==> init[j] == lines[j];
      ScanBasicNoGc(m0, init, syn);
    }
  }

  /** A scan that does not raise and meets a `Total Sequences` line ends
      with a read count. */
  lemma {:induction false} ScanBasicSomeTotal(m0: Metrics, lines: seq<string>, syn: NumberSyntax, i: nat)
    requires ScanBasic(m0, lines, syn).Ok?
    requires i < |lines| && IsTotalLine(lines[i])
    ensures ScanBasic(m0, lines, syn).value.totalSequences.Some?
    decreases |lines|
  {
    var init := lines[..|lines| - 1];
    if i < |lines| - 1 {
      assert init[i] == lines[i];
      ScanBasicSomeTotal(m0, init, syn, i);
    }
  }

  /** The first loop of `parse_fastqc_zip`, updating the metrics in place. */
  method ReadBasicStatistics(m0: Metrics, lines: seq<string>, syn: NumberSyntax) returns (r: Result<Metrics, ScanError>)
    ensures r == ScanBasic(m0, lines, syn)
  {
    var metrics := m0;
    var i := 0;
    while i < |lines|
      invariant 0 <= i <= |lines|
      invariant ScanBasic(m0, lines[..i], syn) == Ok(metrics)
    {
      var line := lines[i];
      assert lines[..i + 1][..i] == lines[..i];
      if IsTotalLine(line) {
        var parts := Split(line, TAB);
        if |parts| < 2 {
          ScanBasicFailureSticks(m0, lines, i + 1, syn);
          return Err(MissingField(i));
        }
        var n := syn.toInt(parts[1]);
        if n.None? {
          ScanBasicFailureSticks(m0, lines, i + 1, syn);
          return Err(NotANumber(i));
        }
        metrics := metrics.(totalSequences := n);
      } else if IsGcLine(line) {
        var parts := Split(line, TAB);
        if |parts| < 2 {
          ScanBasicFailureSticks(m0, lines, i + 1, syn);
          return Err(MissingField(i));
        }
        var g := syn.toReal(parts[1]);
        if g.None? {
          ScanBasicFailureSticks(m0, lines, i + 1, syn);
          return Err(NotANumber(i));
        }
        metrics := metrics.(gcContent := g);
      }
      i := i + 1;
    }
    assert lines[..i] == lines;
    r := Ok(metrics);
  }

  /** Once a prefix of the report raises, the whole scan raises the same. */
  lemma {:induction false} ScanBasicFailureSticks(m0: Metrics, lines: seq<string>, n: nat, syn: NumberSyntax)
    requires n <= |lines|
    requires ScanBasic(m0, lines[..n], syn).Err?
    ensures ScanBasic(m0, lines, syn) == ScanBasic(m0, lines[..n], syn)
    decreases |lines| - n
  {
    if n < |lines| {
      assert lines[..n + 1][..n] == lines[..n];
      ScanBasicFailureSticks(m0, lines, n + 1, syn);
    } else {
      assert lines[..n] == lines;
    }
  }

  // ------------------------------------------------------ adapter content

  predicate IsAdapterStart(line: string)
  {
    StartsWith(line, ADAPTER_START)
  }

  predicate IsModuleEnd(line: string)
  {
    StartsWith(line, MODULE_END)
  }

  /** The section marker is not an end marker. */
  lemma {:induction false} StartIsNotEnd(line: string)
    requires IsAdapterStart(line)
    ensures !IsModuleEnd(line)
  {
    assert line[2] == ADAPTER_START[2];
  }

  /** A line inside the section that carries no data: a repeated section
      marker, a comment or an empty line. */
  predicate IsSkippedRow(line: string)
  {
    IsAdapterStart(line) || StartsWith(line, "#") || line == ""
  }

  /** The lines after the first `>>Adapter Content` line (none when there is
      no such line). */
  function AfterAdapterStart(lines: seq<string>): (rest: seq<string>)
    ensures |rest| < |lines| || rest == lines == []
    ensures rest != [] ==> IsAdapterStart(lines[|lines| - |rest| - 1])
  {
    if lines == [] then []
    else if IsAdapterStart(lines[0]) then lines[1..]
    else AfterAdapterStart(lines[1..])
  }

  /** The lines before the first `>>END_MODULE` line. */
  function BeforeModuleEnd(lines: seq<string>): (body: seq<string>)
    ensures body <= lines
    ensures forall k :: 0 <= k < |body| ==> !IsModuleEnd(body[k])
  {
    if lines == [] then []
    else if IsModuleEnd(lines[0]) then []
    else [lines[0]] + BeforeModuleEnd(lines[1..])
  }

  /** The body of the adapter-content section. */
  function AdapterSection(lines: seq<string>): (body: seq<string>)
    ensures |body| < |lines| || body == lines == []
    ensures forall k :: 0 <= k < |body| ==> !IsModuleEnd(body[k])
  {
    BeforeModuleEnd(AfterAdapterStart(lines))
  }

  /** The fields that parse as numbers, in order. */
  function Numbers(fields: seq<string>, syn: NumberSyntax): (vs: seq<real>)
    ensures |vs| <= |fields|
    decreases |fields|
  {
    if fields == [] then []
    else
      Numbers(fields[..|fields| - 1], syn) +
      match syn.toReal(fields[|fields| - 1])
      case None => []
      case Some(v) => [v]
  }

  /** The numbers of one section line, ignoring its first column. */
  function RowNumbers(line: string, syn: NumberSyntax): (vs: seq<real>)
    ensures |vs| < |Split(line, TAB)|
    ensures IsSkippedRow(line) ==> vs == []
  {
    if IsSkippedRow(line) then [] else Numbers(Split(line, TAB)[1..], syn)
  }

  /** The numbers of all the given section lines, in order. */
  function SectionNumbers(rows: seq<string>, syn: NumberSyntax): (vs: seq<real>)
    ensures (forall k :: 0 <= k < |rows| ==> IsSkippedRow(rows[k])) ==> vs == []
    decreases |rows|
  {
    if rows == [] then []
    else RowNumbers(rows[0], syn) + SectionNumbers(rows[1..], syn)
  }

  /** Python's `max(a, b)`. */
  function Max(a: real, b: real): (r: real)
    ensures r >= a && r >= b && (r == a || r == b)
  {
    if b > a then b else a
  }

  /** Folding `max` over `vs`, starting from `m`. */
  function RunningMax(m: real, vs: seq<real>): (r: real)
    ensures r >= m
    decreases |vs|
  {
    if vs == [] then m
    else Max(RunningMax(m, vs[..|vs| - 1]), vs[|vs| - 1])
  }

  /** The fold is the maximum of `m` and the elements of `vs`. */
  lemma {:induction false} RunningMaxIsMaximum(m: real, vs: seq<real>)
    ensures RunningMax(m, vs) >= m
    ensures forall k :: 0 <= k < |vs| ==> RunningMax(m, vs) >= vs[k]
    ensures RunningMax(m, vs) == m || exists k :: 0 <= k < |vs| && RunningMax(m, vs) == vs[k]
    decreases |vs|
  {
    if vs != [] {
      var init := vs[..|vs| - 1];
      RunningMaxIsMaximum(m, init);
      assert forall k :: 0 <= k < |init| ==> init[k] == vs[k];
    }
  }

  /** The value of `max_adapter` after the second loop. */
  function AdapterPeak(lines: seq<string>, syn: NumberSyntax): (peak: real)
    ensures peak >= 0.0
  {
    RunningMax(0.0, SectionNumbers(AdapterSection(lines), syn))
  }

  lemma {:induction false} RunningMaxAppend(m: real, a: seq<real>, b: seq<real>)
    ensures RunningMax(m, a + b) == RunningMax(RunningMax(m, a), b)
    decreases |b|
  {
    if b == [] {
      assert a + b == a;
    } else {
      assert (a + b)[..|a + b| - 1] == a + b[..|b| - 1];
      RunningMaxAppend(m, a, b[..|b| - 1]);
    }
  }

  /** Dropping the lines before a start marker that is not yet reached. */
  lemma {:induction false} AfterAdapterStartSkip(lines: seq<string>, i: nat)
    requires i <= |lines|
    requires forall j :: 0 <= j < i ==> !IsAdapterStart(lines[j])
    ensures AfterAdapterStart(lines) == AfterAdapterStart(lines[i..])
    decreases i
  {
    if i > 0 {
      AfterAdapterStartSkip(lines[1..], i - 1);
      assert lines[1..][i - 1..] == lines[i..];
    }
  }

  /** The lines from `j` on, up to the first `>>END_MODULE`, one at a time. */
  lemma {:induction false} BeforeModuleEndStep(lines: seq<string>, j: nat)
    requires j <= |lines|
    ensures j == |lines| || IsModuleEnd(lines[j]) ==> BeforeModuleEnd(lines[j..]) == []
    ensures j < |lines| && !IsModuleEnd(lines[j]) ==>
      BeforeModuleEnd(lines[j..]) == [lines[j]] + BeforeModuleEnd(lines[j + 1..])
  {
    if j < |lines| {
      assert lines[j..][1..] == lines[j + 1..];
    }
  }

  /** The inner loop `for val in parts[1:]`: fold every numeric field into
      the running maximum, skipping fields that raise `ValueError`. */
  method FoldFields(acc: real, fields: seq<string>, syn: NumberSyntax) returns (r: real)
    ensures r == RunningMax(acc, Numbers(fields, syn))
  {
    r := acc;
    for k := 0 to |fields|
      invariant r == RunningMax(acc, Numbers(fields[..k], syn))
    {
      assert fields[..k + 1][..k] == fields[..k];
      ghost var prefix := Numbers(fields[..k], syn);
      match syn.toReal(fields[k]) {
        case Some(v) =>
          assert (prefix + [v])[..|prefix|] == prefix;
          r := Max(r, v);
        case None =>
          assert prefix + [] == prefix;
      }
    }
    assert fields[..|fields|] == fields;
  }

  /** One line inside the section other than a marker: comments and empty
      lines are skipped, otherwise the fields after the first are folded. */
  method FoldRow(acc: real, line: string, syn: NumberSyntax) returns (r: real)
    requires !IsAdapterStart(line)
    ensures r == RunningMax(acc, RowNumbers(line, syn))
  {
    if StartsWith(line, "#") || line == "" {
      r := acc;
    } else {
      var parts := Split(line, TAB);
      r := FoldFields(acc, parts[1..], syn);
    }
  }

  /** Scanning position `i` on the way to the section start. */
  lemma {:induction false} AfterAdapterStartStep(lines: seq<string>, i: nat)
    requires i < |lines|
    ensures AfterAdapterStart(lines[i..])
         == if IsAdapterStart(lines[i]) then lines[i + 1..] else AfterAdapterStart(lines[i + 1..])
  {
    assert lines[i..][1..] == lines[i + 1..];
  }

  /** What the rest of the scan yields from line `j` on when inside the
      section with running maximum `acc`: the scan stops at `>>END_MODULE`
      or at the end of the lines. */
  function PeakFrom(lines: seq<string>, j: nat, acc: real, syn: NumberSyntax): (peak: real)
    requires j <= |lines|
    ensures peak >= acc
    decreases |lines| - j
  {
    if j == |lines| || IsModuleEnd(lines[j]) then acc
    else PeakFrom(lines, j + 1, RunningMax(acc, RowNumbers(lines[j], syn)), syn)
  }

  /** What the rest of the scan yields from line `j` on while still looking
      for the section marker. */
  function SearchFrom(lines: seq<string>, j: nat, syn: NumberSyntax): (peak: real)
    requires j <= |lines|
    ensures peak >= 0.0
    decreases |lines| - j
  {
    if j == |lines| then 0.0
    else if IsAdapterStart(lines[j]) then PeakFrom(lines, j + 1, 0.0, syn)
    else SearchFrom(lines, j + 1, syn)
  }

  /** Continuing inside the section folds the numbers of the section lines
      still ahead into the running maximum. */
  lemma {:induction false} PeakFromFolds(lines: seq<string>, j: nat, acc: real, syn: NumberSyntax)
    requires j <= |lines|
    ensures PeakFrom(lines, j, acc, syn) == RunningMax(acc, SectionNumbers(BeforeModuleEnd(lines[j..]), syn))
    decreases |lines| - j
  {
    BeforeModuleEndStep(lines, j);
    if j < |lines| && !IsModuleEnd(lines[j]) {
      var rest := BeforeModuleEnd(lines[j + 1..]);
      var row := RowNumbers(lines[j], syn);
      assert SectionNumbers([lines[j]] + rest, syn) == row + SectionNumbers(rest, syn) by {
        assert ([lines[j]] + rest)[1..] == rest;
      }
      RunningMaxAppend(acc, row, SectionNumbers(rest, syn));
      PeakFromFolds(lines, j + 1, RunningMax(acc, row), syn);
    }
  }

  /** The line-by-line scan from `j` on computes the peak of the lines from
      `j` on. */
  lemma {:induction false} SearchFromIsPeak(lines: seq<string>, j: nat, syn: NumberSyntax)
    requires j <= |lines|
    ensures SearchFrom(lines, j, syn) == AdapterPeak(lines[j..], syn)
    decreases |lines| - j
  {
    if j < |lines| {
      AfterAdapterStartStep(lines, j);
      if IsAdapterStart(lines[j]) {
        PeakFromFolds(lines, j + 1, 0.0, syn);
      } else {
        SearchFromIsPeak(lines, j + 1, syn);
      }
    }
  }

  /** The second loop of `parse_fastqc_zip`: a flag for being inside the
      adapter section and a running maximum over its numeric fields. */
  method ReadAdapterContent(lines: seq<string>, syn: NumberSyntax) returns (maxAdapter: real)
    ensures maxAdapter == AdapterPeak(lines, syn)
  {
    SearchFromIsPeak(lines, 0, syn);
    assert lines[0..] == lines;
    var inSection := false;
    maxAdapter := 0.0;
    var i := 0;
    while i < |lines|
      invariant 0 <= i <= |lines|
      invariant !inSection ==> maxAdapter == 0.0 && SearchFrom(lines, i, syn) == AdapterPeak(lines, syn)
      invariant inSection ==> PeakFrom(lines, i, maxAdapter, syn) == AdapterPeak(lines, syn)
    {
      var line := lines[i];
      if IsAdapterStart(line) {
        if inSection {
          StartIsNotEnd(line);
        }
        inSection := true;
      } else if inSection {
        if IsModuleEnd(line) {
          break;
        }
        maxAdapter := FoldRow(maxAdapter, line, syn);
      }
      i := i + 1;
    }
  }

  // ------------------------------------- what the adapter peak is, line by line

  /** `s` is the first `>>Adapter Content` line. */
  predicate IsFirstAdapterStart(lines: seq<string>, s: nat)
  {
    s < |lines| && IsAdapterStart(lines[s]) && forall j :: 0 <= j < s ==> !IsAdapterStart(lines[j])
  }

  /** Line `i` is a data row of the section opened at line `s`: it comes
      after the marker, no `>>END_MODULE` line comes between (nor is line `i`
      one), and it is not a comment, an empty line or a repeated marker. */
  predicate IsDataRow(lines: seq<string>, s: nat, i: nat)
  {
    s < i < |lines| && (forall j :: s < j <= i ==> !IsModuleEnd(lines[j])) && !IsSkippedRow(lines[i])
  }

  /** Field `k` (zero-based) of line `i` read as a number. */
  function FieldNumber(lines: seq<string>, i: nat, k: nat, syn: NumberSyntax): Option<real>
    requires i < |lines|
  {
    var parts := Split(lines[i], TAB);
    if k < |parts| then syn.toReal(parts[k]) else None
  }

  lemma {:induction false} NumbersHas(fields: seq<string>, syn: NumberSyntax, k: nat)
    requires k < |fields| && syn.toReal(fields[k]).Some?
    ensures syn.toReal(fields[k]).value in Numbers(fields, syn)
    decreases |fields|
  {
    var init := fields[..|fields| - 1];
    if k < |fields| - 1 {
      assert init[k] == fields[k];
      NumbersHas(init, syn, k);
    }
  }

  lemma {:induction false} NumbersFrom(fields: seq<string>, syn: NumberSyntax, v: real)
    requires v in Numbers(fields, syn)
    ensures exists k :: 0 <= k < |fields| && syn.toReal(fields[k]) == Some(v)
    decreases |fields|
  {
    var init := fields[..|fields| - 1];
    if v in Numbers(init, syn) {
      NumbersFrom(init, syn, v);
      var k :| 0 <= k < |init| && syn.toReal(init[k]) == Some(v);
      assert fields[k] == init[k];
    } else {
      assert syn.toReal(fields[|fields| - 1]) == Some(v);
    }
  }

  lemma {:induction false} SectionNumbersHas(rows: seq<string>, syn: NumberSyntax, r: nat, v: real)
    requires r < |rows| && v in RowNumbers(rows[r], syn)
    ensures v in SectionNumbers(rows, syn)
    decreases |rows|
  {
    if r > 0 {
      assert rows[1..][r - 1] == rows[r];
      SectionNumbersHas(rows[1..], syn, r - 1, v);
    }
  }

  lemma {:induction false} SectionNumbersFrom(rows: seq<string>, syn: NumberSyntax, v: real)
    requires v in SectionNumbers(rows, syn)
    ensures exists r :: 0 <= r < |rows| && v in RowNumbers(rows[r], syn)
    decreases |rows|
  {
    if v !in RowNumbers(rows[0], syn) {
      SectionNumbersFrom(rows[1..], syn, v);
      var r :| 0 <= r < |rows[1..]| && v in RowNumbers(rows[1..][r], syn);
      assert rows[r + 1] == rows[1..][r];
    }
  }

  /** The section body starts right after the first marker. */
  lemma {:induction false} AfterFirstAdapterStart(lines: seq<string>, s: nat)
    requires IsFirstAdapterStart(lines, s)
    ensures AfterAdapterStart(lines) == lines[s + 1..]
  {
    AfterAdapterStartSkip(lines, s);
    AfterAdapterStartStep(lines, s);
  }

  /** The lines before the first end marker, by position. */
  lemma {:induction false} BeforeModuleEndShape(rest: seq<string>)
    ensures var n := |BeforeModuleEnd(rest)|;
      && BeforeModuleEnd(rest) == rest[..n]
      && (n < |rest| ==> IsModuleEnd(rest[n]))
      && forall j :: 0 <= j < n ==> !IsModuleEnd(rest[j])
    decreases |rest|
  {
    if rest != [] && !IsModuleEnd(rest[0]) {
      BeforeModuleEndShape(rest[1..]);
      var n := |BeforeModuleEnd(rest[1..])|;
      assert rest[1..][..n] == rest[1..n + 1];
      assert rest[..n + 1] == [rest[0]] + rest[1..n + 1];
      forall j | 0 <= j < n + 1 ensures !IsModuleEnd(rest[j]) {
        if j > 0 {
          assert rest[j] == rest[1..][j - 1];
        }
      }
      if n + 1 < |rest| {
        assert rest[n + 1] == rest[1..][n];
      }
    }
  }

  /** The section body is exactly the lines after the first marker up to the
      first `>>END_MODULE` line after it (or the end of the report). */
  lemma {:induction false} AdapterSectionShape(lines: seq<string>, s: nat)
    requires IsFirstAdapterStart(lines, s)
    ensures var e := s + 1 + |AdapterSection(lines)|;
      && e <= |lines|
      && AdapterSection(lines) == lines[s + 1..e]
      && (e < |lines| ==> IsModuleEnd(lines[e]))
      && forall j :: s < j < e ==> !IsModuleEnd(lines[j])
  {
    AfterFirstAdapterStart(lines, s);
    var rest := lines[s + 1..];
    BeforeModuleEndShape(rest);
    var n := |AdapterSection(lines)|;
    assert rest[..n] == lines[s + 1..s + 1 + n];
    forall j | s < j < s + 1 + n ensures !IsModuleEnd(lines[j]) {
      assert lines[j] == rest[j - s - 1];
    }
    if n < |rest| {
      assert lines[s + 1 + n] == rest[n];
    }
  }

  /** Data rows are the section lines that carry numbers. */
  lemma {:induction false} DataRowInSection(lines: seq<string>, s: nat, i: nat)
    requires IsFirstAdapterStart(lines, s) && IsDataRow(lines, s, i)
    ensures i - s - 1 < |AdapterSection(lines)| && AdapterSection(lines)[i - s - 1] == lines[i]
  {
    AdapterSectionShape(lines, s);
    var e := s + 1 + |AdapterSection(lines)|;
    if e < |lines| {
      assert IsModuleEnd(lines[e]);
    }
  }

  /** Without any `>>Adapter Content` line the peak is 0.0. */
  lemma {:induction false} AdapterPeakWithoutSection(lines: seq<string>, syn: NumberSyntax)
    requires forall j :: 0 <= j < |lines| ==> !IsAdapterStart(lines[j])
    ensures AdapterPeak(lines, syn) == 0.0
  {
    AfterAdapterStartSkip(lines, |lines|);
    assert lines[|lines|..] == [];
  }

  /** Every number in a data row beyond the first column bounds the peak. */
  lemma {:induction false} PeakAtLeastField(lines: seq<string>, syn: NumberSyntax, s: nat, i: nat, k: nat)
    requires IsFirstAdapterStart(lines, s) && IsDataRow(lines, s, i)
    requires 1 <= k && FieldNumber(lines, i, k, syn).Some?
    ensures AdapterPeak(lines, syn) >= FieldNumber(lines, i, k, syn).value
  {
    var body := AdapterSection(lines);
    DataRowInSection(lines, s, i);
    var parts := Split(lines[i], TAB);
    assert parts[1..][k - 1] == parts[k];
    NumbersHas(parts[1..], syn, k - 1);
    var v := FieldNumber(lines, i, k, syn).value;
    SectionNumbersHas(body, syn, i - s - 1, v);
    RunningMaxIsMaximum(0.0, SectionNumbers(body, syn));
  }

  /** A section line that is not skipped is a data row. */
  lemma {:induction false} SectionRowIsDataRow(lines: seq<string>, s: nat, r: nat)
    requires IsFirstAdapterStart(lines, s) && r < |AdapterSection(lines)|
    requires !IsSkippedRow(AdapterSection(lines)[r])
    ensures s + 1 + r < |lines| && lines[s + 1 + r] == AdapterSection(lines)[r]
    ensures IsDataRow(lines, s, s + 1 + r)
  {
    AdapterSectionShape(lines, s);
  }

  /** A number of a data row, found by its field. */
  lemma {:induction false} RowNumberIsField(lines: seq<string>, syn: NumberSyntax, i: nat, v: real)
    requires i < |lines| && v in RowNumbers(lines[i], syn)
    ensures exists k :: 1 <= k && FieldNumber(lines, i, k, syn) == Some(v)
  {
    var parts := Split(lines[i], TAB);
    NumbersFrom(parts[1..], syn, v);
    var k' :| 0 <= k' < |parts[1..]| && syn.toReal(parts[1..][k']) == Some(v);
    assert FieldNumber(lines, i, k' + 1, syn) == Some(v);
  }

  /** A non-zero peak comes from some data row of the section. */
  lemma {:induction false} PeakRow(lines: seq<string>, syn: NumberSyntax, s: nat)
    requires IsFirstAdapterStart(lines, s) && AdapterPeak(lines, syn) != 0.0
    ensures exists i: nat :: IsDataRow(lines, s, i) && AdapterPeak(lines, syn) in RowNumbers(lines[i], syn)
  {
    var body := AdapterSection(lines);
    var peak := AdapterPeak(lines, syn);
    RunningMaxIsMaximum(0.0, SectionNumbers(body, syn));
    SectionNumbersFrom(body, syn, peak);
    var r :| 0 <= r < |body| && peak in RowNumbers(body[r], syn);
    assert !IsSkippedRow(body[r]);
    SectionRowIsDataRow(lines, s, r);
    assert lines[s + 1 + r] == body[r];
  }

  /** A non-zero peak is one of those numbers. */
  lemma {:induction false} PeakIsField(lines: seq<string>, syn: NumberSyntax, s: nat)
    requires IsFirstAdapterStart(lines, s) && AdapterPeak(lines, syn) != 0.0
    ensures exists i, k :: IsDataRow(lines, s, i) && 1 <= k && FieldNumber(lines, i, k, syn) == Some(AdapterPeak(lines, syn))
  {
    var peak := AdapterPeak(lines, syn);
    PeakRow(lines, syn, s);
    var i: nat :| IsDataRow(lines, s, i) && peak in RowNumbers(lines[i], syn);
    RowNumberIsField(lines, syn, i, peak);
    var k :| 1 <= k && FieldNumber(lines, i, k, syn) == Some(peak);
  }

  /** The adapter peak is the largest of 0.0 and every number in columns 2
      and later of the section's data rows. */
  lemma {:induction false} AdapterPeakIsMaximum(lines: seq<string>, syn: NumberSyntax, s: nat)
    requires IsFirstAdapterStart(lines, s)
    ensures AdapterPeak(lines, syn) >= 0.0
    ensures forall i, k :: IsDataRow(lines, s, i) && 1 <= k && FieldNumber(lines, i, k, syn).Some?
              ==> AdapterPeak(lines, syn) >= FieldNumber(lines, i, k, syn).value
    ensures AdapterPeak(lines, syn) == 0.0
         || exists i, k :: IsDataRow(lines, s, i) && 1 <= k && FieldNumber(lines, i, k, syn) == Some(AdapterPeak(lines, syn))
    ensures (forall i, k :: IsDataRow(lines, s, i) && 1 <= k ==> FieldNumber(lines, i, k, syn).None?)
              ==> AdapterPeak(lines, syn) == 0.0
  {
    forall i, k | IsDataRow(lines, s, i) && 1 <= k && FieldNumber(lines, i, k, syn).Some?
      ensures AdapterPeak(lines, syn) >= FieldNumber(lines, i, k, syn).value
    {
      PeakAtLeastField(lines, syn, s, i, k);
    }
    RunningMaxIsMaximum(0.0, SectionNumbers(AdapterSection(lines), syn));
    if AdapterPeak(lines, syn) != 0.0 {
      PeakIsField(lines, syn, s);
    }
  }

  // ---------------------------------------------------------------- archive

  /** The metrics `parse_fastqc_zip` returns for an archive, or what it
      raises. */
  function ParseArchive(archive: Archive, syn: NumberSyntax): (r: Result<Metrics, ScanError>)
    ensures r.Ok? ==> r.value.sample == SampleId(archive.stem) && r.value.pctQ30.None?
    ensures ReportLines(archive).None? ==> r == Ok(Metrics(SampleId(archive.stem), None, None, None, None))
    ensures ReportLines(archive).Some? && r.Ok? ==>
      r.value.adapterContentMax == Some(AdapterPeak(ReportLines(archive).value, syn))
    ensures ReportLines(archive).Some? ==>
      var scan := ScanBasic(Metrics(SampleId(archive.stem), None, None, None, None), ReportLines(archive).value, syn);
      && (r.Err? <==> scan.Err?)
      && (r.Err? ==> r.error == scan.error)
      && (r.Ok? ==> r.value.totalSequences == scan.value.totalSequences && r.value.gcContent == scan.value.gcContent)
  {
    var metrics := Metrics(SampleId(archive.stem), None, None, None, None);
    match ReportLines(archive)
    case None => Ok(metrics)
    case Some(lines) =>
      match ScanBasic(metrics, lines, syn)
      case Err(e) => Err(e)
      case Ok(m) => Ok(m.(adapterContentMax := Some(AdapterPeak(lines, syn))))
  }

  /** `parse_fastqc_zip` on an archive already opened. */
  method ParseFastqcZip(archive: Archive, syn: NumberSyntax) returns (r: Result<Metrics, ScanError>)
    ensures r == ParseArchive(archive, syn)
  {
    var metrics := Metrics(SampleId(archive.stem), None, None, None, None);
    var first := FirstReport(archive.entries);
    if first.None? {
      return Ok(metrics);
    }
    var member := LastEntryNamed(archive.entries, archive.entries[first.value].name);
    var lines := archive.entries[member.value].lines;
    var scanned := ReadBasicStatistics(metrics, lines, syn);
    if scanned.Err? {
      return Err(scanned.error);
    }
    var peak := ReadAdapterContent(lines, syn);
    r := Ok(scanned.value.(adapterContentMax := Some(peak)));
  }
}
