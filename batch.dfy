/** The batch loop of `main`: parse every archive in order, skip the ones
    without a read count, check the rest and key the verdicts by sample. */
module Batch {
  import opened Wrappers
  import opened Text
  import opened Fastqc
  import opened Config
  import opened Check

  type Results = map<string, Verdict>
  type Parsed = Result<Metrics, ScanError>

  /** A parsed archive that reports a read count, so `main` checks it. */
  predicate Kept(p: Parsed)
  {
    p.Ok? && p.value.totalSequences.Some?
  }

  /** Every verdict is filed under its own sample and has a read count. */
  predicate WellFiled(results: Results)
  {
    forall s :: s in results ==> results[s].sample == s && results[s].totalSequences.Some?
  }

  /** The results after folding the parse outcomes in order; the first
      failed parse aborts the whole run. */
  function Collect(parsed: seq<Parsed>, th: Thresholds): (r: Result<Results, ScanError>)
    ensures r.Ok? ==> WellFiled(r.value)
    decreases |parsed|
  {
    if parsed == [] then Ok(map[])
    else
      match Collect(parsed[..|parsed| - 1], th)
      case Err(e) => Err(e)
      case Ok(prev) => Step(prev, parsed[|parsed| - 1], th)
  }

  /** One iteration: a failed parse aborts, a record without a read count is
      skipped, any other is checked and filed under its sample. */
  function Step(prev: Results, p: Parsed, th: Thresholds): (r: Result<Results, ScanError>)
    ensures r.Ok? <==> p.Ok?
    ensures r.Ok? ==> prev.Keys <= r.value.Keys
    ensures r.Ok? && WellFiled(prev) ==> WellFiled(r.value)
  {
    match p
    case Err(e) => Err(e)
    case Ok(m) =>
      if m.totalSequences.None? then Ok(prev)
      else Ok(prev[m.sample := Evaluate(m, th)])
  }

  lemma {:induction false} CollectSnoc(parsed: seq<Parsed>, i: nat, th: Thresholds)
    requires i < |parsed| && Collect(parsed[..i], th).Ok?
    ensures Collect(parsed[..i + 1], th) == Step(Collect(parsed[..i], th).value, parsed[i], th)
  {
    assert parsed[..i + 1][..i] == parsed[..i];
  }

  /** The parse outcome of each archive, in order. */
  function ParseAll(archives: seq<Archive>, syn: NumberSyntax): (ps: seq<Parsed>)
    ensures |ps| == |archives|
    ensures forall i :: 0 <= i < |archives| ==> ps[i] == ParseArchive(archives[i], syn)
    ensures forall i :: 0 <= i < |archives| && ps[i].Ok? ==> ps[i].value.sample == SampleId(archives[i].stem)
  {
    seq(|archives|, i requires 0 <= i < |archives| => ParseArchive(archives[i], syn))
  }

  /** What `main` writes for the sorted archive list. */
  function Run(archives: seq<Archive>, th: Thresholds, syn: NumberSyntax): (r: Result<Results, ScanError>)
    ensures r.Err? <==> exists i :: 0 <= i < |archives| && ParseArchive(archives[i], syn).Err?
    ensures r.Ok? ==> WellFiled(r.value)
  {
    CollectErrors(ParseAll(archives, syn), th);
    Collect(ParseAll(archives, syn), th)
  }

  /** `main`'s loop over the sorted archive list. */
  method BuildResults(archives: seq<Archive>, th: Thresholds, syn: NumberSyntax)
    returns (r: Result<Results, ScanError>)
    ensures r == Run(archives, th, syn)
  {
    ghost var parsed := ParseAll(archives, syn);
    var results: Results := map[];
    var i := 0;
    while i < |archives|
      invariant 0 <= i <= |archives|
      invariant Collect(parsed[..i], th) == Ok(results)
    {
      var metrics := ParseFastqcZip(archives[i], syn);
      assert parsed[i] == metrics;
      CollectSnoc(parsed, i, th);
      if metrics.Err? {
        AbortSticks(parsed, i + 1, th);
        return Err(metrics.error);
      }
      if metrics.value.totalSequences.Some? {
        var checked := CheckSample(metrics.value, th);
        results := results[checked.sample := checked];
      }
      i := i + 1;
    }
    assert parsed[..i] == parsed;
    r := Ok(results);
  }

  /** Once a prefix of the run aborts, the whole run aborts with that error. */
  lemma {:induction false} AbortSticks(parsed: seq<Parsed>, n: nat, th: Thresholds)
    requires n <= |parsed| && Collect(parsed[..n], th).Err?
    ensures Collect(parsed, th) == Collect(parsed[..n], th)
    decreases |parsed| - n
  {
    if n < |parsed| {
      assert parsed[..n + 1][..n] == parsed[..n];
      AbortSticks(parsed, n + 1, th);
    } else {
      assert parsed[..n] == parsed;
    }
  }

  /** The run aborts exactly when some archive fails to parse, and then with
      the error of the first such archive. */
  lemma {:induction false} CollectErrors(parsed: seq<Parsed>, th: Thresholds)
    ensures Collect(parsed, th).Err? <==> exists i :: 0 <= i < |parsed| && parsed[i].Err?
    ensures Collect(parsed, th).Err? ==>
      exists i :: 0 <= i < |parsed| && parsed[i].Err?
        && (forall j :: 0 <= j < i ==> parsed[j].Ok?)
        && Collect(parsed, th).error == parsed[i].error
    decreases |parsed|
  {
    if parsed != [] {
      var n := |parsed| - 1;
      var init := parsed[..n];
      CollectErrors(init, th);
      assert forall j :: 0 <= j < n ==> init[j] == parsed[j];
      if Collect(init, th).Err? {
        assert Collect(parsed, th) == Collect(init, th);
        var i :| 0 <= i < |init| && init[i].Err?
          && (forall j :: 0 <= j < i ==> init[j].Ok?)
          && Collect(init, th).error == init[i].error;
        assert parsed[i].Err? && forall j :: 0 <= j < i ==> parsed[j].Ok?;
      } else {
        assert Collect(parsed, th) == Step(Collect(init, th).value, parsed[n], th);
        assert forall j :: 0 <= j < n ==> parsed[j].Ok?;
      }
    }
  }

  /** The keys one iteration adds: the sample of a kept record. */
  lemma {:induction false} StepKeys(prev: Results, p: Parsed, th: Thresholds, sample: string)
    requires Step(prev, p, th).Ok?
    ensures p.Ok?
    ensures sample in Step(prev, p, th).value <==> sample in prev || (Kept(p) && p.value.sample == sample)
  {
  }

  /** A sample has a verdict exactly when some kept record carries it. */
  lemma {:induction false} CollectKeys(parsed: seq<Parsed>, th: Thresholds, sample: string)
    requires Collect(parsed, th).Ok?
    ensures sample in Collect(parsed, th).value <==>
      exists i :: 0 <= i < |parsed| && Kept(parsed[i]) && parsed[i].value.sample == sample
    decreases |parsed|
  {
    if parsed != [] {
      var n := |parsed| - 1;
      var init := parsed[..n];
      var last := parsed[n];
      var hit := Kept(last) && last.value.sample == sample;
      assert sample in Collect(parsed, th).value <==> sample in Collect(init, th).value || hit by {
        CollectSnoc(parsed, n, th);
        assert parsed[..n + 1] == parsed;
        StepKeys(Collect(init, th).value, last, th, sample);
      }
      CollectKeys(init, th, sample);
      if exists i :: 0 <= i < |parsed| && Kept(parsed[i]) && parsed[i].value.sample == sample {
        var i :| 0 <= i < |parsed| && Kept(parsed[i]) && parsed[i].value.sample == sample;
        if i < n {
          assert init[i] == parsed[i];
        }
      }
      if exists i :: 0 <= i < |init| && Kept(init[i]) && init[i].value.sample == sample {
        var i :| 0 <= i < |init| && Kept(init[i]) && init[i].value.sample == sample;
        assert parsed[i] == init[i];
      }
    }
  }

  /** The verdict kept for a sample is the check of its last kept record. */
  lemma {:induction false} CollectLastWins(parsed: seq<Parsed>, th: Thresholds, i: nat)
    requires Collect(parsed, th).Ok?
    requires i < |parsed| && Kept(parsed[i])
    requires forall j :: i < j < |parsed| && Kept(parsed[j]) ==> parsed[j].value.sample != parsed[i].value.sample
    ensures parsed[i].value.sample in Collect(parsed, th).value
    ensures Collect(parsed, th).value[parsed[i].value.sample] == Evaluate(parsed[i].value, th)
    decreases |parsed|
  {
    var init := parsed[..|parsed| - 1];
    if i < |parsed| - 1 {
      assert forall j :: 0 <= j < |init| ==> init[j] == parsed[j];
      CollectLastWins(init, th, i);
    }
  }

  /** Every verdict in the results is the check of some kept record of the
      sample it is filed under. */
  lemma {:induction false} CollectValues(parsed: seq<Parsed>, th: Thresholds, sample: string)
    requires Collect(parsed, th).Ok? && sample in Collect(parsed, th).value
    ensures exists i :: 0 <= i < |parsed| && Kept(parsed[i]) && parsed[i].value.sample == sample &&
              Collect(parsed, th).value[sample] == Evaluate(parsed[i].value, th)
    ensures Collect(parsed, th).value[sample].sample == sample
    ensures Collect(parsed, th).value[sample].totalSequences.Some?
    decreases |parsed|
  {
    var init := parsed[..|parsed| - 1];
    var last := parsed[|parsed| - 1];
    if !(Kept(last) && last.value.sample == sample) {
      CollectValues(init, th, sample);
      var i :| 0 <= i < |init| && Kept(init[i]) && init[i].value.sample == sample
        && Collect(init, th).value[sample] == Evaluate(init[i].value, th);
      assert init[i] == parsed[i];
    }
  }

  /** Without a config file every sample in the results passes. */
  lemma {:induction false} MissingConfigAllPass(parsed: seq<Parsed>, sample: string)
    requires Collect(parsed, NO_THRESHOLDS).Ok? && sample in Collect(parsed, NO_THRESHOLDS).value
    ensures Collect(parsed, NO_THRESHOLDS).value[sample].status == Pass
  {
    CollectValues(parsed, NO_THRESHOLDS, sample);
    var i :| 0 <= i < |parsed| && Kept(parsed[i])
      && Collect(parsed, NO_THRESHOLDS).value[sample] == Evaluate(parsed[i].value, NO_THRESHOLDS);
    NoThresholdsPass(parsed[i].value);
  }

  /** At the archive level: the results are keyed by sample id, and a sample
      is present exactly when one of its archives parses with a read count. */
  lemma {:induction false} RunKeys(archives: seq<Archive>, th: Thresholds, syn: NumberSyntax, sample: string)
    requires Run(archives, th, syn).Ok?
    ensures sample in Run(archives, th, syn).value <==>
      exists i :: 0 <= i < |archives| && Kept(ParseArchive(archives[i], syn))
        && SampleId(archives[i].stem) == sample
  {
    var parsed := ParseAll(archives, syn);
    CollectKeys(parsed, th, sample);
    assert forall i :: 0 <= i < |archives| ==> parsed[i] == ParseArchive(archives[i], syn);
  }

  /** An archive whose report scans without raising is kept exactly when the
      report has a `Total Sequences` line. */
  lemma {:induction false} ArchiveKept(a: Archive, syn: NumberSyntax)
    requires ReportLines(a).Some?
    requires forall j :: 0 <= j < |ReportLines(a).value| ==> !Malformed(ReportLines(a).value[j], syn)
    ensures Kept(ParseArchive(a, syn)) <==>
      exists j :: 0 <= j < |ReportLines(a).value| && IsTotalLine(ReportLines(a).value[j])
  {
    var lines := ReportLines(a).value;
    var m0 := Metrics(SampleId(a.stem), None, None, None, None);
    ScanBasicErrors(m0, lines, syn);
    if exists j :: 0 <= j < |lines| && IsTotalLine(lines[j]) {
      var j :| 0 <= j < |lines| && IsTotalLine(lines[j]);
      ScanBasicSomeTotal(m0, lines, syn, j);
    } else {
      ScanBasicNoTotal(m0, lines, syn);
    }
  }

  /** An archive without a `fastqc_data.txt` member reports no read count and
      is skipped. */
  lemma ReportlessArchiveSkipped(a: Archive, syn: NumberSyntax)
    requires forall k :: 0 <= k < |a.entries| ==> !IsReportName(a.entries[k].name)
    ensures ParseArchive(a, syn).Ok? && !Kept(ParseArchive(a, syn))
  {
  }
}
