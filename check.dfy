/** `check_sample`: judge one sample's metrics against the thresholds. */
module Check {
  import opened Wrappers
  import opened Fastqc
  import opened Config

  datatype Status = Pass | Fail

  /** One violated threshold, with the observed value and the limit. The
      wording of the message is not modelled. */
  datatype Reason =
    | LowReads(total: int, minReads: int)
    | LowGc(gc: real, minGc: real)
    | HighGc(gc: real, maxGc: real)
    | HighAdapter(adapter: real, maxAdapterContent: real)

  /** The metrics record with `status` and `reasons` laid over it. */
  datatype Verdict = Verdict(
    sample: string,
    totalSequences: Option<int>,
    gcContent: Option<real>,
    pctQ30: Option<real>,
    adapterContentMax: Option<real>,
    status: Status,
    reasons: seq<Reason>)

  /** Position of each check in the fixed evaluation order. */
  function Rank(r: Reason): nat
  {
    match r
    case LowReads(_, _) => 0
    case LowGc(_, _) => 1
    case HighGc(_, _) => 2
    case HighAdapter(_, _) => 3
  }

  /** Reasons listed in evaluation order, none of them twice. */
  predicate InEvaluationOrder(reasons: seq<Reason>)
  {
    forall i, j :: 0 <= i < j < |reasons| ==> Rank(reasons[i]) < Rank(reasons[j])
  }

  /** Some reason of the given rank is listed. */
  predicate Lists(reasons: seq<Reason>, rank: nat)
  {
    exists k :: 0 <= k < |reasons| && Rank(reasons[k]) == rank
  }

  /** Every listed reason ranks below `bound`. */
  predicate RanksBelow(reasons: seq<Reason>, bound: nat)
  {
    forall k :: 0 <= k < |reasons| ==> Rank(reasons[k]) < bound
  }

  // The four checks: each applies only when both the metric and its limit
  // are present, and each comparison is strict.

  predicate ReadsTooLow(m: Metrics, th: Thresholds)
  {
    m.totalSequences.Some? && th.minReads.Some? && m.totalSequences.value < th.minReads.value
  }

  predicate GcTooLow(m: Metrics, th: Thresholds)
  {
    m.gcContent.Some? && th.minGc.Some? && m.gcContent.value < th.minGc.value
  }

  predicate GcTooHigh(m: Metrics, th: Thresholds)
  {
    m.gcContent.Some? && th.maxGc.Some? && m.gcContent.value > th.maxGc.value
  }

  predicate AdapterTooHigh(m: Metrics, th: Thresholds)
  {
    m.adapterContentMax.Some? && th.maxAdapterContent.Some?
    && m.adapterContentMax.value > th.maxAdapterContent.value
  }

  /** A reason is justified: it carries the sample's observed value and the
      configured limit, and the value really is on the wrong side of it. */
  predicate Justified(r: Reason, m: Metrics, th: Thresholds)
  {
    match r
    case LowReads(total, minReads) =>
      m.totalSequences == Some(total) && th.minReads == Some(minReads) && total < minReads
    case LowGc(gc, minGc) => m.gcContent == Some(gc) && th.minGc == Some(minGc) && gc < minGc
    case HighGc(gc, maxGc) => m.gcContent == Some(gc) && th.maxGc == Some(maxGc) && gc > maxGc
    case HighAdapter(adapter, maxAdapter) =>
      m.adapterContentMax == Some(adapter) && th.maxAdapterContent == Some(maxAdapter)
      && adapter > maxAdapter
  }

  predicate AllJustified(reasons: seq<Reason>, m: Metrics, th: Thresholds)
  {
    forall k :: 0 <= k < |reasons| ==> Justified(reasons[k], m, th)
  }

  /** The check of the given rank fails. */
  predicate Fails(rank: nat, m: Metrics, th: Thresholds)
  {
    match rank
    case 0 => ReadsTooLow(m, th)
    case 1 => GcTooLow(m, th)
    case 2 => GcTooHigh(m, th)
    case 3 => AdapterTooHigh(m, th)
    case _ => false
  }

  /** What the check of the given rank appends: its reason, or nothing. */
  function Outcome(rank: nat, m: Metrics, th: Thresholds): (o: seq<Reason>)
    ensures |o| <= 1 && (o != [] <==> Fails(rank, m, th))
  {
    if !Fails(rank, m, th) then []
    else match rank
      case 0 => [LowReads(m.totalSequences.value, th.minReads.value)]
      case 1 => [LowGc(m.gcContent.value, th.minGc.value)]
      case 2 => [HighGc(m.gcContent.value, th.maxGc.value)]
      case 3 => [HighAdapter(m.adapterContentMax.value, th.maxAdapterContent.value)]
      case _ => []
  }

  /** The reason a failing check appends carries that check's rank and is
      justified. */
  lemma {:induction false} OutcomeJustified(rank: nat, m: Metrics, th: Thresholds)
    requires Fails(rank, m, th)
    ensures Rank(Outcome(rank, m, th)[0]) == rank && Justified(Outcome(rank, m, th)[0], m, th)
  {
  }

  /** `rs` is what the checks of rank below `bound` have collected. */
  ghost predicate Collected(rs: seq<Reason>, m: Metrics, th: Thresholds, bound: nat)
  {
    && InEvaluationOrder(rs) && RanksBelow(rs, bound) && AllJustified(rs, m, th) && |rs| <= bound
    && (forall q: nat :: Lists(rs, q) <==> q < bound && Fails(q, m, th))
  }

  /** Running the next check keeps the collected list ordered and justified
      and adds exactly that check's rank when it fails. */
  lemma {:induction false} AppendCheck(rs: seq<Reason>, rank: nat, m: Metrics, th: Thresholds)
    requires Collected(rs, m, th, rank)
    ensures Collected(rs + Outcome(rank, m, th), m, th, rank + 1)
  {
    var step := Outcome(rank, m, th);
    var out := rs + step;
    if step != [] {
      OutcomeJustified(rank, m, th);
      assert out[|rs|] == step[0];
      assert AllJustified(out, m, th) by {
        forall k | 0 <= k < |out|
          ensures Justified(out[k], m, th)
        {
          if k < |rs| {
            assert out[k] == rs[k];
          }
        }
      }
      forall q | Lists(out, q)
        ensures Lists(rs, q) || q == rank
      {
        var k :| 0 <= k < |out| && Rank(out[k]) == q;
        if k < |rs| {
          assert out[k] == rs[k];
        }
      }
      forall q | Lists(rs, q)
        ensures Lists(out, q)
      {
        var k :| 0 <= k < |rs| && Rank(rs[k]) == q;
        assert out[k] == rs[k];
      }
    } else {
      assert out == rs;
    }
  }

  /** Running the four checks in order collects every failed check. */
  lemma {:induction false} AllChecksCollected(m: Metrics, th: Thresholds)
    ensures Collected([] + Outcome(0, m, th) + Outcome(1, m, th) + Outcome(2, m, th) + Outcome(3, m, th), m, th, 4)
  {
    var r0 := [] + Outcome(0, m, th);
    var r1 := r0 + Outcome(1, m, th);
    var r2 := r1 + Outcome(2, m, th);
    AppendCheck([], 0, m, th);
    AppendCheck(r0, 1, m, th);
    AppendCheck(r1, 2, m, th);
    AppendCheck(r2, 3, m, th);
  }

  /** The reasons `check_sample` collects: one per failed check, in the
      order the checks run, each carrying the values it compared. */
  function Reasons(m: Metrics, th: Thresholds): (rs: seq<Reason>)
    ensures InEvaluationOrder(rs) && |rs| <= 4
    ensures AllJustified(rs, m, th)
    ensures Lists(rs, 0) <==> ReadsTooLow(m, th)
    ensures Lists(rs, 1) <==> GcTooLow(m, th)
    ensures Lists(rs, 2) <==> GcTooHigh(m, th)
    ensures Lists(rs, 3) <==> AdapterTooHigh(m, th)
  {
    AllChecksCollected(m, th);
    assert Fails(0, m, th) == ReadsTooLow(m, th) && Fails(1, m, th) == GcTooLow(m, th);
    assert Fails(2, m, th) == GcTooHigh(m, th) && Fails(3, m, th) == AdapterTooHigh(m, th);
    [] + Outcome(0, m, th) + Outcome(1, m, th) + Outcome(2, m, th) + Outcome(3, m, th)
  }

  /** The result of `check_sample`. */
  function Evaluate(m: Metrics, th: Thresholds): (v: Verdict)
    ensures v.status == Pass <==> v.reasons == []
    ensures v.reasons == Reasons(m, th)
    ensures v.sample == m.sample && v.totalSequences == m.totalSequences && v.gcContent == m.gcContent
    ensures v.pctQ30 == m.pctQ30 && v.adapterContentMax == m.adapterContentMax
  {
    var rs := Reasons(m, th);
    Verdict(m.sample, m.totalSequences, m.gcContent, m.pctQ30, m.adapterContentMax,
            if rs == [] then Pass else Fail, rs)
  }

  /** `check_sample`, appending one reason per failed check. */
  method CheckSample(m: Metrics, th: Thresholds) returns (v: Verdict)
    ensures v == Evaluate(m, th)
  {
    var reasons: seq<Reason> := [];
    var total := m.totalSequences;
    if total.Some? && th.minReads.Some? {
      if total.value < th.minReads.value {
        reasons := reasons + [LowReads(total.value, th.minReads.value)];
      }
    }
    assert reasons == [] + Outcome(0, m, th);
    ghost var r0 := reasons;
    var gc := m.gcContent;
    if gc.Some? {
      var minGc := th.minGc;
      var maxGc := th.maxGc;
      if minGc.Some? && gc.value < minGc.value {
        reasons := reasons + [LowGc(gc.value, minGc.value)];
      }
      assert reasons == r0 + Outcome(1, m, th);
      ghost var r1 := reasons;
      if maxGc.Some? && gc.value > maxGc.value {
        reasons := reasons + [HighGc(gc.value, maxGc.value)];
      }
      assert reasons == r1 + Outcome(2, m, th);
    } else {
      assert reasons == r0 + Outcome(1, m, th) + Outcome(2, m, th);
    }
    ghost var r2 := reasons;
    var adapter := m.adapterContentMax;
    if adapter.Some? && th.maxAdapterContent.Some? {
      if adapter.value > th.maxAdapterContent.value {
        reasons := reasons + [HighAdapter(adapter.value, th.maxAdapterContent.value)];
      }
    }
    assert reasons == r2 + Outcome(3, m, th);
    var status := if reasons == [] then Pass else Fail;
    v := Verdict(m.sample, m.totalSequences, m.gcContent, m.pctQ30, m.adapterContentMax, status, reasons);
  }

  /** A metric equal to its limit never fails: all four comparisons are
      strict, whatever the other metrics are. */
  lemma BoundaryPasses(m: Metrics, th: Thresholds)
    ensures m.totalSequences.Some? && th.minReads == m.totalSequences ==> !Lists(Evaluate(m, th).reasons, 0)
    ensures m.gcContent.Some? && th.minGc == m.gcContent ==> !Lists(Evaluate(m, th).reasons, 1)
    ensures m.gcContent.Some? && th.maxGc == m.gcContent ==> !Lists(Evaluate(m, th).reasons, 2)
    ensures m.adapterContentMax.Some? && th.maxAdapterContent == m.adapterContentMax
            ==> !Lists(Evaluate(m, th).reasons, 3)
  {
  }

  /** With every metric at its limit the sample passes. */
  lemma AllAtLimitsPass(m: Metrics, th: Thresholds)
    requires m.totalSequences.Some? && th.minReads == m.totalSequences
    requires m.gcContent.Some? && th.minGc == m.gcContent && th.maxGc == m.gcContent
    requires m.adapterContentMax.Some? && th.maxAdapterContent == m.adapterContentMax
    ensures Evaluate(m, th).status == Pass
  {
  }

  /** With both GC limits present, the GC checks are silent exactly when the
      GC content lies in [min_gc, max_gc], and both fire only when the limits
      are crossed (min_gc > max_gc). */
  lemma GcWindow(m: Metrics, th: Thresholds)
    requires m.gcContent.Some? && th.minGc.Some? && th.maxGc.Some?
    ensures var rs := Evaluate(m, th).reasons;
      && (!Lists(rs, 1) && !Lists(rs, 2) <==> th.minGc.value <= m.gcContent.value <= th.maxGc.value)
      && (Lists(rs, 1) && Lists(rs, 2) ==> th.minGc.value > th.maxGc.value)
  {
  }

  /** The empty threshold dictionary passes every sample. */
  lemma NoThresholdsPass(m: Metrics)
    ensures Evaluate(m, NO_THRESHOLDS).status == Pass
  {
  }

  /** The Q30 metric and threshold never influence the verdict. */
  lemma Q30Ignored(m: Metrics, th: Thresholds, q: Option<real>, t: Option<real>)
    ensures Evaluate(m.(pctQ30 := q), th.(minPctQ30 := t)).status == Evaluate(m, th).status
    ensures Evaluate(m.(pctQ30 := q), th.(minPctQ30 := t)).reasons == Evaluate(m, th).reasons
  {
  }

  const EXAMPLE_THRESHOLDS: Thresholds := Thresholds(Some(100000), None, Some(5.0), Some(30.0), Some(70.0))

  /** 150000 reads, 50.0 % GC and 2.0 % adapter pass. */
  lemma ExamplePass()
    ensures var v := Evaluate(Metrics("test_sample", Some(150000), Some(50.0), None, Some(2.0)), EXAMPLE_THRESHOLDS);
      v.status == Pass && v.reasons == []
  {
  }

  /** 50000 reads fail on the read count alone. */
  lemma ExampleLowReads()
    ensures var v := Evaluate(Metrics("test_sample", Some(50000), Some(50.0), None, Some(2.0)), EXAMPLE_THRESHOLDS);
      v.status == Fail && v.reasons == [LowReads(50000, 100000)]
  {
  }

  /** 85.0 % GC fails on the upper GC limit alone. */
  lemma ExampleHighGc()
    ensures var v := Evaluate(Metrics("test_sample", Some(150000), Some(85.0), None, Some(2.0)), EXAMPLE_THRESHOLDS);
      v.status == Fail && v.reasons == [HighGc(85.0, 70.0)]
  {
  }
}
