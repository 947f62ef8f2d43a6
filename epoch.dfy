/**
 * The rough epoch estimate `process_one` makes when the period is known but
 * the mid-transit time is not: flatten the acquired curve again, smooth its
 * flux with a centred rolling median of width max(3, 1% of the samples),
 * take the time of the first minimum of the smoothed flux, and move it to
 * the common time frame. The rolling median is numeric library code and is
 * an oracle input.
 */
module EpochEstimator {
  import opened TimeFrame
  import opened Acquirer

  /** `max(3, int(len(s) * 0.01))`. */
  function SmoothingWindow(n: nat): (w: nat)
    ensures w >= 3 && w >= n / 100
    ensures w == 3 || w == n / 100
  {
    if n / 100 > 3 then n / 100 else 3
  }

  /** `s.rolling(window=w, center=True, min_periods=1).median().values`. */
  type RollingMedian = (seq<real>, nat) -> seq<real>

  function Fluxes(lc: LightCurve): (r: seq<real>)
    ensures |r| == |lc.samples|
  {
    seq(|lc.samples|, i requires 0 <= i < |lc.samples| => lc.samples[i].flux)
  }

  /** `np.argmin(s)`: the first position holding the least value. */
  function FirstMinIndex(s: seq<real>): (i: nat)
    requires s != []
    ensures i < |s|
    ensures forall j :: 0 <= j < |s| ==> s[i] <= s[j]
    ensures forall j :: 0 <= j < i ==> s[j] > s[i]
  {
    if |s| == 1 then 0
    else
      var k := FirstMinIndex(s[1..]);
      if s[0] <= s[1 + k] then 0 else 1 + k
  }

  datatype Estimate = Estimated(t0: real) | EstimateFailed(error: string)

  /** The text of the exception numpy raises for the argmin of nothing. */
  const EmptyArgmin: string := "ValueError('attempt to get argmin of an empty sequence')"
  const IndexOutOfRange: string := "IndexError('index out of bounds')"

  /**
   * The estimate from the curve the acquirer returned: the time, in the
   * common frame, of the first minimum of the smoothed flux. An empty curve
   * makes `argmin` raise, and an index the time column does not have makes
   * the lookup raise; both become an `estimate_t0_failed` record.
   */
  function EstimateEpoch(curve: LightCurve, arch: Archive, median: RollingMedian): (r: Estimate)
    ensures FlattenOrNormalize(curve, arch).samples == [] ==> r.EstimateFailed?
    ensures r.Estimated? ==>
      exists k :: 0 <= k < |FlattenOrNormalize(curve, arch).samples|
        && r.t0 == ToCommon(FlattenOrNormalize(curve, arch).samples[k].time, FlattenOrNormalize(curve, arch).format)
  {
    var lc := FlattenOrNormalize(curve, arch);
    var smoothed := median(Fluxes(lc), SmoothingWindow(|lc.samples|));
    if smoothed == [] then EstimateFailed(EmptyArgmin)
    else
      var idx := FirstMinIndex(smoothed);
      if idx < |lc.samples| then Estimated(ToCommon(lc.samples[idx].time, lc.format))
      else EstimateFailed(IndexOutOfRange)
  }

  /**
   * When the smoother keeps the length (as a rolling median with
   * `min_periods=1` does), a non-empty curve always yields an estimate: the
   * time of a sample whose smoothed flux is least, with no earlier sample as
   * low, shifted by the curve's offset.
   */
  lemma EstimateIsDeepestSample(curve: LightCurve, arch: Archive, median: RollingMedian)
    requires FlattenOrNormalize(curve, arch).samples != []
    requires |median(Fluxes(FlattenOrNormalize(curve, arch)), SmoothingWindow(|FlattenOrNormalize(curve, arch).samples|))|
          == |FlattenOrNormalize(curve, arch).samples|
    ensures EstimateEpoch(curve, arch, median).Estimated?
    ensures
      var lc := FlattenOrNormalize(curve, arch);
      var sm := median(Fluxes(lc), SmoothingWindow(|lc.samples|));
      exists k :: 0 <= k < |lc.samples|
        && EstimateEpoch(curve, arch, median).t0 == lc.samples[k].time + TimeOffset(lc.format)
        && (forall j :: 0 <= j < |sm| ==> sm[k] <= sm[j])
        && (forall j :: 0 <= j < k ==> sm[j] > sm[k])
  {
    var lc := FlattenOrNormalize(curve, arch);
    var sm := median(Fluxes(lc), SmoothingWindow(|lc.samples|));
    var k := FirstMinIndex(sm);
    assert EstimateEpoch(curve, arch, median).t0 == lc.samples[k].time + TimeOffset(lc.format);
  }

  /** Without smoothing (an identity median), the estimate is the time of
      the first sample of least flux. */
  lemma IdentitySmootherPicksLeastFlux(curve: LightCurve, arch: Archive)
    requires FlattenOrNormalize(curve, arch).samples != []
    ensures
      var lc := FlattenOrNormalize(curve, arch);
      var r := EstimateEpoch(curve, arch, (s: seq<real>, w: nat) => s);
      r.Estimated?
      && (exists k :: 0 <= k < |lc.samples| && r.t0 == ToCommon(lc.samples[k].time, lc.format)
           && forall j :: 0 <= j < |lc.samples| ==> lc.samples[k].flux <= lc.samples[j].flux)
  {
    var lc := FlattenOrNormalize(curve, arch);
    var k := FirstMinIndex(Fluxes(lc));
    assert forall j :: 0 <= j < |lc.samples| ==> Fluxes(lc)[j] == lc.samples[j].flux;
  }
}
