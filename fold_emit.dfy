/**
 * Fold-and-emit (`fold_plot_save`): shift the catalog epoch into the light
 * curve's own time frame, fold, derive the plot's half-window from the
 * transit duration, save the plot, then the folded table, then one manifest
 * line. Any step may raise and abort the rest; what was already written
 * stays written. The fold, the plot and the table writer are library code:
 * whether and where they raise is an input, and the file contents are not
 * modelled, only which files exist.
 */
module FoldEmit {
  import opened Common
  import opened TimeFrame
  import opened Names
  import opened Journal

  const DefaultHalfWindow: real := 0.15
  const MaxHalfWindow: real := 0.5
  const ZeroDivision: string := "ZeroDivisionError('float division by zero')"

  /**
   * `half_win` as the source computes it, in units of the orbital period:
   * `min(0.5, 3 * (dur_hr / 24 / P_day))` for a known duration, 0.15
   * otherwise. None stands for the ZeroDivisionError of a zero period.
   */
  function HalfWindow(period: real, duration: Option<real>): (r: Option<real>)
    ensures r.None? <==> duration.Some? && period == 0.0
    ensures duration.None? ==> r == Some(DefaultHalfWindow)
    ensures r.Some? ==> r.value <= MaxHalfWindow
    ensures duration.Some? && period != 0.0 ==>
      r.value <= 3.0 * (duration.value / 24.0 / period)
      && (r.value == MaxHalfWindow || r.value == 3.0 * (duration.value / 24.0 / period))
  {
    match duration
    case None => Some(DefaultHalfWindow)
    case Some(d) =>
      if period == 0.0 then None
      else
        var w := 3.0 * (d / 24.0 / period);
        Some(if MaxHalfWindow < w then MaxHalfWindow else w)
  }

  /** Four hours on a ten-day orbit give a half-window of 0.05. */
  lemma HalfWindowExample()
    ensures HalfWindow(10.0, Some(4.0)) == Some(0.05)
    ensures HalfWindow(10.0, None) == Some(0.15)
  {
  }

  /** A real transit on a real orbit gives a proper window of at most half
      the phase. */
  lemma HalfWindowBounds(period: real, hours: real)
    requires period > 0.0 && hours > 0.0
    ensures HalfWindow(period, Some(hours)).Some?
    ensures 0.0 < HalfWindow(period, Some(hours)).value <= MaxHalfWindow
  {
  }

  /**
   * As written, the half-window is a fraction of the period but bounds an
   * axis the source labels in days (`phase_day`). Once the orbit is longer
   * than six days it is narrower than half the transit itself, so the plot
   * cuts off ingress and egress: four hours on a ten-day orbit give +-0.05
   * days around a transit that lasts +-0.083 days.
   */
  lemma WrittenWindowCutsTransit(period: real, hours: real)
    requires period > 6.0 && hours > 0.0
    ensures HalfWindow(period, Some(hours)).value < hours / 24.0 / 2.0
  {
    var x := hours / 24.0 / period;
    assert x > 0.0;
    assert x * period == hours / 24.0;
    assert x * (period - 6.0) > 0.0;
  }

  lemma WrittenWindowExample()
    ensures HalfWindow(10.0, Some(4.0)).value < 4.0 / 24.0 / 2.0
  {
    WrittenWindowCutsTransit(10.0, 4.0);
  }

  /** The corrected half-window, in days: three transit durations as a
      fraction of the period, scaled back to days by the period. The plot
      the pipeline writes does not use it (see `WrittenWindowCutsTransit`);
      it is the definition the as-written window is measured against. */
  function PlotHalfWindow(period: real, duration: Option<real>): (r: Option<real>)
    ensures r.Some? <==> HalfWindow(period, duration).Some?
    ensures r.Some? ==> r.value == HalfWindow(period, duration).value * period
  {
    match HalfWindow(period, duration)
    case None => None
    case Some(h) => Some(h * period)
  }

  /** The scaled window shows the whole transit whenever the transit fits in
      the orbit, and never more than half an orbit to either side. */
  lemma PlotHalfWindowCoversTransit(period: real, hours: real)
    requires period > 0.0 && hours > 0.0 && hours / 24.0 <= period
    ensures PlotHalfWindow(period, Some(hours)).value >= hours / 24.0 / 2.0
    ensures PlotHalfWindow(period, Some(hours)).value <= period / 2.0
  {
    var d := hours / 24.0;
    assert 3.0 * (d / period) * period == 3.0 * d;
  }

  /** Where `fold_plot_save` raises, if it does: in the fold, in the plotting
      and saving of the figure, in the table writer, or in the manifest
      append. A raise inside one overlay's plot is swallowed and is not a
      fault here. */
  datatype EmitFault =
    | NoFault
    | FoldFault(error: string)
    | PlotFault(error: string)
    | CsvFault(error: string)
    | ManifestFault(error: string)

  /** The manifest line of a completed target. */
  function ManifestFor(planet: string, host: string, period: real, t0: real, lc: LightCurve,
                       mission: string, author: string): (m: ManifestEntry)
    ensures m.png == PngName(planet) && m.csv == CsvName(planet)
    ensures m.t0Bjd - m.timeOffsetApplied == ToNative(t0, lc.format)
  {
    ManifestEntry(planet, host, period, t0, TimeOffset(lc.format), mission, author,
                  PngName(planet), CsvName(planet))
  }

  /** What one call leaves behind: the exception text if it raised, the
      x-limit the plot was saved with (the fraction `half_win`, put on an
      axis in days), which files it wrote, and the manifest line if it got
      that far. */
  datatype Emission = Emission(
    error: Option<string>, window: Option<real>, png: bool, csv: bool, manifest: Option<ManifestEntry>)

  function EmitSpec(planet: string, host: string, period: real, t0: real, duration: Option<real>,
                    lc: LightCurve, mission: string, author: string, fault: EmitFault): (e: Emission)
    ensures e.manifest.Some? <==> e.error.None?
    ensures e.error.None? <==> fault.NoFault? && HalfWindow(period, duration).Some?
    ensures e.manifest.Some? ==> e.manifest.value == ManifestFor(planet, host, period, t0, lc, mission, author)
    ensures e.csv ==> e.png
    ensures e.png <==> e.window.Some?
    ensures e.window.Some? ==> e.window == HalfWindow(period, duration)
    ensures e.error.None? ==> e.png && e.csv
    ensures fault.FoldFault? ==> e == Emission(Some(fault.error), None, false, false, None)
    ensures !fault.FoldFault? && HalfWindow(period, duration).None? ==>
      e == Emission(Some(ZeroDivision), None, false, false, None)
  {
    if fault.FoldFault? then Emission(Some(fault.error), None, false, false, None)
    else if HalfWindow(period, duration).None? then Emission(Some(ZeroDivision), None, false, false, None)
    else if fault.PlotFault? then Emission(Some(fault.error), None, false, false, None)
    else
      var w := HalfWindow(period, duration);
      if fault.CsvFault? then Emission(Some(fault.error), w, true, false, None)
      else if fault.ManifestFault? then Emission(Some(fault.error), w, true, true, None)
      else Emission(None, w, true, true, Some(ManifestFor(planet, host, period, t0, lc, mission, author)))
  }

  /** The workspace after an emission: the files it wrote added, the
      manifest line appended. */
  function AfterEmit(s: Snapshot, planet: string, e: Emission): Snapshot {
    s.(pngs := if e.png then s.pngs + {PngName(planet)} else s.pngs,
       csvs := if e.csv then s.csvs + {CsvName(planet)} else s.csvs,
       manifest := s.manifest + (if e.manifest.Some? then [e.manifest.value] else []))
  }

  /** The emission once the fold and the plot have succeeded, by where the
      rest of `fold_plot_save` raises. */
  lemma EmitCases(planet: string, host: string, period: real, t0: real, duration: Option<real>,
                  lc: LightCurve, mission: string, author: string, fault: EmitFault)
    ensures var e := EmitSpec(planet, host, period, t0, duration, lc, mission, author, fault);
      var w := HalfWindow(period, duration);
      w.Some? && (fault.NoFault? || fault.CsvFault? || fault.ManifestFault?) ==>
        e.window == w && e.png
        && (e.csv <==> !fault.CsvFault?)
        && (e.error.None? <==> fault.NoFault?)
        && (e.error.Some? ==> e.error.value == fault.error)
        && (e.manifest.Some? ==> e.manifest.value == ManifestFor(planet, host, period, t0, lc, mission, author))
  {
  }

  /** `fold_plot_save(planet, host, P_day, t0_bjd, dur_hr, lc, mission, author)`:
      returns the exception text if it raised, and the x-limit of the saved
      plot. */
  method Emit(ws: Workspace, planet: string, host: string, period: real, t0: real, duration: Option<real>,
              lc: LightCurve, mission: string, author: string, fault: EmitFault)
    returns (error: Option<string>, window: Option<real>)
    modifies ws
    ensures error == EmitSpec(planet, host, period, t0, duration, lc, mission, author, fault).error
    ensures window == EmitSpec(planet, host, period, t0, duration, lc, mission, author, fault).window
    ensures ws.State() ==
      AfterEmit(old(ws.State()), planet, EmitSpec(planet, host, period, t0, duration, lc, mission, author, fault))
  {
    ghost var s0 := ws.State();
    ghost var e := EmitSpec(planet, host, period, t0, duration, lc, mission, author, fault);
    EmitCases(planet, host, period, t0, duration, lc, mission, author, fault);
    var offset := TimeOffset(lc.format);
    var epoch := t0 - offset;
    if fault.FoldFault? {
      return Some(fault.error), None;
    }
    var half := HalfWindow(period, duration);
    if half.None? {
      return Some(ZeroDivision), None;
    }
    if fault.PlotFault? {
      return Some(fault.error), None;
    }
    window := half;
    ws.WritePng(PngName(planet));
    ghost var s1 := s0.(pngs := s0.pngs + {PngName(planet)});
    assert ws.State() == s1;
    if fault.CsvFault? {
      assert AfterEmit(s0, planet, e) == s1;
      return Some(fault.error), window;
    }
    ws.WriteCsv(CsvName(planet));
    ghost var s2 := s1.(csvs := s1.csvs + {CsvName(planet)});
    assert ws.State() == s2;
    if fault.ManifestFault? {
      assert AfterEmit(s0, planet, e) == s2;
      return Some(fault.error), window;
    }
    var line := ManifestEntry(planet, host, period, epoch + offset, offset, mission, author,
                              PngName(planet), CsvName(planet));
    assert line == ManifestFor(planet, host, period, t0, lc, mission, author);
    ws.SaveManifest(line);
    assert AfterEmit(s0, planet, e) == s2.(manifest := s2.manifest + [line]);
    error := None;
  }

  /** A completed emission makes the target count as done. */
  lemma EmitSuccessMeansDone(s: Snapshot, planet: string, host: string, period: real, t0: real,
                             duration: Option<real>, lc: LightCurve, mission: string, author: string)
    requires HalfWindow(period, duration).Some?
    ensures
      var s' := AfterEmit(s, planet, EmitSpec(planet, host, period, t0, duration, lc, mission, author, NoFault));
      AlreadyDone(planet, s'.pngs, s'.csvs) && |s'.manifest| == |s.manifest| + 1
  {
    WrittenMeansDone(planet, s.pngs, s.csvs);
  }

  /** A raise before the table is written leaves a target whose table is
      missing not done, so a later attempt or run redoes it. */
  lemma EarlyFaultNotDone(s: Snapshot, planet: string, host: string, period: real, t0: real,
                          duration: Option<real>, lc: LightCurve, mission: string, author: string,
                          fault: EmitFault)
    requires CsvName(planet) !in s.csvs
    requires !fault.NoFault? && !fault.ManifestFault?
    ensures
      var s' := AfterEmit(s, planet, EmitSpec(planet, host, period, t0, duration, lc, mission, author, fault));
      !AlreadyDone(planet, s'.pngs, s'.csvs) && s'.manifest == s.manifest
  {
  }

  /** A raise in the manifest append comes after both files: the target
      counts as done, so no later run writes its manifest line. */
  lemma ManifestFaultLooksDone(s: Snapshot, planet: string, host: string, period: real, t0: real,
                               duration: Option<real>, lc: LightCurve, mission: string, author: string,
                               error: string)
    requires HalfWindow(period, duration).Some?
    ensures
      var s' := AfterEmit(s, planet, EmitSpec(planet, host, period, t0, duration, lc, mission, author, ManifestFault(error)));
      AlreadyDone(planet, s'.pngs, s'.csvs) && s'.manifest == s.manifest
  {
    var e := EmitSpec(planet, host, period, t0, duration, lc, mission, author, ManifestFault(error));
    assert e.png && e.csv && e.manifest.None?;
    WrittenMeansDone(planet, s.pngs, s.csvs);
  }

  /** The plot `fold_plot_save` saves for a period over six days shows less
      than half the transit on either side of the epoch: the x-limit is the
      fraction `half_win`, read as days. */
  lemma SavedPlotCutsTransit(planet: string, host: string, period: real, t0: real, hours: real,
                             lc: LightCurve, mission: string, author: string, fault: EmitFault)
    requires period > 6.0 && hours > 0.0
    ensures var e := EmitSpec(planet, host, period, t0, Some(hours), lc, mission, author, fault);
      e.window.Some? ==> e.window.value < hours / 24.0 / 2.0
  {
    WrittenWindowCutsTransit(period, hours);
  }
}
