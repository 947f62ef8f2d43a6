/**
 * The per-target worker `process_one(row)`: skip a target whose outputs
 * exist; normalise its parameters; ask the archive for missing period or
 * epoch; estimate a still-missing epoch from a light curve; give up when
 * period or epoch is still missing; otherwise acquire a curve and emit,
 * retrying up to three times with exponential backoff. Every path ends in
 * exactly one terminal log line and a status.
 *
 * The external world a call sees is an input: the archive's answer to the
 * parameter query, the services the epoch estimate uses, and, per attempt,
 * the services the acquirer uses and where the emission raises.
 */
module Worker {
  import opened Common
  import opened Names
  import opened Values
  import opened Journal
  import opened Acquirer
  import opened EpochEstimator
  import opened FoldEmit

  const Retry: nat := 3
  const RetryBaseSleep: real := 2.0

  function Pow2(k: nat): (r: nat)
    ensures r >= 1
  {
    if k == 0 then 1 else 2 * Pow2(k - 1)
  }

  /** `RETRY_BASE_SLEEP * (2 ** attempt)`. */
  function Backoff(k: nat): (r: real)
    ensures r >= RetryBaseSleep
  {
    RetryBaseSleep * (Pow2(k) as real)
  }

  /** The sleeps after failed attempts `k`, `k + 1`, ... up to the last. */
  function BackoffsFrom(k: nat): (r: seq<real>)
    ensures |r| == if k < Retry then Retry - k else 0
    decreases Retry - k
  {
    if k >= Retry then [] else [Backoff(k)] + BackoffsFrom(k + 1)
  }

  /** Three attempts, sleeping 2, 4 and 8 seconds after the failed ones. */
  lemma BackoffSchedule()
    ensures BackoffsFrom(0) == [2.0, 4.0, 8.0]
  {
    assert Pow2(1) == 2 && Pow2(2) == 4;
  }

  /** One attempt's world: the services the acquirer sees and where the
      emission raises. */
  datatype Attempt = Attempt(archive: Archive, fault: EmitFault)

  datatype World = World(
    catalog: Catalog,
    estimateArchive: Archive,
    median: RollingMedian,
    attempt: nat -> Attempt)

  /** The target's planet name and host as `process_one` derives them: both
      stripped, the host defaulting to the planet name when absent. */
  function Planet(row: Row): string {
    StripSpaces(row.plName)
  }

  function Host(row: Row): (h: string)
    ensures row.hostname.None? ==> h == Planet(row)
  {
    match row.hostname
    case None => Planet(row)
    case Some(n) => StripSpaces(n)
  }

  datatype Params = Params(period: Option<real>, t0: Option<real>, duration: Option<real>)

  /** The row's three values, in days, days and hours. */
  function FromRow(row: Row): Params {
    Params(SafeValue(row.orbper, Day), SafeValue(row.tranmid, Day), SafeValue(row.trandur, Hour))
  }

  /** Fill each missing value from the archive's row; a known value is kept
      even when the archive disagrees. */
  function Backfill(p: Params, r: Row): (q: Params)
    ensures p.period.Some? ==> q.period == p.period
    ensures p.t0.Some? ==> q.t0 == p.t0
    ensures p.duration.Some? ==> q.duration == p.duration
    ensures p.period.None? ==> q.period == SafeValue(r.orbper, Day)
    ensures p.t0.None? ==> q.t0 == SafeValue(r.tranmid, Day)
    ensures p.duration.None? ==> q.duration == SafeValue(r.trandur, Hour)
  {
    Params(
      if p.period.None? then SafeValue(r.orbper, Day) else p.period,
      if p.t0.None? then SafeValue(r.tranmid, Day) else p.t0,
      if p.duration.None? then SafeValue(r.trandur, Hour) else p.duration)
  }

  /** A state of the workspace together with the worker's values so far. */
  datatype Resolved = Resolved(state: Snapshot, params: Params)

  function Log(s: Snapshot, entries: seq<LogEntry>): Snapshot {
    s.(log := s.log + entries)
  }

  /** Step 1: query the archive by name when period or epoch is missing. */
  function ResolveSpec(s: Snapshot, planet: string, p: Params, catalog: Catalog): (r: Resolved)
    ensures p.period.Some? && p.t0.Some? ==> r == Resolved(s, p)
    ensures r.state.(log := s.log) == s
    ensures r.state.log == s.log
         || (catalog(WhereClause(planet)).QueryRaised?
             && r.state.log == s.log + [FetchParamsError(planet, catalog(WhereClause(planet)).error)])
  {
    if p.period.Some? && p.t0.Some? then Resolved(s, p)
    else
      match catalog(WhereClause(planet))
      case QueryRaised(e) => Resolved(Log(s, [FetchParamsError(planet, e)]), p)
      case NoRows => Resolved(s, p)
      case FirstRow(r) => Resolved(s, Backfill(p, r))
  }

  /** Step 2: with a period but no epoch, estimate the epoch from the curve
      the acquirer returns; `t` is what the acquirer does when called, and
      it is called only in that case. */
  function EstimateSpec(s: Snapshot, planet: string, p: Params, t: AcqTrace, arch: Archive,
                        median: RollingMedian): (r: Resolved)
    ensures !(p.period.Some? && p.t0.None?) ==> r == Resolved(s, p)
    ensures r.params.period == p.period && r.params.duration == p.duration
    ensures p.t0.Some? ==> r.params.t0 == p.t0
    ensures r.state.(log := s.log) == s
  {
    if p.period.Some? && p.t0.None? then
      var s1 := Log(s, t.log);
      match t.result
      case NotFound => Resolved(s1, p)
      case Found(curve, m, a) =>
        match EstimateEpoch(curve, arch, median)
        case Estimated(t0) => Resolved(Log(s1, [EstimatedT0(planet, t0, m, a)]), p.(t0 := Some(t0)))
        case EstimateFailed(e) => Resolved(Log(s1, [EstimateT0Failed(planet, e)]), p)
    else Resolved(s, p)
  }

  /** What the parameter query leaves: a row with period and epoch is not
      queried; otherwise the archive's first row fills the missing values,
      no rows leave them missing, and a raised query leaves them missing and
      logs its error. */
  lemma ResolveOutcome(s: Snapshot, planet: string, p: Params, catalog: Catalog)
    ensures var r := ResolveSpec(s, planet, p, catalog);
      var reply := catalog(WhereClause(planet));
      !(p.period.Some? && p.t0.Some?) ==>
        (reply.FirstRow? ==> r == Resolved(s, Backfill(p, reply.row)))
        && (reply.NoRows? ==> r == Resolved(s, p))
        && (reply.QueryRaised? ==> r == Resolved(Log(s, [FetchParamsError(planet, reply.error)]), p))
  {
  }

  /** What the estimate leaves when it runs: no curve leaves the epoch
      missing with only the acquirer's lines logged; an estimate becomes the
      epoch and is logged with its provenance; a failed estimate leaves the
      epoch missing and logs `estimate_t0_failed` with its error. */
  lemma EstimateOutcome(s: Snapshot, planet: string, p: Params, t: AcqTrace, arch: Archive,
                        median: RollingMedian)
    requires p.period.Some? && p.t0.None?
    ensures var r := EstimateSpec(s, planet, p, t, arch, median);
      (t.result.NotFound? ==> r == Resolved(Log(s, t.log), p))
      && (t.result.Found? ==>
        var est := EstimateEpoch(t.result.curve, arch, median);
        (est.Estimated? ==>
           r.params == p.(t0 := Some(est.t0))
           && r.state.log == s.log + t.log + [EstimatedT0(planet, est.t0, t.result.mission, t.result.author)])
        && (est.EstimateFailed? ==>
           r.params == p && r.state.log == s.log + t.log + [EstimateT0Failed(planet, est.error)]))
  {
  }

  /** An empty curve gives no epoch: the target keeps its epoch missing and
      the log records `estimate_t0_failed`. */
  lemma EmptyCurveLeavesEpochMissing(s: Snapshot, planet: string, p: Params, t: AcqTrace, arch: Archive,
                                     median: RollingMedian)
    requires p.period.Some? && p.t0.None? && t.result.Found?
    requires FlattenOrNormalize(t.result.curve, arch).samples == []
    ensures var r := EstimateSpec(s, planet, p, t, arch, median);
      r.params.t0.None?
      && r.state.log == s.log + t.log + [EstimateT0Failed(planet, EstimateEpoch(t.result.curve, arch, median).error)]
  {
    EstimateOutcome(s, planet, p, t, arch, median);
  }

  /** Steps 1 and 2 together, `t` being what the acquirer does if called. */
  function PrepareWith(s: Snapshot, row: Row, w: World, t: AcqTrace): (r: Resolved)
    ensures r.state.(log := s.log) == s
  {
    var r1 := ResolveSpec(s, Planet(row), FromRow(row), w.catalog);
    EstimateSpec(r1.state, Planet(row), r1.params, t, w.estimateArchive, w.median)
  }

  function Prepare(s: Snapshot, row: Row, w: World): (r: Resolved)
    ensures r.state.(log := s.log) == s
  {
    PrepareWith(s, row, w, Acquire(Host(row), w.estimateArchive))
  }

  /** A target with all it needs for the emission. */
  datatype Job = Job(planet: string, host: string, period: real, t0: real, duration: Option<real>)

  datatype Step = Step(state: Snapshot, outcome: Outcome)

  /** How one attempt ends: with a status (no data, or ok), or with the text
      of the exception that makes the worker retry. */
  datatype AttemptEnd = Finished(outcome: Outcome) | Failed(error: string)

  datatype AttemptStep = AttemptStep(state: Snapshot, end: AttemptEnd)

  /** One pass of the retry loop's body, `t` being what the acquirer does in
      it and `fault` where the emission raises. */
  function AttemptOnce(s: Snapshot, job: Job, t: AcqTrace, fault: EmitFault): (r: AttemptStep)
    ensures r.state.slept == s.slept
  {
    var s1 := Log(s, t.log);
    match t.result
    case NotFound => AttemptStep(Log(s1, [Terminal(job.planet, NoData, NoDetail)]), Finished(NoData))
    case Found(curve, m, au) =>
      var e := EmitSpec(job.planet, job.host, job.period, job.t0, job.duration, curve, m, au, fault);
      var s2 := AfterEmit(s1, job.planet, e);
      if e.error.None? then AttemptStep(Log(s2, [Terminal(job.planet, Ok, Provenance(m, au))]), Finished(Ok))
      else AttemptStep(s2, Failed(e.error.value))
  }

  /** What attempt `k` does from a given workspace. */
  type AttemptFn = (Snapshot, nat) -> AttemptStep

  function Attempts(job: Job, w: World): AttemptFn {
    (s: Snapshot, k: nat) => AttemptOnce(s, job, Acquire(job.host, w.attempt(k).archive), w.attempt(k).fault)
  }

  /** Step 4, the retry loop from attempt `k` on, `lastErr` being the text of
      the last failure: an attempt that ends the target ends the loop; a
      failed one is followed by a sleep; after the last the target is an
      error. */
  function RetryFrom(s: Snapshot, planet: string, step: AttemptFn, k: nat, lastErr: Option<string>): Step
    decreases Retry - k
  {
    if k >= Retry then Step(Log(s, [Terminal(planet, Error, LastError(lastErr))]), Error)
    else
      var r := step(s, k);
      match r.end
      case Finished(o) => Step(r.state, o)
      case Failed(e) => RetryFrom(r.state.(slept := r.state.slept + [Backoff(k)]), planet, step, k + 1, Some(e))
  }

  /** Steps 3 and 4, once the values are resolved: give up without period
      or epoch, otherwise run the retry loop. */
  function Dispatch(r: Resolved, planet: string, host: string, w: World): Step {
    var p := r.params;
    if p.period.None? || p.t0.None? then
      Step(Log(r.state, [Terminal(planet, SkipMissingParams, NoDetail)]), SkipMissingParams)
    else
      RetryFrom(r.state, planet, Attempts(Job(planet, host, p.period.value, p.t0.value, p.duration), w), 0, None)
  }

  /** `process_one(row)` as a function of the workspace before it. */
  function WorkerRun(s: Snapshot, row: Row, w: World): Step {
    var planet := Planet(row);
    if AlreadyDone(planet, s.pngs, s.csvs) then
      Step(Log(s, [Terminal(planet, SkipExists, NoDetail)]), SkipExists)
    else
      Dispatch(Prepare(s, row, w), planet, Host(row), w)
  }

  // -----------------------------------------------------------------------
  // What every run guarantees.

  /** A log tail that ends in the one terminal line of `planet` with status
      `o`, every earlier line being a non-terminal one. */
  predicate EndsInTerminal(added: seq<LogEntry>, planet: string, o: Outcome) {
    added != []
    && added[|added| - 1].Terminal? && added[|added| - 1].planet == planet && added[|added| - 1].outcome == o
    && forall i :: 0 <= i < |added| - 1 ==> !added[i].Terminal?
  }

  predicate NoTerminal(added: seq<LogEntry>) {
    forall e :: e in added ==> !e.Terminal?
  }

  lemma AcquireNoTerminal(host: string, arch: Archive)
    ensures NoTerminal(Acquire(host, arch).log)
  {
    AcquireLogSoft(host, arch, 0);
  }

  /** Lines without a terminal one, followed by lines ending in a terminal
      one, end in that terminal line overall. */
  lemma EndsAfterNoTerminal(pre: seq<LogEntry>, added: seq<LogEntry>, planet: string, o: Outcome)
    requires NoTerminal(pre) && EndsInTerminal(added, planet, o)
    ensures EndsInTerminal(pre + added, planet, o)
  {
    var all := pre + added;
    forall i | 0 <= i < |all| - 1
      ensures !all[i].Terminal?
    {
      if i < |pre| {
        assert all[i] in pre;
      } else {
        assert all[i] == added[i - |pre|];
      }
    }
  }

  /** A log extended first by non-terminal lines, then by lines ending in
      a terminal one, ends in that terminal line overall. */
  lemma EndsAfterTwoSteps(a: seq<LogEntry>, b: seq<LogEntry>, c: seq<LogEntry>, planet: string, o: Outcome)
    requires a <= b && NoTerminal(b[|a|..])
    requires b <= c && EndsInTerminal(c[|b|..], planet, o)
    ensures a <= c && EndsInTerminal(c[|a|..], planet, o)
  {
    assert c[|a|..] == b[|a|..] + c[|b|..];
    EndsAfterNoTerminal(b[|a|..], c[|b|..], planet, o);
  }

  /** The log an attempt leaves: non-terminal lines, then the terminal line
      if the attempt ended the target. */
  predicate AttemptLogShape(s: Snapshot, r: AttemptStep, planet: string) {
    s.log <= r.state.log
    && (r.end.Finished? ==> EndsInTerminal(r.state.log[|s.log|..], planet, r.end.outcome))
    && (r.end.Failed? ==> NoTerminal(r.state.log[|s.log|..]))
  }

  /** The outputs an attempt leaves: files only added, and the planet's
      manifest line exactly when it ends ok. */
  predicate AttemptOutputShape(s: Snapshot, r: AttemptStep, planet: string) {
    s.pngs <= r.state.pngs && s.csvs <= r.state.csvs
    && (r.end.Finished? ==> r.end.outcome == Ok || r.end.outcome == NoData)
    && (r.end == Finished(Ok) ==>
          s.manifest <= r.state.manifest && |r.state.manifest| == |s.manifest| + 1
          && r.state.manifest[|s.manifest|].planet == planet
          && PngName(planet) in r.state.pngs && CsvName(planet) in r.state.csvs)
    && (r.end != Finished(Ok) ==> r.state.manifest == s.manifest)
  }

  lemma AttemptLog(s: Snapshot, job: Job, t: AcqTrace, fault: EmitFault)
    requires NoTerminal(t.log)
    ensures AttemptLogShape(s, AttemptOnce(s, job, t, fault), job.planet)
  {
    var r := AttemptOnce(s, job, t, fault);
    match t.result
    case NotFound =>
      var last := [Terminal(job.planet, NoData, NoDetail)];
      assert s.log + t.log + last == s.log + (t.log + last);
      assert (s.log + t.log + last)[|s.log|..] == t.log + last;
      EndsAfterNoTerminal(t.log, last, job.planet, NoData);
    case Found(curve, m, au) =>
      var e := EmitSpec(job.planet, job.host, job.period, job.t0, job.duration, curve, m, au, fault);
      assert AfterEmit(Log(s, t.log), job.planet, e).log == s.log + t.log;
      if e.error.None? {
        var last := [Terminal(job.planet, Ok, Provenance(m, au))];
        assert s.log + t.log + last == s.log + (t.log + last);
        assert (s.log + t.log + last)[|s.log|..] == t.log + last;
        EndsAfterNoTerminal(t.log, last, job.planet, Ok);
      } else {
        assert (s.log + t.log)[|s.log|..] == t.log;
      }
  }

  lemma AttemptOutputs(s: Snapshot, job: Job, t: AcqTrace, fault: EmitFault)
    ensures AttemptOutputShape(s, AttemptOnce(s, job, t, fault), job.planet)
  {
  }

  /** Every attempt of a job, from every workspace, has both shapes. */
  lemma AttemptsShape(job: Job, w: World)
    ensures forall s, k :: AttemptLogShape(s, Attempts(job, w)(s, k), job.planet)
    ensures forall s, k :: AttemptOutputShape(s, Attempts(job, w)(s, k), job.planet)
    ensures forall s, k :: Attempts(job, w)(s, k).state.slept == s.slept
  {
    forall s: Snapshot, k: nat
      ensures AttemptLogShape(s, Attempts(job, w)(s, k), job.planet)
      ensures AttemptOutputShape(s, Attempts(job, w)(s, k), job.planet)
      ensures Attempts(job, w)(s, k).state.slept == s.slept
    {
      AcquireNoTerminal(job.host, w.attempt(k).archive);
      AttemptLog(s, job, Acquire(job.host, w.attempt(k).archive), w.attempt(k).fault);
      AttemptOutputs(s, job, Acquire(job.host, w.attempt(k).archive), w.attempt(k).fault);
    }
  }

  /** The retry loop appends log lines ending in exactly one terminal line. */
  lemma {:induction false} RetryLog(s: Snapshot, planet: string, step: AttemptFn, k: nat, lastErr: Option<string>)
    requires forall s', j :: AttemptLogShape(s', step(s', j), planet)
    ensures
      var r := RetryFrom(s, planet, step, k, lastErr);
      s.log <= r.state.log && EndsInTerminal(r.state.log[|s.log|..], planet, r.outcome)
    decreases Retry - k
  {
    var r := RetryFrom(s, planet, step, k, lastErr);
    if k >= Retry {
      assert r.state.log[|s.log|..] == [Terminal(planet, Error, LastError(lastErr))];
    } else {
      var at := step(s, k);
      assert AttemptLogShape(s, at, planet);
      if at.end.Failed? {
        var s3 := at.state.(slept := at.state.slept + [Backoff(k)]);
        RetryLog(s3, planet, step, k + 1, Some(at.end.error));
        EndsAfterTwoSteps(s.log, s3.log, r.state.log, planet, r.outcome);
      }
    }
  }

  /** One more sleep `x` in front of a run of sleeps that is a prefix of
      `b`, and all of `b` exactly when `e`. */
  lemma SleepStep(a: seq<real>, x: real, all: seq<real>, b: seq<real>, e: bool)
    requires a + [x] <= all
    requires all[|a| + 1..] <= b
    requires e <==> all[|a| + 1..] == b
    ensures a <= all
    ensures all[|a|..] <= [x] + b
    ensures e <==> all[|a|..] == [x] + b
  {
    var rest := all[|a| + 1..];
    assert all[|a|] == (a + [x])[|a|] == x;
    assert all[|a|..] == [x] + rest;
    assert ([x] + rest)[1..] == rest && ([x] + b)[1..] == b;
  }

  /** The retry loop sleeps 2, 4, 8 seconds after successive failures, all
      of them exactly when it gives up with error. */
  lemma {:induction false} RetrySleeps(s: Snapshot, planet: string, step: AttemptFn, k: nat, lastErr: Option<string>)
    requires forall s', j :: step(s', j).state.slept == s'.slept
    requires forall s', j :: step(s', j).end.Finished? ==> step(s', j).end.outcome != Error
    ensures
      var r := RetryFrom(s, planet, step, k, lastErr);
      s.slept <= r.state.slept
      && r.state.slept[|s.slept|..] <= BackoffsFrom(k)
      && (r.outcome == Error <==> r.state.slept[|s.slept|..] == BackoffsFrom(k))
    decreases Retry - k
  {
    var r := RetryFrom(s, planet, step, k, lastErr);
    if k >= Retry {
      assert r.state.slept == s.slept;
    } else {
      var at := step(s, k);
      assert BackoffsFrom(k) == [Backoff(k)] + BackoffsFrom(k + 1);
      if at.end.Failed? {
        var s3 := at.state.(slept := at.state.slept + [Backoff(k)]);
        RetrySleeps(s3, planet, step, k + 1, Some(at.end.error));
        assert r == RetryFrom(s3, planet, step, k + 1, Some(at.end.error));
        SleepStep(s.slept, Backoff(k), r.state.slept, BackoffsFrom(k + 1), r.outcome == Error);
      } else {
        assert r.outcome != Error;
        assert r.state.slept[|s.slept|..] == [];
      }
    }
  }

  /** The retry loop only adds files, and adds one manifest line, for its
      planet, exactly when it returns ok; the planet then counts as done. */
  lemma {:induction false} RetryOutputs(s: Snapshot, planet: string, step: AttemptFn, k: nat, lastErr: Option<string>)
    requires forall s', j :: AttemptOutputShape(s', step(s', j), planet)
    ensures
      var r := RetryFrom(s, planet, step, k, lastErr);
      s.pngs <= r.state.pngs && s.csvs <= r.state.csvs
      && r.outcome in {Ok, NoData, Error}
      && (r.outcome == Ok ==>
            s.manifest <= r.state.manifest && |r.state.manifest| == |s.manifest| + 1
            && r.state.manifest[|s.manifest|].planet == planet && AlreadyDone(planet, r.state.pngs, r.state.csvs))
      && (r.outcome != Ok ==> r.state.manifest == s.manifest)
    decreases Retry - k
  {
    if k < Retry {
      var at := step(s, k);
      assert AttemptOutputShape(s, at, planet);
      if at.end.Failed? {
        var s3 := at.state.(slept := at.state.slept + [Backoff(k)]);
        RetryOutputs(s3, planet, step, k + 1, Some(at.end.error));
      }
    }
  }

  lemma NoTerminalAppend(a: seq<LogEntry>, b: seq<LogEntry>)
    requires NoTerminal(a) && NoTerminal(b)
    ensures NoTerminal(a + b)
  {
  }

  /** The estimate appends the acquirer's lines and at most one record of its
      own, never a terminal line. */
  lemma EstimateLog(s: Snapshot, planet: string, p: Params, t: AcqTrace, arch: Archive, median: RollingMedian)
    requires NoTerminal(t.log)
    ensures
      var r := EstimateSpec(s, planet, p, t, arch, median);
      s.log <= r.state.log && NoTerminal(r.state.log[|s.log|..])
  {
    var r := EstimateSpec(s, planet, p, t, arch, median);
    if p.period.Some? && p.t0.None? {
      match t.result
      case NotFound =>
        assert r.state.log[|s.log|..] == t.log;
      case Found(curve, m, a) =>
        match EstimateEpoch(curve, arch, median)
        case Estimated(t0) =>
          assert r.state.log[|s.log|..] == t.log + [EstimatedT0(planet, t0, m, a)];
          NoTerminalAppend(t.log, [EstimatedT0(planet, t0, m, a)]);
        case EstimateFailed(e) =>
          assert r.state.log[|s.log|..] == t.log + [EstimateT0Failed(planet, e)];
          NoTerminalAppend(t.log, [EstimateT0Failed(planet, e)]);
    } else {
      assert r.state.log[|s.log|..] == [];
    }
  }

  /** The parameter query appends at most its error record. */
  lemma ResolveLog(s: Snapshot, planet: string, p: Params, catalog: Catalog)
    ensures
      var r := ResolveSpec(s, planet, p, catalog);
      s.log <= r.state.log && NoTerminal(r.state.log[|s.log|..])
  {
    var r := ResolveSpec(s, planet, p, catalog);
    if r.state.log != s.log {
      assert r.state.log[|s.log|..] == [FetchParamsError(planet, catalog(WhereClause(planet)).error)];
    } else {
      assert r.state.log[|s.log|..] == [];
    }
  }

  /** Resolving and estimating only append non-terminal log lines. */
  lemma PrepareWithLog(s: Snapshot, row: Row, w: World, t: AcqTrace)
    requires NoTerminal(t.log)
    ensures s.log <= PrepareWith(s, row, w, t).state.log
    ensures NoTerminal(PrepareWith(s, row, w, t).state.log[|s.log|..])
  {
    var r1 := ResolveSpec(s, Planet(row), FromRow(row), w.catalog);
    ResolveLog(s, Planet(row), FromRow(row), w.catalog);
    EstimateLog(r1.state, Planet(row), r1.params, t, w.estimateArchive, w.median);
    var r2 := EstimateSpec(r1.state, Planet(row), r1.params, t, w.estimateArchive, w.median);
    NoTerminalTwoSteps(s.log, r1.state.log, r2.state.log);
  }

  /** A log extended twice, each time by lines without a terminal one, has
      been extended once by lines without a terminal one. */
  lemma NoTerminalTwoSteps(a: seq<LogEntry>, b: seq<LogEntry>, c: seq<LogEntry>)
    requires a <= b && NoTerminal(b[|a|..])
    requires b <= c && NoTerminal(c[|b|..])
    ensures a <= c && NoTerminal(c[|a|..])
  {
    assert c[|a|..] == b[|a|..] + c[|b|..];
    NoTerminalAppend(b[|a|..], c[|b|..]);
  }

  lemma PrepareLog(s: Snapshot, row: Row, w: World)
    ensures s.log <= Prepare(s, row, w).state.log
    ensures NoTerminal(Prepare(s, row, w).state.log[|s.log|..])
  {
    AcquireNoTerminal(Host(row), w.estimateArchive);
    PrepareWithLog(s, row, w, Acquire(Host(row), w.estimateArchive));
  }

  lemma DispatchLog(r: Resolved, planet: string, host: string, w: World)
    ensures
      var d := Dispatch(r, planet, host, w);
      r.state.log <= d.state.log && EndsInTerminal(d.state.log[|r.state.log|..], planet, d.outcome)
  {
    var d := Dispatch(r, planet, host, w);
    var p := r.params;
    if p.period.None? || p.t0.None? {
      assert d.state.log[|r.state.log|..] == [Terminal(planet, SkipMissingParams, NoDetail)];
    } else {
      var job := Job(planet, host, p.period.value, p.t0.value, p.duration);
      AttemptsShape(job, w);
      RetryLog(r.state, planet, Attempts(job, w), 0, None);
    }
  }

  lemma DispatchSleeps(r: Resolved, planet: string, host: string, w: World)
    ensures
      var d := Dispatch(r, planet, host, w);
      r.state.slept <= d.state.slept
      && d.state.slept[|r.state.slept|..] <= BackoffsFrom(0)
      && (d.outcome == Error <==> d.state.slept[|r.state.slept|..] == BackoffsFrom(0))
  {
    var d := Dispatch(r, planet, host, w);
    var p := r.params;
    if p.period.None? || p.t0.None? {
      assert d.state.slept[|r.state.slept|..] == [];
    } else {
      var job := Job(planet, host, p.period.value, p.t0.value, p.duration);
      AttemptsShape(job, w);
      RetrySleeps(r.state, planet, Attempts(job, w), 0, None);
    }
  }

  lemma DispatchOutputs(r: Resolved, planet: string, host: string, w: World)
    ensures
      var d := Dispatch(r, planet, host, w);
      r.state.pngs <= d.state.pngs && r.state.csvs <= d.state.csvs
      && (d.outcome == Ok ==>
            r.state.manifest <= d.state.manifest && |d.state.manifest| == |r.state.manifest| + 1
            && d.state.manifest[|r.state.manifest|].planet == planet && AlreadyDone(planet, d.state.pngs, d.state.csvs))
      && (d.outcome != Ok ==> d.state.manifest == r.state.manifest)
      && (d.outcome == SkipMissingParams ==> d.state.(log := r.state.log) == r.state)
      && d.outcome != SkipExists
  {
    var p := r.params;
    if !(p.period.None? || p.t0.None?) {
      var job := Job(planet, host, p.period.value, p.t0.value, p.duration);
      AttemptsShape(job, w);
      RetryOutputs(r.state, planet, Attempts(job, w), 0, None);
    }
  }

  /**
   * Every call of `process_one` appends log lines ending in exactly one
   * terminal line, for its own planet and with the status it returns.
   */
  lemma WorkerLog(s: Snapshot, row: Row, w: World)
    ensures
      var r := WorkerRun(s, row, w);
      s.log <= r.state.log && EndsInTerminal(r.state.log[|s.log|..], Planet(row), r.outcome)
  {
    var planet := Planet(row);
    var r := WorkerRun(s, row, w);
    if AlreadyDone(planet, s.pngs, s.csvs) {
      assert r.state.log[|s.log|..] == [Terminal(planet, SkipExists, NoDetail)];
    } else {
      var pr := Prepare(s, row, w);
      PrepareLog(s, row, w);
      DispatchLog(pr, planet, Host(row), w);
      EndsAfterTwoSteps(s.log, pr.state.log, r.state.log, planet, r.outcome);
    }
  }

  /** A call sleeps 2, 4, 8 seconds after successive failed attempts, all
      three exactly when it returns error. */
  lemma WorkerSleeps(s: Snapshot, row: Row, w: World)
    ensures
      var r := WorkerRun(s, row, w);
      s.slept <= r.state.slept
      && r.state.slept[|s.slept|..] <= [2.0, 4.0, 8.0]
      && (r.outcome == Error <==> r.state.slept[|s.slept|..] == [2.0, 4.0, 8.0])
  {
    BackoffSchedule();
    var r := WorkerRun(s, row, w);
    if AlreadyDone(Planet(row), s.pngs, s.csvs) {
      assert r.state.slept == s.slept;
    } else {
      var pr := Prepare(s, row, w);
      assert pr.state.slept == s.slept;
      assert r == Dispatch(pr, Planet(row), Host(row), w);
      DispatchSleeps(pr, Planet(row), Host(row), w);
    }
  }

  /** A call only ever adds output files, and writes a manifest line, for its
      planet, exactly when it returns ok; the target then counts as done. */
  lemma WorkerOutputs(s: Snapshot, row: Row, w: World)
    ensures
      var r := WorkerRun(s, row, w);
      s.pngs <= r.state.pngs && s.csvs <= r.state.csvs
      && (r.outcome == Ok ==>
            s.manifest <= r.state.manifest && |r.state.manifest| == |s.manifest| + 1
            && r.state.manifest[|s.manifest|].planet == Planet(row) && AlreadyDone(Planet(row), r.state.pngs, r.state.csvs))
      && (r.outcome != Ok ==> r.state.manifest == s.manifest)
  {
    if !AlreadyDone(Planet(row), s.pngs, s.csvs) {
      DispatchOutputs(Prepare(s, row, w), Planet(row), Host(row), w);
    }
  }

  /** A target whose outputs exist is skipped with one log line: no query,
      no download, no file, no manifest line, no sleep; and skip_exists is
      reported for no other target. */
  lemma SkipExistsDoesNothing(s: Snapshot, row: Row, w: World)
    ensures AlreadyDone(Planet(row), s.pngs, s.csvs) ==>
      WorkerRun(s, row, w) == Step(Log(s, [Terminal(Planet(row), SkipExists, NoDetail)]), SkipExists)
    ensures WorkerRun(s, row, w).outcome == SkipExists ==> AlreadyDone(Planet(row), s.pngs, s.csvs)
  {
    if !AlreadyDone(Planet(row), s.pngs, s.csvs) {
      DispatchOutputs(Prepare(s, row, w), Planet(row), Host(row), w);
    }
  }

  /** Once a run has returned ok for a row, every later run of that row,
      whatever the world then, is skipped. */
  lemma OkThenSkip(s: Snapshot, row: Row, w: World, later: World)
    ensures WorkerRun(s, row, w).outcome == Ok ==>
      WorkerRun(WorkerRun(s, row, w).state, row, later).outcome == SkipExists
  {
    WorkerOutputs(s, row, w);
  }

  /** A row whose own period and epoch are known is never looked up in the
      archive and never estimated: its values go to the emission unchanged. */
  lemma CompleteRowUsedAsIs(s: Snapshot, row: Row, w: World)
    requires !AlreadyDone(Planet(row), s.pngs, s.csvs)
    requires FromRow(row).period.Some? && FromRow(row).t0.Some?
    ensures WorkerRun(s, row, w) ==
      RetryFrom(s, Planet(row),
                Attempts(Job(Planet(row), Host(row), FromRow(row).period.value, FromRow(row).t0.value,
                             FromRow(row).duration), w), 0, None)
  {
    assert Prepare(s, row, w) == Resolved(s, FromRow(row));
  }

  /** A target left without period or epoch writes no file, no manifest line
      and sleeps not at all. */
  lemma MissingParamsNoOutput(s: Snapshot, row: Row, w: World)
    ensures WorkerRun(s, row, w).outcome == SkipMissingParams ==>
      WorkerRun(s, row, w).state.(log := s.log) == s
  {
    var pr := Prepare(s, row, w);
    DispatchOutputs(pr, Planet(row), Host(row), w);
  }

  /** A target not yet done is skipped for missing parameters exactly when
      period or epoch is still missing once resolved: it then logs
      skip_missing_params after the resolution's lines and nothing else, so
      the retry loop never runs; a complete target always reaches it. */
  lemma MissingParamsSkips(s: Snapshot, row: Row, w: World)
    requires !AlreadyDone(Planet(row), s.pngs, s.csvs)
    ensures var pr := Prepare(s, row, w);
      var missing := pr.params.period.None? || pr.params.t0.None?;
      (WorkerRun(s, row, w).outcome == SkipMissingParams <==> missing)
      && (missing ==>
            WorkerRun(s, row, w).state == Log(pr.state, [Terminal(Planet(row), SkipMissingParams, NoDetail)]))
  {
    var pr := Prepare(s, row, w);
    var p := pr.params;
    if p.period.Some? && p.t0.Some? {
      var job := Job(Planet(row), Host(row), p.period.value, p.t0.value, p.duration);
      AttemptsShape(job, w);
      RetryOutputs(pr.state, Planet(row), Attempts(job, w), 0, None);
    }
  }

  /** A retry loop entered before its last attempt that ends in error has
      seen that last attempt fail, and its last log line is the error line
      carrying that attempt's exception text, for attempts that never finish
      as errors and whose ending does not depend on the workspace. */
  lemma {:induction false} RetryLastError(s: Snapshot, planet: string, step: AttemptFn, k: nat, lastErr: Option<string>)
    requires forall s', j :: step(s', j).end != Finished(Error)
    requires forall s1, s2, j :: step(s1, j).end == step(s2, j).end
    requires k < Retry
    ensures var r := RetryFrom(s, planet, step, k, lastErr);
      var last := step(s, Retry - 1);
      r.outcome == Error ==>
        last.end.Failed? && |r.state.log| > 0
        && r.state.log[|r.state.log| - 1] == Terminal(planet, Error, LastError(Some(last.end.error)))
    decreases Retry - k
  {
    var r := RetryFrom(s, planet, step, k, lastErr);
    var at := step(s, k);
    if at.end.Failed? {
      var s3 := at.state.(slept := at.state.slept + [Backoff(k)]);
      assert r == RetryFrom(s3, planet, step, k + 1, Some(at.end.error));
      if k + 1 < Retry {
        RetryLastError(s3, planet, step, k + 1, Some(at.end.error));
        assert step(s3, Retry - 1).end == step(s, Retry - 1).end;
      } else {
        assert r == Step(Log(s3, [Terminal(planet, Error, LastError(Some(at.end.error)))]), Error);
      }
    } else {
      assert r == Step(at.state, at.end.outcome);
    }
  }

  /** Every attempt of a job finishes as ok or no data or fails, and how it
      ends does not depend on the workspace it starts from. */
  lemma AttemptsEnd(job: Job, w: World)
    ensures forall s, j :: Attempts(job, w)(s, j).end != Finished(Error)
    ensures forall s1, s2, j :: Attempts(job, w)(s1, j).end == Attempts(job, w)(s2, j).end
  {
    forall s: Snapshot, j: nat ensures Attempts(job, w)(s, j).end != Finished(Error) {
      var t := Acquire(job.host, w.attempt(j).archive);
      assert Attempts(job, w)(s, j) == AttemptOnce(s, job, t, w.attempt(j).fault);
    }
    forall s1: Snapshot, s2: Snapshot, j: nat
      ensures Attempts(job, w)(s1, j).end == Attempts(job, w)(s2, j).end
    {
      var t := Acquire(job.host, w.attempt(j).archive);
      assert Attempts(job, w)(s1, j) == AttemptOnce(s1, job, t, w.attempt(j).fault);
      assert Attempts(job, w)(s2, j) == AttemptOnce(s2, job, t, w.attempt(j).fault);
    }
  }

  /** A target that ends in error has complete parameters, and its last log
      line is the error line carrying the exception text of its last
      attempt. */
  lemma WorkerLastError(s: Snapshot, row: Row, w: World)
    ensures var r := WorkerRun(s, row, w);
      var pr := Prepare(s, row, w);
      r.outcome == Error ==>
        pr.params.period.Some? && pr.params.t0.Some?
        && var job := Job(Planet(row), Host(row), pr.params.period.value, pr.params.t0.value, pr.params.duration);
           var last := Attempts(job, w)(pr.state, Retry - 1);
           last.end.Failed? && |r.state.log| > 0
           && r.state.log[|r.state.log| - 1] == Terminal(Planet(row), Error, LastError(Some(last.end.error)))
  {
    var r := WorkerRun(s, row, w);
    var pr := Prepare(s, row, w);
    var p := pr.params;
    if !AlreadyDone(Planet(row), s.pngs, s.csvs) && p.period.Some? && p.t0.Some? {
      var job := Job(Planet(row), Host(row), p.period.value, p.t0.value, p.duration);
      var step := Attempts(job, w);
      assert r == RetryFrom(pr.state, Planet(row), step, 0, None);
      AttemptsEnd(job, w);
      RetryLastError(pr.state, Planet(row), step, 0, None);
    }
  }

  // -----------------------------------------------------------------------
  // The worker as the source writes it.

  method ResolveParams(ws: Workspace, planet: string, p: Params, catalog: Catalog) returns (q: Params)
    modifies ws
    ensures q == ResolveSpec(old(ws.State()), planet, p, catalog).params
    ensures ws.State() == ResolveSpec(old(ws.State()), planet, p, catalog).state
  {
    q := p;
    if p.period.None? || p.t0.None? {
      var reply := catalog(WhereClause(planet));
      if reply.QueryRaised? {
        ws.SaveLog(FetchParamsError(planet, reply.error));
      } else if reply.FirstRow? {
        var r := reply.row;
        if q.period.None? {
          q := q.(period := SafeValue(r.orbper, Day));
        }
        if q.t0.None? {
          q := q.(t0 := SafeValue(r.tranmid, Day));
        }
        if q.duration.None? {
          q := q.(duration := SafeValue(r.trandur, Hour));
        }
      }
    }
  }

  method EstimateMissingEpoch(ws: Workspace, planet: string, host: string, p: Params, w: World)
    returns (q: Params)
    modifies ws
    ensures q == EstimateSpec(old(ws.State()), planet, p, Acquire(host, w.estimateArchive), w.estimateArchive, w.median).params
    ensures ws.State() == EstimateSpec(old(ws.State()), planet, p, Acquire(host, w.estimateArchive), w.estimateArchive, w.median).state
  {
    q := p;
    if p.period.Some? && p.t0.None? {
      var got := AcquireCurve(ws, host, w.estimateArchive);
      if got.Found? {
        var est := EstimateEpoch(got.curve, w.estimateArchive, w.median);
        if est.Estimated? {
          q := q.(t0 := Some(est.t0));
          ws.SaveLog(EstimatedT0(planet, est.t0, got.mission, got.author));
        } else {
          ws.SaveLog(EstimateT0Failed(planet, est.error));
        }
      }
    }
  }

  /** The body of the retry loop: acquire, then emit. */
  method TryOnce(ws: Workspace, job: Job, a: Attempt) returns (end: AttemptEnd)
    modifies ws
    ensures end == AttemptOnce(old(ws.State()), job, Acquire(job.host, a.archive), a.fault).end
    ensures ws.State() == AttemptOnce(old(ws.State()), job, Acquire(job.host, a.archive), a.fault).state
  {
    var got := AcquireCurve(ws, job.host, a.archive);
    if got.NotFound? {
      ws.SaveLog(Terminal(job.planet, NoData, NoDetail));
      return Finished(NoData);
    }
    var err, window := Emit(ws, job.planet, job.host, job.period, job.t0, job.duration,
                            got.curve, got.mission, got.author, a.fault);
    if err.None? {
      ws.SaveLog(Terminal(job.planet, Ok, Provenance(got.mission, got.author)));
      end := Finished(Ok);
    } else {
      end := Failed(err.value);
    }
  }

  /** One round of the retry loop: an attempt, and the sleep after it when
      it failed. A finished attempt is where the loop stops; a failed one
      leaves the loop to go on from the next attempt. */
  method RetryRound(ws: Workspace, job: Job, w: World, attempt: nat, lastErr: Option<string>)
    returns (end: AttemptEnd)
    requires attempt < Retry
    modifies ws
    ensures end.Finished? ==>
      RetryFrom(old(ws.State()), job.planet, Attempts(job, w), attempt, lastErr) == Step(ws.State(), end.outcome)
    ensures end.Failed? ==>
      RetryFrom(old(ws.State()), job.planet, Attempts(job, w), attempt, lastErr)
        == RetryFrom(ws.State(), job.planet, Attempts(job, w), attempt + 1, Some(end.error))
  {
    ghost var before := ws.State();
    end := TryOnce(ws, job, w.attempt(attempt));
    assert Attempts(job, w)(before, attempt) == AttemptStep(ws.State(), end);
    if end.Failed? {
      ws.Sleep(Backoff(attempt));
    }
  }

  /** The retry loop of `process_one`. */
  method EmitWithRetry(ws: Workspace, job: Job, w: World) returns (status: Outcome)
    modifies ws
    ensures status == RetryFrom(old(ws.State()), job.planet, Attempts(job, w), 0, None).outcome
    ensures ws.State() == RetryFrom(old(ws.State()), job.planet, Attempts(job, w), 0, None).state
  {
    ghost var full := RetryFrom(ws.State(), job.planet, Attempts(job, w), 0, None);
    var lastErr: Option<string> := None;
    var attempt := 0;
    while attempt < Retry
      invariant 0 <= attempt <= Retry
      invariant RetryFrom(ws.State(), job.planet, Attempts(job, w), attempt, lastErr) == full
      decreases Retry - attempt
    {
      var end := RetryRound(ws, job, w, attempt, lastErr);
      if end.Finished? {
        return end.outcome;
      }
      lastErr := Some(end.error);
      attempt := attempt + 1;
    }
    ws.SaveLog(Terminal(job.planet, Error, LastError(lastErr)));
    status := Error;
  }

  /** `process_one(row)`: the planet name and the status. */
  method ProcessOne(ws: Workspace, row: Row, w: World) returns (planet: string, status: Outcome)
    modifies ws
    ensures planet == Planet(row)
    ensures status == WorkerRun(old(ws.State()), row, w).outcome
    ensures ws.State() == WorkerRun(old(ws.State()), row, w).state
  {
    planet := StripSpaces(row.plName);
    var host := if row.hostname.Some? then StripSpaces(row.hostname.value) else planet;
    if PngName(planet) in ws.pngs && CsvName(planet) in ws.csvs {
      ws.SaveLog(Terminal(planet, SkipExists, NoDetail));
      return planet, SkipExists;
    }
    ghost var s0 := ws.State();
    var p := FromRow(row);
    p := ResolveParams(ws, planet, p, w.catalog);
    ghost var r1 := ResolveSpec(s0, planet, FromRow(row), w.catalog);
    assert ws.State() == r1.state && p == r1.params;
    p := EstimateMissingEpoch(ws, planet, host, p, w);
    ghost var r2 := Prepare(s0, row, w);
    assert ws.State() == r2.state && p == r2.params;
    if p.period.None? || p.t0.None? {
      ws.SaveLog(Terminal(planet, SkipMissingParams, NoDetail));
      return planet, SkipMissingParams;
    }
    status := EmitWithRetry(ws, Job(planet, host, p.period.value, p.t0.value, p.duration), w);
  }
}
