/**
 * The end of `main`: every target's worker runs, each returned status is
 * counted into one of four counters as it completes, and one summary line
 * is appended to the run log. The workers of the thread pool run here one
 * after another, in the order of the targets; the counting is shown not to
 * depend on the order in which they complete.
 */
module Tally {
  import opened Values
  import opened Journal
  import opened Worker

  /** The four counters `ok`, `skip`, `nodata` and `err`. */
  datatype Counts = Counts(ok: nat, skip: nat, noData: nat, error: nat)

  const NoCounts: Counts := Counts(0, 0, 0, 0)

  function Total(c: Counts): nat {
    c.ok + c.skip + c.noData + c.error
  }

  /** `s.startswith(p)`. */
  predicate StartsWith(s: string, p: string) {
    |p| <= |s| && s[..|p|] == p
  }

  /** The counter a status goes to. */
  datatype Kind = OkKind | SkipKind | NoDataKind | ErrorKind

  /** `ok`, anything starting with `skip`, `no_data`, and everything else as
      an error, tested in that order. */
  function KindOf(status: string): Kind {
    if status == "ok" then OkKind
    else if StartsWith(status, "skip") then SkipKind
    else if status == "no_data" then NoDataKind
    else ErrorKind
  }

  /** One status of the given kind counted. */
  function Bump(c: Counts, k: Kind): Counts {
    match k
    case OkKind => c.(ok := c.ok + 1)
    case SkipKind => c.(skip := c.skip + 1)
    case NoDataKind => c.(noData := c.noData + 1)
    case ErrorKind => c.(error := c.error + 1)
  }

  /** The counters after the statuses, in completion order. */
  function Tally(statuses: seq<string>): Counts {
    if statuses == [] then NoCounts
    else Bump(Tally(statuses[..|statuses| - 1]), KindOf(statuses[|statuses| - 1]))
  }

  /** Every status is counted exactly once. */
  lemma {:induction false} TallyTotal(statuses: seq<string>)
    ensures Total(Tally(statuses)) == |statuses|
  {
    if statuses != [] {
      TallyTotal(statuses[..|statuses| - 1]);
    }
  }

  /** Counting one more status bumps the counter of its kind in the counts
      of the statuses before it, and no other. */
  lemma TallySnoc(statuses: seq<string>, status: string)
    ensures Tally(statuses + [status]) == Bump(Tally(statuses), KindOf(status))
  {
    assert (statuses + [status])[..|statuses|] == statuses;
  }

  /** The counting loop of `main`. */
  method CountStatuses(statuses: seq<string>) returns (c: Counts)
    ensures c == Tally(statuses)
  {
    c := NoCounts;
    for i := 0 to |statuses|
      invariant c == Tally(statuses[..i])
    {
      var status := statuses[i];
      TallySnoc(statuses[..i], status);
      assert statuses[..i + 1] == statuses[..i] + [status];
      if status == "ok" {
        c := c.(ok := c.ok + 1);
      } else if StartsWith(status, "skip") {
        c := c.(skip := c.skip + 1);
      } else if status == "no_data" {
        c := c.(noData := c.noData + 1);
      } else {
        c := c.(error := c.error + 1);
      }
    }
    assert statuses[..|statuses|] == statuses;
  }

  /** The counter each worker outcome belongs to; both skips are skips. */
  function OutcomeKind(o: Outcome): Kind {
    match o
    case Ok => OkKind
    case SkipExists => SkipKind
    case SkipMissingParams => SkipKind
    case NoData => NoDataKind
    case Error => ErrorKind
  }

  /** The status a worker returns is counted under its outcome's kind. */
  lemma StatusKind(o: Outcome)
    ensures KindOf(StatusText(o)) == OutcomeKind(o)
  {
    match o
    case Ok =>
    case SkipExists => assert StatusText(o)[..4] == "skip";
    case SkipMissingParams => assert StatusText(o)[..4] == "skip";
    case NoData => assert StatusText(o)[..4][0] != "skip"[0];
    case Error => assert StatusText(o)[..4][0] != "skip"[0];
  }

  function Texts(outcomes: seq<Outcome>): (r: seq<string>)
    ensures |r| == |outcomes|
    ensures forall i :: 0 <= i < |r| ==> r[i] == StatusText(outcomes[i])
  {
    seq(|outcomes|, i requires 0 <= i < |outcomes| => StatusText(outcomes[i]))
  }

  /** The counters for a collection of outcomes, however ordered. */
  function CountsOf(m: multiset<Outcome>): Counts {
    Counts(m[Ok], m[SkipExists] + m[SkipMissingParams], m[NoData], m[Error])
  }

  /** One more outcome in the collection bumps its own counter. */
  lemma CountsOfAdd(m: multiset<Outcome>, o: Outcome)
    ensures CountsOf(m + multiset{o}) == Bump(CountsOf(m), OutcomeKind(o))
  {
  }

  /** Statuses whose kinds are those of some outcomes are counted as the
      outcomes are. */
  lemma {:induction false} TallyByKind(statuses: seq<string>, outcomes: seq<Outcome>)
    requires |statuses| == |outcomes|
    requires forall i :: 0 <= i < |statuses| ==> KindOf(statuses[i]) == OutcomeKind(outcomes[i])
    ensures Tally(statuses) == CountsOf(multiset(outcomes))
  {
    if outcomes == [] {
    } else {
      var n := |outcomes| - 1;
      TallyByKind(statuses[..n], outcomes[..n]);
      assert outcomes == outcomes[..n] + [outcomes[n]];
      assert multiset(outcomes) == multiset(outcomes[..n]) + multiset{outcomes[n]};
      CountsOfAdd(multiset(outcomes[..n]), outcomes[n]);
    }
  }

  /** Over the statuses workers return, each counter is the number of
      outcomes of its kind. */
  lemma TallyCountsOutcomes(outcomes: seq<Outcome>)
    ensures Tally(Texts(outcomes)) == CountsOf(multiset(outcomes))
  {
    forall i | 0 <= i < |outcomes|
      ensures KindOf(Texts(outcomes)[i]) == OutcomeKind(outcomes[i])
    {
      StatusKind(outcomes[i]);
    }
    TallyByKind(Texts(outcomes), outcomes);
  }

  /** Counting two statuses in either order gives the same counters. */
  lemma BumpCommutes(c: Counts, x: Kind, y: Kind)
    ensures Bump(Bump(c, x), y) == Bump(Bump(c, y), x)
  {
  }

  /** A status anywhere in the sequence can be counted last. */
  lemma {:induction false} TallyPullOut(s: seq<string>, j: nat)
    requires j < |s|
    ensures Tally(s) == Bump(Tally(s[..j] + s[j + 1..]), KindOf(s[j]))
    decreases |s|
  {
    var init, last := s[..|s| - 1], s[|s| - 1];
    if j == |s| - 1 {
      assert s[..j] + s[j + 1..] == init;
    } else {
      TallyPullOut(init, j);
      var rest := s[..j] + s[j + 1..];
      assert rest[..|rest| - 1] == init[..j] + init[j + 1..];
      assert rest[|rest| - 1] == last;
      BumpCommutes(Tally(init[..j] + init[j + 1..]), KindOf(s[j]), KindOf(last));
    }
  }

  /** The counters do not depend on the order in which the workers
      complete: any reordering of the statuses gives the same counts. */
  lemma {:induction false} TallyOrderFree(a: seq<string>, b: seq<string>)
    requires multiset(a) == multiset(b)
    ensures Tally(a) == Tally(b)
    decreases |a|
  {
    if a != [] {
      var init, x := a[..|a| - 1], a[|a| - 1];
      assert a == init + [x];
      assert x in multiset(b);
      var j :| 0 <= j < |b| && b[j] == x;
      assert b == b[..j] + [x] + b[j + 1..];
      var rest := b[..j] + b[j + 1..];
      assert multiset(rest) == multiset(b) - multiset{x};
      TallyOrderFree(init, rest);
      TallyPullOut(b, j);
    }
  }

  /** The workers' results, one after another. */
  datatype Batch = Batch(state: Snapshot, statuses: seq<string>)

  function RunAll(s: Snapshot, rows: seq<Row>, worlds: seq<World>): (b: Batch)
    requires |worlds| == |rows|
    ensures |b.statuses| == |rows|
    decreases |rows|
  {
    if rows == [] then Batch(s, [])
    else
      var b := RunAll(s, rows[..|rows| - 1], worlds[..|rows| - 1]);
      var step := WorkerRun(b.state, rows[|rows| - 1], worlds[|rows| - 1]);
      Batch(step.state, b.statuses + [StatusText(step.outcome)])
  }

  function SummaryOf(c: Counts): LogEntry {
    Summary(c.ok, c.skip, c.noData, c.error)
  }

  /** Every target is counted exactly once in the summary line. */
  lemma SummaryCountsEveryTarget(s: Snapshot, rows: seq<Row>, worlds: seq<World>)
    requires |worlds| == |rows|
    ensures var e := SummaryOf(Tally(RunAll(s, rows, worlds).statuses));
      e.okCount + e.skipCount + e.noDataCount + e.errorCount == |rows|
  {
    TallyTotal(RunAll(s, rows, worlds).statuses);
  }

  /** Running one more target after the others. */
  lemma RunAllSnoc(s: Snapshot, rows: seq<Row>, worlds: seq<World>, i: nat)
    requires |worlds| == |rows| && i < |rows|
    ensures var b := RunAll(s, rows[..i], worlds[..i]);
      var step := WorkerRun(b.state, rows[i], worlds[i]);
      RunAll(s, rows[..i + 1], worlds[..i + 1]) == Batch(step.state, b.statuses + [StatusText(step.outcome)])
  {
    assert rows[..i + 1][..i] == rows[..i];
    assert worlds[..i + 1][..i] == worlds[..i];
  }

  lemma RunAllWhole(s: Snapshot, rows: seq<Row>, worlds: seq<World>)
    requires |worlds| == |rows|
    ensures RunAll(s, rows[..|rows|], worlds[..|rows|]) == RunAll(s, rows, worlds)
  {
    assert rows[..|rows|] == rows && worlds[..|rows|] == worlds;
  }

  /** The worker loop of `main`: `process_one` on every row, in order
      (`worlds[i]` is what the services answer for `rows[i]`). */
  method RunWorkers(ws: Workspace, rows: seq<Row>, worlds: seq<World>) returns (statuses: seq<string>)
    requires |worlds| == |rows|
    modifies ws
    ensures statuses == RunAll(old(ws.State()), rows, worlds).statuses
    ensures ws.State() == RunAll(old(ws.State()), rows, worlds).state
  {
    ghost var start := ws.State();
    statuses := [];
    var i := 0;
    while i < |rows|
      invariant i <= |rows|
      invariant RunAll(start, rows[..i], worlds[..i]) == Batch(ws.State(), statuses)
    {
      RunAllSnoc(start, rows, worlds, i);
      var planet, status := ProcessOne(ws, rows[i], worlds[i]);
      statuses := statuses + [StatusText(status)];
      i := i + 1;
    }
    RunAllWhole(start, rows, worlds);
  }

  /** The end of `main`: run every target, count the statuses and append
      the summary line. */
  method RunTargets(ws: Workspace, rows: seq<Row>, worlds: seq<World>) returns (counts: Counts)
    requires |worlds| == |rows|
    modifies ws
    ensures counts == Tally(RunAll(old(ws.State()), rows, worlds).statuses)
    ensures Total(counts) == |rows|
    ensures ws.State() == Log(RunAll(old(ws.State()), rows, worlds).state, [SummaryOf(counts)])
  {
    var statuses := RunWorkers(ws, rows, worlds);
    counts := CountStatuses(statuses);
    TallyTotal(statuses);
    ws.SaveLog(SummaryOf(counts));
  }
}
