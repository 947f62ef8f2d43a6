/**
 * The curve acquirer `search_download_lightcurve(host)`: for each mission in
 * priority order it searches the archive; a failed or empty search skips the
 * mission. Otherwise it downloads the products of each preferred author that
 * has any, then everything found for the mission ("auto"). The first
 * non-empty download wins, is stitched and flattened; failures are logged and
 * never escape. The archive and the numeric library are oracle inputs.
 */
module Acquirer {
  import opened Common
  import opened TimeFrame
  import opened Journal

  const Missions: seq<string> := ["TESS", "Kepler", "K2"]
  const Authors: seq<string> := ["SPOC", "QLP", "Kepler", "K2"]
  const AutoLabel: string := "auto"
  const FlattenWindow: int := 301

  /** `lk.search_lightcurve(host, mission=m)`: an exception, or the author
      labels of the products found (one per product). */
  datatype SearchReply = SearchRaised(error: string) | Products(authors: seq<string>)

  /** `download_all()`: an exception, or the downloaded light curves (an empty
      collection and None both read as no curves). */
  datatype DownloadReply = DownloadRaised(error: string) | Segments(curves: seq<LightCurve>)

  /**
   * The external services one call of the acquirer sees: the archive search
   * per mission, the download of an author's products (or of all products
   * for the label "auto"), and lightkurve's `flatten(window_length)` and
   * `normalize()`, None meaning that they raised.
   */
  datatype Archive = Archive(
    search: string -> SearchReply,
    download: (string, string) -> DownloadReply,
    flatten: (LightCurve, int) -> Option<LightCurve>,
    normalize: LightCurve -> Option<LightCurve>)

  /** The acquirer's result `(lc, mission, author)` or `(None, None, None)`. */
  datatype Acquired = NotFound | Found(curve: LightCurve, mission: string, author: string)

  /** The window `_flatten_or_normalize` passes to `flatten`. */
  function OddWindow(w: int): (r: int)
    ensures r % 2 == 1
    ensures w <= r <= w + 1
    ensures w % 2 == 1 ==> r == w
  {
    if w % 2 == 0 then w + 1 else w
  }

  /** `_flatten_or_normalize(lc)`: flatten with an odd window, else normalize,
      else the curve as it is. The ensures restate this chain of fallbacks
      case by case: the two operations are library calls, given as the
      archive's oracles, so there is nothing more to say about the result
      than which oracle produced it. `OddWindow` is what is proved about the
      window it passes. */
  function FlattenOrNormalize(lc: LightCurve, arch: Archive): (r: LightCurve)
    ensures arch.flatten(lc, OddWindow(FlattenWindow)).Some? ==>
      r == arch.flatten(lc, OddWindow(FlattenWindow)).value
    ensures arch.flatten(lc, OddWindow(FlattenWindow)).None? && arch.normalize(lc).Some? ==>
      r == arch.normalize(lc).value
    ensures arch.flatten(lc, OddWindow(FlattenWindow)).None? && arch.normalize(lc).None? ==> r == lc
  {
    match arch.flatten(lc, OddWindow(FlattenWindow))
    case Some(f) => f
    case None =>
      match arch.normalize(lc)
      case Some(n) => n
      case None => lc
  }

  function ConcatSamples(segments: seq<LightCurve>): seq<Sample> {
    if segments == [] then [] else segments[0].samples + ConcatSamples(segments[1..])
  }

  /** `lcc.stitch()`: the segments' samples one after another. */
  function Stitch(segments: seq<LightCurve>): LightCurve
    requires segments != []
  {
    LightCurve(ConcatSamples(segments), segments[0].format)
  }

  // -----------------------------------------------------------------------
  // The cascade as a specification.

  /** One download the acquirer may try: an author's products of a mission,
      or all products of a mission. */
  datatype Candidate = ByAuthor(mission: string, author: string) | Unfiltered(mission: string)

  function Label(c: Candidate): string {
    match c
    case ByAuthor(_, a) => a
    case Unfiltered(_) => AutoLabel
  }

  /** What a call produces: its result, the log lines it appended, and the
      downloads it asked for, in order. */
  datatype AcqTrace = AcqTrace(result: Acquired, log: seq<LogEntry>, downloads: seq<Candidate>)

  function Then(a: AcqTrace, b: AcqTrace): AcqTrace {
    AcqTrace(b.result, a.log + b.log, a.downloads + b.downloads)
  }

  /** The curve a non-empty download turns into. */
  function Produce(arch: Archive, segments: seq<LightCurve>): LightCurve
    requires segments != []
  {
    FlattenOrNormalize(Stitch(segments), arch)
  }

  /** One download attempt and its handling. */
  function TryDownload(host: string, arch: Archive, c: Candidate): (t: AcqTrace)
    ensures t.downloads == [c]
    ensures t.result.Found? ==> t.log == [] && t.result.mission == c.mission && t.result.author == Label(c)
  {
    match arch.download(c.mission, Label(c))
    case DownloadRaised(e) =>
      var line := if c.ByAuthor? then DownloadError(host, c.mission, c.author, e)
                  else DownloadErrorAuto(host, c.mission, e);
      AcqTrace(NotFound, [line], [c])
    case Segments(segs) =>
      if segs == [] then AcqTrace(NotFound, [], [c])
      else AcqTrace(Found(Produce(arch, segs), c.mission, Label(c)), [], [c])
  }

  /** The inner loop over the preferred authors, from position `j` on. */
  function AuthorsFrom(host: string, arch: Archive, m: string, available: seq<string>, j: nat): AcqTrace
    decreases |Authors| - j
  {
    if j >= |Authors| then AcqTrace(NotFound, [], [])
    else if Authors[j] !in available then AuthorsFrom(host, arch, m, available, j + 1)
    else
      var t := TryDownload(host, arch, ByAuthor(m, Authors[j]));
      if t.result.Found? then t else Then(t, AuthorsFrom(host, arch, m, available, j + 1))
  }

  /** One mission: its search, then its authors, then its unfiltered
      download. A failed or empty search ends the mission at once. */
  function MissionTry(host: string, arch: Archive, m: string): (t: AcqTrace)
    ensures arch.search(m).SearchRaised? ==> t.downloads == [] && t.result.NotFound?
    ensures arch.search(m) == Products([]) ==> t == AcqTrace(NotFound, [], [])
  {
    match arch.search(m)
    case SearchRaised(e) => AcqTrace(NotFound, [SearchError(host, m, e)], [])
    case Products(available) =>
      if available == [] then AcqTrace(NotFound, [], [])
      else
        var t := AuthorsFrom(host, arch, m, available, 0);
        if t.result.Found? then t else Then(t, TryDownload(host, arch, Unfiltered(m)))
  }

  /** The outer loop over the missions, from position `i` on. */
  function MissionsFrom(host: string, arch: Archive, i: nat): AcqTrace
    decreases |Missions| - i
  {
    if i >= |Missions| then AcqTrace(NotFound, [], [])
    else
      var t := MissionTry(host, arch, Missions[i]);
      if t.result.Found? then t else Then(t, MissionsFrom(host, arch, i + 1))
  }

  /** `search_download_lightcurve(host)` as a function of the services. What
      it returns, downloads and logs is stated by `AcquireFollowsPreference`,
      `DownloadsFollowSearch` and `AcquireLogSoft`. */
  function Acquire(host: string, arch: Archive): AcqTrace {
    MissionsFrom(host, arch, 0)
  }

  // -----------------------------------------------------------------------
  // The reference order: a flat list of candidates, first viable one wins.

  function AuthorCandidates(m: string, j: nat): seq<Candidate>
    decreases |Authors| - j
  {
    if j >= |Authors| then [] else [ByAuthor(m, Authors[j])] + AuthorCandidates(m, j + 1)
  }

  function MissionCandidates(m: string): seq<Candidate> {
    AuthorCandidates(m, 0) + [Unfiltered(m)]
  }

  function CandidatesFrom(i: nat): seq<Candidate>
    decreases |Missions| - i
  {
    if i >= |Missions| then [] else MissionCandidates(Missions[i]) + CandidatesFrom(i + 1)
  }

  /** TESS/SPOC, TESS/QLP, TESS/Kepler, TESS/K2, TESS/auto, Kepler/SPOC, ...,
      K2/auto. */
  function PreferenceOrder(): seq<Candidate> {
    CandidatesFrom(0)
  }

  /** A candidate that would succeed: its mission's search worked and found
      products, the author has products there, and the download is non-empty. */
  predicate Viable(arch: Archive, c: Candidate) {
    match arch.search(c.mission)
    case SearchRaised(_) => false
    case Products(available) =>
      available != []
      && (c.ByAuthor? ==> c.author in available)
      && arch.download(c.mission, Label(c)).Segments?
      && arch.download(c.mission, Label(c)).curves != []
  }

  function FirstViable(arch: Archive, cs: seq<Candidate>): (r: Option<Candidate>)
    ensures r.Some? ==> r.value in cs && Viable(arch, r.value)
    ensures r.None? <==> forall c :: c in cs ==> !Viable(arch, c)
  {
    if cs == [] then None
    else if Viable(arch, cs[0]) then Some(cs[0])
    else FirstViable(arch, cs[1..])
  }

  /** What the acquirer returns when `choice` is the winning candidate. */
  function ResultFor(arch: Archive, choice: Option<Candidate>): Acquired
    requires choice.Some? ==> Viable(arch, choice.value)
  {
    match choice
    case None => NotFound
    case Some(c) => Found(Produce(arch, arch.download(c.mission, Label(c)).curves), c.mission, Label(c))
  }

  lemma {:induction false} FirstViableAppend(arch: Archive, a: seq<Candidate>, b: seq<Candidate>)
    ensures FirstViable(arch, a + b) ==
      if FirstViable(arch, a).Some? then FirstViable(arch, a) else FirstViable(arch, b)
    decreases |a|
  {
    if a != [] {
      assert (a + b)[0] == a[0];
      assert (a + b)[1..] == a[1..] + b;
      FirstViableAppend(arch, a[1..], b);
    } else {
      assert a + b == b;
    }
  }

  /** Within a mission whose search found products, the author loop returns
      what the first viable author candidate gives. */
  lemma {:induction false} AuthorsFollowOrder(host: string, arch: Archive, m: string, available: seq<string>, j: nat)
    requires arch.search(m) == Products(available) && available != []
    ensures AuthorsFrom(host, arch, m, available, j).result
         == ResultFor(arch, FirstViable(arch, AuthorCandidates(m, j)))
    decreases |Authors| - j
  {
    if j < |Authors| {
      AuthorsFollowOrder(host, arch, m, available, j + 1);
      var c := ByAuthor(m, Authors[j]);
      assert AuthorCandidates(m, j) == [c] + AuthorCandidates(m, j + 1);
      FirstViableAppend(arch, [c], AuthorCandidates(m, j + 1));
    }
  }

  /** A mission whose search raised or came back empty offers no viable
      candidate, the unfiltered one included. */
  lemma {:induction false} DeadMission(arch: Archive, m: string, j: nat)
    requires arch.search(m).SearchRaised? || arch.search(m) == Products([])
    ensures FirstViable(arch, AuthorCandidates(m, j) + [Unfiltered(m)]).None?
    decreases |Authors| - j
  {
    if j < |Authors| {
      DeadMission(arch, m, j + 1);
      assert AuthorCandidates(m, j) + [Unfiltered(m)]
          == [ByAuthor(m, Authors[j])] + (AuthorCandidates(m, j + 1) + [Unfiltered(m)]);
    }
  }

  /** One mission returns what its first viable candidate gives. */
  lemma MissionFollowsOrder(host: string, arch: Archive, m: string)
    ensures MissionTry(host, arch, m).result == ResultFor(arch, FirstViable(arch, MissionCandidates(m)))
  {
    match arch.search(m)
    case SearchRaised(_) =>
      DeadMission(arch, m, 0);
    case Products(available) =>
      if available == [] {
        DeadMission(arch, m, 0);
      } else {
        AuthorsFollowOrder(host, arch, m, available, 0);
        FirstViableAppend(arch, AuthorCandidates(m, 0), [Unfiltered(m)]);
      }
  }

  lemma {:induction false} MissionsFollowOrder(host: string, arch: Archive, i: nat)
    ensures MissionsFrom(host, arch, i).result == ResultFor(arch, FirstViable(arch, CandidatesFrom(i)))
    decreases |Missions| - i
  {
    if i < |Missions| {
      var m := Missions[i];
      MissionsFollowOrder(host, arch, i + 1);
      MissionFollowsOrder(host, arch, m);
      FirstViableAppend(arch, MissionCandidates(m), CandidatesFrom(i + 1));
    }
  }

  /**
   * The acquirer returns the curve of the first candidate in preference order
   * whose search and download both succeed, labelled with that candidate's
   * mission and author ("auto" for the unfiltered download), and
   * `(None, None, None)` exactly when no candidate succeeds.
   */
  lemma AcquireFollowsPreference(host: string, arch: Archive)
    ensures Acquire(host, arch).result == ResultFor(arch, FirstViable(arch, PreferenceOrder()))
    ensures Acquire(host, arch).result.NotFound? <==>
      forall c :: c in PreferenceOrder() ==> !Viable(arch, c)
  {
    MissionsFollowOrder(host, arch, 0);
  }

  // -----------------------------------------------------------------------
  // Which downloads are asked for.

  /** The author loop downloads only authors the search listed. */
  lemma {:induction false} AuthorDownloadsListed(host: string, arch: Archive, m: string, available: seq<string>, j: nat)
    ensures forall c :: c in AuthorsFrom(host, arch, m, available, j).downloads ==>
      c.ByAuthor? && c.mission == m && c.author in available
    decreases |Authors| - j
  {
    if j < |Authors| {
      AuthorDownloadsListed(host, arch, m, available, j + 1);
    }
  }

  /**
   * Every download the acquirer asks for belongs to a mission whose search
   * succeeded with at least one product, and an author download only to an
   * author the search listed: a failed or empty search skips its mission,
   * unfiltered fallback included, and an author without products is never
   * downloaded.
   */
  lemma {:induction false} DownloadsFollowSearch(host: string, arch: Archive, i: nat)
    ensures forall c :: c in MissionsFrom(host, arch, i).downloads ==>
      arch.search(c.mission).Products? && arch.search(c.mission).authors != []
      && (c.ByAuthor? ==> c.author in arch.search(c.mission).authors)
    decreases |Missions| - i
  {
    if i < |Missions| {
      DownloadsFollowSearch(host, arch, i + 1);
      var m := Missions[i];
      match arch.search(m)
      case SearchRaised(_) =>
      case Products(available) =>
        if available != [] {
          AuthorDownloadsListed(host, arch, m, available, 0);
        }
    }
  }

  /** The acquirer writes only soft-failure lines (search and download
      errors), never a terminal status. */
  predicate SoftLine(e: LogEntry) {
    e.SearchError? || e.DownloadError? || e.DownloadErrorAuto?
  }

  lemma {:induction false} AuthorLogSoft(host: string, arch: Archive, m: string, available: seq<string>, j: nat)
    ensures forall e :: e in AuthorsFrom(host, arch, m, available, j).log ==> SoftLine(e)
    decreases |Authors| - j
  {
    if j < |Authors| {
      AuthorLogSoft(host, arch, m, available, j + 1);
    }
  }

  lemma {:induction false} AcquireLogSoft(host: string, arch: Archive, i: nat)
    ensures forall e :: e in MissionsFrom(host, arch, i).log ==> SoftLine(e)
    decreases |Missions| - i
  {
    if i < |Missions| {
      AcquireLogSoft(host, arch, i + 1);
      match arch.search(Missions[i])
      case SearchRaised(_) =>
      case Products(available) =>
        AuthorLogSoft(host, arch, Missions[i], available, 0);
    }
  }

  // -----------------------------------------------------------------------
  // The acquirer as the source writes it: nested loops with early returns.

  /** One download and its handling: a raised download is logged, an empty
      one passes, a non-empty one is stitched and flattened. */
  method DownloadCandidate(ws: Workspace, host: string, arch: Archive, c: Candidate) returns (r: Acquired)
    modifies ws
    ensures r == TryDownload(host, arch, c).result
    ensures ws.State() == old(ws.State()).(log := old(ws.log) + TryDownload(host, arch, c).log)
  {
    var got := arch.download(c.mission, Label(c));
    if got.DownloadRaised? {
      if c.ByAuthor? {
        ws.SaveLog(DownloadError(host, c.mission, c.author, got.error));
      } else {
        ws.SaveLog(DownloadErrorAuto(host, c.mission, got.error));
      }
      r := NotFound;
    } else if got.curves != [] {
      r := Found(Produce(arch, got.curves), c.mission, Label(c));
    } else {
      r := NotFound;
    }
  }

  /** What the author loop does at position `j`: download the author's
      products if the search listed that author, nothing otherwise. */
  function AuthorTry(host: string, arch: Archive, m: string, available: seq<string>, j: nat): (t: AcqTrace)
    requires j < |Authors|
    ensures Authors[j] !in available ==> t == AcqTrace(NotFound, [], [])
  {
    if Authors[j] in available then TryDownload(host, arch, ByAuthor(m, Authors[j]))
    else AcqTrace(NotFound, [], [])
  }

  /** The first found among `tries` from position `j` on, with everything
      the tries before it logged and downloaded. */
  function FirstFound(tries: seq<AcqTrace>, j: nat): AcqTrace
    decreases |tries| - j
  {
    if j >= |tries| then AcqTrace(NotFound, [], [])
    else if tries[j].result.Found? then tries[j]
    else Then(tries[j], FirstFound(tries, j + 1))
  }

  /** What each position of the author loop would do. */
  function AuthorTries(host: string, arch: Archive, m: string, available: seq<string>): (ts: seq<AcqTrace>)
    ensures |ts| == |Authors|
    ensures forall j :: 0 <= j < |Authors| ==> ts[j] == AuthorTry(host, arch, m, available, j)
  {
    seq(|Authors|, j requires 0 <= j < |Authors| => AuthorTry(host, arch, m, available, j))
  }

  /** The author loop is the first found among its tries. */
  lemma {:induction false} AuthorsAsFirstFound(host: string, arch: Archive, m: string, available: seq<string>, j: nat)
    ensures AuthorsFrom(host, arch, m, available, j) == FirstFound(AuthorTries(host, arch, m, available), j)
    decreases |Authors| - j
  {
    if j < |Authors| {
      AuthorsAsFirstFound(host, arch, m, available, j + 1);
      var rest := FirstFound(AuthorTries(host, arch, m, available), j + 1);
      if Authors[j] !in available {
        assert Then(AcqTrace(NotFound, [], []), rest) == rest by {
          assert [] + rest.log == rest.log && [] + rest.downloads == rest.downloads;
        }
      }
    }
  }

  /** What each position of the mission loop would do. */
  function MissionTries(host: string, arch: Archive): (ts: seq<AcqTrace>)
    ensures |ts| == |Missions|
    ensures forall i :: 0 <= i < |Missions| ==> ts[i] == MissionTry(host, arch, Missions[i])
  {
    seq(|Missions|, i requires 0 <= i < |Missions| => MissionTry(host, arch, Missions[i]))
  }

  /** The mission loop is the first found among its tries. */
  lemma {:induction false} MissionsAsFirstFound(host: string, arch: Archive, i: nat)
    ensures MissionsFrom(host, arch, i) == FirstFound(MissionTries(host, arch), i)
    decreases |Missions| - i
  {
    if i < |Missions| {
      MissionsAsFirstFound(host, arch, i + 1);
    }
  }

  /** After a try that found nothing, what is left of the log is the rest
      of the tries'. */
  lemma FirstFoundAdvance(tries: seq<AcqTrace>, j: nat, done: seq<LogEntry>, full: AcqTrace)
    requires j < |tries|
    requires FirstFound(tries, j).result == full.result
    requires done + FirstFound(tries, j).log == full.log
    ensures tries[j].result.Found? ==> tries[j].result == full.result && done + tries[j].log == full.log
    ensures tries[j].result.NotFound? ==>
      FirstFound(tries, j + 1).result == full.result
      && (done + tries[j].log) + FirstFound(tries, j + 1).log == full.log
  {
    if tries[j].result.NotFound? {
      AppendAssoc(done, tries[j].log, FirstFound(tries, j + 1).log);
    }
  }

  method TryAuthor(ws: Workspace, host: string, arch: Archive, m: string, available: seq<string>, j: nat)
    returns (r: Acquired)
    requires j < |Authors|
    modifies ws
    ensures r == AuthorTry(host, arch, m, available, j).result
    ensures ws.State() == old(ws.State()).(log := old(ws.log) + AuthorTry(host, arch, m, available, j).log)
  {
    if Authors[j] in available {
      r := DownloadCandidate(ws, host, arch, ByAuthor(m, Authors[j]));
    } else {
      r := NotFound;
    }
  }

  /** The loop over the preferred authors of one mission. */
  method DownloadByAuthors(ws: Workspace, host: string, arch: Archive, m: string, available: seq<string>)
    returns (r: Acquired)
    modifies ws
    ensures r == AuthorsFrom(host, arch, m, available, 0).result
    ensures ws.State() == old(ws.State()).(log := old(ws.log) + AuthorsFrom(host, arch, m, available, 0).log)
  {
    ghost var start := ws.State();
    ghost var tries := AuthorTries(host, arch, m, available);
    ghost var full := FirstFound(tries, 0);
    AuthorsAsFirstFound(host, arch, m, available, 0);
    ghost var done: seq<LogEntry> := [];
    var j := 0;
    while j < |Authors|
      invariant 0 <= j <= |Authors|
      invariant ws.State() == start.(log := start.log + done)
      invariant FirstFound(tries, j).result == full.result
      invariant done + FirstFound(tries, j).log == full.log
      decreases |Authors| - j
    {
      FirstFoundAdvance(tries, j, done, full);
      ghost var t := tries[j];
      assert t == AuthorTry(host, arch, m, available, j);
      r := TryAuthor(ws, host, arch, m, available, j);
      AppendAssoc(start.log, done, t.log);
      done := done + t.log;
      if r.Found? {
        return;
      }
      j := j + 1;
    }
    assert done + [] == done;
    r := NotFound;
  }

  /** The body of the mission loop for one mission. */
  method SearchMission(ws: Workspace, host: string, arch: Archive, m: string) returns (r: Acquired)
    modifies ws
    ensures r == MissionTry(host, arch, m).result
    ensures ws.State() == old(ws.State()).(log := old(ws.log) + MissionTry(host, arch, m).log)
  {
    var reply := arch.search(m);
    if reply.SearchRaised? {
      ws.SaveLog(SearchError(host, m, reply.error));
      r := NotFound;
    } else if reply.authors == [] {
      r := NotFound;
    } else {
      r := DownloadByAuthors(ws, host, arch, m, reply.authors);
      if r.NotFound? {
        r := DownloadCandidate(ws, host, arch, Unfiltered(m));
      }
    }
  }

  /** `search_download_lightcurve(host)`: the loop over the missions. */
  method AcquireCurve(ws: Workspace, host: string, arch: Archive) returns (r: Acquired)
    modifies ws
    ensures r == Acquire(host, arch).result
    ensures ws.State() == old(ws.State()).(log := old(ws.log) + Acquire(host, arch).log)
  {
    ghost var start := ws.State();
    ghost var tries := MissionTries(host, arch);
    ghost var full := FirstFound(tries, 0);
    MissionsAsFirstFound(host, arch, 0);
    ghost var done: seq<LogEntry> := [];
    var i := 0;
    while i < |Missions|
      invariant 0 <= i <= |Missions|
      invariant ws.State() == start.(log := start.log + done)
      invariant FirstFound(tries, i).result == full.result
      invariant done + FirstFound(tries, i).log == full.log
      decreases |Missions| - i
    {
      FirstFoundAdvance(tries, i, done, full);
      ghost var t := tries[i];
      assert t == MissionTry(host, arch, Missions[i]);
      r := SearchMission(ws, host, arch, Missions[i]);
      AppendAssoc(start.log, done, t.log);
      done := done + t.log;
      if r.Found? {
        return;
      }
      i := i + 1;
    }
    assert done + [] == done;
    r := NotFound;
  }
}
