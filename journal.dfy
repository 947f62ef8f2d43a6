/**
 * Everything a run leaves behind: the append-only run log (`run_log.jsonl`),
 * the manifest (`manifest.jsonl`), the listings of the png/ and csv/ output
 * directories, and the durations the workers slept. `save_line` only ever
 * appends one record; nothing is rewritten or removed.
 */
module Journal {
  import opened Common

  /** The status a worker returns for its target. */
  datatype Outcome = Ok | SkipExists | SkipMissingParams | NoData | Error

  /** The status string `process_one` returns and logs. */
  function StatusText(o: Outcome): string {
    match o
    case Ok => "ok"
    case SkipExists => "skip_exists"
    case SkipMissingParams => "skip_missing_params"
    case NoData => "no_data"
    case Error => "error"
  }

  /** What a terminal log record carries besides the status. */
  datatype Detail = NoDetail | Provenance(mission: string, author: string) | LastError(error: Option<string>)

  /** One line of the run log. */
  datatype LogEntry =
    | FetchParamsError(planet: string, error: string)
    | SearchError(host: string, mission: string, error: string)
    | DownloadError(host: string, mission: string, author: string, error: string)
    | DownloadErrorAuto(host: string, mission: string, error: string)
    | EstimatedT0(planet: string, t0: real, mission: string, author: string)
    | EstimateT0Failed(planet: string, error: string)
    | Terminal(planet: string, outcome: Outcome, detail: Detail)
    | Summary(okCount: nat, skipCount: nat, noDataCount: nat, errorCount: nat)

  /** One line of the manifest, written once per completed target. */
  datatype ManifestEntry = ManifestEntry(
    planet: string, host: string, periodDay: real, t0Bjd: real,
    timeOffsetApplied: real, mission: string, author: string, png: string, csv: string)

  /** The workspace as a value, for stating what a method changed. */
  datatype Snapshot = Snapshot(
    log: seq<LogEntry>, manifest: seq<ManifestEntry>,
    pngs: set<string>, csvs: set<string>, slept: seq<real>)

  class Workspace {
    var log: seq<LogEntry>
    var manifest: seq<ManifestEntry>
    var pngs: set<string>
    var csvs: set<string>
    var slept: seq<real>

    function State(): Snapshot
      reads this
    {
      Snapshot(log, manifest, pngs, csvs, slept)
    }

    /** A workspace whose output directories already hold some files. */
    constructor (existingPngs: set<string>, existingCsvs: set<string>)
      ensures State() == Snapshot([], [], existingPngs, existingCsvs, [])
    {
      log, manifest := [], [];
      pngs, csvs := existingPngs, existingCsvs;
      slept := [];
    }

    /** `save_line(LOGFILE, rec)`. */
    method SaveLog(e: LogEntry)
      modifies this
      ensures State() == old(State()).(log := old(log) + [e])
    {
      log := log + [e];
    }

    /** `save_line(MANIFEST, rec)`. */
    method SaveManifest(m: ManifestEntry)
      modifies this
      ensures State() == old(State()).(manifest := old(manifest) + [m])
    {
      manifest := manifest + [m];
    }

    /** `plt.savefig` of `png/<name>`. */
    method WritePng(name: string)
      modifies this
      ensures State() == old(State()).(pngs := old(pngs) + {name})
    {
      pngs := pngs + {name};
    }

    /** `df.to_csv` of `csv/<name>`. */
    method WriteCsv(name: string)
      modifies this
      ensures State() == old(State()).(csvs := old(csvs) + {name})
    {
      csvs := csvs + {name};
    }

    /** `time.sleep(seconds)`, recorded rather than waited for. */
    method Sleep(seconds: real)
      modifies this
      ensures State() == old(State()).(slept := old(slept) + [seconds])
    {
      slept := slept + [seconds];
    }
  }
}
