/**
 * Where the targets come from when a local input file is given
 * (`detect_delimiter`, `rows_from_local_file`). The file is the sequence of
 * strings successive `readline` calls return, an empty string marking its
 * end. The delimiter sniffer, the pandas reader and the archive query are
 * inputs: their answers are modelled, not their algorithms.
 */
module InputRows {
  import opened Common
  import opened Values
  import opened Journal

  /** At most this many lines are read for the sample. */
  const MaxRead: nat := 200
  /** The sample stops once it holds this many lines. */
  const MaxSample: nat := 20
  const CommentChar: char := '#'
  /** `START_INDEX`: the first row a limited full-parameter table keeps. */
  const StartIndex: nat := 40

  /** A line the sample leaves out: whitespace only, or whitespace and then
      the comment character. */
  predicate Skipped(line: string) {
    line == [] || line[0] == CommentChar || (IsPySpace(line[0]) && Skipped(line[1..]))
  }

  /** A string that starts with a non-space is not emptied by `TrimEnd`. */
  lemma NonSpaceSurvivesTrimEnd(t: string)
    requires t != [] && !IsPySpace(t[0])
    ensures TrimEnd(t, IsPySpace) != []
  {
  }

  /** `Skipped` is the test as the source writes it: the line starts with
      the comment character once leading whitespace is dropped, or it is
      blank once stripped. */
  lemma {:induction false} SkippedIsStripTest(line: string)
    ensures Skipped(line) <==>
      var t := TrimStart(line, IsPySpace);
      (t != [] && t[0] == CommentChar) || StripSpaces(line) == []
  {
    var t := TrimStart(line, IsPySpace);
    if t != [] {
      NonSpaceSurvivesTrimEnd(t);
    }
    if line != [] && IsPySpace(line[0]) {
      SkippedIsStripTest(line[1..]);
      assert TrimEnd(t, IsPySpace) == StripSpaces(line[1..]);
    }
  }

  /** How many of at most `n` `readline` calls return a line before the end
      of the file. */
  function ReadCount(file: seq<string>, n: nat): (k: nat)
    ensures k <= n && k <= |file|
    ensures forall j :: 0 <= j < k ==> file[j] != []
    ensures k < n && k < |file| ==> file[k] == []
  {
    if n == 0 || file == [] || file[0] == [] then 0
    else
      var k := ReadCount(file[1..], n - 1);
      assert forall j :: 1 <= j < k + 1 ==> file[j] == file[1..][j - 1];
      1 + k
  }

  /** The lines of `lines` the sample keeps, in order. */
  function KeptLines(lines: seq<string>): (r: seq<string>)
    ensures |r| <= |lines|
  {
    if lines == [] then []
    else
      var last := lines[|lines| - 1];
      KeptLines(lines[..|lines| - 1]) + (if Skipped(last) then [] else [last])
  }

  /** Python's `s[:n]` for `n >= 0`. */
  function Take<T>(s: seq<T>, n: nat): (r: seq<T>)
    ensures |r| == if |s| <= n then |s| else n
    ensures r <= s
  {
    if |s| <= n then s else s[..n]
  }

  /** The lines `detect_delimiter` joins into its sample: the first twenty
      kept lines among those the first two hundred reads return. */
  function SampleLines(file: seq<string>): seq<string> {
    Take(KeptLines(file[..ReadCount(file, MaxRead)]), MaxSample)
  }

  /** `''.join(lines)`. */
  function Join(lines: seq<string>): (r: string)
    ensures |lines| == 1 ==> r == lines[0]
  {
    if lines == [] then [] else Join(lines[..|lines| - 1]) + lines[|lines| - 1]
  }

  /** The lines read first are a prefix of the lines read later, so what the
      sample keeps of them is a prefix too. */
  lemma {:induction false} KeptLinesGrow(file: seq<string>, i: nat, n: nat)
    requires i <= n <= |file|
    ensures KeptLines(file[..i]) <= KeptLines(file[..n])
    decreases n
  {
    if i < n {
      KeptLinesGrow(file, i, n - 1);
      assert file[..n][..n - 1] == file[..n - 1];
    }
  }

  /** The reads stop at the first empty string or after `n` lines, and
      nowhere else. */
  lemma ReadCountIs(file: seq<string>, n: nat, i: nat)
    requires i <= n && i <= |file|
    requires forall j :: 0 <= j < i ==> file[j] != []
    requires i == n || i == |file| || file[i] == []
    ensures ReadCount(file, n) == i
  {
  }

  /** The sampling loop of `detect_delimiter`. */
  method CollectSample(file: seq<string>) returns (sample: seq<string>)
    ensures sample == SampleLines(file)
  {
    sample := [];
    var i := 0;
    while i < MaxRead
      invariant i <= MaxRead && i <= |file|
      invariant forall j :: 0 <= j < i ==> file[j] != []
      invariant sample == KeptLines(file[..i]) && |sample| < MaxSample
    {
      var line := if i < |file| then file[i] else [];
      if line == [] {
        ReadCountIs(file, MaxRead, i);
        return;
      }
      assert file[..i + 1][..i] == file[..i];
      i := i + 1;
      if Skipped(line) {
        continue;
      }
      sample := sample + [line];
      if |sample| >= MaxSample {
        KeptLinesGrow(file, i, ReadCount(file, MaxRead));
        return;
      }
    }
    ReadCountIs(file, MaxRead, i);
  }

  /** Every line `KeptLines` returns is a line of its input that is neither
      blank nor a comment. */
  lemma {:induction false} KeptLinesSound(lines: seq<string>)
    ensures forall l :: l in KeptLines(lines) ==> !Skipped(l) && l in lines
  {
    if lines != [] {
      KeptLinesSound(lines[..|lines| - 1]);
      assert forall l :: l in lines[..|lines| - 1] ==> l in lines;
    }
  }

  /** A line that is neither blank nor a comment is kept after those before it. */
  lemma KeptLinesSnoc(init: seq<string>, last: string)
    requires !Skipped(last)
    ensures KeptLines(init + [last]) == KeptLines(init) + [last]
  {
    assert (init + [last])[..|init|] == init;
  }

  /** Lines that are neither blank nor comments are all kept. */
  lemma {:induction false} KeptLinesAll(lines: seq<string>)
    requires forall l :: l in lines ==> !Skipped(l)
    ensures KeptLines(lines) == lines
  {
    if lines != [] {
      var init, last := lines[..|lines| - 1], lines[|lines| - 1];
      assert forall l :: l in init ==> l in lines;
      KeptLinesAll(init);
      assert last in lines;
      assert lines == init + [last];
      KeptLinesSnoc(init, last);
    }
  }

  /** The sample holds at most twenty lines, each neither blank nor a
      comment, each one of the lines actually read. */
  lemma SampleSound(file: seq<string>)
    ensures |SampleLines(file)| <= MaxSample
    ensures forall l :: l in SampleLines(file) ==>
      !Skipped(l) && l in file[..ReadCount(file, MaxRead)]
  {
    var kept := KeptLines(file[..ReadCount(file, MaxRead)]);
    KeptLinesSound(file[..ReadCount(file, MaxRead)]);
    assert forall l :: l in SampleLines(file) ==> l in kept;
  }

  /** A file of at most twenty lines, none of them blank or a comment, is
      sampled whole. */
  lemma ShortCleanFileSampledWhole(file: seq<string>)
    requires |file| <= MaxSample
    requires forall l :: l in file ==> l != [] && !Skipped(l)
    ensures SampleLines(file) == file
  {
    assert forall j :: 0 <= j < |file| ==> file[j] in file;
    ReadCountIs(file, MaxRead, |file|);
    assert file[..|file|] == file;
    KeptLinesAll(file);
  }

  /** The delimiters the sniffer may choose among. */
  type Delimiter = c: char | c == ',' || c == '\t' || c == ';' || c == '|' || c == ':' witness ','

  /** `csv.Sniffer().sniff(sample, delimiters=...)`: the delimiter it finds,
      or None when it raises. */
  type Sniffer = string -> Option<Delimiter>

  /** The separator `detect_delimiter` returns: the sniffed one, a comma when
      sniffing raised. The ensures restate this fallback, the sniffer being
      an oracle; `DetectDelimiter` is the method proved against it. */
  function DelimiterOf(file: seq<string>, sniff: Sniffer): (d: Delimiter)
    ensures sniff(Join(SampleLines(file))).Some? ==> d == sniff(Join(SampleLines(file))).value
    ensures sniff(Join(SampleLines(file))).None? ==> d == ','
  {
    sniff(Join(SampleLines(file))).GetOr(',')
  }

  /** `detect_delimiter(path)`. */
  method DetectDelimiter(file: seq<string>, sniff: Sniffer) returns (d: Delimiter)
    ensures d == DelimiterOf(file, sniff)
  {
    var lines := CollectSample(file);
    var sample := Join(lines);
    match sniff(sample)
    case Some(x) => d := x;
    case None => d := ',';
  }

  /** What pandas reads with a given separator: the column names, the rows
      (meaningful when every needed column is present), and the first column
      as text. */
  datatype Table = Table(columns: set<string>, rows: seq<Row>, firstColumn: seq<string>)

  /** `_read_csv_robust(path, sep)`. */
  type Reader = Delimiter -> Table

  const NeededColumns: set<string> := {"pl_name", "hostname", "pl_orbper", "pl_tranmid", "pl_trandur"}

  /** `if max_targets:`: given and non-zero. */
  predicate Limited(maxTargets: Option<nat>) {
    maxTargets.Some? && maxTargets.value > 0
  }

  /** `df.iloc[a:b]` for `0 <= a <= b`: the positions from `a` up to `b`,
      cut short at the end of the table. */
  function Window<T>(s: seq<T>, a: nat, b: nat): (r: seq<T>)
    requires a <= b
    ensures |r| == (if b <= |s| then b - a else if a <= |s| then |s| - a else 0)
    ensures forall i :: 0 <= i < |r| ==> r[i] == s[a + i]
  {
    if |s| <= a then [] else if |s| <= b then s[a..] else s[a..b]
  }

  /** The rows of a table that has every needed column. */
  function FullRows(t: Table, maxTargets: Option<nat>): seq<Row> {
    if Limited(maxTargets) then Window(t.rows, StartIndex, StartIndex + maxTargets.value) else t.rows
  }

  /** The names a table without every needed column is queried by. */
  function NameList(t: Table, maxTargets: Option<nat>): seq<string> {
    if Limited(maxTargets) then Take(t.firstColumn, maxTargets.value) else t.firstColumn
  }

  /** The row the archive gives for a stripped, non-blank name. */
  function RowFor(name: string, catalog: Catalog): (r: Row)
    ensures catalog(WhereClause(name)).FirstRow? ==> r == catalog(WhereClause(name)).row
    ensures !catalog(WhereClause(name)).FirstRow? ==> r == Placeholder(name)
  {
    match catalog(WhereClause(name))
    case FirstRow(row) => row
    case _ => Placeholder(name)
  }

  /** The rows gathered and the log lines written. */
  datatype Gathered = Gathered(rows: seq<Row>, log: seq<LogEntry>)

  /** The loop over the names, as far as `names` reaches. */
  function NameRows(names: seq<string>, catalog: Catalog): (g: Gathered)
    ensures forall e :: e in g.log ==> e.FetchParamsError?
  {
    if names == [] then Gathered([], [])
    else
      var g := NameRows(names[..|names| - 1], catalog);
      var n := StripSpaces(names[|names| - 1]);
      if n == [] then g
      else match catalog(WhereClause(n))
        case QueryRaised(e) => Gathered(g.rows + [Placeholder(n)], g.log + [FetchParamsError(n, e)])
        case NoRows => Gathered(g.rows + [Placeholder(n)], g.log)
        case FirstRow(r) => Gathered(g.rows + [r], g.log)
  }

  /** The names that are not blank once stripped, stripped, in order. */
  function KeptNames(names: seq<string>): (r: seq<string>)
    ensures |r| <= |names|
    ensures forall n :: n in r ==> n != []
  {
    if names == [] then []
    else
      var n := StripSpaces(names[|names| - 1]);
      KeptNames(names[..|names| - 1]) + (if n == [] then [] else [n])
  }

  /** One row per non-blank name, in order: the archive's row for it, or a
      placeholder carrying the name. */
  lemma {:induction false} NameRowsOnePerName(names: seq<string>, catalog: Catalog)
    ensures |NameRows(names, catalog).rows| == |KeptNames(names)|
    ensures forall i :: 0 <= i < |KeptNames(names)| ==>
      NameRows(names, catalog).rows[i] == RowFor(KeptNames(names)[i], catalog)
  {
    if names != [] {
      var init := names[..|names| - 1];
      NameRowsOnePerName(init, catalog);
      var n := StripSpaces(names[|names| - 1]);
      var g := NameRows(init, catalog);
      if n != [] {
        assert KeptNames(names) == KeptNames(init) + [n];
        assert NameRows(names, catalog).rows == g.rows + [RowFor(n, catalog)];
      }
    }
  }

  /** One `fetch_params_error` line per name whose query raised, in order. */
  function RaisedNames(names: seq<string>, catalog: Catalog): (r: seq<string>)
    ensures forall n :: n in r ==> catalog(WhereClause(n)).QueryRaised?
  {
    if names == [] then []
    else
      var n := StripSpaces(names[|names| - 1]);
      RaisedNames(names[..|names| - 1], catalog)
      + (if n != [] && catalog(WhereClause(n)).QueryRaised? then [n] else [])
  }

  lemma {:induction false} NameRowsLogsRaises(names: seq<string>, catalog: Catalog)
    ensures |NameRows(names, catalog).log| == |RaisedNames(names, catalog)|
    ensures forall i :: 0 <= i < |RaisedNames(names, catalog)| ==>
      NameRows(names, catalog).log[i].planet == RaisedNames(names, catalog)[i]
      && NameRows(names, catalog).log[i].error
         == catalog(WhereClause(RaisedNames(names, catalog)[i])).error
  {
    if names != [] {
      var init := names[..|names| - 1];
      NameRowsLogsRaises(init, catalog);
      var n := StripSpaces(names[|names| - 1]);
      if n != [] && catalog(WhereClause(n)).QueryRaised? {
        assert RaisedNames(names, catalog) == RaisedNames(init, catalog) + [n];
        assert NameRows(names, catalog).log
          == NameRows(init, catalog).log + [FetchParamsError(n, catalog(WhereClause(n)).error)];
      } else {
        assert RaisedNames(names, catalog) == RaisedNames(init, catalog);
        assert NameRows(names, catalog).log == NameRows(init, catalog).log;
      }
    }
  }

  /** `rows_from_local_file` as a whole: the rows it returns and the log
      lines it writes, which only ever report a failed catalog query. */
  function LocalRows(file: seq<string>, sniff: Sniffer, read: Reader, catalog: Catalog,
                     maxTargets: Option<nat>): (g: Gathered)
    ensures forall e :: e in g.log ==> e.FetchParamsError?
  {
    var t := read(DelimiterOf(file, sniff));
    if NeededColumns <= t.columns then Gathered(FullRows(t, maxTargets), [])
    else NameRows(NameList(t, maxTargets), catalog)
  }

  /** A table with every needed column is taken as it is: all of it, or
      with a limit the rows from position 40 on, at most that many, and
      nothing is logged. */
  lemma FullTableWindow(file: seq<string>, sniff: Sniffer, read: Reader, catalog: Catalog,
                        maxTargets: Option<nat>)
    requires NeededColumns <= read(DelimiterOf(file, sniff)).columns
    ensures var t := read(DelimiterOf(file, sniff));
      var g := LocalRows(file, sniff, read, catalog, maxTargets);
      g.log == []
      && (!Limited(maxTargets) ==> g.rows == t.rows)
      && (Limited(maxTargets) ==>
            |g.rows| <= maxTargets.value
            && (|t.rows| >= StartIndex + maxTargets.value ==> |g.rows| == maxTargets.value)
            && (|t.rows| <= StartIndex ==> g.rows == [])
            && forall i :: 0 <= i < |g.rows| ==> g.rows[i] == t.rows[StartIndex + i])
  {
  }

  /** A table without every needed column is queried name by name from its
      first row: a limit counts from the top, not from position 40, and every
      non-blank name among the first `limit` yields exactly one row. */
  lemma NameTableFromTop(file: seq<string>, sniff: Sniffer, read: Reader, catalog: Catalog,
                         limit: nat)
    requires !(NeededColumns <= read(DelimiterOf(file, sniff)).columns)
    requires limit > 0
    ensures var t := read(DelimiterOf(file, sniff));
      var g := LocalRows(file, sniff, read, catalog, Some(limit));
      var names := KeptNames(Take(t.firstColumn, limit));
      |g.rows| == |names| <= limit
      && forall i :: 0 <= i < |names| ==> g.rows[i] == RowFor(names[i], catalog)
  {
    var t := read(DelimiterOf(file, sniff));
    NameRowsOnePerName(Take(t.firstColumn, limit), catalog);
  }

  /** The query loop of `rows_from_local_file`. */
  method GatherNames(ws: Workspace, names: seq<string>, catalog: Catalog) returns (rows: seq<Row>)
    modifies ws
    ensures rows == NameRows(names, catalog).rows
    ensures ws.State() == old(ws.State()).(log := old(ws.log) + NameRows(names, catalog).log)
  {
    ghost var start := ws.State();
    rows := [];
    var i := 0;
    while i < |names|
      invariant i <= |names|
      invariant rows == NameRows(names[..i], catalog).rows
      invariant ws.State() == start.(log := start.log + NameRows(names[..i], catalog).log)
    {
      assert names[..i + 1][..i] == names[..i];
      ghost var before := NameRows(names[..i], catalog).log;
      var clean := StripSpaces(names[i]);
      i := i + 1;
      if clean == [] {
        continue;
      }
      var esc := EscapeQuotes(clean);
      var reply := catalog("pl_name = '" + esc + "'");
      assert reply == catalog(WhereClause(clean));
      match reply
      case FirstRow(r) =>
        rows := rows + [r];
      case NoRows =>
        rows := rows + [Placeholder(clean)];
      case QueryRaised(e) =>
        ws.SaveLog(FetchParamsError(clean, e));
        AppendAssoc(start.log, before, [FetchParamsError(clean, e)]);
        rows := rows + [Placeholder(clean)];
    }
    assert names[..i] == names;
  }

  /** `rows_from_local_file(path, max_targets=...)`. */
  method RowsFromLocalFile(ws: Workspace, file: seq<string>, sniff: Sniffer, read: Reader,
                           catalog: Catalog, maxTargets: Option<nat>) returns (rows: seq<Row>)
    modifies ws
    ensures rows == LocalRows(file, sniff, read, catalog, maxTargets).rows
    ensures ws.State() ==
      old(ws.State()).(log := old(ws.log) + LocalRows(file, sniff, read, catalog, maxTargets).log)
  {
    var sep := DetectDelimiter(file, sniff);
    var t := read(sep);
    if NeededColumns <= t.columns {
      var df := if Limited(maxTargets) then Window(t.rows, StartIndex, StartIndex + maxTargets.value) else t.rows;
      rows := [];
      for i := 0 to |df|
        invariant rows == df[..i]
      {
        rows := rows + [df[i]];
      }
      assert df[..|df|] == df;
      assert ws.log + [] == ws.log;
      return;
    }
    var names := t.firstColumn;
    if Limited(maxTargets) {
      names := Take(names, maxTargets.value);
    }
    rows := GatherNames(ws, names, catalog);
  }
}
