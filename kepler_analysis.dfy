/**
 * Three pieces of the single-planet Kepler analysis script: the output
 * directory name (`sanitize_name`), the grid of target-pixel panels, and
 * the agreement check of per-quarter BLS periods against the catalog
 * period. The periodograms themselves are library code: each quarter's
 * result is an input (a period, or the exception it raised).
 */
module KeplerAnalysis {
  import opened Common

  // -----------------------------------------------------------------------
  // sanitize_name

  /** The class `[\w\-_\. ]` the substitution keeps. */
  predicate KeptChar(c: char) {
    IsWordChar(c) || c == '-' || c == '.' || c == ' '
  }

  /** `re.sub(r"[^\w\-_\. ]", "_", c)` on one character. */
  function KeepOrUnderscore(c: char): (r: char)
    ensures KeptChar(r)
    ensures r == c || r == '_'
  {
    if KeptChar(c) then c else '_'
  }

  function MapKept(s: string): (r: string)
    ensures |r| == |s|
    ensures forall i :: 0 <= i < |s| ==> r[i] == KeepOrUnderscore(s[i])
  {
    seq(|s|, i requires 0 <= i < |s| => KeepOrUnderscore(s[i]))
  }

  /** `s.replace(" ", "_")`. */
  function SpacesToUnderscores(s: string): (r: string)
    ensures |r| == |s|
    ensures forall i :: 0 <= i < |s| ==> r[i] == if s[i] == ' ' then '_' else s[i]
  {
    seq(|s|, i requires 0 <= i < |s| => if s[i] == ' ' then '_' else s[i])
  }

  /** The script's `sanitize_name(name)`: no longer than the name, and every
      character left is a clean one (kept by the substitution, and neither a
      space nor other whitespace), so the result is one path component. */
  function SanitizeName(name: string): (r: string)
    ensures |r| <= |name|
    ensures forall i :: 0 <= i < |r| ==> Clean(r[i])
  {
    CleanAfterStrip(MapKept(name));
    SpacesToUnderscores(StripSpaces(MapKept(name)))
  }

  /** Stripping and replacing spaces leaves only clean characters of a
      string whose characters the substitution already kept. */
  lemma CleanAfterStrip(m: string)
    requires forall i :: 0 <= i < |m| ==> KeptChar(m[i])
    ensures forall i :: 0 <= i < |SpacesToUnderscores(StripSpaces(m))| ==> Clean(SpacesToUnderscores(StripSpaces(m))[i])
  {
    var st := StripSpaces(m);
    forall i | 0 <= i < |st| && st[i] != ' '
      ensures Clean(st[i])
    {
      assert st[i] in m;
      if IsPySpace(st[i]) {
        KeptWhitespaceIsSpace(st[i]);
      }
    }
  }

  predicate AllSpace(s: string) {
    forall i :: 0 <= i < |s| ==> s[i] == ' '
  }

  /** Only `' '` among the kept characters is whitespace. */
  lemma KeptWhitespaceIsSpace(c: char)
    requires KeptChar(c) && IsPySpace(c)
    ensures c == ' '
  {
  }

  /** What one character of the name becomes once it survives the strip: a
      kept character other than the space stays, anything else becomes `_`. */
  function Cleaned(c: char): (r: char)
    ensures KeptChar(r) && r != ' ' && !IsPySpace(r)
    ensures r == c || r == '_'
  {
    if KeptChar(c) && c != ' ' then
      assert !IsPySpace(c) by {
        if IsPySpace(c) {
          KeptWhitespaceIsSpace(c);
        }
      }
      c
    else '_'
  }

  /**
   * The name is cut into leading spaces, a middle and trailing spaces; the
   * result has one character per character of the middle: a kept character
   * stays, a space or any other character becomes `_`. So its length is the
   * input's less the spaces at its ends.
   */
  lemma SanitizeNameShape(name: string) returns (a: nat, b: nat)
    ensures a + b <= |name|
    ensures AllSpace(name[..a]) && AllSpace(name[|name| - b..])
    ensures |SanitizeName(name)| == |name| - a - b
    ensures forall i :: 0 <= i < |SanitizeName(name)| ==> SanitizeName(name)[i] == Cleaned(name[a + i])
  {
    var m := MapKept(name);
    var st := StripSpaces(m);
    var k := StripIsSlice(m, IsPySpace);
    a := k;
    b := |m| - k - |st|;
    forall i | 0 <= i < a
      ensures name[..a][i] == ' '
    {
      KeptWhitespaceIsSpace(m[i]);
    }
    forall i | |name| - b <= i < |name|
      ensures name[i] == ' '
    {
      KeptWhitespaceIsSpace(m[i]);
    }
    var tail := name[|name| - b..];
    assert forall i :: 0 <= i < |tail| ==> tail[i] == name[|name| - b + i];
    var r := SanitizeName(name);
    forall i | 0 <= i < |r|
      ensures r[i] == Cleaned(name[a + i])
    {
      assert st[i] == m[k + i];
    }
  }

  /** A character sanitizing leaves as it is and that stripping cannot remove. */
  predicate Clean(c: char) {
    KeptChar(c) && c != ' ' && !IsPySpace(c)
  }

  /** A name made only of clean characters is its own sanitized form. */
  lemma CleanNameFixed(r: string)
    requires forall i :: 0 <= i < |r| ==> Clean(r[i])
    ensures SanitizeName(r) == r
  {
    MapKeptNoop(r);
    if r != [] {
      assert Clean(r[0]) && Clean(r[|r| - 1]);
    }
    StripNoop(r, IsPySpace);
    SpacesNoop(r);
  }

  lemma MapKeptNoop(r: string)
    requires forall i :: 0 <= i < |r| ==> Clean(r[i])
    ensures MapKept(r) == r
  {
    assert forall i :: 0 <= i < |r| ==> KeptChar(r[i]);
  }

  lemma SpacesNoop(r: string)
    requires forall i :: 0 <= i < |r| ==> Clean(r[i])
    ensures SpacesToUnderscores(r) == r
  {
    assert forall i :: 0 <= i < |r| ==> r[i] != ' ';
  }

  /** `sanitize_name(sanitize_name(x)) == sanitize_name(x)`: a sanitized
      name names the same directory when sanitized again. */
  lemma SanitizeNameIdempotent(name: string)
    ensures SanitizeName(SanitizeName(name)) == SanitizeName(name)
  {
    CleanNameFixed(SanitizeName(name));
  }

  // -----------------------------------------------------------------------
  // The panel grid

  const Columns: nat := 5

  /** `math.ceil(N / ncols)`. */
  function GridRows(n: nat): (rows: nat)
    ensures rows * Columns >= n
    ensures n > 0 ==> rows * Columns - n < Columns
    ensures n == 0 ==> rows == 0
  {
    (n + Columns - 1) / Columns
  }

  /** What one axis of the grid shows: the target pixel file of one cadence,
      or nothing (turned off). */
  datatype Panel = Cadence(index: nat) | Off

  /**
   * The grid of `N` panels: `plt.subplots(nrows, 5)` with `nrows =
   * ceil(N / 5)`, then axis `i` shows `tpf[i]` while `i < N` and is turned
   * off after. With no file at all there are no rows, and `subplots` raises:
   * None.
   */
  method PanelLayout(n: nat) returns (grid: Option<seq<Panel>>)
    ensures n == 0 <==> grid.None?
    ensures grid.Some? ==> |grid.value| == GridRows(n) * Columns
    ensures grid.Some? ==> forall i :: 0 <= i < |grid.value| ==>
      grid.value[i] == if i < n then Cadence(i) else Off
  {
    var rows := GridRows(n);
    if rows == 0 {
      return None;
    }
    var axes: seq<Panel> := [];
    var i := 0;
    while i < rows * Columns
      invariant 0 <= i <= rows * Columns
      invariant |axes| == i
      invariant forall j :: 0 <= j < i ==> axes[j] == if j < n then Cadence(j) else Off
    {
      if i < n {
        axes := axes + [Cadence(i)];
      } else {
        axes := axes + [Off];
      }
      i := i + 1;
    }
    grid := Some(axes);
  }

  /** The grid holds every cadence, each once, and fewer than a full row of
      empty panels. */
  lemma GridCoversAll(n: nat)
    requires n > 0
    ensures GridRows(n) * Columns >= n
    ensures GridRows(n) * Columns - n < Columns
    ensures (GridRows(n) - 1) * Columns < n
  {
  }

  // -----------------------------------------------------------------------
  // Period agreement

  const Tolerance: real := 0.1

  /** The periods of the quarters whose periodogram did not raise, in order. */
  function Successes(results: seq<Option<real>>): (r: seq<real>)
    ensures |r| <= |results|
  {
    if results == [] then []
    else Successes(results[..|results| - 1])
         + (if results[|results| - 1].Some? then [results[|results| - 1].value] else [])
  }

  /** The loop that fills `periods`: one append per quarter whose BLS
      search succeeded, a skip (and a printed message) for one that raised. */
  method CollectPeriods(results: seq<Option<real>>) returns (periods: seq<real>)
    ensures periods == Successes(results)
  {
    periods := [];
    var i := 0;
    while i < |results|
      invariant 0 <= i <= |results|
      invariant periods == Successes(results[..i])
    {
      assert results[..i + 1][..i] == results[..i];
      if results[i].Some? {
        periods := periods + [results[i].value];
      }
      i := i + 1;
    }
    assert results[..i] == results;
  }

  lemma {:induction false} SuccessesCount(results: seq<Option<real>>)
    ensures |Successes(results)| == |results| <==> forall i :: 0 <= i < |results| ==> results[i].Some?
    ensures forall p :: p in Successes(results) ==> Some(p) in results
    decreases |results|
  {
    if results != [] {
      var init := results[..|results| - 1];
      SuccessesCount(init);
      assert forall x :: x in init ==> x in results;
      if |Successes(results)| == |results| {
        assert |Successes(init)| == |init|;
      }
    }
  }

  function Abs(x: real): real {
    if x < 0.0 then -x else x
  }

  predicate WithinTolerance(p: real, expected: real) {
    Abs(p - expected) < Tolerance
  }

  /** `[p for p in periods if abs(p - expected) < tol]`. */
  function FilterPeriods(periods: seq<real>, expected: real): (r: seq<real>)
    ensures |r| <= |periods|
    ensures forall p :: p in r ==> p in periods && WithinTolerance(p, expected)
    ensures forall p :: p in periods && WithinTolerance(p, expected) ==> p in r
  {
    if periods == [] then []
    else (if WithinTolerance(periods[0], expected) then [periods[0]] else [])
         + FilterPeriods(periods[1..], expected)
  }

  /** The filter works element by element, so it keeps the original order. */
  lemma {:induction false} FilterAppend(a: seq<real>, b: seq<real>, expected: real)
    ensures FilterPeriods(a + b, expected) == FilterPeriods(a, expected) + FilterPeriods(b, expected)
    decreases |a|
  {
    if a == [] {
      assert a + b == b;
    } else {
      assert (a + b)[0] == a[0];
      assert (a + b)[1..] == a[1..] + b;
      FilterAppend(a[1..], b, expected);
    }
  }

  function Sum(s: seq<real>): real {
    if s == [] then 0.0 else s[0] + Sum(s[1..])
  }

  /** What the script reports about the quarter periods. */
  datatype PeriodReport = NoPeriods | NoneWithinTolerance | MeanPeriod(average: real, kept: seq<real>)

  /** The averaging guard: a mean only of a non-empty filtered list, and two
      distinct messages for the two ways of having none. */
  function Report(periods: seq<real>, expected: real): (r: PeriodReport)
    ensures r.NoPeriods? <==> periods == []
    ensures r.NoneWithinTolerance? <==> periods != [] && forall p :: p in periods ==> !WithinTolerance(p, expected)
    ensures r.MeanPeriod? ==> r.kept == FilterPeriods(periods, expected) && r.kept != []
  {
    if periods == [] then NoPeriods
    else
      var kept := FilterPeriods(periods, expected);
      if kept == [] then NoneWithinTolerance
      else
        assert kept[0] in kept;
        MeanPeriod(Sum(kept) / (|kept| as real), kept)
  }

  lemma {:induction false} SumBounds(s: seq<real>, lo: real, hi: real)
    requires forall p :: p in s ==> lo < p < hi
    ensures s != [] ==> (|s| as real) * lo < Sum(s) < (|s| as real) * hi
    decreases |s|
  {
    if s != [] {
      assert s[0] in s;
      assert forall p :: p in s[1..] ==> p in s;
      SumBounds(s[1..], lo, hi);
    }
  }

  /** A total strictly between `n * lo` and `n * hi` averages to strictly
      between `lo` and `hi`. */
  lemma AverageBetween(total: real, n: real, lo: real, hi: real)
    requires n > 0.0 && n * lo < total < n * hi
    ensures lo < total / n < hi
  {
    var avg := total / n;
    assert avg * n == total;
    if avg <= lo {
      MulMonotone(avg, lo, n);
    }
    if avg >= hi {
      MulMonotone(hi, avg, n);
    }
  }

  lemma MulMonotone(x: real, y: real, n: real)
    requires x <= y && n > 0.0
    ensures x * n <= y * n
  {
    assert y * n - x * n == (y - x) * n;
  }

  /** The mean of values strictly between `lo` and `hi` is strictly between
      them too. */
  lemma MeanBetween(s: seq<real>, lo: real, hi: real)
    requires s != []
    requires forall p :: p in s ==> lo < p < hi
    ensures lo < Sum(s) / (|s| as real) < hi
  {
    SumBounds(s, lo, hi);
    AverageBetween(Sum(s), |s| as real, lo, hi);
  }

  /** The average of the kept periods agrees with the catalog period within
      the same tolerance. */
  lemma MeanWithinTolerance(periods: seq<real>, expected: real)
    requires Report(periods, expected).MeanPeriod?
    ensures WithinTolerance(Report(periods, expected).average, expected)
  {
    var kept := FilterPeriods(periods, expected);
    var lo, hi := expected - Tolerance, expected + Tolerance;
    forall p | p in kept
      ensures lo < p < hi
    {
      assert WithinTolerance(p, expected);
    }
    MeanBetween(kept, lo, hi);
  }
}
