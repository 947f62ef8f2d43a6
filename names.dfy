/**
 * Output naming of the transit pipeline: `sanitize` turns a planet name into
 * a file-system-safe base name, `fold_plot_save` writes `<base>.png` and
 * `<base>.csv`, and `already_done` treats the presence of both files as
 * proof that the planet was completed by an earlier run.
 */
module Names {
  import opened Common

  /** The class `[\w\-\.]` that survives the first substitution. */
  predicate SafeChar(c: char) {
    IsWordChar(c) || c == '-' || c == '.'
  }

  predicate IsUnderscore(c: char) { c == '_' }

  predicate AllSafe(s: string) {
    forall c :: c in s ==> SafeChar(c)
  }

  predicate NoDoubleUnderscore(s: string) {
    forall i :: 0 <= i < |s| - 1 ==> !(s[i] == '_' && s[i + 1] == '_')
  }

  /**
   * `re.sub(r"[^\w\-\.]+", "_", name)`: every maximal run of characters
   * outside SafeChar becomes a single `_`. `inRun` says that the character
   * before `s` was already part of a replaced run.
   */
  function CollapseUnsafe(s: string, inRun: bool): (r: string)
    ensures AllSafe(r)
    ensures |r| <= |s|
  {
    if s == [] then []
    else if SafeChar(s[0]) then [s[0]] + CollapseUnsafe(s[1..], false)
    else if inRun then CollapseUnsafe(s[1..], true)
    else ['_'] + CollapseUnsafe(s[1..], true)
  }

  /**
   * `re.sub(r"_+", "_", s)`: every run of underscores becomes one.
   * `afterUnderscore` says that an underscore was just emitted.
   */
  function SqueezeUnderscores(s: string, afterUnderscore: bool): (r: string)
    ensures forall c :: c in r ==> c in s
    ensures NoDoubleUnderscore(r)
    ensures afterUnderscore && r != [] ==> r[0] != '_'
  {
    if s == [] then []
    else if s[0] == '_' then
      if afterUnderscore then SqueezeUnderscores(s[1..], true)
      else ['_'] + SqueezeUnderscores(s[1..], true)
    else [s[0]] + SqueezeUnderscores(s[1..], false)
  }

  /** The pipeline's `sanitize(name)`. */
  function Sanitize(name: string): (r: string)
    ensures AllSafe(r)
    ensures NoDoubleUnderscore(r)
    ensures r != [] ==> r[0] != '_' && r[|r| - 1] != '_'
  {
    var squeezed := SqueezeUnderscores(CollapseUnsafe(name, false), false);
    var r := Strip(squeezed, IsUnderscore);
    TrimStartSlice(squeezed);
    r
  }

  /** Removing `_` from both ends keeps a string free of `__`. */
  lemma TrimStartSlice(s: string)
    requires NoDoubleUnderscore(s)
    ensures NoDoubleUnderscore(Strip(s, IsUnderscore))
  {
    var r := Strip(s, IsUnderscore);
    var k := StripIsSlice(s, IsUnderscore);
    assert forall i :: 0 <= i < |r| ==> r[i] == s[k + i];
  }

  /** The file name `fold_plot_save` gives the plot of `planet`. */
  function PngName(planet: string): string {
    Sanitize(planet) + ".png"
  }

  /** The file name `fold_plot_save` gives the folded table of `planet`. */
  function CsvName(planet: string): string {
    Sanitize(planet) + ".csv"
  }

  /**
   * `already_done(planet)`: the png/ and csv/ directory listings both hold
   * the planet's output file.
   */
  predicate AlreadyDone(planet: string, pngs: set<string>, csvs: set<string>) {
    PngName(planet) in pngs && CsvName(planet) in csvs
  }

  // ---------------------------------------------------------------------
  // Idempotence: a sanitized name passes through every step unchanged.

  lemma {:induction false} CollapseSafeNoop(s: string, inRun: bool)
    requires AllSafe(s)
    ensures CollapseUnsafe(s, inRun) == s
    decreases |s|
  {
    if s != [] {
      CollapseSafeNoop(s[1..], false);
    }
  }

  lemma {:induction false} SqueezeNoop(s: string, afterUnderscore: bool)
    requires NoDoubleUnderscore(s)
    requires afterUnderscore && s != [] ==> s[0] != '_'
    ensures SqueezeUnderscores(s, afterUnderscore) == s
    decreases |s|
  {
    if s != [] {
      SqueezeNoop(s[1..], s[0] == '_');
    }
  }

  /** `sanitize(sanitize(x)) == sanitize(x)`. */
  lemma SanitizeIdempotent(name: string)
    ensures Sanitize(Sanitize(name)) == Sanitize(name)
  {
    var s := Sanitize(name);
    CollapseSafeNoop(s, false);
    SqueezeNoop(s, false);
    StripNoop(s, IsUnderscore);
  }

  /** A name already made of safe characters, single underscores and no
      underscore at either end is its own sanitized form. */
  lemma SanitizeFixedPoint(name: string)
    requires AllSafe(name) && NoDoubleUnderscore(name)
    requires name != [] ==> name[0] != '_' && name[|name| - 1] != '_'
    ensures Sanitize(name) == name
  {
    CollapseSafeNoop(name, false);
    SqueezeNoop(name, false);
    StripNoop(name, IsUnderscore);
  }

  // ---------------------------------------------------------------------
  // Content: sanitizing only inserts and removes separators; the other safe
  // characters are kept, in order.

  /** The characters of `s` that are safe and not the separator `_`. */
  function Content(s: string): string {
    if s == [] then []
    else if SafeChar(s[0]) && s[0] != '_' then [s[0]] + Content(s[1..])
    else Content(s[1..])
  }

  lemma {:induction false} ContentAppend(a: string, b: string)
    ensures Content(a + b) == Content(a) + Content(b)
    decreases |a|
  {
    if a != [] {
      assert (a + b)[0] == a[0];
      assert (a + b)[1..] == a[1..] + b;
      ContentAppend(a[1..], b);
      if SafeChar(a[0]) && a[0] != '_' {
        calc {
          Content(a + b);
          [a[0]] + Content(a[1..] + b);
          [a[0]] + (Content(a[1..]) + Content(b));
          ([a[0]] + Content(a[1..])) + Content(b);
        }
      }
    } else {
      assert a + b == b;
    }
  }

  lemma {:induction false} ContentOfUnderscores(s: string)
    requires forall i :: 0 <= i < |s| ==> s[i] == '_'
    ensures Content(s) == []
    decreases |s|
  {
    if s != [] {
      ContentOfUnderscores(s[1..]);
    }
  }

  lemma {:induction false} CollapseContent(s: string, inRun: bool)
    ensures Content(CollapseUnsafe(s, inRun)) == Content(s)
    decreases |s|
  {
    if s != [] {
      var rest := s[1..];
      if SafeChar(s[0]) {
        CollapseContent(rest, false);
        ContentAppend([s[0]], CollapseUnsafe(rest, false));
      } else if inRun {
        CollapseContent(rest, true);
      } else {
        CollapseContent(rest, true);
        ContentAppend(['_'], CollapseUnsafe(rest, true));
      }
    }
  }

  lemma {:induction false} SqueezeContent(s: string, afterUnderscore: bool)
    ensures Content(SqueezeUnderscores(s, afterUnderscore)) == Content(s)
    decreases |s|
  {
    if s != [] {
      var rest := s[1..];
      if s[0] == '_' {
        SqueezeContent(rest, true);
        if !afterUnderscore {
          ContentAppend(['_'], SqueezeUnderscores(rest, true));
        }
      } else {
        SqueezeContent(rest, false);
        ContentAppend([s[0]], SqueezeUnderscores(rest, false));
      }
    }
  }

  lemma StripContent(s: string)
    ensures Content(Strip(s, IsUnderscore)) == Content(s)
  {
    var k := StripIsSlice(s, IsUnderscore);
    ContentBetweenUnderscores(s, k, k + |Strip(s, IsUnderscore)|);
  }

  /** A string whose characters before `k` and from `j` on are underscores
      has the content of its middle. */
  lemma ContentBetweenUnderscores(s: string, k: nat, j: nat)
    requires k <= j <= |s|
    requires forall i :: 0 <= i < k ==> s[i] == '_'
    requires forall i :: j <= i < |s| ==> s[i] == '_'
    ensures Content(s[k..j]) == Content(s)
  {
    SplitAround(s, k, j);
    var front, back := s[..k], s[j..];
    assert forall i :: 0 <= i < |front| ==> front[i] == s[i];
    assert forall i :: 0 <= i < |back| ==> back[i] == s[j + i];
    ContentAroundUnderscores(front, s[k..j], back);
  }

  /** A sequence is its front, middle and back. */
  lemma SplitAround(s: string, k: nat, j: nat)
    requires k <= j <= |s|
    ensures s == s[..k] + s[k..j] + s[j..]
  {
  }

  /** Underscores around a string add nothing to its content. */
  lemma ContentAroundUnderscores(front: string, mid: string, back: string)
    requires forall i :: 0 <= i < |front| ==> front[i] == '_'
    requires forall i :: 0 <= i < |back| ==> back[i] == '_'
    ensures Content(front + mid + back) == Content(mid)
  {
    ContentAppend(front + mid, back);
    ContentAppend(front, mid);
    ContentOfUnderscores(front);
    ContentOfUnderscores(back);
  }

  /** Sanitizing keeps every letter, digit, `-` and `.` of the name, in order,
      and drops every other character except the `_` separators. */
  lemma SanitizeKeepsContent(name: string)
    ensures Content(Sanitize(name)) == Content(name)
  {
    var c := CollapseUnsafe(name, false);
    CollapseContent(name, false);
    SqueezeContent(c, false);
    StripContent(SqueezeUnderscores(c, false));
  }

  /** Two planets whose names sanitize alike share their output files, so the
      skip check of one sees the outputs of the other. */
  lemma SameBaseSameFiles(p: string, q: string, pngs: set<string>, csvs: set<string>)
    requires Sanitize(p) == Sanitize(q)
    ensures AlreadyDone(p, pngs, csvs) <==> AlreadyDone(q, pngs, csvs)
  {
  }

  /** `already_done` looks at the very names `fold_plot_save` writes: after
      both are written the planet counts as done, whatever else is there. */
  lemma WrittenMeansDone(planet: string, pngs: set<string>, csvs: set<string>)
    ensures AlreadyDone(planet, pngs + {PngName(planet)}, csvs + {CsvName(planet)})
  {
  }
}
