/**
 * Light curves and their time zero-point. A light curve carries the format
 * tag of its time column; `get_time_offset` maps the tags "btjd" (TESS) and
 * "bkjd" (Kepler) to the fixed offset that turns the native time into a
 * barycentric Julian date, and every other tag to 0. The fold subtracts the
 * offset from a catalog epoch; the epoch estimator adds it to a native time.
 */
module TimeFrame {
  import opened Common

  const BtjdOffset: real := 2457000.0
  const BkjdOffset: real := 2454833.0

  /**
   * What probing the light curve for its format yields: the attribute
   * `time_format`, and `time.format` of its time column. Each is None when the
   * attribute is missing, is None, or raises on access.
   */
  datatype FormatProbe = FormatProbe(timeFormat: Option<string>, timeDotFormat: Option<string>)

  datatype Sample = Sample(time: real, flux: real, fluxErr: real)

  /** A light curve: its samples in time order and its time-format probe. */
  datatype LightCurve = LightCurve(samples: seq<Sample>, format: FormatProbe)

  /** The format tag `get_time_offset` ends up with: `time.format` is asked
      only when `time_format` gave None. */
  function FormatTag(p: FormatProbe): Option<string> {
    if p.timeFormat.Some? then p.timeFormat else p.timeDotFormat
  }

  /** Python's `str.lower()` on one character, for the characters whose lower
      case is an ASCII letter: A-Z and the Kelvin sign, which lowers to `k`. */
  function LowerChar(c: char): char {
    if 'A' <= c <= 'Z' then (c as int + 32) as char
    else if c == '\U{212A}' then 'k'
    else c
  }

  function Lower(s: string): string {
    seq(|s|, i requires 0 <= i < |s| => LowerChar(s[i]))
  }

  /** `get_time_offset(lc)`: an empty tag is falsy and gives 0. */
  function TimeOffset(p: FormatProbe): (r: real)
    ensures r == BtjdOffset || r == BkjdOffset || r == 0.0
  {
    match FormatTag(p)
    case None => 0.0
    case Some(f) =>
      if f == "" then 0.0
      else if Lower(f) == "btjd" then BtjdOffset
      else if Lower(f) == "bkjd" then BkjdOffset
      else 0.0
  }

  /** The epoch in the light curve's own time frame, as `fold_plot_save`
      computes it before folding (`t0_bjd - offset`). */
  function ToNative(t0: real, p: FormatProbe): (r: real)
    ensures ToCommon(r, p) == t0
  {
    t0 - TimeOffset(p)
  }

  /** A native time moved to the common frame, as the epoch estimator does
      (`t + offset`). The ensures only says that the offset is undone by
      subtracting it; the partner is `ToNative`, whose own ensures is the
      round trip through this function. */
  function ToCommon(t: real, p: FormatProbe): (r: real)
    ensures r - TimeOffset(p) == t
  {
    t + TimeOffset(p)
  }

  /** The characters that lower to the ASCII letter `lower`. */
  lemma LowerCharIs(c: char, lower: char)
    requires 'a' <= lower <= 'z'
    ensures LowerChar(c) == lower <==>
      c == lower || c as int == lower as int - 32 || (lower == 'k' && c == '\U{212A}')
  {
  }

  /** The TESS offset is chosen exactly for the four-letter spellings of
      "btjd" in any mix of cases. */
  lemma BtjdSpellings(f: string, other: Option<string>)
    ensures TimeOffset(FormatProbe(Some(f), other)) == BtjdOffset <==>
      |f| == 4 && f[0] in "bB" && f[1] in "tT" && f[2] in "jJ" && f[3] in "dD"
  {
    var l := Lower(f);
    if |f| == 4 && f[0] in "bB" && f[1] in "tT" && f[2] in "jJ" && f[3] in "dD" {
      assert l == "btjd";
    } else if l == "btjd" {
      assert l[0] == 'b' && l[1] == 't' && l[2] == 'j' && l[3] == 'd';
      LowerCharIs(f[0], 'b');
      LowerCharIs(f[1], 't');
      LowerCharIs(f[2], 'j');
      LowerCharIs(f[3], 'd');
      assert false;
    }
  }

  /** The Kepler offset is chosen exactly for the spellings of "bkjd" in any
      mix of cases, the Kelvin sign counting as a capital K. */
  lemma BkjdSpellings(f: string, other: Option<string>)
    ensures TimeOffset(FormatProbe(Some(f), other)) == BkjdOffset <==>
      |f| == 4 && f[0] in "bB" && f[1] in "kK\U{212A}" && f[2] in "jJ" && f[3] in "dD"
  {
    var l := Lower(f);
    if |f| == 4 && f[0] in "bB" && f[1] in "kK\U{212A}" && f[2] in "jJ" && f[3] in "dD" {
      assert l == "bkjd";
      assert l != "btjd";
    } else if l == "bkjd" {
      assert l[0] == 'b' && l[1] == 'k' && l[2] == 'j' && l[3] == 'd';
      LowerCharIs(f[0], 'b');
      LowerCharIs(f[1], 'k');
      LowerCharIs(f[2], 'j');
      LowerCharIs(f[3], 'd');
      assert false;
    }
  }

  /** `time.format` is ignored whenever `time_format` gave a value, even an
      empty one; only a missing `time_format` lets it decide. */
  lemma TimeFormatFirst(f: string, a: Option<string>, b: Option<string>)
    ensures TimeOffset(FormatProbe(Some(f), a)) == TimeOffset(FormatProbe(Some(f), b))
    ensures TimeOffset(FormatProbe(None, a)) == TimeOffset(FormatProbe(Some(f), b)) <==>
      TimeOffset(FormatProbe(a, None)) == TimeOffset(FormatProbe(Some(f), None))
  {
  }

  /** A missing or empty tag, or one that is neither "btjd" nor "bkjd",
      leaves the times where they are. */
  lemma UnknownFormatNoShift(p: FormatProbe)
    requires FormatTag(p) == None || FormatTag(p) == Some("")
          || (Lower(FormatTag(p).value) != "btjd" && Lower(FormatTag(p).value) != "bkjd")
    ensures TimeOffset(p) == 0.0
  {
  }
}
