/**
 * The output-name guard at the top of `main`: the run goes on only when the
 * last five characters of the output name are `.html`.
 */
module OutputPath {

  const HtmlSuffix: string := ".html"

  /**
   * Python's `s[-n:]` for a positive `n`: the last `n` characters of `s`, or
   * all of `s` when it is shorter than `n`.
   */
  function LastChars(s: string, n: nat): (r: string)
    requires n > 0
    ensures |r| == if |s| < n then |s| else n
    ensures r == s[|s| - |r|..]
  {
    if |s| < n then s else s[|s| - n..]
  }

  /** The output-name test: the last five characters (all of a shorter name) are `.html`. */
  predicate AcceptsOutputPath(path: string) {
    LastChars(path, 5) == HtmlSuffix
  }

  /** The guard is exactly "ends with `.html`", short names included. */
  lemma AcceptsIffEndsWithHtml(path: string)
    ensures AcceptsOutputPath(path) <==> |path| >= |HtmlSuffix| && path[|path| - |HtmlSuffix|..] == HtmlSuffix
  {
    if |path| < 5 {
      assert |LastChars(path, 5)| < 5;
    }
  }

  /** A name shorter than `.html` itself is always rejected. */
  lemma ShortPathRejected(path: string)
    requires |path| < |HtmlSuffix|
    ensures !AcceptsOutputPath(path)
  {
    assert |LastChars(path, 5)| == |path|;
  }

  /** Any stem followed by `.html` is accepted, and every accepted name is such a stem. */
  lemma AcceptsStemPlusHtml(stem: string)
    ensures AcceptsOutputPath(stem + HtmlSuffix)
  {
    var path := stem + HtmlSuffix;
    assert path[|path| - 5..] == HtmlSuffix;
  }

  lemma AcceptedIsStemPlusHtml(path: string)
    requires AcceptsOutputPath(path)
    ensures |path| >= |HtmlSuffix| && path == path[..|path| - |HtmlSuffix|] + HtmlSuffix
  {
    AcceptsIffEndsWithHtml(path);
    assert path == path[..|path| - 5] + path[|path| - 5..];
  }

  /** A few concrete names: a text file, a name that is only the bare extension, the default name. */
  lemma Examples()
    ensures !AcceptsOutputPath("map.txt")
    ensures !AcceptsOutputPath("html")
    ensures !AcceptsOutputPath("map.htm")
    ensures !AcceptsOutputPath("map.HTML")
    ensures AcceptsOutputPath(".html")
    ensures AcceptsOutputPath("strava_local_heatmap.html")
  {
  }
}
