# Strava local heatmap: track ingestion

A Dafny model of the track-ingestion part of `main` in
`strava_local_heatmap_browser.py`: the check on the output name, the stop on
an empty file listing, the scan of GPX lines that turns every `<trkpt` line
into a point made of its first two numeric tokens, and the eleven-stop colour
map handed to the heat layer.

- `output_path.dfy` (module `OutputPath`): `html_file[-5:] == '.html'`, with
  Python's slice of a short string written out.
- `numerals.dfy` (module `Numerals`): `re.findall('-?\d*\.?\d+', line)` as an
  explicit scanner. `MatchEnd` follows the regular-expression engine's order
  of trying (greedy digits, then `.` and digits, else the digits alone);
  `ScanFrom` tries positions left to right and resumes after each match. The
  lemmas tie this to an independent description: every token is a numeral
  (`-?`, digits, at most one `.`, a final digit), it is the longest numeral
  starting where it starts, and no numeral starts at a position the scan
  passed over.
- `trackpoints.dfy` (module `Trackpoints`): the nested loop over files and
  lines as the method `ReadTrackpoints`, which appends to one list and is
  proved equal to the specification function `TrackPoints`; lemmas give the
  count, order and contents of the points and the first-error behaviour.
- `color_map.dfy` (module `ColorMap`): the gradient dictionary, keys as whole
  tenths, the key `t` mapped to the `t`-th colour of the list of stop colours.
- `heatmap.dfy` (module `Heatmap`): one run, `Run`, from the output-name check
  to the values given to the heat layer; it also returns the trace of file
  accesses (listing the directory, opening file `k`) the run performs.
- `scenarios.dfy` (module `Scenarios`): concrete lines and runs worked through.
- `results.dfy` (module `Results`): `Option` and `Result`.

Files and lines are inputs: a run receives, for each file the listing
returned, the sequence of its lines. Tokens stay text (`"45.0"`, `"-122.0"`);
a point is the pair of its first two tokens.

Some descriptions of this program also mention a skip ratio for dropping
points, several named gradients with an error for unknown names, and range
checks on radius, blur and opacity. The code has none of these: it has one
gradient, passes radius and blur through unchecked, and keeps every point. The
model follows the code.

## Model

| member | source | states |
|---|---|---|
| `OutputPath.LastChars` | strava_local_heatmap_browser.py:39 | Python's `s[-n:]` for a positive `n` (the only one the source uses is 5): the result has length `min(|s|, n)` and is the tail of `s` |
| `OutputPath.AcceptsOutputPath` | strava_local_heatmap_browser.py:39 | defines the output-name test as the last five characters (all of a shorter name) being `.html`; its meaning is proved in `AcceptsIffEndsWithHtml`, `ShortPathRejected`, `AcceptsStemPlusHtml` and `AcceptedIsStemPlusHtml` |
| `OutputPath.AcceptsIffEndsWithHtml` | strava_local_heatmap_browser.py:39-41 | the name is accepted iff it is at least five characters long and its last five are `.html` |
| `OutputPath.ShortPathRejected` | strava_local_heatmap_browser.py:39-41 | a name shorter than five characters is always rejected |
| `OutputPath.AcceptsStemPlusHtml` | strava_local_heatmap_browser.py:39 | every stem followed by `.html` is accepted, including the empty stem |
| `OutputPath.AcceptedIsStemPlusHtml` | strava_local_heatmap_browser.py:39 | every accepted name is some stem followed by `.html` |
| `OutputPath.Examples` | strava_local_heatmap_browser.py:39 | `map.txt`, `html`, `map.htm`, `map.HTML` are rejected; `.html` and the default output name are accepted |
| `Numerals.DigitsEnd` | strava_local_heatmap_browser.py:58 | the end of the longest run of digits from a position: everything before it is a digit and the character at it is not |
| `Numerals.BodyEnd` | strava_local_heatmap_browser.py:58 | a match of `\d*\.?\d+` is non-empty, stays in the line and is digits with at most one `.`, ending in a digit |
| `Numerals.MatchEnd` | strava_local_heatmap_browser.py:58 | a match tried at a position is non-empty, within the line, and a numeral `-?\d*\.?\d+` |
| `Numerals.BodyEndLongest` | strava_local_heatmap_browser.py:58 | any unsigned numeral starting at a position is no longer than the match found there, and a match exists |
| `Numerals.MatchEndLongest` | strava_local_heatmap_browser.py:58 | the match at a position is the longest numeral starting there, sign included |
| `Numerals.NoMatchNoNumeral` | strava_local_heatmap_browser.py:58 | where no match is found no numeral starts (a lone `-`, a `.` not followed by a digit, a letter) |
| `Numerals.ScanFrom` | strava_local_heatmap_browser.py:58 | the matches lie in the line at or after the start, each is the greedy match at its own start, and they are in order without overlapping |
| `Numerals.ScanFromSkipsNoMatch` | strava_local_heatmap_browser.py:58 | a position inside no match is one where no match starts: the scan skips nothing it could have matched |
| `Numerals.Tokens` | strava_local_heatmap_browser.py:58 | one token per match, and every token is a numeral |
| `Numerals.TokensAreFindAll` | strava_local_heatmap_browser.py:58 | the tokens are the line's non-overlapping numerals left to right, each as long as possible, with no numeral starting at any position between them |
| `Trackpoints.IsTrackpointLine` | strava_local_heatmap_browser.py:57 | defines the line test as `<trkpt` occurring anywhere in the line; `Scenarios.LinesMarked` shows a tag marked and `<trkseg>` not |
| `Trackpoints.MarkedIn` | strava_local_heatmap_browser.py:56-57 | the kept lines of a file all contain `<trkpt` and are no more than the file's lines |
| `Trackpoints.MarkedInIsFilter` | strava_local_heatmap_browser.py:56-57 | the kept lines are exactly the file's lines containing `<trkpt`, in file order: each kept line sits at a strictly increasing index, and a line is kept iff it contains `<trkpt` |
| `Trackpoints.NoMarkedLines` | strava_local_heatmap_browser.py:57 | a file with no line containing `<trkpt` keeps no line |
| `Trackpoints.FilePoints` | strava_local_heatmap_browser.py:55-60 | defines one file's outcome line by line: its points, or the index of its first bad line; its meaning is proved in `FilePointsOkIff`, `FilePointsContents` and `FilePointsFirstError` |
| `Trackpoints.TrackPoints` | strava_local_heatmap_browser.py:52-60 | defines the outcome over all files: the points in file order, or the first bad file and line; its meaning is proved in `TrackPointsOkIff`, `TrackPointsContents`, `TrackPointsFirstError` and `TrackPointsAppendOnly` |
| `Trackpoints.ReadTrackpoints` | strava_local_heatmap_browser.py:50-60 | the nested loop with its appending list gives exactly `TrackPoints(files)`; it opens every file when it finishes, and the files up to the failing one when it aborts |
| `Trackpoints.FilePointsErrorPersists` | strava_local_heatmap_browser.py:56-60 | once a bad line is reached in a file, reading more of that file does not change the outcome |
| `Trackpoints.TrackPointsErrorPersists` | strava_local_heatmap_browser.py:52-60 | once a bad line is reached, later files do not change the outcome: the run aborts |
| `Trackpoints.FilePointsOkIff` | strava_local_heatmap_browser.py:56-60 | a file is read to its end iff every marked line in it has at least two tokens |
| `Trackpoints.TrackPointsOkIff` | strava_local_heatmap_browser.py:52-60 | the scan finishes iff every marked line of every file has at least two tokens; otherwise it aborts and does not skip the line |
| `Trackpoints.FilePointsContents` | strava_local_heatmap_browser.py:56-60 | a file read to its end gives one point per marked line, in line order, each its line's first two tokens |
| `Trackpoints.TrackPointsContents` | strava_local_heatmap_browser.py:50-60 | the points number exactly the marked lines over all files, in file order and then line order, each its line's first two tokens with later tokens ignored |
| `Trackpoints.FilePointsFirstError` | strava_local_heatmap_browser.py:56-60 | a failing file fails at its first line that is marked and has fewer than two tokens |
| `Trackpoints.TrackPointsFirstError` | strava_local_heatmap_browser.py:52-60 | an aborted scan names a marked line with fewer than two tokens, and every line before it, in earlier files or earlier in its file, is well formed |
| `Trackpoints.TrackPointsAppendOnly` | strava_local_heatmap_browser.py:50-60 | the list only grows: the points after any first `k` files are a prefix of the final points |
| `Trackpoints.FileWithoutMarkerAddsNothing` | strava_local_heatmap_browser.py:55-57 | appending a file with no `<trkpt` line changes neither the points nor the outcome, and raises no error |
| `ColorMap.HeatmapGradient` | strava_local_heatmap_browser.py:65-76 | the stops are exactly 0.0, 0.1, ..., 1.0 (as tenths 0..10), and every colour is `#` and six hex digits |
| `ColorMap.GradientHasElevenStops` | strava_local_heatmap_browser.py:65-76 | the gradient has eleven distinct stops |
| `Heatmap.Pipeline` | strava_local_heatmap_browser.py:39-81 | defines the outcome of one run: the name check, then the empty-listing check, then the trackpoint scan, then the heat-layer values; its meaning is proved in `RunOutcomes`, `RunPoints` and `RunAbortsAtFirstMalformed` |
| `Heatmap.Run` | strava_local_heatmap_browser.py:39-81 | one run gives the outcome `Pipeline` describes; a rejected name lists no directory and opens no file; an empty listing opens no file; a finished run opens every file in order, an aborted one the files up to the failing one |
| `Heatmap.RunOutcomes` | strava_local_heatmap_browser.py:39-60 | a run stops with InvalidOutputPath iff the name is rejected, whatever the files; with NoInputFiles iff the name is good and the listing is empty; and finishes iff in addition every marked line has two tokens |
| `Heatmap.RunPoints` | strava_local_heatmap_browser.py:50-81 | a finished run hands the heat layer one point per marked line in order, the fixed gradient, and radius and blur as given |
| `Heatmap.RunAbortsAtFirstMalformed` | strava_local_heatmap_browser.py:52-60 | a run that fails on a line names the first marked line with fewer than two tokens |
| `Scenarios.TagTokens` | strava_local_heatmap_browser.py:58 | `<trkpt lat="45.0" lon="-122.0">` gives the tokens `45.0` and `-122.0`, and `<trkpt lat="46.5" lon="-121.3">` gives `46.5` and `-121.3` |
| `Scenarios.TokenizerCornerTokens` | strava_local_heatmap_browser.py:58 | `1.2.3` gives `1.2` and `.3`; `12.` gives `12`; `-` gives nothing |
| `Scenarios.LinesMarked` | strava_local_heatmap_browser.py:57 | a `<trkpt` tag is marked, and `<trkseg>` is not |
| `Scenarios.BareTagHasNoTokens` | strava_local_heatmap_browser.py:58 | `<trkpt>` has no tokens |
| `Scenarios.TwoTrackpoints` | strava_local_heatmap_browser.py:50-76 | a file with a segment line and two different trackpoint tags gives their two points in line order (`45.0, -122.0` then `46.5, -121.3`), with the gradient |
| `Scenarios.BareTagAborts` | strava_local_heatmap_browser.py:56-60 | a marked line without numbers in the second file aborts the run, naming that file and line |
| `Scenarios.EarlyStops` | strava_local_heatmap_browser.py:39-48 | `map.txt` stops the run whatever the files; an empty listing stops it with NoInputFiles |

## Left out

- Command-line parsing and its defaults (lines 94-105): the output name, radius, blur and the files' lines are parameters of `Run`.
- `glob.glob` (line 44): the listing and its order are an input; the model records only that the listing happens, as `ListFiles`.
- `open` and reading lines (line 55): each file is given as its sequence of lines. A read that fails (a decoding error, a directory that the glob matched) is not modelled, and neither is closing the file.
- `float()` at line 60: the points keep their tokens as text. Every token has the form `-?\d*\.?\d+`, which Python's `float` accepts, so this conversion cannot fail.
- folium's `Map`, `HeatMap`, `fit_bounds` and `save` (lines 79-88): a rendering library outside this model; the model stops at the values handed to `HeatMap` (points, radius, blur, gradient) and the output name.
- `webbrowser.open` and every `print` (lines 40, 47, 53, 62, 86, 90, 92): console and browser output.
- `quit()` and the uncaught `IndexError` at line 60: both end the run; the model returns them as the errors `InvalidOutputPath`, `NoInputFiles` and `MalformedRecord(file, line)`.
- IsDigit: only the ASCII digits `0`-`9`; Python 3's `\d` also matches the other Unicode decimal digits, which the model does not cover.
- HeatmapGradient: the stops are whole tenths, not the floating-point keys `0.0`, `0.1`, ... of the dictionary.
