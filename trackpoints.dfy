/**
 * The trackpoint scan of `main`: every line of every input file, in order; a
 * line that contains `<trkpt` gives one point made of its first two numeric
 * tokens, and a marked line with fewer than two tokens aborts the run.
 */
module Trackpoints {
  import opened Results
  import opened Numerals

  const Marker: string := "<trkpt"

  predicate OccursAt(line: string, k: nat, pattern: string) {
    k + |pattern| <= |line| && line[k..k + |pattern|] == pattern
  }

  /** The line contains the trackpoint marker anywhere. */
  predicate IsTrackpointLine(line: string) {
    exists k: nat | k <= |line| :: OccursAt(line, k, Marker)
  }

  /** One accumulated point: the first and second tokens of its line, kept as text. */
  datatype Point = Point(lat: string, lon: string)

  /** The marked line in file `file` at line `line` that had fewer than two tokens. */
  datatype Malformed = Malformed(file: nat, line: nat)

  /** A line the scan gets past: unmarked, or marked with at least two tokens. */
  predicate WellFormedLine(line: string) {
    !IsTrackpointLine(line) || |Tokens(line)| >= 2
  }

  /** `p` is the point a marked line gives: its first and second tokens. */
  predicate IsPointOf(p: Point, line: string) {
    var t := Tokens(line);
    |t| >= 2 && p == Point(t[0], t[1])
  }

  /** The points of one file read up to its end, or the index of its first bad line. */
  function FilePoints(lines: seq<string>): Result<seq<Point>, nat>
    decreases |lines|
  {
    if lines == [] then Ok([])
    else
      var last := lines[|lines| - 1];
      match FilePoints(lines[..|lines| - 1])
      case Err(i) => Err(i)
      case Ok(ps) =>
        if !IsTrackpointLine(last) then Ok(ps)
        else
          var t := Tokens(last);
          if |t| < 2 then Err(|lines| - 1) else Ok(ps + [Point(t[0], t[1])])
  }

  /** What the accumulating list holds after all files, or where the scan aborted. */
  function TrackPoints(files: seq<seq<string>>): Result<seq<Point>, Malformed>
    decreases |files|
  {
    if files == [] then Ok([])
    else
      match TrackPoints(files[..|files| - 1])
      case Err(m) => Err(m)
      case Ok(ps) =>
        match FilePoints(files[|files| - 1])
        case Err(i) => Err(Malformed(|files| - 1, i))
        case Ok(qs) => Ok(ps + qs)
  }

  /** The marked lines of one file, in order. */
  function MarkedIn(lines: seq<string>): (marked: seq<string>)
    ensures |marked| <= |lines|
    ensures forall k :: 0 <= k < |marked| ==> IsTrackpointLine(marked[k])
    decreases |lines|
  {
    if lines == [] then []
    else
      var last := lines[|lines| - 1];
      MarkedIn(lines[..|lines| - 1]) + (if IsTrackpointLine(last) then [last] else [])
  }

  /** The positions of a file's marked lines, in increasing order. */
  function MarkedIndices(lines: seq<string>): seq<nat>
    decreases |lines|
  {
    if lines == [] then []
    else
      var n := |lines| - 1;
      MarkedIndices(lines[..n]) + (if IsTrackpointLine(lines[n]) then [n] else [])
  }

  /**
   * The filter keeps exactly the marked lines, in line order: the kept lines
   * are the lines at strictly increasing positions, and a position is among
   * them exactly when its line contains the marker.
   */
  lemma {:induction false} MarkedInIsFilter(lines: seq<string>)
    ensures var idx, marked := MarkedIndices(lines), MarkedIn(lines);
      && |idx| == |marked|
      && (forall k :: 0 <= k < |idx| ==> idx[k] < |lines| && marked[k] == lines[idx[k]])
      && (forall k, l :: 0 <= k < l < |idx| ==> idx[k] < idx[l])
      && (forall i :: 0 <= i < |lines| ==> (IsTrackpointLine(lines[i]) <==> i in idx))
    decreases |lines|
  {
    if lines != [] {
      var n := |lines| - 1;
      var init := lines[..n];
      MarkedInIsFilter(init);
      assert forall i :: 0 <= i < n ==> init[i] == lines[i];
      var idx0 := MarkedIndices(init);
      assert forall k :: 0 <= k < |idx0| ==> idx0[k] < n;
    }
  }

  /** The marked lines of all files, file by file. */
  function MarkedLines(files: seq<seq<string>>): seq<string>
    decreases |files|
  {
    if files == [] then [] else MarkedLines(files[..|files| - 1]) + MarkedIn(files[|files| - 1])
  }

  /**
   * The loop of `main`: for each file, for each line, a marked line appends
   * its first two tokens to the list. Also says how many files were opened:
   * all of them, or those up to and including the one with the bad line.
   */
  method ReadTrackpoints(files: seq<seq<string>>) returns (r: Result<seq<Point>, Malformed>, filesOpened: nat)
    ensures r == TrackPoints(files)
    ensures r.Ok? ==> filesOpened == |files|
    ensures r.Err? ==> filesOpened == r.error.file + 1
  {
    var data: seq<Point> := [];
    var f := 0;
    while f < |files|
      invariant f <= |files|
      invariant TrackPoints(files[..f]) == Ok(data)
    {
      var lines := files[f];
      ghost var before := data;
      var i := 0;
      while i < |lines|
        invariant i <= |lines|
        invariant FilePoints(lines[..i]).Ok?
        invariant data == before + FilePoints(lines[..i]).value
      {
        var line := lines[i];
        FilePointsStep(lines, i);
        if IsTrackpointLine(line) {
          var tokens := Tokens(line);
          if |tokens| < 2 {
            FilePointsErrorPersists(lines, i + 1);
            TrackPointsFailsAt(files, f, i);
            TrackPointsErrorPersists(files, f + 1);
            return Err(Malformed(f, i)), f + 1;
          }
          data := data + [Point(tokens[0], tokens[1])];
        }
        i := i + 1;
      }
      assert lines[..i] == lines;
      TrackPointsStep(files, f);
      f := f + 1;
    }
    assert files[..f] == files;
    return Ok(data), f;
  }

  /** One more line of a file: what the scan of the loop body does to the outcome so far. */
  lemma FilePointsStep(lines: seq<string>, i: nat)
    requires i < |lines| && FilePoints(lines[..i]).Ok?
    ensures var ps, line, t := FilePoints(lines[..i]).value, lines[i], Tokens(lines[i]);
      FilePoints(lines[..i + 1]) ==
        if !IsTrackpointLine(line) then Ok(ps)
        else if |t| < 2 then Err(i)
        else Ok(ps + [Point(t[0], t[1])])
  {
    assert lines[..i + 1][..i] == lines[..i];
  }

  /** One more file read to its end: its points follow those of the files before it. */
  lemma TrackPointsStep(files: seq<seq<string>>, f: nat)
    requires f < |files| && TrackPoints(files[..f]).Ok? && FilePoints(files[f]).Ok?
    ensures TrackPoints(files[..f + 1]) == Ok(TrackPoints(files[..f]).value + FilePoints(files[f]).value)
  {
    assert files[..f + 1][..f] == files[..f];
  }

  /** A file that fails after files read to their end: the run fails at it. */
  lemma TrackPointsFailsAt(files: seq<seq<string>>, f: nat, line: nat)
    requires f < |files| && TrackPoints(files[..f]).Ok? && FilePoints(files[f]) == Err(line)
    ensures TrackPoints(files[..f + 1]) == Err(Malformed(f, line))
  {
    assert files[..f + 1][..f] == files[..f];
  }

  /** Once a prefix of a file has failed, the whole file fails the same way. */
  lemma {:induction false} FilePointsErrorPersists(lines: seq<string>, k: nat)
    requires k <= |lines| && FilePoints(lines[..k]).Err?
    ensures FilePoints(lines) == FilePoints(lines[..k])
    decreases |lines|
  {
    if k < |lines| {
      var init := lines[..|lines| - 1];
      assert init[..k] == lines[..k];
      FilePointsErrorPersists(init, k);
    } else {
      assert lines[..k] == lines;
    }
  }

  /** Once a prefix of the file list has failed, the whole run fails the same way. */
  lemma {:induction false} TrackPointsErrorPersists(files: seq<seq<string>>, k: nat)
    requires k <= |files| && TrackPoints(files[..k]).Err?
    ensures TrackPoints(files) == TrackPoints(files[..k])
    decreases |files|
  {
    if k < |files| {
      var init := files[..|files| - 1];
      assert init[..k] == files[..k];
      TrackPointsErrorPersists(init, k);
    } else {
      assert files[..k] == files;
    }
  }

  /** A file is read to its end exactly when each of its lines is well formed. */
  lemma {:induction false} FilePointsOkIff(lines: seq<string>)
    ensures FilePoints(lines).Ok? <==> forall i :: 0 <= i < |lines| ==> WellFormedLine(lines[i])
    decreases |lines|
  {
    if lines != [] {
      var init := lines[..|lines| - 1];
      FilePointsOkIff(init);
      assert forall i :: 0 <= i < |init| ==> init[i] == lines[i];
    }
  }

  /** The run gets through every file exactly when every line of every file is well formed. */
  lemma {:induction false} TrackPointsOkIff(files: seq<seq<string>>)
    ensures TrackPoints(files).Ok? <==>
      forall f, i :: 0 <= f < |files| && 0 <= i < |files[f]| ==> WellFormedLine(files[f][i])
    decreases |files|
  {
    if files != [] {
      var init := files[..|files| - 1];
      TrackPointsOkIff(init);
      FilePointsOkIff(files[|files| - 1]);
      assert forall f :: 0 <= f < |init| ==> init[f] == files[f];
    }
  }

  /** A file read to its end gives exactly one point per marked line, in line order. */
  lemma {:induction false} FilePointsContents(lines: seq<string>)
    requires FilePoints(lines).Ok?
    ensures var ps, marked := FilePoints(lines).value, MarkedIn(lines);
      |ps| == |marked| && forall k :: 0 <= k < |ps| ==> IsPointOf(ps[k], marked[k])
    decreases |lines|
  {
    if lines != [] {
      FilePointsContents(lines[..|lines| - 1]);
    }
  }

  /**
   * When no line is malformed, the points are exactly one per marked line over
   * all files, in file order and then line order, each made of the first two
   * tokens of its line.
   */
  lemma {:induction false} TrackPointsContents(files: seq<seq<string>>)
    requires TrackPoints(files).Ok?
    ensures var ps, marked := TrackPoints(files).value, MarkedLines(files);
      |ps| == |marked| && forall k :: 0 <= k < |ps| ==> IsPointOf(ps[k], marked[k])
    decreases |files|
  {
    if files != [] {
      var init, last := files[..|files| - 1], files[|files| - 1];
      TrackPointsContents(init);
      FilePointsContents(last);
      var ps, qs := TrackPoints(init).value, FilePoints(last).value;
      var m0, m1 := MarkedLines(init), MarkedIn(last);
      assert TrackPoints(files).value == ps + qs;
      assert MarkedLines(files) == m0 + m1;
      PointsOfConcat(ps, qs, m0, m1);
    }
  }

  /** Points matching their lines pairwise still do once both lists are extended alike. */
  lemma PointsOfConcat(ps: seq<Point>, qs: seq<Point>, m0: seq<string>, m1: seq<string>)
    requires |ps| == |m0| && forall k :: 0 <= k < |ps| ==> IsPointOf(ps[k], m0[k])
    requires |qs| == |m1| && forall k :: 0 <= k < |qs| ==> IsPointOf(qs[k], m1[k])
    ensures |ps + qs| == |m0 + m1|
    ensures forall k :: 0 <= k < |ps + qs| ==> IsPointOf((ps + qs)[k], (m0 + m1)[k])
  {
    forall k | 0 <= k < |ps + qs|
      ensures IsPointOf((ps + qs)[k], (m0 + m1)[k])
    {
      if k < |ps| {
        assert (ps + qs)[k] == ps[k] && (m0 + m1)[k] == m0[k];
      } else {
        assert (ps + qs)[k] == qs[k - |ps|] && (m0 + m1)[k] == m1[k - |ps|];
      }
    }
  }

  /** A file that fails, fails at its first malformed line. */
  lemma {:induction false} FilePointsFirstError(lines: seq<string>)
    requires FilePoints(lines).Err?
    ensures var i := FilePoints(lines).error;
      && i < |lines| && !WellFormedLine(lines[i])
      && forall j :: 0 <= j < i ==> WellFormedLine(lines[j])
    decreases |lines|
  {
    var init := lines[..|lines| - 1];
    assert forall j :: 0 <= j < |init| ==> init[j] == lines[j];
    if FilePoints(init).Err? {
      FilePointsFirstError(init);
    } else {
      FilePointsOkIff(init);
    }
  }

  /**
   * A run that aborts names the first malformed marked line: it exists, and
   * every line before it, in earlier files or earlier in its file, is well formed.
   */
  lemma {:induction false} TrackPointsFirstError(files: seq<seq<string>>)
    requires TrackPoints(files).Err?
    ensures var m := TrackPoints(files).error;
      && m.file < |files| && m.line < |files[m.file]|
      && !WellFormedLine(files[m.file][m.line])
      && (forall j :: 0 <= j < m.line ==> WellFormedLine(files[m.file][j]))
      && (forall f, j :: 0 <= f < m.file && 0 <= j < |files[f]| ==> WellFormedLine(files[f][j]))
    decreases |files|
  {
    var init := files[..|files| - 1];
    assert forall f :: 0 <= f < |init| ==> init[f] == files[f];
    if TrackPoints(init).Err? {
      TrackPointsFirstError(init);
    } else {
      TrackPointsOkIff(init);
      FilePointsFirstError(files[|files| - 1]);
    }
  }

  /**
   * The list only grows: the points after the first `k` files are a prefix of
   * the points after all of them.
   */
  lemma {:induction false} TrackPointsAppendOnly(files: seq<seq<string>>, k: nat)
    requires k <= |files| && TrackPoints(files).Ok?
    ensures TrackPoints(files[..k]).Ok? && TrackPoints(files[..k]).value <= TrackPoints(files).value
    decreases |files|
  {
    if k < |files| {
      var init := files[..|files| - 1];
      assert init[..k] == files[..k];
      TrackPointsAppendOnly(init, k);
    } else {
      assert files[..k] == files;
    }
  }

  /** A file without a marked line adds no point and raises no error. */
  lemma {:induction false} FileWithoutMarkerAddsNothing(files: seq<seq<string>>, lines: seq<string>)
    requires forall i :: 0 <= i < |lines| ==> !IsTrackpointLine(lines[i])
    ensures TrackPoints(files + [lines]) == TrackPoints(files)
  {
    FilePointsOkIff(lines);
    FilePointsContents(lines);
    NoMarkedLines(lines);
    assert FilePoints(lines) == Ok([]);
    var all := files + [lines];
    assert all[..|all| - 1] == files && all[|all| - 1] == lines;
    if TrackPoints(files).Ok? {
      assert TrackPoints(files).value + [] == TrackPoints(files).value;
    }
  }

  lemma {:induction false} NoMarkedLines(lines: seq<string>)
    requires forall i :: 0 <= i < |lines| ==> !IsTrackpointLine(lines[i])
    ensures MarkedIn(lines) == []
    decreases |lines|
  {
    if lines != [] {
      NoMarkedLines(lines[..|lines| - 1]);
    }
  }
}
