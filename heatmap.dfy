/**
 * `main` from the output-name check to the colour map: the two guards that
 * stop the run, the trackpoint scan, and what is handed to the heat layer.
 * Listing the input directory and opening files are recorded as a trace of
 * file accesses, so that the model can say which of them a run performs.
 */
module Heatmap {
  import opened Results
  import opened OutputPath
  import opened Numerals
  import opened Trackpoints
  import opened ColorMap

  /** The ways a run stops early: the two `quit()` calls and the failing index on a bad line. */
  datatype RunError = InvalidOutputPath | NoInputFiles | MalformedRecord(file: nat, line: nat)

  /** Everything a finished run passes to the heat layer and the map it saves. */
  datatype HeatLayer = HeatLayer(points: seq<Point>, radius: int, blur: int, gradient: map<nat, string>, output: string)

  /** `glob.glob` over the input directory, and `open` of the file at an index of its result. */
  datatype FileAccess = ListFiles | OpenFile(index: nat)

  function OpenFiles(n: nat): seq<FileAccess> {
    seq(n, k requires 0 <= k < n => OpenFile(k))
  }

  /** The outcome of one run, given the output name and the listed files' lines. */
  function Pipeline(output: string, files: seq<seq<string>>, radius: int, blur: int): Result<HeatLayer, RunError> {
    if !AcceptsOutputPath(output) then Err(InvalidOutputPath)
    else if files == [] then Err(NoInputFiles)
    else
      match TrackPoints(files)
      case Err(Malformed(f, i)) => Err(MalformedRecord(f, i))
      case Ok(ps) => Ok(HeatLayer(ps, radius, blur, HeatmapGradient(), output))
  }

  /**
   * One run of `main`. A rejected output name stops it before the directory is
   * listed; an empty listing stops it before any file is opened; otherwise the
   * files are opened in listing order, up to the one holding the first bad line.
   */
  method Run(output: string, files: seq<seq<string>>, radius: int, blur: int)
    returns (r: Result<HeatLayer, RunError>, trace: seq<FileAccess>)
    ensures r == Pipeline(output, files, radius, blur)
    ensures !AcceptsOutputPath(output) ==> trace == []
    ensures AcceptsOutputPath(output) && files == [] ==> trace == [ListFiles]
    ensures r.Ok? ==> trace == [ListFiles] + OpenFiles(|files|)
    ensures r.Err? && r.error.MalformedRecord? ==> trace == [ListFiles] + OpenFiles(r.error.file + 1)
  {
    if !AcceptsOutputPath(output) {
      return Err(InvalidOutputPath), [];
    }
    trace := [ListFiles];
    if files == [] {
      return Err(NoInputFiles), trace;
    }
    var points, count := ReadTrackpoints(files);
    trace := trace + OpenFiles(count);
    match points
    case Err(Malformed(f, i)) =>
      r := Err(MalformedRecord(f, i));
    case Ok(ps) =>
      r := Ok(HeatLayer(ps, radius, blur, HeatmapGradient(), output));
  }

  /**
   * How a run ends: a rejected name, and only that, gives InvalidOutputPath
   * whatever the files; an accepted name with an empty listing gives
   * NoInputFiles; otherwise the run finishes exactly when every line of every
   * file is well formed.
   */
  lemma RunOutcomes(output: string, files: seq<seq<string>>, radius: int, blur: int)
    ensures Pipeline(output, files, radius, blur) == Err(InvalidOutputPath) <==> !AcceptsOutputPath(output)
    ensures Pipeline(output, files, radius, blur) == Err(NoInputFiles) <==> AcceptsOutputPath(output) && files == []
    ensures Pipeline(output, files, radius, blur).Ok? <==>
      && AcceptsOutputPath(output) && files != []
      && forall f, i :: 0 <= f < |files| && 0 <= i < |files[f]| ==> WellFormedLine(files[f][i])
  {
    TrackPointsOkIff(files);
  }

  /**
   * A finished run hands over one point per marked line, in file order and
   * then line order, each the first two tokens of its line, together with the
   * fixed eleven-stop gradient and the radius and blur as given.
   */
  lemma RunPoints(output: string, files: seq<seq<string>>, radius: int, blur: int)
    requires Pipeline(output, files, radius, blur).Ok?
    ensures var layer, marked := Pipeline(output, files, radius, blur).value, MarkedLines(files);
      && |layer.points| == |marked|
      && (forall k :: 0 <= k < |marked| ==> IsPointOf(layer.points[k], marked[k]))
      && layer.gradient == HeatmapGradient() && layer.radius == radius && layer.blur == blur
      && layer.output == output
  {
    TrackPointsContents(files);
  }

  /** A run that fails on a line names the first malformed marked line of the listing. */
  lemma RunAbortsAtFirstMalformed(output: string, files: seq<seq<string>>, radius: int, blur: int)
    requires Pipeline(output, files, radius, blur).Err?
    requires Pipeline(output, files, radius, blur).error.MalformedRecord?
    ensures var e := Pipeline(output, files, radius, blur).error;
      && e.file < |files| && e.line < |files[e.file]|
      && IsTrackpointLine(files[e.file][e.line]) && |Tokens(files[e.file][e.line])| < 2
      && (forall j :: 0 <= j < e.line ==> WellFormedLine(files[e.file][j]))
      && (forall f, j :: 0 <= f < e.file && 0 <= j < |files[f]| ==> WellFormedLine(files[f][j]))
  {
    TrackPointsFirstError(files);
  }
}
