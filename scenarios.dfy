/** Concrete lines and runs, worked through the model. */
module Scenarios {
  import opened Results
  import opened OutputPath
  import opened Numerals
  import opened Trackpoints
  import opened ColorMap
  import opened Heatmap

  /** A character at which no match can start. */
  predicate CannotStart(c: char) {
    !IsDigit(c) && c != '.' && c != '-'
  }

  /** No match can start anywhere in `s[p..q]`, stated one position at a time. */
  predicate NoStartIn(s: string, p: nat, q: nat)
    requires p <= q <= |s|
    decreases q - p
  {
    p == q || (CannotStart(s[p]) && NoStartIn(s, p + 1, q))
  }

  lemma {:induction false} NoStartInFromAll(s: string, p: nat, q: nat)
    requires p <= q <= |s|
    requires forall k :: p <= k < q ==> CannotStart(s[k])
    ensures NoStartIn(s, p, q)
    decreases q - p
  {
    if p < q {
      NoStartInFromAll(s, p + 1, q);
    }
  }

  /** The scan passes over a stretch where no match can start. */
  lemma {:induction false} SkipFrom(s: string, p: nat, q: nat)
    requires p <= q <= |s|
    requires forall k :: p <= k < q ==> CannotStart(s[k])
    ensures ScanFrom(s, p) == ScanFrom(s, q)
  {
    NoStartInFromAll(s, p, q);
    SkipStretch(s, p, q);
  }

  lemma {:induction false} SkipStretch(s: string, p: nat, q: nat)
    requires p <= q <= |s| && NoStartIn(s, p, q)
    ensures ScanFrom(s, p) == ScanFrom(s, q)
    decreases q - p
  {
    if p < q {
      ScanSkipsOne(s, p);
      SkipStretch(s, p + 1, q);
    }
  }

  lemma ScanSkipsOne(s: string, p: nat)
    requires p < |s| && CannotStart(s[p])
    ensures ScanFrom(s, p) == ScanFrom(s, p + 1)
  {
    assert DigitsEnd(s, p) == p;
    assert MatchEnd(s, p).None?;
  }

  lemma TwoTokens(line: string, a: nat, b: nat, c: nat, d: nat)
    requires a <= b <= c <= d <= |line|
    requires ScanFrom(line, 0) == [Span(a, b), Span(c, d)]
    ensures Tokens(line) == [line[a..b], line[c..d]]
  {
  }

  const Opening: string := "<trkpt lat=\""
  const Between: string := "\" lon=\""
  const Closing: string := "\">"

  /** The line `<trkpt lat="LAT" lon="LON">`. */
  function TagLine(lat: string, lon: string): string {
    Opening + lat + Between + lon + Closing
  }

  const Tag: string := TagLine("45.0", "-122.0")
  const OtherTag: string := TagLine("46.5", "-121.3")

  /** The layout of both tags: `dd.d` at 12..16 and `-ddd.d` at 23..29, nothing numeric elsewhere. */
  predicate TagShaped(s: string) {
    && |s| == 31
    && (forall k :: 0 <= k < 12 ==> CannotStart(s[k]))
    && IsDigit(s[12]) && IsDigit(s[13]) && s[14] == '.' && IsDigit(s[15])
    && (forall k :: 16 <= k < 23 ==> CannotStart(s[k]))
    && s[23] == '-' && IsDigit(s[24]) && IsDigit(s[25]) && IsDigit(s[26]) && s[27] == '.' && IsDigit(s[28])
    && CannotStart(s[29]) && CannotStart(s[30])
  }

  predicate LatitudeShaped(lat: string) {
    |lat| == 4 && IsDigit(lat[0]) && IsDigit(lat[1]) && lat[2] == '.' && IsDigit(lat[3])
  }

  predicate LongitudeShaped(lon: string) {
    && |lon| == 6 && lon[0] == '-' && IsDigit(lon[1]) && IsDigit(lon[2]) && IsDigit(lon[3])
    && lon[4] == '.' && IsDigit(lon[5])
  }

  lemma FramingCannotStart()
    ensures |Opening| == 12 && forall k :: 0 <= k < |Opening| ==> CannotStart(Opening[k])
    ensures |Between| == 7 && forall k :: 0 <= k < |Between| ==> CannotStart(Between[k])
    ensures |Closing| == 2 && forall k :: 0 <= k < |Closing| ==> CannotStart(Closing[k])
  {
  }

  /** A tag line with fields of the expected layout is laid out like the tags, and starts with the marker. */
  lemma TagLineShaped(lat: string, lon: string)
    requires LatitudeShaped(lat) && LongitudeShaped(lon)
    ensures var s := TagLine(lat, lon);
      TagShaped(s) && s[12..16] == lat && s[23..29] == lon && OccursAt(s, 0, Marker)
  {
    FramingCannotStart();
    var s := TagLine(lat, lon);
    assert forall k :: 0 <= k < 12 ==> s[k] == Opening[k];
    assert forall k :: 12 <= k < 16 ==> s[k] == lat[k - 12];
    assert forall k :: 16 <= k < 23 ==> s[k] == Between[k - 16];
    assert forall k :: 23 <= k < 29 ==> s[k] == lon[k - 23];
    assert forall k :: 29 <= k < 31 ==> s[k] == Closing[k - 29];
    assert s[12..16] == lat;
    assert s[23..29] == lon;
    assert s[0..6] == Marker;
  }

  lemma TagsShaped()
    ensures TagShaped(Tag) && Tag[12..16] == "45.0" && Tag[23..29] == "-122.0"
    ensures TagShaped(OtherTag) && OtherTag[12..16] == "46.5" && OtherTag[23..29] == "-121.3"
    ensures OccursAt(Tag, 0, Marker) && OccursAt(OtherTag, 0, Marker)
  {
    TagLineShaped("45.0", "-122.0");
    TagLineShaped("46.5", "-121.3");
  }

  lemma TagShapeLatitude(s: string)
    requires TagShaped(s)
    ensures ScanFrom(s, 0) == ScanFrom(s, 12) && MatchEnd(s, 12) == Some(16)
  {
    SkipFrom(s, 0, 12);
    assert DigitsEnd(s, 12) == 14 by { assert DigitsEnd(s, 14) == 14; }
    assert DigitsEnd(s, 15) == 16 by { assert DigitsEnd(s, 16) == 16; }
  }

  lemma TagShapeLongitude(s: string)
    requires TagShaped(s)
    ensures ScanFrom(s, 16) == ScanFrom(s, 23) && MatchEnd(s, 23) == Some(29)
  {
    SkipFrom(s, 16, 23);
    assert DigitsEnd(s, 24) == 27 by {
      assert DigitsEnd(s, 27) == 27;
      assert DigitsEnd(s, 26) == 27;
      assert DigitsEnd(s, 25) == 27;
    }
    assert DigitsEnd(s, 28) == 29 by { assert DigitsEnd(s, 29) == 29; }
  }

  /** Any line laid out like the tags gives the latitude and then the longitude field. */
  lemma TagShapeTokens(s: string)
    requires TagShaped(s)
    ensures Tokens(s) == [s[12..16], s[23..29]]
  {
    TagShapeLatitude(s);
    TagShapeLongitude(s);
    SkipFrom(s, 29, 31);
    assert ScanFrom(s, 23) == [Span(23, 29)];
    assert ScanFrom(s, 0) == [Span(12, 16), Span(23, 29)];
    TwoTokens(s, 12, 16, 23, 29);
  }

  /** A trackpoint tag gives its latitude and then its longitude. */
  lemma TagTokens()
    ensures Tokens(Tag) == ["45.0", "-122.0"]
    ensures Tokens(OtherTag) == ["46.5", "-121.3"]
  {
    TagsShaped();
    TagShapeTokens(Tag);
    TagShapeTokens(OtherTag);
  }

  // The corner cases are stated over any string of the given layout and then
  // applied to the literals, so that the scanner is never unrolled on a
  // literal string.

  /** `d.d.d` splits after the first fraction: the second `.` starts a numeral of its own. */
  lemma FractionThenFraction(s: string)
    requires |s| == 5 && IsDigit(s[0]) && s[1] == '.' && IsDigit(s[2]) && s[3] == '.' && IsDigit(s[4])
    ensures ScanFrom(s, 0) == [Span(0, 3), Span(3, 5)]
    ensures Tokens(s) == [[s[0], s[1], s[2]], [s[3], s[4]]]
  {
    assert DigitsEnd(s, 0) == 1;
    assert DigitsEnd(s, 2) == 3;
    assert DigitsEnd(s, 4) == 5;
    assert ScanFrom(s, 3) == [Span(3, 5)];
    TwoTokens(s, 0, 3, 3, 5);
    assert s[0..3] == [s[0], s[1], s[2]] && s[3..5] == [s[3], s[4]];
  }

  /** `dd.`: a trailing `.` belongs to no numeral. */
  lemma TrailingDot(t: string)
    requires |t| == 3 && IsDigit(t[0]) && IsDigit(t[1]) && t[2] == '.'
    ensures ScanFrom(t, 0) == [Span(0, 2)]
    ensures Tokens(t) == [[t[0], t[1]]]
  {
    assert DigitsEnd(t, 0) == 2 by { assert DigitsEnd(t, 1) == 2; }
    assert ScanFrom(t, 2) == [];
    OneToken(t, 0, 2);
    assert t[0..2] == [t[0], t[1]];
  }

  /** A lone `-` is no numeral. */
  lemma LoneMinus(m: string)
    requires |m| == 1 && m[0] == '-'
    ensures ScanFrom(m, 0) == [] && Tokens(m) == []
  {
    assert DigitsEnd(m, 1) == 1;
    assert MatchEnd(m, 0).None?;
    assert ScanFrom(m, 1) == [];
  }

  /** `1.2.3` splits after the first fraction; a trailing `.` is left out; a lone `-` is no number. */
  lemma TokenizerCorners()
    ensures ScanFrom("1.2.3", 0) == [Span(0, 3), Span(3, 5)]
    ensures ScanFrom("12.", 0) == [Span(0, 2)]
    ensures ScanFrom("-", 0) == []
  {
    FractionThenFraction("1.2.3");
    TrailingDot("12.");
    LoneMinus("-");
  }

  lemma OneToken(line: string, a: nat, b: nat)
    requires a <= b <= |line|
    requires ScanFrom(line, 0) == [Span(a, b)]
    ensures Tokens(line) == [line[a..b]]
  {
  }

  lemma TokenizerCornerTokens()
    ensures Tokens("1.2.3") == ["1.2", ".3"]
    ensures Tokens("12.") == ["12"]
    ensures Tokens("-") == []
  {
    FractionThenFraction("1.2.3");
    TrailingDot("12.");
    LoneMinus("-");
  }

  const Segment: string := "<trkseg>"
  const BareTag: string := "<trkpt>"

  lemma LinesMarked()
    ensures IsTrackpointLine(Tag) && IsTrackpointLine(OtherTag) && IsTrackpointLine(BareTag)
    ensures !IsTrackpointLine(Segment)
  {
    TagsShaped();
    assert OccursAt(BareTag, 0, Marker);
    forall k: nat | k <= |Segment|
      ensures !OccursAt(Segment, k, Marker)
    {
      if k + 6 <= |Segment| {
        if k == 0 {
          assert Segment[k..k + 6][4] != Marker[4];
        } else {
          assert Segment[k..k + 6][0] != Marker[0];
        }
      }
    }
  }

  lemma BareTagHasNoTokens()
    ensures Tokens(BareTag) == []
  {
    SkipFrom(BareTag, 0, 7);
  }

  const Here: Point := Point("45.0", "-122.0")

  lemma OneTag(tag: string)
    requires IsTrackpointLine(tag) && Tokens(tag) == ["45.0", "-122.0"]
    ensures FilePoints([tag]) == Ok([Here])
  {
    var lines := [tag];
    assert lines[..0] == [];
    assert FilePoints(lines[..0]) == Ok([]);
    var t := Tokens(tag);
    assert Point(t[0], t[1]) == Here;
    assert [] + [Here] == [Here];
  }

  const There: Point := Point("46.5", "-121.3")

  // Stated over any lines with the given tokens, not over the literal lines:
  // the solver then works from the tokens and never unrolls the scanner on a
  // literal string. The same holds for TagThenBareTag below.
  lemma SegmentAndTwoTags(seg: string, tag: string, other: string)
    requires !IsTrackpointLine(seg)
    requires IsTrackpointLine(tag) && Tokens(tag) == ["45.0", "-122.0"]
    requires IsTrackpointLine(other) && Tokens(other) == ["46.5", "-121.3"]
    ensures TrackPoints([[seg, tag, other]]) == Ok([Here, There])
  {
    var lines := [seg, tag, other];
    var t, u := Tokens(tag), Tokens(other);
    assert Point(t[0], t[1]) == Here && Point(u[0], u[1]) == There;
    var l1 := lines[..1];
    assert l1[..0] == [];
    assert FilePoints(l1) == Ok([]);
    var l2 := lines[..2];
    assert l2[..1] == l1;
    assert FilePoints(l2) == Ok([] + [Here]);
    assert [] + [Here] == [Here] && [Here] + [There] == [Here, There];
    assert FilePoints(lines) == Ok([Here, There]);
    var files: seq<seq<string>> := [lines];
    assert files[..0] == [];
    assert TrackPoints(files[..0]) == Ok([]);
    assert files[0] == lines;
    assert TrackPoints(files) == Ok([] + [Here, There]);
    assert [] + [Here, There] == [Here, There];
  }

  /** One file with a segment line and two trackpoint tags gives their two points, in line order. */
  lemma TwoTrackpoints()
    ensures Pipeline("heatmap.html", [[Segment, Tag, OtherTag]], 3, 3)
      == Ok(HeatLayer([Here, There], 3, 3, HeatmapGradient(), "heatmap.html"))
  {
    LinesMarked();
    TagTokens();
    SegmentAndTwoTags(Segment, Tag, OtherTag);
    assert AcceptsOutputPath("heatmap.html");
  }

  lemma TagThenBareTag(bare: string, tag: string)
    requires IsTrackpointLine(bare) && Tokens(bare) == []
    requires IsTrackpointLine(tag) && Tokens(tag) == ["45.0", "-122.0"]
    ensures TrackPoints([[tag], [bare, tag]]) == Err(Malformed(1, 0))
  {
    OneTag(tag);
    var first: seq<seq<string>> := [[tag]];
    assert first[..0] == [];
    assert TrackPoints(first[..0]) == Ok([]);
    assert first[0] == [tag];
    assert TrackPoints(first).Ok?;
    var second := [bare, tag];
    var b := second[..1];
    assert b[..0] == [];
    assert FilePoints(b[..0]) == Ok([]);
    assert FilePoints(b) == Err(0);
    assert FilePoints(second) == Err(0);
    var files := [[tag], [bare, tag]];
    assert files[..1] == first && files[1] == second;
  }

  /** A tag without numbers in the second file aborts the run at that file's first line. */
  lemma BareTagAborts()
    ensures Pipeline("heatmap.html", [[Tag], [BareTag, Tag]], 3, 3) == Err(MalformedRecord(1, 0))
  {
    LinesMarked();
    TagTokens();
    BareTagHasNoTokens();
    TagThenBareTag(BareTag, Tag);
    assert AcceptsOutputPath("heatmap.html");
  }

  /** A `.txt` output stops the run whatever the files; so does an empty listing. */
  lemma EarlyStops(files: seq<seq<string>>)
    ensures Pipeline("map.txt", files, 3, 3) == Err(InvalidOutputPath)
    ensures Pipeline("heatmap.html", [], 3, 3) == Err(NoInputFiles)
  {
    assert AcceptsOutputPath("heatmap.html");
  }
}
