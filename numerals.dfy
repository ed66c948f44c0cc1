/**
 * The numeric tokeniser applied to every trackpoint line: all matches of the
 * pattern `-?\d*\.?\d+`, found the way Python's `re.findall` finds them,
 * written out as an explicit scanner.
 *
 * From a start position the regular expression takes an optional `-`, then
 * the longest run of digits; if a `.` and at least one digit follow, it takes
 * them and the digits after them, and otherwise it settles for the digit run
 * alone (backtracking `\.?` and `\d*`). `findall` tries every position from
 * left to right and resumes after each match, so matches never overlap.
 */
module Numerals {
  import opened Results

  predicate IsDigit(c: char) {
    '0' <= c <= '9'
  }

  /** `\d*\.?\d+`: digits and at most one `.`, ending in a digit. */
  predicate IsUnsigned(u: string) {
    && |u| > 0
    && IsDigit(u[|u| - 1])
    && (forall i :: 0 <= i < |u| ==> IsDigit(u[i]) || u[i] == '.')
    && (forall i, j :: 0 <= i < j < |u| && u[i] == '.' ==> u[j] != '.')
  }

  /** `-?\d*\.?\d+`: an unsigned numeral with at most one leading `-`. */
  predicate IsNumeral(t: string) {
    if |t| > 0 && t[0] == '-' then IsUnsigned(t[1..]) else IsUnsigned(t)
  }

  /** The end of the longest run of digits of `s` starting at `i`. */
  function DigitsEnd(s: string, i: nat): (j: nat)
    requires i <= |s|
    ensures i <= j <= |s|
    ensures forall k :: i <= k < j ==> IsDigit(s[k])
    ensures j == |s| || !IsDigit(s[j])
    decreases |s| - i
  {
    if i < |s| && IsDigit(s[i]) then DigitsEnd(s, i + 1) else i
  }

  lemma DigitsAreUnsigned(s: string, i: nat, j: nat)
    requires i < j <= |s|
    requires forall k :: i <= k < j ==> IsDigit(s[k])
    ensures IsUnsigned(s[i..j])
  {
    var u := s[i..j];
    assert forall k :: 0 <= k < |u| ==> u[k] == s[i + k];
  }

  lemma FractionIsUnsigned(s: string, i: nat, j: nat, e: nat)
    requires i <= j && j + 1 < e <= |s|
    requires forall k :: i <= k < j ==> IsDigit(s[k])
    requires s[j] == '.'
    requires forall k :: j < k < e ==> IsDigit(s[k])
    ensures IsUnsigned(s[i..e])
  {
    var u := s[i..e];
    assert forall k :: 0 <= k < |u| ==> u[k] == s[i + k];
    forall a, b | 0 <= a < b < |u| && u[a] == '.'
      ensures u[b] != '.'
    {
      assert a == j - i;
    }
  }

  /**
   * Where a match of `\d*\.?\d+` starting at `i` ends, in the engine's order
   * of trying: a match is non-empty, stays in the line and is digits with at
   * most one `.`, ending in a digit.
   */
  function BodyEnd(s: string, i: nat): (r: Option<nat>)
    requires i <= |s|
    ensures r.Some? ==> i < r.value <= |s| && IsUnsigned(s[i..r.value])
  {
    var j := DigitsEnd(s, i);
    if j + 1 < |s| && s[j] == '.' && IsDigit(s[j + 1]) then
      var e := DigitsEnd(s, j + 1);
      FractionIsUnsigned(s, i, j, e);
      Some(e)
    else if i < j then
      DigitsAreUnsigned(s, i, j);
      Some(j)
    else None
  }

  /** Where the match of `-?\d*\.?\d+` tried at `p` ends, if there is one. */
  function MatchEnd(s: string, p: nat): (r: Option<nat>)
    requires p <= |s|
    ensures r.Some? ==> p < r.value <= |s| && IsNumeral(s[p..r.value])
  {
    if p < |s| && s[p] == '-' then
      var r := BodyEnd(s, p + 1);
      assert r.Some? ==> s[p..r.value][1..] == s[p + 1..r.value];
      r
    else
      BodyEnd(s, p)
  }

  /** Every unsigned numeral starting at `i` is covered by the body match at `i`. */
  lemma BodyEndLongest(s: string, i: nat, e: nat)
    requires i <= e <= |s| && IsUnsigned(s[i..e])
    ensures BodyEnd(s, i).Some? && e <= BodyEnd(s, i).value
  {
    var u := s[i..e];
    assert forall k :: 0 <= k < |u| ==> u[k] == s[i + k];
    var j := DigitsEnd(s, i);
    if e > j {
      assert u[j - i] == '.';
      assert j + 1 < e;
      assert u[j + 1 - i] != '.';
    }
  }

  /**
   * The match at `p` is the longest prefix of `s[p..]` that is a numeral, and
   * there is no match exactly when no prefix of `s[p..]` is a numeral.
   */
  lemma MatchEndLongest(s: string, p: nat, e: nat)
    requires p <= e <= |s| && IsNumeral(s[p..e])
    ensures MatchEnd(s, p).Some? && e <= MatchEnd(s, p).value
  {
    if p < |s| && s[p] == '-' {
      assert s[p..e][1..] == s[p + 1..e];
      BodyEndLongest(s, p + 1, e);
    } else {
      BodyEndLongest(s, p, e);
    }
  }

  lemma NoMatchNoNumeral(s: string, p: nat)
    requires p <= |s| && MatchEnd(s, p).None?
    ensures forall e :: p <= e <= |s| ==> !IsNumeral(s[p..e])
  {
    forall e | p <= e <= |s| && IsNumeral(s[p..e])
      ensures false
    {
      MatchEndLongest(s, p, e);
    }
  }

  /** The half-open range `[start, end)` of one match in the line. */
  datatype Span = Span(start: nat, end: nat)

  /** Some span of `spans` contains position `q`. */
  predicate Covers(spans: seq<Span>, q: nat) {
    |spans| > 0 && (spans[0].start <= q < spans[0].end || Covers(spans[1..], q))
  }

  lemma CoversTail(head: Span, rest: seq<Span>, q: nat)
    ensures Covers(rest, q) ==> Covers([head] + rest, q)
  {
    assert ([head] + rest)[1..] == rest;
  }

  /** `findall` from position `p`: the matches, left to right. */
  function ScanFrom(s: string, p: nat): (spans: seq<Span>)
    requires p <= |s|
    ensures forall k :: 0 <= k < |spans| ==>
      p <= spans[k].start < |s| && MatchEnd(s, spans[k].start) == Some(spans[k].end)
    ensures forall k :: 0 <= k < |spans| - 1 ==> spans[k].end <= spans[k + 1].start
    decreases |s| - p
  {
    if p == |s| then []
    else
      match MatchEnd(s, p)
      case Some(e) => [Span(p, e)] + ScanFrom(s, e)
      case None => ScanFrom(s, p + 1)
  }

  /** `findall` never skips a position where a match could start. */
  lemma {:induction false} ScanFromSkipsNoMatch(s: string, p: nat, q: nat)
    requires p <= q < |s|
    requires !Covers(ScanFrom(s, p), q)
    ensures MatchEnd(s, q).None?
    decreases |s| - p
  {
    match MatchEnd(s, p)
    case Some(e) =>
      UncoveredPastMatch(s, p, e, q);
      ScanFromSkipsNoMatch(s, e, q);
    case None =>
      if p < q {
        UncoveredPastNoMatch(s, p, q);
        ScanFromSkipsNoMatch(s, p + 1, q);
      }
  }

  lemma UncoveredPastNoMatch(s: string, p: nat, q: nat)
    requires p < q < |s| && MatchEnd(s, p).None?
    requires !Covers(ScanFrom(s, p), q)
    ensures !Covers(ScanFrom(s, p + 1), q)
  {
    assert ScanFrom(s, p) == ScanFrom(s, p + 1);
  }

  /** A position the scan from `p` leaves uncovered lies past the match at `p`, uncovered by the rest. */
  lemma UncoveredPastMatch(s: string, p: nat, e: nat, q: nat)
    requires p <= q < |s| && MatchEnd(s, p) == Some(e)
    requires !Covers(ScanFrom(s, p), q)
    ensures e <= q && !Covers(ScanFrom(s, e), q)
  {
    var spans := ScanFrom(s, p);
    assert spans == [Span(p, e)] + ScanFrom(s, e);
    assert spans[0] == Span(p, e);
    CoversTail(Span(p, e), ScanFrom(s, e), q);
  }

  /** The tokens `findall` returns for a line. */
  function Tokens(line: string): (tokens: seq<string>)
    ensures |tokens| == |ScanFrom(line, 0)|
    ensures forall k :: 0 <= k < |tokens| ==> IsNumeral(tokens[k])
  {
    var spans := ScanFrom(line, 0);
    seq(|spans|, k requires 0 <= k < |spans| => line[spans[k].start..spans[k].end])
  }

  /**
   * The tokens, as the scanner finds them: non-empty numerals taken from the
   * line left to right without overlapping, each as long as it can be, and no
   * numeral starting at any position between them.
   */
  lemma TokensAreFindAll(line: string)
    ensures var spans := ScanFrom(line, 0);
      && (forall k :: 0 <= k < |spans| ==>
            spans[k].start < spans[k].end <= |line|
            && Tokens(line)[k] == line[spans[k].start..spans[k].end]
            && (forall e :: spans[k].end < e <= |line| ==> !IsNumeral(line[spans[k].start..e])))
      && (forall k :: 0 <= k < |spans| - 1 ==> spans[k].end <= spans[k + 1].start)
      && (forall q, e :: 0 <= q < e <= |line| && !Covers(spans, q) ==> !IsNumeral(line[q..e]))
  {
    var spans := ScanFrom(line, 0);
    forall k, e | 0 <= k < |spans| && spans[k].end < e <= |line| && IsNumeral(line[spans[k].start..e])
      ensures false
    {
      MatchEndLongest(line, spans[k].start, e);
    }
    forall q, e | 0 <= q < e <= |line| && !Covers(spans, q)
      ensures !IsNumeral(line[q..e])
    {
      ScanFromSkipsNoMatch(line, 0, q);
      NoMatchNoNumeral(line, q);
    }
  }
}
