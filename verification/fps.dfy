/**
 * `get_fps` (src/main.rs:172-185): the frames-per-second figure reported by
 * the last match of the pattern `fps.*?avg ([\d\.]+)` in a run's stderr.
 *
 * The one pattern is modelled by hand. A match starts at the leftmost "fps"
 * that is followed, on the same line, by "avg " and a digit or dot. The lazy
 * `.*?` stops at the first such "avg " (it cannot cross '\n', which is the
 * only character `.` excludes). The capture is the maximal run of digits and
 * dots after "avg ". Successive matches are searched from the end of the
 * previous one, as `captures_iter` does.
 */
module Fps {
  import opened Wrappers
  import opened Decimal

  /** `[\d\.]`, with `\d` read as the ASCII digits. */
  predicate IsCaptureChar(c: char) { IsDigitOrDot(c) }

  /** One match: "fps" at `start`, "avg " at `avg`, capture `[avg + 4, end)`. */
  datatype Match = Match(start: nat, avg: nat, end: nat)

  predicate FpsAt(s: string, p: nat) {
    p + 3 <= |s| && s[p..p + 3] == "fps"
  }

  /** "avg " at `q` followed by at least one capture character. */
  predicate AvgAt(s: string, q: nat) {
    q + 5 <= |s| && s[q..q + 4] == "avg " && IsCaptureChar(s[q + 4])
  }

  /** The text captured by a match. */
  function Capture(s: string, m: Match): string
    requires m.avg + 4 <= m.end <= |s|
  {
    s[m.avg + 4..m.end]
  }

  /**
   * The declarative reading of the pattern: `m` is what the regex matches
   * when it starts at `m.start`.
   */
  ghost predicate IsMatch(s: string, m: Match) {
    && FpsAt(s, m.start)
    && m.start + 3 <= m.avg
    && AvgAt(s, m.avg)
    && (forall k :: m.start + 3 <= k < m.avg ==> s[k] != '\n' && !AvgAt(s, k))
    && m.avg + 5 <= m.end <= |s|
    && (forall k :: m.avg + 4 <= k < m.end ==> IsCaptureChar(s[k]))
    && (m.end == |s| || !IsCaptureChar(s[m.end]))
  }

  /** The lazy `.*?avg [\d\.]` from position `i`: the first "avg " reached without crossing '\n'. */
  function FindAvg(s: string, i: nat): (r: Option<nat>)
    decreases |s| - i
    ensures r.Some? ==> i <= r.value && AvgAt(s, r.value)
  {
    if i >= |s| then None
    else if AvgAt(s, i) then Some(i)
    else if s[i] == '\n' then None
    else FindAvg(s, i + 1)
  }

  /** The greedy `[\d\.]+`: the end of the run of capture characters from `k`. */
  function RunEnd(s: string, k: nat): (e: nat)
    requires k <= |s|
    decreases |s| - k
    ensures k <= e <= |s|
  {
    if k < |s| && IsCaptureChar(s[k]) then RunEnd(s, k + 1) else k
  }

  /** The match the regex finds when it tries position `p`, if any. */
  function MatchAt(s: string, p: nat): (r: Option<Match>)
    ensures r.Some? ==> r.value.start == p && p + 3 <= r.value.avg && r.value.avg + 5 <= r.value.end <= |s|
  {
    if !FpsAt(s, p) then None
    else
      match FindAvg(s, p + 3)
      case None => None
      case Some(q) => Some(Match(p, q, RunEnd(s, q + 4)))
  }

  ghost predicate NoMatchBetween(s: string, lo: nat, hi: nat) {
    forall p :: lo <= p < hi ==> MatchAt(s, p).None?
  }

  ghost predicate NoMatchFrom(s: string, lo: nat) {
    forall p :: lo <= p ==> MatchAt(s, p).None?
  }

  /** The leftmost match that starts at or after `from`. */
  function NextMatch(s: string, from: nat): (r: Option<Match>)
    decreases |s| - from
    ensures r.Some? ==> from <= r.value.start && MatchAt(s, r.value.start) == r
  {
    if from >= |s| then None
    else if MatchAt(s, from).Some? then MatchAt(s, from)
    else NextMatch(s, from + 1)
  }

  /** No match starts between `from` and the one `NextMatch` finds, nor anywhere after `from` when it finds none. */
  lemma {:induction false} NextMatchLeftmost(s: string, from: nat)
    decreases |s| - from
    ensures NextMatch(s, from).Some? ==> NoMatchBetween(s, from, NextMatch(s, from).value.start)
    ensures NextMatch(s, from).None? ==> NoMatchFrom(s, from)
  {
    if from >= |s| {
      NoMatchPastEnd(s, from);
    } else if MatchAt(s, from).None? {
      assert NextMatch(s, from) == NextMatch(s, from + 1);
      NextMatchLeftmost(s, from + 1);
      NoMatchExtend(s, from, if NextMatch(s, from).Some? then NextMatch(s, from).value.start else from);
    }
  }

  /** A position without a match extends a stretch without matches to its left. */
  lemma NoMatchExtend(s: string, from: nat, hi: nat)
    requires MatchAt(s, from).None?
    ensures from < hi && NoMatchBetween(s, from + 1, hi) ==> NoMatchBetween(s, from, hi)
    ensures NoMatchFrom(s, from + 1) ==> NoMatchFrom(s, from)
  {
  }

  lemma NoMatchPastEnd(s: string, from: nat)
    requires from >= |s|
    ensures NoMatchFrom(s, from)
  {
    forall p | from <= p
      ensures MatchAt(s, p).None?
    {
      assert !FpsAt(s, p);
    }
  }

  /** What `captures_iter` yields: leftmost matches, each searched from the end of the one before. */
  function Matches(s: string, from: nat): (ms: seq<Match>)
    decreases |s| - from
    ensures forall i :: 0 <= i < |ms| ==> from <= ms[i].start && ms[i].avg + 5 <= ms[i].end <= |s|
  {
    match NextMatch(s, from)
    case None => []
    case Some(m) => [m] + Matches(s, m.end)
  }

  /** Every element of `Matches` is the match the scanner finds at its start. */
  lemma {:induction false} MatchesFound(s: string, from: nat)
    decreases |s| - from
    ensures forall i :: 0 <= i < |Matches(s, from)| ==> MatchAt(s, Matches(s, from)[i].start) == Some(Matches(s, from)[i])
  {
    match NextMatch(s, from)
    case None =>
    case Some(m) =>
      MatchesFound(s, m.end);
  }

  /** The capture of a match the scanner finds is a non-empty run of `[\d\.]`. */
  lemma MatchAtCapture(s: string, m: Match)
    requires MatchAt(s, m.start) == Some(m)
    ensures |Capture(s, m)| >= 1
    ensures forall i :: 0 <= i < |Capture(s, m)| ==> IsCaptureChar(Capture(s, m)[i])
  {
    RunEndMaximal(s, m.avg + 4);
    forall i | 0 <= i < |Capture(s, m)|
      ensures IsCaptureChar(Capture(s, m)[i])
    {
      assert Capture(s, m)[i] == s[m.avg + 4 + i];
    }
  }

  /**
   * `Matches` yields matches in order, each the leftmost one after the
   * previous: none is skipped before the first or between two of them.
   */
  lemma {:induction false} MatchesLeftmost(s: string, from: nat)
    decreases |s| - from
    ensures var ms := Matches(s, from);
            && (forall i :: 0 < i < |ms| ==> ms[i - 1].end <= ms[i].start)
            && (ms != [] ==> NoMatchBetween(s, from, ms[0].start))
            && (forall i :: 0 < i < |ms| ==> NoMatchBetween(s, ms[i - 1].end, ms[i].start))
  {
    NextMatchLeftmost(s, from);
    match NextMatch(s, from)
    case None =>
    case Some(m) =>
      MatchesLeftmost(s, m.end);
      var rest := Matches(s, m.end);
      assert Matches(s, from) == [m] + rest;
  }

  /** No match starts at or after the end of the last one `Matches` yields. */
  lemma {:induction false} MatchesExhaustive(s: string, from: nat)
    decreases |s| - from
    ensures Matches(s, from) == [] ==> NoMatchFrom(s, from)
    ensures Matches(s, from) != [] ==> NoMatchFrom(s, Matches(s, from)[|Matches(s, from)| - 1].end)
  {
    NextMatchLeftmost(s, from);
    match NextMatch(s, from)
    case None =>
    case Some(m) =>
      MatchesExhaustive(s, m.end);
      if Matches(s, m.end) == [] {
        assert Matches(s, from) == [m];
      }
  }

  datatype FpsError =
    | NoFpsLine              // "No fps line in log output."
    | InvalidFloat(token: string)  // the capture does not parse as an f32

  /** `get_fps`: the parsed capture of the last match. */
  function GetFps(s: string): (r: Result<real, FpsError>)
    ensures r.Success? ==> 0.0 <= r.value
  {
    var ms := Matches(s, 0);
    if ms == [] then Failure(NoFpsLine)
    else
      var token := Capture(s, ms[|ms| - 1]);
      match ParseFloat(token)
      case None => Failure(InvalidFloat(token))
      case Some(v) => Success(v)
  }

  // ---------------------------------------------------------------------
  // The scanner against the declarative reading of the pattern

  lemma {:induction false} FindAvgFinds(s: string, i: nat, q: nat)
    requires i <= q && AvgAt(s, q)
    requires forall k :: i <= k < q ==> s[k] != '\n' && !AvgAt(s, k)
    ensures FindAvg(s, i) == Some(q)
    decreases q - i
  {
    if i < q {
      FindAvgFinds(s, i + 1, q);
    }
  }

  lemma {:induction false} FindAvgFirst(s: string, i: nat)
    requires FindAvg(s, i).Some?
    ensures forall k :: i <= k < FindAvg(s, i).value ==> s[k] != '\n' && !AvgAt(s, k)
    decreases |s| - i
  {
    if !AvgAt(s, i) {
      assert FindAvg(s, i) == FindAvg(s, i + 1);
      FindAvgFirst(s, i + 1);
    }
  }

  lemma {:induction false} RunEndMaximal(s: string, k: nat)
    requires k <= |s|
    ensures forall j :: k <= j < RunEnd(s, k) ==> IsCaptureChar(s[j])
    ensures RunEnd(s, k) == |s| || !IsCaptureChar(s[RunEnd(s, k)])
    decreases |s| - k
  {
    if k < |s| && IsCaptureChar(s[k]) {
      RunEndMaximal(s, k + 1);
    }
  }

  lemma {:induction false} RunEndUnique(s: string, k: nat, e: nat)
    requires k <= e <= |s|
    requires forall j :: k <= j < e ==> IsCaptureChar(s[j])
    requires e == |s| || !IsCaptureChar(s[e])
    ensures RunEnd(s, k) == e
    decreases e - k
  {
    if k < e {
      RunEndUnique(s, k + 1, e);
    }
  }

  /** The scanner finds at `p` exactly the match the pattern describes there. */
  lemma MatchAtIsMatch(s: string, p: nat, m: Match)
    ensures MatchAt(s, p) == Some(m) <==> m.start == p && IsMatch(s, m)
  {
    if MatchAt(s, p) == Some(m) {
      MatchAtSound(s, p, m);
    }
    if m.start == p && IsMatch(s, m) {
      MatchAtComplete(s, m);
    }
  }

  lemma MatchAtSound(s: string, p: nat, m: Match)
    requires MatchAt(s, p) == Some(m)
    ensures m.start == p && IsMatch(s, m)
  {
    FindAvgFirst(s, p + 3);
    RunEndMaximal(s, m.avg + 4);
  }

  lemma MatchAtComplete(s: string, m: Match)
    requires IsMatch(s, m)
    ensures MatchAt(s, m.start) == Some(m)
  {
    FindAvgFinds(s, m.start + 3, m.avg);
    RunEndUnique(s, m.avg + 4, m.end);
  }

  // ---------------------------------------------------------------------
  // What get_fps promises

  /** `m` is a match of the pattern, and no match of the pattern starts at or after its end. */
  ghost predicate IsLastMatch(s: string, m: Match) {
    IsMatch(s, m) && forall m': Match :: IsMatch(s, m') ==> m'.start < m.end
  }

  /** The last match `captures_iter` yields is a last match of the pattern. */
  lemma ScannedLastMatch(s: string)
    requires Matches(s, 0) != []
    ensures IsLastMatch(s, Matches(s, 0)[|Matches(s, 0)| - 1])
  {
    var ms := Matches(s, 0);
    var m := ms[|ms| - 1];
    MatchesFound(s, 0);
    MatchAtSound(s, m.start, m);
    MatchesExhaustive(s, 0);
    forall m': Match | IsMatch(s, m')
      ensures m'.start < m.end
    {
      MatchAtComplete(s, m');
    }
  }

  lemma FpsChars(s: string, p: nat)
    requires FpsAt(s, p)
    ensures s[p] == 'f' && s[p + 1] == 'p' && s[p + 2] == 's'
  {
    assert s[p..p + 3][0] == s[p] && s[p..p + 3][1] == s[p + 1] && s[p..p + 3][2] == s[p + 2];
  }

  lemma AvgChars(s: string, q: nat)
    requires AvgAt(s, q)
    ensures s[q] == 'a' && s[q + 1] == 'v' && s[q + 2] == 'g' && s[q + 3] == ' '
  {
    assert s[q..q + 4][0] == s[q] && s[q..q + 4][1] == s[q + 1];
    assert s[q..q + 4][2] == s[q + 2] && s[q..q + 4][3] == s[q + 3];
  }

  /** An "fps" that starts before a match's end lies wholly before its "avg ". */
  lemma FpsBeforeAvg(s: string, m: Match, p: nat)
    requires IsMatch(s, m)
    ensures FpsAt(s, p) && p < m.end ==> p + 3 <= m.avg
  {
    if FpsAt(s, p) && p < m.end {
      FpsChars(s, p);
      AvgChars(s, m.avg);
    }
  }

  /** Two overlapping matches, the second starting inside the first, share their "avg " and capture. */
  lemma OverlappingMatchesAgree(s: string, m1: Match, m2: Match)
    requires IsMatch(s, m1) && IsMatch(s, m2)
    requires m1.start <= m2.start < m1.end
    ensures m1.avg == m2.avg && m1.end == m2.end
  {
    FpsBeforeAvg(s, m1, m2.start);
    assert m2.avg == m1.avg;
    RunEndUnique(s, m1.avg + 4, m1.end);
    RunEndUnique(s, m2.avg + 4, m2.end);
  }

  /** All last matches of the pattern have the same capture. */
  lemma LastMatchesAgree(s: string, m1: Match, m2: Match)
    requires IsLastMatch(s, m1) && IsLastMatch(s, m2)
    ensures Capture(s, m1) == Capture(s, m2)
  {
    if m1.start <= m2.start {
      OverlappingMatchesAgree(s, m1, m2);
    } else {
      OverlappingMatchesAgree(s, m2, m1);
    }
  }

  /**
   * A successful result is the parsed capture of a match of the pattern
   * that is the last one `captures_iter` yields: every match of the pattern
   * starts before its end.
   */
  lemma GetFpsIsLastMatch(s: string)
    requires GetFps(s).Success?
    ensures exists m: Match ::
              && IsMatch(s, m)
              && ParseFloat(Capture(s, m)) == Some(GetFps(s).value)
              && (forall m': Match :: IsMatch(s, m') ==> m'.start < m.end)
  {
    ScannedLastMatch(s);
  }

  /**
   * `get_fps` is decided by any last match of the pattern: the value of its
   * capture when that is a float literal, and otherwise a parse failure
   * carrying the capture.
   */
  lemma GetFpsOfLastMatch(s: string, m: Match)
    requires IsLastMatch(s, m)
    ensures IsFloatLiteral(Capture(s, m)) ==> GetFps(s) == Success(ParseFloat(Capture(s, m)).value)
    ensures !IsFloatLiteral(Capture(s, m)) ==> GetFps(s) == Failure(InvalidFloat(Capture(s, m)))
  {
    MatchesExhaustive(s, 0);
    MatchAtComplete(s, m);
    var ms := Matches(s, 0);
    assert ms != [];
    ScannedLastMatch(s);
    LastMatchesAgree(s, m, ms[|ms| - 1]);
    ParseFloatAccepts(Capture(s, m));
  }

  /** `get_fps` reports "No fps line" exactly when the pattern matches nowhere. */
  lemma GetFpsNoFpsLine(s: string)
    ensures GetFps(s) == Failure(NoFpsLine) <==> forall m: Match :: !IsMatch(s, m)
  {
    MatchesFound(s, 0);
    MatchesExhaustive(s, 0);
    if GetFps(s) == Failure(NoFpsLine) {
      forall m: Match ensures !IsMatch(s, m) {
        MatchAtIsMatch(s, m.start, m);
      }
    } else {
      var ms := Matches(s, 0);
      MatchAtIsMatch(s, ms[0].start, ms[0]);
    }
  }

  /**
   * A parse failure carries the capture of a last match of the pattern,
   * which is no float literal: a non-empty run of digits and dots.
   */
  lemma GetFpsInvalidFloat(s: string, token: string)
    requires GetFps(s) == Failure(InvalidFloat(token))
    ensures exists m: Match :: IsLastMatch(s, m) && token == Capture(s, m)
    ensures |token| >= 1 && !IsFloatLiteral(token)
    ensures forall i :: 0 <= i < |token| ==> IsCaptureChar(token[i])
  {
    var ms := Matches(s, 0);
    MatchesFound(s, 0);
    ScannedLastMatch(s);
    MatchAtCapture(s, ms[|ms| - 1]);
    ParseFloatAccepts(token);
  }

  // ---------------------------------------------------------------------
  // Worked examples

  /** Two averages in the log: the later one is reported, not the first. */
  lemma LastAverageWins()
    ensures GetFps("fps avg 9\nfps avg 42.5") == Success(42.5)
  {
    ExampleResult("fps avg 9\nfps avg 42.5");
  }

  lemma ExampleResult(s: string)
    requires s == "fps avg 9\nfps avg 42.5"
    ensures GetFps(s) == Success(42.5)
  {
    ExampleMatches(s);
    ExampleCapture(s);
    FractionParsed();
  }

  lemma ExampleCapture(s: string)
    requires s == "fps avg 9\nfps avg 42.5"
    ensures Capture(s, Match(10, 14, 22)) == "42.5"
  {
    CaptureChars(s, Match(10, 14, 22), "42.5");
  }

  lemma CaptureChars(s: string, m: Match, t: string)
    requires m.avg + 4 <= m.end <= |s| && |t| == m.end - m.avg - 4
    requires forall i :: 0 <= i < |t| ==> s[m.avg + 4 + i] == t[i]
    ensures Capture(s, m) == t
  {
  }

  lemma FpsAtChars(s: string, p: nat)
    requires p + 3 <= |s| && s[p] == 'f' && s[p + 1] == 'p' && s[p + 2] == 's'
    ensures FpsAt(s, p)
  {
    assert s[p..p + 3] == [s[p], s[p + 1], s[p + 2]];
  }

  lemma AvgAtChars(s: string, q: nat)
    requires q + 5 <= |s| && s[q] == 'a' && s[q + 1] == 'v' && s[q + 2] == 'g' && s[q + 3] == ' '
    requires IsCaptureChar(s[q + 4])
    ensures AvgAt(s, q)
  {
    assert s[q..q + 4] == [s[q], s[q + 1], s[q + 2], s[q + 3]];
  }

  lemma NotFpsAt(s: string, p: nat)
    requires p < |s| && s[p] != 'f'
    ensures !FpsAt(s, p)
  {
    if p + 3 <= |s| {
      assert s[p..p + 3][0] == s[p];
    }
  }

  lemma NotAvgAt(s: string, q: nat)
    requires q < |s| && s[q] != 'a'
    ensures !AvgAt(s, q)
  {
    if q + 5 <= |s| {
      assert s[q..q + 4][0] == s[q];
    }
  }

  lemma ExampleMatches(s: string)
    requires s == "fps avg 9\nfps avg 42.5"
    ensures Matches(s, 0) == [Match(0, 4, 9), Match(10, 14, 22)]
  {
    ExampleFirstMatch(s);
    ExampleSecondMatch(s);
    assert Matches(s, 22) == [];
  }

  lemma ExampleFirstMatch(s: string)
    requires s == "fps avg 9\nfps avg 42.5"
    ensures NextMatch(s, 0) == Some(Match(0, 4, 9))
  {
    FpsAtChars(s, 0);
    ExampleFirstAvg(s);
    RunEndUnique(s, 8, 9);
    assert MatchAt(s, 0) == Some(Match(0, 4, 9));
  }

  lemma ExampleFirstAvg(s: string)
    requires s == "fps avg 9\nfps avg 42.5"
    ensures FindAvg(s, 3) == Some(4)
  {
    NotAvgAt(s, 3);
    AvgAtChars(s, 4);
  }

  lemma ExampleSecondMatch(s: string)
    requires s == "fps avg 9\nfps avg 42.5"
    ensures NextMatch(s, 9) == Some(Match(10, 14, 22))
  {
    NotFpsAt(s, 9);
    FpsAtChars(s, 10);
    NotAvgAt(s, 13);
    AvgAtChars(s, 14);
    assert FindAvg(s, 13) == Some(14);
    RunEndUnique(s, 18, 22);
    assert MatchAt(s, 10) == Some(Match(10, 14, 22));
  }

  /** A log without "fps" has no fps line. */
  lemma NoMetricsHere()
    ensures GetFps("no metrics here") == Failure(NoFpsLine)
  {
    var s := "no metrics here";
    assert forall i :: 0 <= i < |s| ==> s[i] != 'f';
    forall p: nat
      ensures MatchAt(s, p).None?
    {
      if p + 3 <= |s| {
        assert s[p..p + 3][0] == s[p];
      }
    }
  }
}
