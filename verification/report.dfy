/**
 The checker's data classes: one `Check` record per compliance check and the
 `Report` that accumulates them, with its counts, score and summary tier, and
 the exit status `main` derives from the score.

 The score is kept as an exact ratio rather than a float: `Ratio(p, t)` stands
 for the percentage `100 * p / t`.
 */
module Compliance {

  datatype Severity = Error | Warning | Info

  /** One compliance check result. Its human-readable message is not modelled. */
  datatype Check = Check(name: string, category: string, passed: bool, severity: Severity)

  /** The kind of repository being checked ('local' or 'github'). */
  datatype RepoKind = Local | GitHub

  /** A percentage `100 * num / den`; the denominator is never zero. */
  datatype Ratio = Ratio(num: nat, den: nat)
  type Score = r: Ratio | r.den > 0 witness Ratio(0, 1)

  /** `score >= threshold`, for a threshold given in percent. */
  predicate AtLeast(s: Score, threshold: nat)
  {
    100 * s.num >= threshold * s.den
  }

  /** The report's metadata: the only entry ever read or written is 'score'. */
  datatype Report = Report(
    identifier: string,
    name: string,
    kind: RepoKind,
    checks: seq<Check>,
    storedScore: Option)

  datatype Option = None | Some(score: Score)

  /** A fresh report, as the checkers create it before any check runs. */
  function NewReport(identifier: string, name: string, kind: RepoKind): (r: Report)
    ensures |r.checks| == 0 && r.storedScore == None
    ensures r.identifier == identifier && r.name == name && r.kind == kind
  {
    Report(identifier, name, kind, [], None)
  }

  /** Number of passing records. */
  function PassedCount(checks: seq<Check>): (p: nat)
    ensures p <= |checks|
    ensures p == 0 <==> forall i | 0 <= i < |checks| :: !checks[i].passed
    ensures p == |checks| <==> forall i | 0 <= i < |checks| :: checks[i].passed
  {
    if |checks| == 0 then 0
    else
      assert forall i | 1 <= i < |checks| :: checks[i] == checks[1..][i - 1];
      (if checks[0].passed then 1 else 0) + PassedCount(checks[1..])
  }

  /** Number of failing records. */
  function FailedCount(checks: seq<Check>): (f: nat)
    ensures f <= |checks|
    ensures f == 0 <==> forall i | 0 <= i < |checks| :: checks[i].passed
    ensures f == |checks| <==> forall i | 0 <= i < |checks| :: !checks[i].passed
  {
    if |checks| == 0 then 0
    else
      assert forall i | 1 <= i < |checks| :: checks[i] == checks[1..][i - 1];
      (if checks[0].passed then 0 else 1) + FailedCount(checks[1..])
  }

  /** Every record is either passed or failed: `passed_checks + failed_checks == total_checks`. */
  lemma {:induction false} CountsPartition(checks: seq<Check>)
    ensures PassedCount(checks) + FailedCount(checks) == |checks|
  {
    if |checks| > 0 {
      CountsPartition(checks[1..]);
    }
  }

  /** Counting over a concatenation adds the counts of the parts. */
  lemma {:induction false} CountsAppend(a: seq<Check>, b: seq<Check>)
    ensures PassedCount(a + b) == PassedCount(a) + PassedCount(b)
    ensures FailedCount(a + b) == FailedCount(a) + FailedCount(b)
  {
    if |a| > 0 {
      assert (a + b)[1..] == a[1..] + b;
      CountsAppend(a[1..], b);
    } else {
      assert a + b == b;
    }
  }

  /** `add_check`: the new record goes at the end; nothing else changes. */
  function AddCheck(r: Report, c: Check): (r': Report)
    ensures |r'.checks| == |r.checks| + 1
    ensures r'.checks[..|r.checks|] == r.checks && r'.checks[|r.checks|] == c
    ensures r'.identifier == r.identifier && r'.name == r.name && r'.kind == r.kind
    ensures r'.storedScore == r.storedScore
    ensures PassedCount(r'.checks) == PassedCount(r.checks) + (if c.passed then 1 else 0)
    ensures FailedCount(r'.checks) == FailedCount(r.checks) + (if c.passed then 0 else 1)
  {
    CountsAppend(r.checks, [c]);
    r.(checks := r.checks + [c])
  }

  /** Adds the records in order, one `add_check` each. */
  function AddChecks(r: Report, cs: seq<Check>): (r': Report)
    ensures r'.checks == r.checks + cs
    ensures r'.identifier == r.identifier && r'.name == r.name && r'.kind == r.kind
    ensures r'.storedScore == r.storedScore
    decreases |cs|
  {
    if |cs| == 0 then r
    else
      var first := AddCheck(r, cs[0]);
      assert first.checks == r.checks + [cs[0]];
      assert cs == [cs[0]] + cs[1..];
      assert first.checks + cs[1..] == r.checks + cs;
      AddChecks(first, cs[1..])
  }

  /** `calculate_score`: 0 for an empty report, else the pass percentage. */
  function CalculateScore(r: Report): (s: Score)
    ensures |r.checks| == 0 ==> s.num == 0
    ensures |r.checks| > 0 ==> s.num * |r.checks| == PassedCount(r.checks) * s.den
    ensures s.num <= s.den
  {
    CountsPartition(r.checks);
    if |r.checks| == 0 then Ratio(0, 1) else Ratio(PassedCount(r.checks), |r.checks|)
  }

  /** The score always lies between 0 and 100 percent. */
  lemma ScoreInRange(r: Report)
    ensures 0 <= 100 * CalculateScore(r).num <= 100 * CalculateScore(r).den
  {
  }

  /** One passing and one failing record score exactly 50, which needs work. */
  lemma {:induction false} HalfPassedScoresFifty(r: Report, pass: Check, fail: Check)
    requires |r.checks| == 0 && pass.passed && !fail.passed
    ensures var s := CalculateScore(AddCheck(AddCheck(r, pass), fail)); 100 * s.num == 50 * s.den
    ensures r.storedScore == None ==> Summary(AddCheck(AddCheck(r, pass), fail)) == NeedsWork
  {
    var r2 := AddCheck(AddCheck(r, pass), fail);
    assert PassedCount(r2.checks) == 1;
  }

  /** A non-empty report whose records all pass scores 100 and is excellent. */
  lemma {:induction false} AllPassedScoresHundred(r: Report)
    requires |r.checks| > 0 && r.storedScore == None
    requires forall i | 0 <= i < |r.checks| :: r.checks[i].passed
    ensures var s := CalculateScore(r); s.num == s.den
    ensures Summary(r) == Excellent
  {
    AllPassedCount(r.checks);
  }

  lemma {:induction false} AllPassedCount(checks: seq<Check>)
    requires forall i | 0 <= i < |checks| :: checks[i].passed
    ensures PassedCount(checks) == |checks|
  {
    if |checks| > 0 {
      AllPassedCount(checks[1..]);
    }
  }

  datatype Tier = Excellent | Good | NeedsWork

  const ScoreExcellent: nat := 90
  const ScoreGood: nat := 75

  /** The score `get_summary` classifies: a stored 'score' wins over recomputation. */
  function EffectiveScore(r: Report): Score
  {
    match r.storedScore
    case Some(s) => s
    case None => CalculateScore(r)
  }

  /** `get_summary`, as a tier rather than the emoji-prefixed sentence. */
  function Summary(r: Report): (t: Tier)
    ensures r.storedScore.None? ==>
      (t == Excellent <==> |r.checks| > 0 && 100 * PassedCount(r.checks) >= 90 * |r.checks|)
    ensures r.storedScore.None? ==>
      (t == NeedsWork <==> |r.checks| == 0 || 100 * PassedCount(r.checks) < 75 * |r.checks|)
  {
    var s := EffectiveScore(r);
    if AtLeast(s, ScoreExcellent) then Excellent
    else if AtLeast(s, ScoreGood) then Good
    else NeedsWork
  }

  /** The tiers split the score range at 90 and 75. */
  lemma TierThresholds(r: Report)
    ensures Summary(r) == Excellent <==> AtLeast(EffectiveScore(r), 90)
    ensures Summary(r) == Good <==> AtLeast(EffectiveScore(r), 75) && !AtLeast(EffectiveScore(r), 90)
    ensures Summary(r) == NeedsWork <==> !AtLeast(EffectiveScore(r), 75)
  {
  }

  /** A stored score decides the tier whatever records the report holds. */
  lemma StoredScoreWins(r1: Report, r2: Report, s: Score)
    requires r1.storedScore == Some(s) && r2.storedScore == Some(s)
    ensures Summary(r1) == Summary(r2)
  {
  }

  /** What `main` does before rendering: store the computed score in the metadata. */
  function StoreScore(r: Report): (r': Report)
    ensures r'.checks == r.checks && r'.storedScore.Some?
    ensures Summary(r') == Summary(r.(storedScore := None))
  {
    r.(storedScore := Some(CalculateScore(r)))
  }

  /** How a run of `main` ends once the checker was constructed: either
      `check_repository` returned a report or it raised. */
  datatype RunOutcome = Finished(report: Report) | Crashed

  /** The exit status of `main`: 0 when the score reaches 75, 1 below it, and 2
      when checking the repository raised an exception. */
  function ExitCode(run: RunOutcome): (code: int)
    ensures run.Crashed? ==> code == 2
    ensures run.Finished? ==>
      (code == 0 <==> |run.report.checks| > 0 && 100 * PassedCount(run.report.checks) >= 75 * |run.report.checks|)
    ensures run.Finished? ==> code == 0 || code == 1
    ensures run.Finished? ==> (code == 0 <==> Summary(StoreScore(run.report)) != NeedsWork)
  {
    match run
    case Crashed => 2
    case Finished(r) =>
      var score := CalculateScore(StoreScore(r));
      if AtLeast(score, ScoreGood) then 0 else 1
  }
}
