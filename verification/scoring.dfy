/** The in-game HUD (`UIManager`): the job size and time limit read once the
    scene has loaded, the per-frame end-of-round test, the score formula and
    the record appended to the highscore list. */
module Scoring {
  import opened Wrappers
  import opened Numeric
  import opened Settings
  import opened Generator
  import opened Leaderboard
  import opened MainMenu
  import opened Templates

  // ------------------------------------------------------------ LateStart

  /** `_boxCount`: the job boxes summed over the four job lists, read as 1
      when there are none, so that it can divide. */
  function BoxCount(jobs: seq<seq<Box>>): (n: nat)
    ensures n >= 1
    ensures TotalLength(jobs) > 0 ==> n == TotalLength(jobs)
    ensures TotalLength(jobs) == 0 ==> n == 1
  {
    if TotalLength(jobs) == 0 then 1 else TotalLength(jobs)
  }

  /** `_timeLimit`: hours, minutes and seconds converted to seconds. */
  function TimeLimitSeconds(limit: seq<real>): (t: real)
    requires |limit| == 3
  {
    limit[0] * 3600.0 + limit[1] * 60.0 + limit[2]
  }

  /** For limits the menu accepts (every component in 0..60) the limit lies
      between 0 and 61 hours and 1 minute, and it is zero exactly when all
      three components are. */
  lemma TimeLimitRange(limit: seq<real>)
    requires |limit| == 3 && forall k :: 0 <= k < 3 ==> 0.0 <= limit[k] <= 60.0
    ensures 0.0 <= TimeLimitSeconds(limit) <= 219660.0
    ensures TimeLimitSeconds(limit) == 0.0 <==> limit == [0.0, 0.0, 0.0]
  {
    assert 0.0 <= limit[0] && 0.0 <= limit[1] && 0.0 <= limit[2];
    if TimeLimitSeconds(limit) == 0.0 {
      assert limit[0] == 0.0 && limit[1] == 0.0 && limit[2] == 0.0;
      assert limit == [limit[0], limit[1], limit[2]];
    }
  }

  // ---------------------------------------------------------- score terms

  /** `boxScore`: 100 per correctly placed box. */
  function BoxScore(correct: nat): (r: real)
    ensures r >= 0.0
    ensures r == 0.0 <==> correct == 0
  {
    100.0 * correct as real
  }

  /** `incorrectScore`: minus 100 per misplaced box. */
  function IncorrectScore(misplaced: nat): (r: real)
    ensures r <= 0.0
    ensures r == 0.0 <==> misplaced == 0
  {
    -100.0 * misplaced as real
  }

  /** `tripScore`: 10 for no driving, falling by 1 per `10 * boxCount`
      metres and negative past `100 * boxCount` metres. */
  function TripScore(distance: real, boxCount: nat): (r: real)
    requires boxCount >= 1
    ensures distance == 0.0 ==> r == 10.0
    ensures distance >= 0.0 ==> r <= 10.0
    ensures r >= 0.0 <==> distance <= 100.0 * boxCount as real
  {
    (1.0 - distance / (boxCount as real * 100.0)) * 10.0
  }

  /** Longer trips never score more. */
  lemma TripScoreMonotone(d1: real, d2: real, boxCount: nat)
    requires boxCount >= 1 && d1 <= d2
    ensures TripScore(d2, boxCount) <= TripScore(d1, boxCount)
  {
    var k := boxCount as real * 100.0;
    assert (d2 - d1) / k >= 0.0;
    assert d2 / k - d1 / k == (d2 - d1) / k;
  }

  /** `timeScore` as written: `(1 - elapsed / T) * (T / 900 * 1000) *
      (correct / boxCount)`. With a zero limit `elapsed / T` is NaN or
      infinite and the product NaN; `None` stands for that. */
  function TimeScoreAsWritten(limit: real, elapsed: real, correct: nat, boxCount: nat): (r: Option<real>)
    requires boxCount >= 1
    ensures r.None? <==> limit == 0.0
  {
    if limit == 0.0 then None
    else Some((1.0 - elapsed / limit) * (limit / 900.0 * 1000.0) * (correct as real / (boxCount as real * 1.0)))
  }

  /** `timeScore` with the limit cancelled out: 1000 points per 15 minutes
      left, scaled by the share of boxes placed. Equal to the formula as
      written for every non-zero limit, and defined for a zero limit. */
  function TimeScore(limit: real, elapsed: real, correct: nat, boxCount: nat): (r: real)
    requires boxCount >= 1
    ensures limit != 0.0 ==> TimeScoreAsWritten(limit, elapsed, correct, boxCount) == Some(r)
    ensures elapsed <= limit ==> r >= 0.0
    ensures elapsed == limit || correct == 0 ==> r == 0.0
  {
    CancelLimit(limit, elapsed, correct, boxCount);
    assert correct as real / boxCount as real >= 0.0;
    (limit - elapsed) / 900.0 * 1000.0 * (correct as real / boxCount as real)
  }

  /** The limit cancels out of the formula as written. */
  lemma CancelLimit(limit: real, elapsed: real, correct: nat, boxCount: nat)
    requires boxCount >= 1
    ensures limit != 0.0 ==> TimeScoreAsWritten(limit, elapsed, correct, boxCount).value
                               == (limit - elapsed) / 900.0 * 1000.0 * (correct as real / boxCount as real)
  {
    if limit != 0.0 {
      var left := 1.0 - elapsed / limit;
      var scale := limit / 900.0 * 1000.0;
      var ratio := correct as real / (boxCount as real * 1.0);
      assert left * limit == limit - elapsed;
      assert left * scale == (limit - elapsed) / 900.0 * 1000.0;
      assert ratio == correct as real / boxCount as real;
      assert TimeScoreAsWritten(limit, elapsed, correct, boxCount).value == left * scale * ratio;
    }
  }

  /** `difficultyModifier`: 1 + boxCount / 10, less the limit's excess over
      15 minutes in units of 15 minutes. */
  function DifficultyModifier(limit: real, boxCount: nat): (m: real)
    ensures m <= 1.0 + boxCount as real / 10.0
    ensures m == 1.0 + boxCount as real / 10.0 <==> limit <= 900.0
    ensures limit > 900.0 ==> m == 2.0 + boxCount as real / 10.0 - limit / 900.0
  {
    1.0 + boxCount as real / 10.0 + MinReal(1.0 - limit / 900.0, 0.0)
  }

  /** The five numbers of the end screen. */
  datatype Breakdown = Breakdown(box: real, time: real, incorrect: real, trip: real, modifier: real)

  /** What the world reports in the frame the round ends. */
  datatype Frame = Frame(time: real, correct: nat, misplaced: nat, distance: real)

  function Terms(limit: real, elapsed: real, boxCount: nat, f: Frame): (b: Breakdown)
    requires boxCount >= 1
    ensures b.box >= 0.0 && b.incorrect <= 0.0 && b.modifier <= 1.0 + boxCount as real / 10.0
    ensures f.distance >= 0.0 ==> b.trip <= 10.0
    ensures elapsed <= limit ==> b.time >= 0.0
  {
    Breakdown(BoxScore(f.correct), TimeScore(limit, elapsed, f.correct, boxCount),
              IncorrectScore(f.misplaced), TripScore(f.distance, boxCount),
              DifficultyModifier(limit, boxCount))
  }

  /** `score`: the four terms summed, times the modifier. */
  function Total(b: Breakdown): real {
    (b.box + b.time + b.incorrect + b.trip) * b.modifier
  }

  /** The stored points: `Mathf.RoundToInt(score)`, within half a point of
      the score. */
  function Points(b: Breakdown): (p: int)
    ensures -0.5 <= p as real - Total(b) <= 0.5
  {
    RoundToInt(Total(b))
  }

  /** Fifteen minutes, half of it used, five of five boxes placed, nothing
      misplaced, no driving: 500 + 500 + 0 + 10 points times 1.5 = 1515. */
  lemma WorkedExample()
    ensures var b := Terms(900.0, 450.0, 5, Frame(450.0, 5, 0, 0.0));
            && b == Breakdown(500.0, 500.0, 0.0, 10.0, 1.5)
            && Total(b) == 1515.0
            && Points(b) == 1515
  {
    var b := Terms(900.0, 450.0, 5, Frame(450.0, 5, 0, 0.0));
    assert TimeScore(900.0, 450.0, 5, 5) == 500.0;
    assert DifficultyModifier(900.0, 5) == 1.5;
    assert Total(b) == 1515.0;
  }

  /** The modifier turns negative for long limits and small jobs: with the
      45-minute presets it is `boxCount / 10 - 1`, below zero for fewer than
      ten job boxes, which flips the sign of the whole score. */
  lemma LongLimitNegativeModifier(c: Config, boxCount: nat)
    requires boxCount >= 1
    ensures TimeLimitSeconds(SetTemplate(c, 4).value.timeLimit) == 2700.0
    ensures DifficultyModifier(2700.0, boxCount) == boxCount as real / 10.0 - 1.0
    ensures DifficultyModifier(2700.0, boxCount) < 0.0 <==> boxCount < 10
  {
  }

  // ------------------------------------------------------------------ HUD

  /** The HUD's private fields. */
  datatype Hud = Hud(started: bool, start: real, timeLimit: real, boxCount: nat)

  /** The field initialisers: not started, `_start` at its -1 sentinel. */
  const Initial: Hud := Hud(false, -1.0, 0.0, 0)

  /** `LateStart`: adds the job boxes to `_boxCount` (1 if that leaves it at
      0), converts the time limit and starts the round. */
  function LateStart(h: Hud, jobs: seq<seq<Box>>, limit: seq<real>): (r: Hud)
    requires |limit| == 3
    ensures r.started && r.start == h.start
    ensures r.boxCount >= 1
    ensures h.boxCount + TotalLength(jobs) > 0 ==> r.boxCount == h.boxCount + TotalLength(jobs)
    ensures h.boxCount + TotalLength(jobs) == 0 ==> r.boxCount == 1
    ensures r.timeLimit == TimeLimitSeconds(limit)
  {
    var count := h.boxCount + TotalLength(jobs);
    Hud(true, h.start, TimeLimitSeconds(limit), if count == 0 then 1 else count)
  }

  /** `Math.Abs(_start - (-1.0f)) < 0.01f`: `_start` still holds its sentinel. */
  predicate AwaitingStart(h: Hud) {
    -1.01 < h.start < -0.99
  }

  /** The round goes on while time is left and boxes are missing. */
  predicate RoundOver(elapsed: real, timeLimit: real, correct: nat, boxCount: nat) {
    !(elapsed < timeLimit && correct < boxCount)
  }

  /** One `Update` frame: nothing before the round has started; otherwise the
      start time is taken on the first frame, and in the frame the round is
      over exactly one record (`username`, points) is appended to the saved
      list and the round is stopped. */
  function Update(h: Hud, f: Frame, username: string, saved: seq<Score>): (r: (Hud, seq<Score>))
    requires h.started ==> h.boxCount >= 1
    ensures !h.started ==> r == (h, saved)
    ensures h.started ==>
              var start := if AwaitingStart(h) then f.time else h.start;
              var elapsed := f.time - start;
              && r.0 == h.(start := start, started := !RoundOver(elapsed, h.timeLimit, f.correct, h.boxCount))
              && (RoundOver(elapsed, h.timeLimit, f.correct, h.boxCount) ==>
                    r.1 == saved + [Score(username, Points(Terms(h.timeLimit, elapsed, h.boxCount, f)))])
              && (!RoundOver(elapsed, h.timeLimit, f.correct, h.boxCount) ==> r.1 == saved)
  {
    if !h.started then (h, saved)
    else
      var start := if AwaitingStart(h) then f.time else h.start;
      var elapsed := f.time - start;
      var running := h.(start := start);
      if elapsed < h.timeLimit && f.correct < h.boxCount then (running, saved)
      else
        var points := Points(Terms(h.timeLimit, elapsed, h.boxCount, f));
        (running.(started := false), saved + [Score(username, points)])
  }

  /** A sequence of frames. A round adds at most one record, never drops or
      changes a saved one, and a stopped HUD stays stopped. */
  function Run(h: Hud, frames: seq<Frame>, username: string, saved: seq<Score>): (r: (Hud, seq<Score>))
    requires h.started ==> h.boxCount >= 1
    ensures saved <= r.1
    ensures |r.1| <= |saved| + (if h.started then 1 else 0)
    ensures !h.started ==> r == (h, saved)
    ensures |r.1| == |saved| + 1 ==> !r.0.started
    decreases |frames|
  {
    if frames == [] then (h, saved)
    else
      var step := Update(h, frames[0], username, saved);
      Run(step.0, frames[1..], username, step.1)
  }

  /** Sort mode's job lists stay empty, so the HUD divides by a box count
      of 1 and, with no box placed, only the time limit ends the round. */
  lemma SortRoundEndsOnTime(cfg: Config, draws: Stream, elapsed: real)
    requires WellFormed(cfg) && cfg.shelfRows >= 0 && cfg.jobType == Sorting
    ensures BoxCount(GenerateRoom(cfg, draws).value.jobs) == 1
    ensures RoundOver(elapsed, TimeLimitSeconds(cfg.timeLimit), 0, 1) <==> elapsed >= TimeLimitSeconds(cfg.timeLimit)
  {
    TotalOfEmptyLists(GenerateRoom(cfg, draws).value.jobs);
  }

  lemma {:induction false} TotalOfEmptyLists<T>(lists: seq<seq<T>>)
    requires forall i :: 0 <= i < |lists| ==> lists[i] == []
    ensures TotalLength(lists) == 0
  {
    if lists != [] {
      TotalOfEmptyLists(lists[1..]);
    }
  }

  /** A zero limit typed into the menu: the formula as written has no value
      (NaN) for any frame, while the corrected time term is defined and the
      round ends on the first frame. */
  lemma ZeroLimitScore(c: Config, jobs: seq<seq<Box>>, elapsed: real, correct: nat)
    requires WellFormed(c)
    ensures var menu := SecondSet(MinuteSet(HoursSet(c, Some(0.0)), Some(0.0)), Some(0.0));
            var h := LateStart(Initial, jobs, menu.timeLimit);
            && h.timeLimit == 0.0
            && TimeScoreAsWritten(h.timeLimit, elapsed, correct, h.boxCount).None?
            && TimeScore(h.timeLimit, elapsed, correct, h.boxCount) == -elapsed / 900.0 * 1000.0 * (correct as real / h.boxCount as real)
            && (elapsed >= 0.0 ==> RoundOver(elapsed, h.timeLimit, correct, h.boxCount))
  {
    ZeroTimeLimitAccepted(c);
  }
}
