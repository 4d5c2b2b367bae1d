/**
 * The Leitner fallback ladder and the level rule of `SmartReview`.
 * Levels are derived from how many history rows mention a card, not from a
 * stored level.
 */
module Leitner {
  import opened Wrappers
  import opened ReviewLog

  /** `base_intervals`: review delays in hours (0h, 1d, 3d, 1w, 2w, 4w, 8w). */
  const BaseIntervals: seq<nat> := [0, 24, 72, 168, 336, 672, 1344]

  /** The last index of the ladder, `len(base_intervals) - 1`. */
  const MaxLevel: nat := |BaseIntervals| - 1

  function Min(a: int, b: int): int { if a <= b then a else b }
  function Max(a: int, b: int): int { if a >= b then a else b }

  /**
   * `base_intervals[min(level, len(base_intervals) - 1)]`. The index is clamped
   * from above only; a negative index counts from the end as in Python, and
   * one below -7 raises IndexError.
   */
  function LadderHours(level: int): (r: Result<nat>)
    ensures level >= 0 ==> r == Success(BaseIntervals[Min(level, MaxLevel)])
    ensures level >= MaxLevel ==> r == Success(1344)
    ensures -|BaseIntervals| <= level < 0 ==> r == Success(BaseIntervals[|BaseIntervals| + level])
    ensures level < -|BaseIntervals| <==> r.Failure?
  {
    var i := Min(level, |BaseIntervals| - 1);
    if i >= 0 then Success(BaseIntervals[i])
    else if i >= -|BaseIntervals| then Success(BaseIntervals[|BaseIntervals| + i])
    else Failure(IndexError(i))
  }

  /** The ladder grows strictly with the level. */
  lemma LadderStrictlyIncreasing(i: nat, j: nat)
    requires i < j < |BaseIntervals|
    ensures BaseIntervals[i] < BaseIntervals[j]
  {
  }

  /** A higher non-negative level never gets a shorter fallback delay. */
  lemma LadderMonotone(a: int, b: int)
    requires 0 <= a <= b
    ensures LadderHours(a).Success? && LadderHours(b).Success?
    ensures LadderHours(a).value <= LadderHours(b).value
  {
    var i, j := Min(a, MaxLevel), Min(b, MaxLevel);
    if i < j { LadderStrictlyIncreasing(i, j); }
  }

  /**
   * `update_card_level` as written: with `n` the number of rows mentioning
   * the card, the code sets `current_level = n - 1`, so a correct answer gives
   * `min(n, 6)` and an incorrect one `max(0, n - 2)`, which is not clamped to
   * the ladder. Indexing a column the table does not have (an unseen card, or
   * any card when the log file is missing) raises KeyError.
   */
  function UpdateCardLevel(log: Log, card: string, correct: bool): (r: Result<int>)
    ensures r.Failure? <==> card !in log.columns
    ensures r.Failure? ==> r.error == KeyError(card)
    ensures r.Success? ==> r.value >= 0
    ensures r.Success? && correct ==> r.value == Min(Mentions(log.rows, card), MaxLevel)
    ensures r.Success? && !correct ==> r.value == Max(0, Mentions(log.rows, card) - 2)
  {
    if card !in log.columns then Failure(KeyError(card))
    else
      var currentLevel := |CardHistory(log.rows, card)| - 1;
      if correct then Success(Min(currentLevel + 1, |BaseIntervals| - 1))
      else Success(Max(0, currentLevel - 1))
  }

  /**
   * Ten sessions that mention a card: a correct answer gives level 6 but an
   * incorrect one gives level 8, above the top of the ladder and above the
   * level for a correct answer.
   */
  lemma IncorrectCanOutrankCorrect(card: string, row: Row)
    requires card in row.outcomes
    ensures var log := Log([card], seq(10, _ => row));
            && UpdateCardLevel(log, card, true) == Success(6)
            && UpdateCardLevel(log, card, false) == Success(8)
  {
    var rows := seq(10, _ => row);
    assert CardHistory(rows, card) == rows;
  }

  /**
   * The level rule with the incorrect-answer level clamped to the top of the
   * ladder as the correct-answer level is: the same as `UpdateCardLevel`
   * wherever that stays on the ladder, and the top rung otherwise.
   */
  function UpdateCardLevelClamped(log: Log, card: string, correct: bool): (r: Result<int>)
    ensures r.Failure? <==> card !in log.columns
    ensures r.Failure? ==> r.error == KeyError(card)
    ensures r.Success? ==> 0 <= r.value <= MaxLevel
    ensures Mentions(log.rows, card) <= MaxLevel + 2 ==> r == UpdateCardLevel(log, card, correct)
    ensures UpdateCardLevel(log, card, correct).Success? && UpdateCardLevel(log, card, correct).value > MaxLevel
            ==> r == Success(MaxLevel)
  {
    if card !in log.columns then Failure(KeyError(card))
    else
      var currentLevel := |CardHistory(log.rows, card)| - 1;
      if correct then Success(Min(currentLevel + 1, MaxLevel))
      else Success(Min(Max(0, currentLevel - 1), MaxLevel))
  }

  /** With the clamped rule, a correct answer never places a card lower than an incorrect one. */
  lemma CorrectNotBelowIncorrect(log: Log, card: string)
    requires card in log.columns
    ensures UpdateCardLevelClamped(log, card, true).value >= UpdateCardLevelClamped(log, card, false).value
  {
  }

  /**
   * Logging one more session that reviews the card climbs the ladder by one
   * rung after a correct answer, up to the top.
   */
  lemma ReviewClimbsLadder(log: Log, row: Row, card: string)
    requires card in log.columns && Present(row, card)
    ensures UpdateCardLevel(Log(log.columns, log.rows + [row]), card, true).value
         == Min(UpdateCardLevel(log, card, true).value + 1, MaxLevel)
  {
    CardHistoryAppend(log.rows, row, card);
  }

  /**
   * A card whose column exists but which no row mentions gets level 0 after
   * a correct answer, not level 1.
   */
  lemma UnseenCardStaysAtLevelZero(log: Log, card: string)
    requires card in log.columns && Mentions(log.rows, card) == 0
    ensures UpdateCardLevel(log, card, true) == Success(0)
    ensures UpdateCardLevel(log, card, false) == Success(0)
  {
  }
}
