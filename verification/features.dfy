/**
 * Feature extraction and the assembly of training samples
 * (`_extract_features`, `_prepare_training_data`).
 */
module Features {
  import opened Wrappers
  import opened ReviewLog

  /** The wall clock as read by `datetime.now()`: a timestamp in seconds, its hour and weekday. */
  datatype Clock = Clock(now: int, hourOfDay: int, dayOfWeek: int)

  /**
   * The integer part of a feature vector: the review count, the current hour
   * and weekday, and the seconds since the card's last logged review.
   */
  datatype FeatureVector = FeatureVector(totalReviews: nat, hourOfDay: int, dayOfWeek: int, secondsSinceLast: int)

  /** One training example: a feature vector and the mean successful interval in hours. */
  datatype Sample = Sample(features: FeatureVector, targetHours: real)

  /** The columns the set-accuracy feature reads, in the order it reads them (smart_review.py:74-75). */
  const SetStatColumns: seq<string> := ["Set", "Score", "Total"]

  /** The first of `wanted` that the header lacks. */
  function FirstMissing(columns: seq<string>, wanted: seq<string>): (r: Option<string>)
    ensures r.None? <==> forall c :: c in wanted ==> c in columns
    ensures r.Some? ==> r.value in wanted && r.value !in columns
  {
    if wanted == [] then None
    else if wanted[0] !in columns then Some(wanted[0])
    else FirstMissing(columns, wanted[1..])
  }

  /**
   * `_extract_features`: no features for an empty log or for a card that
   * fewer than two rows mention; a missing card column, or a missing Set,
   * Score or Total column once features are computed, raises KeyError.
   */
  function ExtractFeatures(log: Log, card: string, setName: string, clock: Clock): (r: Result<Option<FeatureVector>>)
    ensures IsEmpty(log) ==> r == Success(None)
    ensures !IsEmpty(log) && card !in log.columns ==> r == Failure(KeyError(card))
    ensures card in log.columns && Mentions(log.rows, card) < 2 ==> r == Success(None)
    ensures r.Success? && r.value.Some? ==>
              && !IsEmpty(log)
              && r.value.value.totalReviews == Mentions(log.rows, card) >= 2
              && r.value.value.hourOfDay == clock.hourOfDay
              && r.value.value.dayOfWeek == clock.dayOfWeek
    ensures r.Failure? ==> r.error.KeyError? && r.error.key !in log.columns
    ensures !IsEmpty(log) && card in log.columns && Mentions(log.rows, card) >= 2
            && FirstMissing(log.columns, SetStatColumns).Some? ==>
              r == Failure(KeyError(FirstMissing(log.columns, SetStatColumns).value))
    ensures !IsEmpty(log) && card in log.columns && Mentions(log.rows, card) >= 2
            && FirstMissing(log.columns, SetStatColumns).None? ==>
              r.Success? && r.value.Some?
  {
    if IsEmpty(log) then Success(None)
    else if card !in log.columns then Failure(KeyError(card))
    else
      var cardHistory := CardHistory(log.rows, card);
      if |cardHistory| < 2 then Success(None)
      else
        match FirstMissing(log.columns, SetStatColumns)
        case Some(c) => Failure(KeyError(c))
        case None =>
          var last := cardHistory[|cardHistory| - 1];
          Success(Some(FeatureVector(|cardHistory|, clock.hourOfDay, clock.dayOfWeek, clock.now - last.timestamp)))
  }

  /** The gap, in seconds, between the i-th review of the card and the next. */
  function Gap(cardHistory: seq<Row>, i: nat): int
    requires i + 1 < |cardHistory|
  {
    cardHistory[i + 1].timestamp - cardHistory[i].timestamp
  }

  /** The i-th review was answered correctly and the next review came strictly later. */
  predicate SuccessfulStep(cardHistory: seq<Row>, card: string, i: nat)
    requires i + 1 < |cardHistory|
  {
    AnsweredCorrectly(cardHistory[i], card) && Gap(cardHistory, i) > 0
  }

  /** The successful intervals among the first `k` consecutive pairs of reviews. */
  function IntervalsBefore(cardHistory: seq<Row>, card: string, k: nat): (r: seq<int>)
    requires k == 0 || k < |cardHistory|
    ensures |r| <= k
    ensures forall j :: 0 <= j < |r| ==> r[j] > 0
  {
    if k == 0 then []
    else
      var prev := IntervalsBefore(cardHistory, card, k - 1);
      if SuccessfulStep(cardHistory, card, k - 1) then prev + [Gap(cardHistory, k - 1)] else prev
  }

  /** The number of consecutive pairs in a card's history: `len(card_history) - 1`, or none. */
  function Pairs(cardHistory: seq<Row>): nat {
    if |cardHistory| == 0 then 0 else |cardHistory| - 1
  }

  /** `successful_intervals` of `_prepare_training_data` (smart_review.py:96-103), in seconds. */
  function SuccessfulIntervals(cardHistory: seq<Row>, card: string): seq<int> {
    IntervalsBefore(cardHistory, card, Pairs(cardHistory))
  }

  /**
   * Every successful interval is the positive gap after a correctly answered
   * review, there are fewer of them than reviews, and there is at least one
   * exactly when some pair of reviews is a successful step.
   */
  lemma {:induction false} IntervalsBeforeSound(cardHistory: seq<Row>, card: string, k: nat)
    requires k == 0 || k < |cardHistory|
    ensures var r := IntervalsBefore(cardHistory, card, k);
            && (forall j :: 0 <= j < |r| ==>
                  exists i :: 0 <= i < k && SuccessfulStep(cardHistory, card, i) && Gap(cardHistory, i) == r[j])
            && (|r| > 0 <==> exists i :: 0 <= i < k && SuccessfulStep(cardHistory, card, i))
            && (forall i :: 0 <= i < k && SuccessfulStep(cardHistory, card, i) ==> Gap(cardHistory, i) in r)
  {
    if k > 0 {
      IntervalsBeforeSound(cardHistory, card, k - 1);
    }
  }

  lemma SuccessfulIntervalsSound(cardHistory: seq<Row>, card: string)
    ensures var r := SuccessfulIntervals(cardHistory, card);
            && |r| <= Pairs(cardHistory)
            && (forall j :: 0 <= j < |r| ==> r[j] > 0)
            && (forall j :: 0 <= j < |r| ==>
                  exists i :: 0 <= i < Pairs(cardHistory) && SuccessfulStep(cardHistory, card, i) && Gap(cardHistory, i) == r[j])
            && (|r| > 0 <==> exists i :: 0 <= i < Pairs(cardHistory) && SuccessfulStep(cardHistory, card, i))
            && (forall i :: 0 <= i < Pairs(cardHistory) && SuccessfulStep(cardHistory, card, i) ==> Gap(cardHistory, i) in r)
  {
    IntervalsBeforeSound(cardHistory, card, Pairs(cardHistory));
  }

  /** The inner loop of `_prepare_training_data` (smart_review.py:98-103). */
  method CollectSuccessfulIntervals(cardHistory: seq<Row>, card: string) returns (intervals: seq<int>)
    ensures intervals == SuccessfulIntervals(cardHistory, card)
  {
    intervals := [];
    var i := 0;
    while i < |cardHistory| - 1
      invariant 0 <= i <= Pairs(cardHistory)
      invariant intervals == IntervalsBefore(cardHistory, card, i)
    {
      if AnsweredCorrectly(cardHistory[i], card) {
        var interval := cardHistory[i + 1].timestamp - cardHistory[i].timestamp;
        if interval > 0 {
          intervals := intervals + [interval];
        }
      }
      i := i + 1;
    }
  }

  function Sum(xs: seq<int>): (s: int)
    ensures (forall i :: 0 <= i < |xs| ==> xs[i] > 0) ==> s >= |xs|
  {
    if xs == [] then 0 else Sum(xs[..|xs| - 1]) + xs[|xs| - 1]
  }

  /** `np.mean` of the intervals, converted to hours. */
  function MeanHours(intervals: seq<int>): (h: real)
    requires |intervals| > 0
    ensures (forall i :: 0 <= i < |intervals| ==> intervals[i] > 0) ==> h > 0.0
  {
    Sum(intervals) as real / (3600.0 * |intervals| as real)
  }

  /**
   * What one (set, card) pair adds to the training data: nothing when there
   * are no features or no successful interval, otherwise one sample.
   */
  function CardSample(log: Log, card: string, setName: string, clock: Clock): (r: Result<Option<Sample>>)
    ensures r.Success? && r.value.Some? ==>
              && r.value.value.targetHours > 0.0
              && r.value.value.features.totalReviews == Mentions(log.rows, card) >= 2
    ensures ExtractFeatures(log, card, setName, clock) == Success(None) ==> r == Success(None)
    ensures r.Failure? <==> ExtractFeatures(log, card, setName, clock).Failure?
    ensures r.Success? ==>
              (r.value.Some? <==> ExtractFeatures(log, card, setName, clock).value.Some?
                                  && |SuccessfulIntervals(CardHistory(log.rows, card), card)| > 0)
  {
    match ExtractFeatures(log, card, setName, clock)
    case Failure(e) => Failure(e)
    case Success(None) => Success(None)
    case Success(Some(f)) =>
      var intervals := SuccessfulIntervals(CardHistory(log.rows, card), card);
      if |intervals| == 0 then Success(None)
      else Success(Some(Sample(f, MeanHours(intervals))))
  }

  /** Whether a card yields a sample: enough reviews and at least one successful interval. */
  predicate Contributes(log: Log, card: string) {
    && Mentions(log.rows, card) >= 2
    && |SuccessfulIntervals(CardHistory(log.rows, card), card)| > 0
  }

  /** How many of the cards yield a sample. */
  function ContributingCards(log: Log, cards: seq<string>): (n: nat)
    ensures n <= |cards|
  {
    if cards == [] then 0
    else ContributingCards(log, cards[..|cards| - 1]) + (if Contributes(log, cards[|cards| - 1]) then 1 else 0)
  }

  predicate ValidSamples(samples: seq<Sample>) {
    forall i :: 0 <= i < |samples| ==> samples[i].targetHours > 0.0 && samples[i].features.totalReviews >= 2
  }

  /** The samples the inner `for card` loop collects for one set, or the first exception. */
  function SamplesForCards(log: Log, setName: string, cards: seq<string>, clock: Clock): (r: Result<seq<Sample>>)
    ensures r.Success? ==> ValidSamples(r.value) && |r.value| <= |cards|
  {
    if cards == [] then Success([])
    else
      match SamplesForCards(log, setName, cards[..|cards| - 1], clock)
      case Failure(e) => Failure(e)
      case Success(prev) =>
        match CardSample(log, cards[|cards| - 1], setName, clock)
        case Failure(e) => Failure(e)
        case Success(None) => Success(prev)
        case Success(Some(s)) => Success(prev + [s])
  }

  /** The samples the outer `for set_name` loop collects, or the first exception. */
  function SamplesForSets(log: Log, sets: seq<string>, cards: seq<string>, clock: Clock): (r: Result<seq<Sample>>)
    ensures r.Success? ==> ValidSamples(r.value)
  {
    if sets == [] then Success([])
    else
      match SamplesForSets(log, sets[..|sets| - 1], cards, clock)
      case Failure(e) => Failure(e)
      case Success(prev) =>
        match SamplesForCards(log, sets[|sets| - 1], cards, clock)
        case Failure(e) => Failure(e)
        case Success(more) => Success(prev + more)
  }

  /** `_prepare_training_data` on a non-empty log; `history_df['Set']` raises KeyError without a Set column. */
  function TrainingSamples(log: Log, clock: Clock): Result<seq<Sample>> {
    if "Set" !in log.columns then Failure(KeyError("Set"))
    else SamplesForSets(log, UniqueSets(log.rows), CardColumns(log.columns), clock)
  }

  /** On a non-empty log, one set yields one sample per contributing card column. */
  lemma {:induction false} SamplesPerSet(log: Log, setName: string, cards: seq<string>, clock: Clock)
    requires !IsEmpty(log)
    requires forall c :: c in cards ==> c in log.columns
    requires SamplesForCards(log, setName, cards, clock).Success?
    ensures |SamplesForCards(log, setName, cards, clock).value| == ContributingCards(log, cards)
  {
    if cards != [] {
      var init, last := cards[..|cards| - 1], cards[|cards| - 1];
      assert forall c :: c in init ==> c in cards;
      SamplesPerSet(log, setName, init, clock);
      assert last in cards;
    }
  }

  /**
   * Every distinct set repeats the samples of every contributing card, so a
   * successful assembly holds (number of sets) x (contributing cards) samples.
   */
  lemma {:induction false} TrainingSampleCount(log: Log, clock: Clock)
    requires !IsEmpty(log)
    requires TrainingSamples(log, clock).Success?
    ensures |TrainingSamples(log, clock).value|
         == |UniqueSets(log.rows)| * ContributingCards(log, CardColumns(log.columns))
  {
    var cards := CardColumns(log.columns);
    SamplesForSetsCount(log, UniqueSets(log.rows), cards, clock);
  }

  lemma {:induction false} SamplesForSetsCount(log: Log, sets: seq<string>, cards: seq<string>, clock: Clock)
    requires !IsEmpty(log)
    requires forall c :: c in cards ==> c in log.columns
    requires SamplesForSets(log, sets, cards, clock).Success?
    ensures |SamplesForSets(log, sets, cards, clock).value| == |sets| * ContributingCards(log, cards)
  {
    var n := ContributingCards(log, cards);
    if sets == [] {
      assert |sets| * n == 0;
    } else {
      var init := sets[..|sets| - 1];
      var prev := SamplesForSets(log, init, cards, clock);
      var more := SamplesForCards(log, sets[|sets| - 1], cards, clock);
      assert prev.Success? && more.Success?;
      assert SamplesForSets(log, sets, cards, clock).value == prev.value + more.value;
      SamplesForSetsCount(log, init, cards, clock);
      SamplesPerSet(log, sets[|sets| - 1], cards, clock);
      MulStep(|init|, n);
    }
  }

  lemma MulStep(m: nat, n: nat)
    ensures (m + 1) * n == m * n + n
  {
  }

  /** An exception raised for one card ends the whole loop with that exception. */
  lemma {:induction false} CardsFailurePersists(log: Log, setName: string, cards: seq<string>, k: nat, clock: Clock)
    requires k <= |cards|
    requires SamplesForCards(log, setName, cards[..k], clock).Failure?
    ensures SamplesForCards(log, setName, cards, clock) == SamplesForCards(log, setName, cards[..k], clock)
    decreases |cards| - k
  {
    if k < |cards| {
      assert cards[..|cards| - 1][..k] == cards[..k];
      CardsFailurePersists(log, setName, cards[..|cards| - 1], k, clock);
    } else {
      assert cards[..k] == cards;
    }
  }

  lemma {:induction false} SetsFailurePersists(log: Log, sets: seq<string>, cards: seq<string>, k: nat, clock: Clock)
    requires k <= |sets|
    requires SamplesForSets(log, sets[..k], cards, clock).Failure?
    ensures SamplesForSets(log, sets, cards, clock) == SamplesForSets(log, sets[..k], cards, clock)
    decreases |sets| - k
  {
    if k < |sets| {
      assert sets[..|sets| - 1][..k] == sets[..k];
      SetsFailurePersists(log, sets[..|sets| - 1], cards, k, clock);
    } else {
      assert sets[..k] == sets;
    }
  }

  /** The `for card in set_cards` loop of `_prepare_training_data` for one set (smart_review.py:89-107). */
  method CollectSetSamples(log: Log, setName: string, cards: seq<string>, clock: Clock) returns (r: Result<seq<Sample>>)
    ensures r == SamplesForCards(log, setName, cards, clock)
  {
    var setSamples: seq<Sample> := [];
    var ci := 0;
    while ci < |cards|
      invariant 0 <= ci <= |cards|
      invariant SamplesForCards(log, setName, cards[..ci], clock) == Success(setSamples)
    {
      var card := cards[ci];
      assert cards[..ci + 1][..ci] == cards[..ci];
      var features := ExtractFeatures(log, card, setName, clock);
      if features.Failure? {
        CardsFailurePersists(log, setName, cards, ci + 1, clock);
        return Failure(features.error);
      }
      if features.value.Some? {
        var cardHistory := CardHistory(log.rows, card);
        var intervals := CollectSuccessfulIntervals(cardHistory, card);
        if |intervals| > 0 {
          setSamples := setSamples + [Sample(features.value.value, MeanHours(intervals))];
        }
      }
      ci := ci + 1;
    }
    assert cards[..ci] == cards;
    return Success(setSamples);
  }

  /** `_prepare_training_data` (smart_review.py:80-109), called by `train_model` on a non-empty log. */
  method PrepareTrainingData(log: Log, clock: Clock) returns (r: Result<seq<Sample>>)
    ensures r == TrainingSamples(log, clock)
  {
    if "Set" !in log.columns {
      return Failure(KeyError("Set"));
    }
    var sets := UniqueSets(log.rows);
    var cards := CardColumns(log.columns);
    var samples: seq<Sample> := [];
    var si := 0;
    while si < |sets|
      invariant 0 <= si <= |sets|
      invariant SamplesForSets(log, sets[..si], cards, clock) == Success(samples)
    {
      assert sets[..si + 1][..si] == sets[..si];
      var setSamples := CollectSetSamples(log, sets[si], cards, clock);
      if setSamples.Failure? {
        SetsFailurePersists(log, sets, cards, si + 1, clock);
        return Failure(setSamples.error);
      }
      samples := samples + setSamples.value;
      si := si + 1;
    }
    assert sets[..si] == sets;
    return Success(samples);
  }
}
