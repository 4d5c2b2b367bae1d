# Flashcards scheduling core, modelled in Dafny

This project models the non-learning core of a flashcard trainer with
spaced-repetition review:

- the **Leitner ladder** of review delays (0 h, 1 d, 3 d, 1 w, 2 w, 4 w, 8 w)
  and its lookup with the level clamped to the last rung;
- the **level rule** of `SmartReview.update_card_level`, which derives a card's
  level from how many sessions of the review history mention the card;
- the **feature-extraction gate** (no features for an empty history or a card
  mentioned fewer than twice) and the **fallback decision** of
  `get_next_review_time`: the ladder without features or without a model,
  otherwise the model's prediction floored at one hour;
- the assembly of **training samples**: the successful intervals of a card
  (gaps after a correctly answered review, strictly positive), one sample per
  set and contributing card, and the **training gate** of ten samples;
- the **card-set store** `CardManager`: a dictionary from set name to a
  description and a word -> answer map, with create, delete, add, remove and
  edit operations that each answer whether they succeeded, and three getters.

Modules: `Wrappers` (Option, Result, the Python exceptions that escape),
`ReviewLog` (the loaded history table), `Leitner` (ladder and level rule),
`Features` (extraction and training samples), `SmartReview` (delay choice and
the class holding the model and scaler), `CardManager` (the store).

Representation choices:

- The history is the CSV table after loading: a header (`columns`) and rows
  with an integer timestamp in seconds, the set name, score, total and the
  non-blank card cells. A column the table lacks raises `KeyError`, as pandas
  does; the model returns `Failure(KeyError(..))` for it.
- The wall clock is a `Clock` parameter (timestamp, hour of day, weekday).
  Review times are returned in seconds, `now + 3600 * hours`.
- The regressor and the scaler are values that hold functions; fitting them
  is passed to `TrainModel` as two function parameters, and the model file
  is passed to `LoadModel` as an optional stored value.
- `card_sets` is a `map` field beside `names`, the dictionary's key order,
  so that `get_sets` answers in creation order.

Behaviour of the code that the model keeps as it is:

- The level is `min(n, 6)` after a correct answer and `max(0, n - 2)` after an
  incorrect one, with `n` the number of rows mentioning the card, because the
  code takes `len(card_history) - 1` as the current level. A card whose column
  exists but which no row mentions gets level 0 after a correct answer;
  a card without a column raises `KeyError`.
- The code has no model versioning, metadata file, growth-ratio retraining or
  recovery from a corrupt model file; none of these is modelled.
- A malformed history row is not skipped by the code; row parsing is outside
  the model.

## Model

| member | source | states |
|---|---|---|
| ReviewLog.CardHistory | smart_review.py:51 | every row kept comes from the log and has the card's cell present, every such row is kept, and there are no more rows than in the log |
| ReviewLog.CardHistoryPrefix | smart_review.py:51 | the kept rows stay in file order: filtering a prefix of the log gives a prefix of the card's history |
| ReviewLog.CardHistoryCounts | smart_review.py:51 | each mentioning row is kept as many times as the log holds it and every other row is dropped, so `Mentions` counts sessions with repeats |
| ReviewLog.CardColumns | smart_review.py:86-87 | a column is a card column exactly when it is in the header and is not one of the five fixed columns |
| ReviewLog.Distinct | smart_review.py:85 | `unique()` keeps every value, adds none and repeats none |
| ReviewLog.UniqueSets | smart_review.py:85 | the sets iterated over are each set name occurring in some row, once |
| Leitner.LadderHours | smart_review.py:158 | a non-negative level gets the ladder entry at `min(level, 6)`, every level from 6 up gets 1344 hours, levels -7..-1 index from the end and lower ones raise IndexError |
| Leitner.LadderStrictlyIncreasing | smart_review.py:24 | the ladder's delays grow strictly with the level |
| Leitner.LadderMonotone | smart_review.py:24 | a higher non-negative level never gets a shorter fallback delay |
| Leitner.UpdateCardLevel | smart_review.py:180-187 | KeyError exactly when the card has no column; otherwise `min(n, 6)` after a correct answer and `max(0, n - 2)` after an incorrect one, never negative |
| Leitner.IncorrectCanOutrankCorrect | smart_review.py:182-187 | with ten sessions mentioning a card, an incorrect answer gives level 8 and a correct one level 6 |
| Leitner.UpdateCardLevelClamped | smart_review.py:182-187 | the corrected rule stays within `[0, 6]`, agrees with the code whenever the card has at most eight sessions, and gives the top rung wherever the code's level is above it |
| Leitner.CorrectNotBelowIncorrect | smart_review.py:184-187 | under the corrected rule a correct answer never gives a lower level than an incorrect one on the same history |
| Leitner.ReviewClimbsLadder | smart_review.py:181-185 | one more logged session of the card raises the level after a correct answer by one, up to the top |
| Leitner.UnseenCardStaysAtLevelZero | smart_review.py:181-187 | a card whose column exists but which no row mentions gets level 0 after a correct and after an incorrect answer |
| Features.ExtractFeatures | smart_review.py:47-76 | no features for an empty log or a card mentioned fewer than twice; KeyError for a missing card column, and, for a card mentioned at least twice, for the first missing Set, Score or Total column; features exactly when the log is non-empty, the card has at least two mentions and those columns exist; features carry the review count and the current hour and weekday |
| Features.IntervalsBefore | smart_review.py:98-103 | at most one interval per pair of consecutive reviews, every interval strictly positive |
| Features.IntervalsBeforeSound | smart_review.py:98-103 | every interval is the gap after a review answered 1, every positive gap after such a review is among the intervals, and there is one exactly when such a gap exists |
| Features.SuccessfulIntervalsSound | smart_review.py:96-103 | the successful intervals number at most one fewer than the card's reviews, are positive, each follows a correct review, every successful step's gap is among them, and they exist exactly when a successful step does |
| Features.CollectSuccessfulIntervals | smart_review.py:96-103 | the loop collects exactly the successful intervals |
| Features.Sum | smart_review.py:107 | a sum of positive gaps is at least their number |
| Features.MeanHours | smart_review.py:107 | the mean of positive gaps is a positive number of hours |
| Features.CardSample | smart_review.py:90-107 | a card yields a sample exactly when it has features and at least one successful interval; its target is positive and its review count at least 2; it fails exactly when extraction fails |
| Features.SamplesForCards | smart_review.py:89-107 | one set yields at most one sample per card, each valid |
| Features.SamplesForSets | smart_review.py:85-107 | every assembled sample has a positive target and at least two reviews |
| Features.SamplesPerSet | smart_review.py:89-107 | on a non-empty log one set yields exactly one sample per contributing card |
| Features.TrainingSampleCount | smart_review.py:85-109 | the number of samples is the number of distinct sets times the number of contributing cards |
| Features.CollectSetSamples | smart_review.py:89-107 | the per-set loop collects exactly the set's samples, or the first exception |
| Features.PrepareTrainingData | smart_review.py:80-109 | the nested loops collect exactly the training samples, or KeyError without a Set column, or the first exception |
| SmartReview.ReviewDelayHours | smart_review.py:156-164 | the ladder delay when features or model are absent; otherwise at least one hour, at least the prediction, and equal to one of them |
| SmartReview.SmartReview.constructor | smart_review.py:20-21 | a new scheduler has no model and an unfitted scaler |
| SmartReview.SmartReview.TrainModel | smart_review.py:111-132 | an empty log or fewer than ten assembled samples answer false and change nothing; an assembly exception escapes; otherwise the scaler is fitted to the samples' features and the model to the scaled features and targets |
| SmartReview.SmartReview.LoadModel | smart_review.py:134-139 | loads model and scaler exactly when a stored model exists, otherwise changes nothing |
| SmartReview.SmartReview.NextReviewTime | smart_review.py:141-166 | the review time is never before now; now plus the ladder delay without features or model, with a negative level indexing from the end and IndexError below -7; now plus `max(1, prediction)` hours on the scaled features with both; extraction's KeyError escapes |
| SmartReview.SingleReviewUsesLadder | smart_review.py:153-159 | a card mentioned by one session is scheduled from the ladder whether or not a model is loaded |
| CardManager.Without | card_manager.py:62 | deleting a key removes it and keeps the other keys, still each once |
| CardManager.EditedCards | card_manager.py:119-125 | a rename to a different non-empty word drops the old word and maps the new one to the new answer or the old answer; otherwise only the word's answer may change |
| CardManager.RenameRoundTrip | card_manager.py:119-123 | renaming a card to a fresh word and back restores the set's cards |
| CardManager.CardManager.constructor | card_manager.py:16-21 | without a sets file the store is empty |
| CardManager.CardManager.CreateSet | card_manager.py:39-47 | fails and changes nothing on an existing name; otherwise adds exactly that set, empty, with its description, last in order |
| CardManager.CardManager.DeleteSet | card_manager.py:59-64 | fails on an unknown name; otherwise removes exactly that set |
| CardManager.CardManager.AddCard | card_manager.py:78-83 | fails on an unknown set; otherwise maps the word to the answer, overwriting, and touches nothing else |
| CardManager.CardManager.RemoveCard | card_manager.py:96-101 | fails with no change when the set or word is missing; otherwise removes exactly that word |
| CardManager.CardManager.EditCard | card_manager.py:116-128 | fails with no change when the set or word is missing; otherwise edits only that set's cards as EditedCards says, and with neither argument succeeds without change |
| CardManager.CardManager.GetSets | card_manager.py:130-132 | every set name exactly once, in creation order |
| CardManager.CardManager.GetSetInfo | card_manager.py:134-144 | the set's record, and none exactly when the set is absent |
| CardManager.CardManager.GetCards | card_manager.py:146-157 | the set's card map, and none exactly when the set is absent |

## Findings

| source | as written | input that shows it | evidently intended | confidence | as-written member | corrected member |
|---|---|---|---|---|---|---|
| smart_review.py:186-187 | an incorrect answer gives `max(0, len(card_history) - 2)`, with no upper clamp | a card mentioned in 10 sessions: incorrect gives level 8, correct gives level 6 | levels stay on the ladder `[0, 6]` and an incorrect answer never ranks above a correct one; the corrected rule clamps the incorrect-answer level to 6 and changes nothing where the code already stays on the ladder | medium, not executed; the delay for level 8 is clamped to 1344 hours anyway, so only the returned level is affected | Leitner.IncorrectCanOutrankCorrect | Leitner.UpdateCardLevelClamped |

## Left out

- Features.ExtractFeatures: does not compute the floating-point features `avg_success_rate`, `recent_success_rate`, `avg_interval` and `set_avg_success`; only the review count, hour, weekday and seconds since the last review are kept.
- Features.MeanHours: exact real arithmetic, not floating point, so rounding is not modelled.
- The regressor and scaler themselves (random forest fitting and prediction, standardisation): foreign library code, represented by function values.
- Reading the history CSV, parsing its timestamps, and `joblib` dump and load of the model: file I/O; `TrainModel` does not write the model file and `LoadModel` receives its contents.
- JSON load and save of the card sets: file I/O; every mutator's save is not modelled.
- The wall clock: replaced by the `Clock` parameter.
- Cell values other than 0 and 1, and NaN set names: the model stores integer cells and string set names.
- Aliasing: `get_set_info` and `get_cards` return the stored dictionaries themselves, so a caller could change the store through them; the model returns values.
- The order of cards within a set: card maps are unordered in the model.
- A set record loaded from JSON without its fields, for which `get_cards` would answer none or fail: every `SetInfo` has a description and cards.
- main.py: the interactive game and the CSV history writer are terminal and file I/O.
