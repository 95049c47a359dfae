# Movie feature encoders, modelled in Dafny

This project models the two hand-written encoders of a movie audience-score
predictor. Each one turns a list-valued column of a movie frame into
fixed-width numeric features.

- `ActorEncoder` (actor_encoder.py) is a point-in-time cast scorer.
  - `fit` explodes the training casts into one row per appearance. Each row
    gets the actor's running mean score. The table is then sorted by
    (actor, date) and stored.
  - `transform` gives every movie `n_actors` slot values. Slot i is the
    running mean of the actor in slot i (`"~"` past the end of the cast),
    read from the latest history row dated strictly before the movie.
    Then come `actor_mean` and `n_scores`, computed over the slots that hold
    a score. Last, each slot is back-filled from the nearest later slot.
- `GenreEncoder` (src/marp/genre_encoder.py) builds a multi-hot genre encoding.
  - `fit` collects the genre vocabulary and removes `"nan"`.
  - `transform` fills a rows × vocabulary 0/1 matrix.

Files:

- `wrappers.dfy`: `Option`, the stand-in for pandas' NaN.
- `text_order.dfy`: the order Python's `<` puts on strings. The sort and the
  `groupby` use it.
- `actor_history.dfy`: `fit` and the history lookup. It contains the
  explode, the running mean, the stable sort and the merge-filter-last
  lookup. It also holds the mean as literally written (see Findings).
- `actor_encoder.dfy`: slots, aggregates, back-fill, and the class
  `ActorEncoder` with the per-row method that runs `transform`'s three loops.
- `genre_encoder.dfy`: the class `GenreEncoder`.

Modelling choices:

- Dates are integers.
- A missing value (NaN) is `None`.
- A frame row is a sequence position. The training frame's index is
  0..n-1, as it is after `train_test_split(shuffle=False)` of the loader's
  reset frame.
- `y` is joined to `X` position by position.
- `fit` needs `|X| == |y|`, and `transform` needs a fitted encoder. The
  source checks neither. `X.join(y)` (actor_encoder.py:9) is a left join on
  the index: a `y` that is shorter or labelled differently silently gives
  missing scores, and extra `y` rows are dropped. The model assumes matching
  frames, as at the only call site, which pairs `X_train` and `y_train` from
  one `train_test_split` (src/marp/main.py:40-48). Calling `transform` before
  `fit` fails with a missing attribute.

The code never removes `"~"`, or the `"nan"` that `str(x)` makes of a missing
actor (actor_encoder.py:30), from the history, so the model keeps them too:
an actor literally named `"~"` or `"nan"` is looked up like any other.

## Model

| member | source | states |
|---|---|---|
| `ActorHistory.ExplodeCount` | actor_encoder.py:10-13 | an actor billed k times over the training casts, duplicates in one cast included, gets exactly k exploded rows |
| `ActorHistory.ExplodeOrigin` | actor_encoder.py:9-13 | every exploded row carries an actor from some training movie's cast, with that movie's date and score |
| `ActorHistory.RunningMeansCorrect` | actor_encoder.py:15-21 | the one-pass expanding mean (per-actor running sums and counts) equals, row by row, the mean of that actor's scores over its rows up to and including this one, in input order |
| `ActorHistory.FirstAppearanceMean` | actor_encoder.py:15-21 | an actor's first row carries exactly its movie's score |
| `ActorHistory.RunningMeanBounds` | actor_encoder.py:15-21 | with scores in [0, 1], every running mean is in [0, 1] |
| `ActorHistory.Entries` | actor_encoder.py:10-25 | one history entry per exploded row, with that row's actor and date and the actor's running mean through that row |
| `ActorHistory.AsWrittenMeansMisaligned` | actor_encoder.py:15-21 | the mean as written gives movie "B"'s row the mean of actor "A" (0.8), where its running mean is 0.2 |
| `ActorHistory.SortByKeySorted` | actor_encoder.py:23-28 | the stored table is ordered by (actor, date) and is a permutation of the exploded rows |
| `ActorHistory.SortByKeyStable` | actor_encoder.py:26 | rows with the same (actor, date) keep their input order after the sort |
| `ActorHistory.LastQualifying` | actor_encoder.py:39-40 | the position found is a row of the actor dated strictly before the movie, with no such row after it; -1 only when no such row exists |
| `ActorHistory.LatestScore` | actor_encoder.py:39-43 | a slot value comes from a history row of that actor dated strictly before the movie; it is missing exactly when there is no such row (that row's stored mean is leakage-free only for a date-ordered training frame, see `DateOrderedLookupMean`) |
| `ActorHistory.LastQualifyingIsLatest` | actor_encoder.py:39-40 | on a table sorted by (actor, date), the last qualifying row has the greatest date before the movie, and among rows of that date it is the last |
| `ActorHistory.SortedLookupMatchesInput` | actor_encoder.py:23-43 | looking up the sorted table yields the row of the unsorted table with the greatest date before the movie (ties: last in input order), and finds nothing exactly when the unsorted table has no qualifying row |
| `ActorHistory.PointInTimeLookup` | actor_encoder.py:8-43 | the value read from the fitted history is missing exactly when the actor has no training appearance dated before the movie; otherwise it is the running mean at the latest such appearance |
| `ActorHistory.DateOrderedLookupMean` | actor_encoder.py:8-43 | when the training frame is in date order, the value read for an actor at a date is the mean of that actor's scores over exactly its training appearances dated before that date, and is missing exactly when there are none: no later score leaks in |
| `ActorHistory.UnorderedFrameLeaks` | actor_encoder.py:8-43 | `fit` does not sort its frame: for training movies "A" on day 5 (score 0.9) then "A" on day 1 (score 0.1), the value read at day 2 is 0.5, which includes the day-5 score |
| `ActorHistory.ColdStartMissing` | actor_encoder.py:39-43 | an actor with no earlier-dated training movie gets a missing value, not 0 |
| `ActorHistory.HistoryBounds` | actor_encoder.py:15-31 | with scores in [0, 1], every stored running mean is in [0, 1] |
| `ActorEncoding.RawSlotsNoLeakage` | actor_encoder.py:36-43 | there are always `n_actors` slots, whatever the cast length; a slot value comes from a row of the slot's actor (`cast[i]` or `"~"`) dated strictly before the movie; a slot is missing exactly when no such row exists |
| `ActorEncoding.ScoredMean` | actor_encoder.py:45-52 | `actor_mean` is missing (0/0), not 0, exactly when no slot holds a value that passes `x >= 0`, e.g. when every slot is missing |
| `ActorEncoding.ScoredCountBounds` | actor_encoder.py:45-50 | `n_scores` is at most the number of slots holding a value, which is at most `n_actors`; it equals that number when no value is negative |
| `ActorEncoding.ScoredCountZero` | actor_encoder.py:45-52 | `n_scores` is 0 exactly when no slot holds a value that passes `x >= 0` |
| `ActorEncoding.ScoredMeanBounds` | actor_encoder.py:45-52 | when slot values are at most 1, a defined `actor_mean` is in [0, 1] |
| `ActorEncoding.FirstPresentSpec` | actor_encoder.py:55 | `bfill(axis=1).iloc[:, 0]` yields the leftmost present value, and is missing only when all are |
| `ActorEncoding.BackFillSpec` | actor_encoder.py:54-55 | after back-fill, slot i holds the first value among the original slots i..n-1; a slot that had a value keeps it; a slot with nothing at or after it stays missing |
| `ActorEncoding.BackFillIdempotent` | actor_encoder.py:54-55 | back-filling twice gives what back-filling once gives |
| `ActorEncoding.EncodeShape` | actor_encoder.py:34-57 | a transformed row has `n_actors` slots, `n_scores` in [0, n_actors], and `actor_mean` missing exactly when `n_scores` is 0; every slot value, back-filled or not, comes from a history row of some slot's actor dated strictly before the movie |
| `ActorEncoding.EncodeFittedScores` | actor_encoder.py:45-52 | on a history fitted from scores in [0, 1], `n_scores` counts the slots that found a value, and a defined `actor_mean` is in [0, 1] |
| `ActorEncoding.BackFillExample` | actor_encoder.py:54-55 | slots [missing, 0.7, missing, 0.3] back-fill to [0.7, 0.7, 0.3, 0.3] |
| `ActorEncoding.AggregateExamples` | actor_encoder.py:45-52 | slots [0.6, missing, 0.8] give mean 0.7 over 2 scores; three missing slots give a missing mean and 0 |
| `ActorEncoding.FitThenEncodeExample` | actor_encoder.py:8-57 | actor "A" scored 0.5, 0.7, 0.9 on days 1-3; a later one-slot movie with "A" reads 0.7 |
| `ActorEncoding.ShortCastExample` | actor_encoder.py:36-55 | cast ["A", "~"] with two slots and one earlier score 0.4 for "A" gives slots [0.4, missing], mean 0.4, count 1 |
| `ActorEncoding.BackFillSlots` | actor_encoder.py:54-55 | the in-place loop leaves the slot array equal to the back-fill of its old contents |
| `ActorEncoding.EncodeRow` | actor_encoder.py:36-55 | the three loops (slot lookup, mean and count accumulation, back-fill) produce exactly the encoded row of the movie |
| `ActorEncoding.ActorEncoder.constructor` | actor_encoder.py:5-6 | a new encoder has `n_actors` slots (3 by default) and is not fitted |
| `ActorEncoding.ActorEncoder.Fit` | actor_encoder.py:8-31 | `fit` stores the sorted history of the training frame and keeps `n_actors` |
| `ActorEncoding.ActorEncoder.Transform` | actor_encoder.py:34-57 | `transform` changes neither the encoder nor its input; it gives one encoded row per input movie, in order, so two calls give the same output |
| `ActorEncoding.ActorEncoder.FitTransform` | actor_encoder.py:59-61 | `fit_transform(X, y)` stores `History(X, y)` and returns what `transform(X)` on that history returns |
| `GenreEncoding.GenresOfMembers` | src/marp/genre_encoder.py:7-10 | a genre is collected exactly when some row lists it |
| `GenreEncoding.FittedVocabularyMembers` | src/marp/genre_encoder.py:11-13 | a fitted vocabulary holds exactly the genres some row lists, minus "nan" |
| `GenreEncoding.RowOnesCountKnownGenres` | src/marp/genre_encoder.py:17-20 | with a duplicate-free vocabulary, the ones in a matrix row count the distinct genres of the row that are in the vocabulary; other genres add no 1 |
| `GenreEncoding.GenreEncoder.Fit` | src/marp/genre_encoder.py:6-13 | `fit` succeeds exactly when some row lists "nan"; it then stores each collected genre except "nan" exactly once; otherwise (KeyError) the encoder is unchanged |
| `GenreEncoding.GenreEncoder.Transform` | src/marp/genre_encoder.py:15-22 | the matrix has one row per input row and one column per vocabulary genre; entry (i, j) is 1 when genre j is in row i and 0 otherwise; the vocabulary is not changed |
| `GenreEncoding.GenreEncoder.FitTransform` | src/marp/genre_encoder.py:24-26 | `fit_transform` is `fit` followed by `transform` on the same rows, with no matrix when `fit` raises |

## Left out

- pandas index mechanics in `transform` (`reset_index`, `set_index`, `join`,
  the `date_x`/`date_y` suffixes): rows are positions, and merge-filter-last
  is the function `LatestScore`. A frame whose index repeats a label is not
  modelled.
- `transform`'s three loops run per slot column over all rows at once. The
  model runs them per row (`EncodeRow`). Rows do not interact, so the
  result is the same.
- Output columns: an encoded row holds the movie's date and cast plus the
  new columns. The other input columns pass through untouched and are not
  carried. The genre `transform` returns only the 0/1 matrix, not the frame
  joined with it.
- A training movie with an empty cast list: `explode` emits one row with a
  missing actor. Under the intended running mean that row's mean is missing
  too, and `groupby(...).last()` skips missing values, so the row can never
  be returned by a lookup; the model emits no row for it. Under the mean as
  written the row receives a real value and `str(x)` (actor_encoder.py:30)
  names its actor `"nan"`. The loader's `str(x).split(', ')[::2]`
  (src/marp/movie_data_loader.py:20) never yields an empty list, so the case
  does not arise.
- `fit` does not check that its frame is in date order. Each stored mean is
  taken in input order, so the promise that a value read at a date uses no
  score from that date or later (`DateOrderedLookupMean`) holds only for a
  date-ordered frame, as the loader's `sort_values('date')`
  (src/marp/movie_data_loader.py:29) and the `shuffle=False` split
  (src/marp/main.py:40-45) provide. `UnorderedFrameLeaks` shows a frame out
  of order.
- NaN and NaT inputs (a missing date or score), and scores that are not
  real numbers: values are exact reals, dates are integers, and
  floating-point rounding is not modelled.
- `list(genres)` takes the set's iteration order, which depends on
  hashing. The model fixes no order: any duplicate-free listing of the set
  is allowed.
- The cast split in the data loader, the cyclic date features, the one-hot
  encoder, the regressor, the CLI and plotting are not part of this model.

## Findings

| source | as written | input that shows it | evidently intended | confidence | as-written member | corrected member |
|---|---|---|---|---|---|---|
| actor_encoder.py:15-21 | `reset_index(drop=True)` renumbers the group-ordered expanding means 0..N-1. The assignment then pairs them by label with the exploded rows, whose labels repeat the movie's position. So the row of movie i gets the i-th mean in actor order. | movies [B on day 1, score 0.2; A on day 2, score 0.8]: B's row gets 0.8 (A's mean) | each row carries its own actor's running mean over its appearances so far (0.2 for B) | high; not executed | `ActorHistory.AsWrittenMeans` (shown by `ActorHistory.AsWrittenMeansMisaligned`) | `ActorHistory.RunningMeans` (proved by `ActorHistory.RunningMeansCorrect`; used by `ActorHistory.Entries`) |
