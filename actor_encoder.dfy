/**
  `ActorEncoder.transform` (actor_encoder.py:34-57): for each movie, one
  value per cast slot looked up in the fitted history, the mean and count of
  the slots that hold a score, and the back-fill of missing slots from later
  ones. `ActorEncoder` itself is a class: `fit` stores the history table in a
  field that `transform` only reads.
*/
module ActorEncoding {
  import opened Wrappers
  import opened ActorHistory

  /** The placeholder actor of a slot past the end of the cast list. */
  const ColdStartActor: string := "~"

  /** One output row: the movie, its slot values, `actor_mean` and `n_scores`. */
  datatype Encoded = Encoded(movie: Movie, slots: seq<Option<real>>, actorMean: Option<real>, nScores: nat)

  // ---------------------------------------------------------------------------
  // Slot lookup (actor_encoder.py:36-43)

  /** Slot i holds `cast[i]` when the cast is long enough, else the placeholder. */
  function SlotActor(cast: seq<string>, i: nat): string
  {
    if |cast| > i then cast[i] else ColdStartActor
  }

  /** The `n` slot values of a movie before back-fill. */
  function RawSlots(h: seq<Entry>, n: nat, m: Movie): seq<Option<real>>
  {
    seq(n, i requires 0 <= i < n => LatestScore(h, SlotActor(m.cast, i), m.date))
  }

  /**
    A movie always gets exactly `n` slots whatever its cast length; a slot
    with a value got it from a history row of that slot's actor dated
    strictly before the movie, and a slot is missing only when no such row
    exists.
  */
  lemma RawSlotsNoLeakage(h: seq<Entry>, n: nat, m: Movie, i: nat)
    requires i < n
    ensures |RawSlots(h, n, m)| == n
    ensures RawSlots(h, n, m)[i].Some? ==>
              exists k :: 0 <= k < |h| && h[k].actor == SlotActor(m.cast, i) && h[k].date < m.date
                          && h[k].avg == RawSlots(h, n, m)[i].value
    ensures RawSlots(h, n, m)[i].None? <==>
              forall k :: 0 <= k < |h| ==> !(h[k].actor == SlotActor(m.cast, i) && h[k].date < m.date)
  {
  }

  // ---------------------------------------------------------------------------
  // Aggregates (actor_encoder.py:45-52)

  /** The `x >= 0` test: NaN fails it, and so would a negative value. */
  predicate Scored(v: Option<real>)
  {
    v.Some? && v.value >= 0.0
  }

  function ScoredCount(s: seq<Option<real>>): nat
  {
    if |s| == 0 then 0
    else ScoredCount(s[..|s| - 1]) + (if Scored(s[|s| - 1]) then 1 else 0)
  }

  function ScoredSum(s: seq<Option<real>>): real
  {
    if |s| == 0 then 0.0
    else ScoredSum(s[..|s| - 1]) + (if Scored(s[|s| - 1]) then s[|s| - 1].value else 0.0)
  }

  /** `np.divide(actor_mean, n_scores)`: 0/0 is NaN, the missing mean. */
  function ScoredMean(s: seq<Option<real>>): (r: Option<real>)
    ensures r.None? <==> forall i :: 0 <= i < |s| ==> !Scored(s[i])
  {
    ScoredCountZero(s);
    if ScoredCount(s) == 0 then None else Some(ScoredSum(s) / (ScoredCount(s) as real))
  }

  function PresentCount(s: seq<Option<real>>): nat
  {
    if |s| == 0 then 0
    else PresentCount(s[..|s| - 1]) + (if s[|s| - 1].Some? then 1 else 0)
  }

  /**
    `n_scores` is at most the number of slots, never more than the slots
    that hold a value, and equals that number when no value is negative.
  */
  lemma {:induction false} ScoredCountBounds(s: seq<Option<real>>)
    ensures ScoredCount(s) <= PresentCount(s) <= |s|
    ensures (forall i :: 0 <= i < |s| && s[i].Some? ==> s[i].value >= 0.0) ==> ScoredCount(s) == PresentCount(s)
  {
    if |s| > 0 {
      ScoredCountBounds(s[..|s| - 1]);
    }
  }

  /** `n_scores` is 0 exactly when no slot holds a non-negative value. */
  lemma {:induction false} ScoredCountZero(s: seq<Option<real>>)
    ensures ScoredCount(s) == 0 <==> forall i :: 0 <= i < |s| ==> !Scored(s[i])
  {
    if |s| > 0 {
      ScoredCountZero(s[..|s| - 1]);
      assert forall i :: 0 <= i < |s| - 1 ==> s[..|s| - 1][i] == s[i];
    }
  }

  lemma {:induction false} ScoredSumBounds(s: seq<Option<real>>)
    requires forall i :: 0 <= i < |s| && s[i].Some? ==> s[i].value <= 1.0
    ensures 0.0 <= ScoredSum(s) <= ScoredCount(s) as real
  {
    if |s| > 0 {
      ScoredSumBounds(s[..|s| - 1]);
    }
  }

  /** When every slot value is at most 1, a defined `actor_mean` lies in [0, 1]. */
  lemma ScoredMeanBounds(s: seq<Option<real>>)
    requires forall i :: 0 <= i < |s| && s[i].Some? ==> s[i].value <= 1.0
    ensures ScoredMean(s).Some? ==> 0.0 <= ScoredMean(s).value <= 1.0
  {
    ScoredSumBounds(s);
  }

  // ---------------------------------------------------------------------------
  // Back-fill (actor_encoder.py:54-55)

  /** `bfill(axis=1).iloc[:, 0]` on slots i..n-1: the first value present. */
  function FirstPresent(s: seq<Option<real>>): Option<real>
  {
    if |s| == 0 then None
    else if s[0].Some? then s[0]
    else FirstPresent(s[1..])
  }

  function BackFill(s: seq<Option<real>>): seq<Option<real>>
  {
    seq(|s|, i requires 0 <= i < |s| => FirstPresent(s[i..]))
  }

  /** FirstPresent finds the leftmost value, and is missing only when every slot is. */
  lemma {:induction false} FirstPresentSpec(s: seq<Option<real>>)
    ensures FirstPresent(s).None? <==> forall k :: 0 <= k < |s| ==> s[k].None?
    ensures FirstPresent(s).Some? ==>
              exists j :: 0 <= j < |s| && s[j] == FirstPresent(s) && forall k :: 0 <= k < j ==> s[k].None?
  {
    if |s| > 0 && s[0].None? {
      FirstPresentSpec(s[1..]);
      assert forall k :: 1 <= k < |s| ==> s[k] == s[1..][k - 1];
      if FirstPresent(s).Some? {
        var j :| 0 <= j < |s[1..]| && s[1..][j] == FirstPresent(s[1..]) && forall k :: 0 <= k < j ==> s[1..][k].None?;
        assert s[j + 1] == FirstPresent(s);
      }
    }
  }

  /**
    After back-fill slot i holds the first value among the original slots
    i..n-1; a slot that had a value keeps it; a slot with nothing present at
    or after it stays missing.
  */
  lemma BackFillSpec(s: seq<Option<real>>, i: nat)
    requires i < |s|
    ensures |BackFill(s)| == |s|
    ensures s[i].Some? ==> BackFill(s)[i] == s[i]
    ensures BackFill(s)[i].None? <==> forall k :: i <= k < |s| ==> s[k].None?
    ensures BackFill(s)[i].Some? ==>
              exists j :: i <= j < |s| && s[j] == BackFill(s)[i] && forall k :: i <= k < j ==> s[k].None?
  {
    FirstPresentSpec(s[i..]);
    assert forall k :: i <= k < |s| ==> s[k] == s[i..][k - i];
    if BackFill(s)[i].Some? {
      var j :| 0 <= j < |s[i..]| && s[i..][j] == FirstPresent(s[i..]) && forall k :: 0 <= k < j ==> s[i..][k].None?;
      assert s[i + j] == BackFill(s)[i];
    }
  }

  /** Back-filling twice gives the same slots as back-filling once. */
  lemma BackFillIdempotent(s: seq<Option<real>>)
    ensures BackFill(BackFill(s)) == BackFill(s)
  {
    var b := BackFill(s);
    forall i | 0 <= i < |s| ensures BackFill(b)[i] == b[i] {
      BackFillSpec(s, i);
      BackFillSpec(b, i);
      if b[i].None? {
        forall k | i <= k < |s| ensures b[k].None? {
          BackFillSpec(s, k);
        }
      }
    }
  }

  // ---------------------------------------------------------------------------
  // One movie, and a whole frame

  /** The transformed row of movie `m`: mean and count come from the slots before back-fill. */
  function Encode(h: seq<Entry>, n: nat, m: Movie): Encoded
  {
    var raw := RawSlots(h, n, m);
    Encoded(m, BackFill(raw), ScoredMean(raw), ScoredCount(raw))
  }

  function EncodeAll(h: seq<Entry>, n: nat, X: seq<Movie>): seq<Encoded>
  {
    seq(|X|, i requires 0 <= i < |X| => Encode(h, n, X[i]))
  }

  /**
    Shape of a transformed row: `n` slots, `n_scores` in [0, n],
    `actor_mean` missing exactly when `n_scores` is 0, and every slot value,
    back-filled or not, taken from a history row of some slot's actor dated
    strictly before the movie.
  */
  lemma EncodeShape(h: seq<Entry>, n: nat, m: Movie)
    ensures var e := Encode(h, n, m);
            |e.slots| == n && e.nScores <= n && (e.actorMean.None? <==> e.nScores == 0)
    ensures var e := Encode(h, n, m);
            forall i :: 0 <= i < n && e.slots[i].Some? ==>
              exists j, k :: i <= j < n && 0 <= k < |h| && h[k].actor == SlotActor(m.cast, j)
                             && h[k].date < m.date && h[k].avg == e.slots[i].value
  {
    var raw := RawSlots(h, n, m);
    ScoredCountBounds(raw);
    var e := Encode(h, n, m);
    forall i | 0 <= i < n && e.slots[i].Some?
      ensures exists j, k :: i <= j < n && 0 <= k < |h| && h[k].actor == SlotActor(m.cast, j)
                             && h[k].date < m.date && h[k].avg == e.slots[i].value
    {
      BackFillSpec(raw, i);
      var j :| i <= j < n && raw[j] == e.slots[i] && forall q :: i <= q < j ==> raw[q].None?;
      RawSlotsNoLeakage(h, n, m, j);
    }
  }

  /**
    On a history fitted from scores in [0, 1], `n_scores` is the number of
    slots that found a value and a defined `actor_mean` lies in [0, 1].
  */
  lemma EncodeFittedScores(X: seq<Movie>, y: seq<real>, n: nat, m: Movie)
    requires |X| == |y|
    requires forall i :: 0 <= i < |y| ==> 0.0 <= y[i] <= 1.0
    ensures var e := Encode(History(X, y), n, m);
            e.nScores == PresentCount(RawSlots(History(X, y), n, m))
            && (e.actorMean.Some? ==> 0.0 <= e.actorMean.value <= 1.0)
  {
    var h := History(X, y);
    var raw := RawSlots(h, n, m);
    HistoryBounds(X, y);
    forall i | 0 <= i < n && raw[i].Some? ensures 0.0 <= raw[i].value <= 1.0 {
      RawSlotsNoLeakage(h, n, m, i);
      var k :| 0 <= k < |h| && h[k].actor == SlotActor(m.cast, i) && h[k].date < m.date && h[k].avg == raw[i].value;
      assert h[k] in h;
    }
    ScoredCountBounds(raw);
    ScoredMeanBounds(raw);
  }

  // ---------------------------------------------------------------------------
  // Worked cases

  /** Slots [missing, 0.7, missing, 0.3] back-fill to [0.7, 0.7, 0.3, 0.3]. */
  lemma BackFillExample()
    ensures BackFill([None, Some(0.7), None, Some(0.3)]) == [Some(0.7), Some(0.7), Some(0.3), Some(0.3)]
  {
    var s: seq<Option<real>> := [None, Some(0.7), None, Some(0.3)];
    assert s[0..] == s && s[1..] == [Some(0.7), None, Some(0.3)];
    assert s[2..] == [None, Some(0.3)] && s[2..][1..] == s[3..] == [Some(0.3)];
    assert FirstPresent(s[1..]) == Some(0.7);
    assert FirstPresent(s[0..]) == Some(0.7);
    assert FirstPresent(s[3..]) == Some(0.3);
    assert FirstPresent(s[2..]) == Some(0.3);
    var b := BackFill(s);
    assert b[0] == Some(0.7) && b[1] == Some(0.7) && b[2] == Some(0.3) && b[3] == Some(0.3);
  }

  /** Slots [0.6, missing, 0.8] give `actor_mean` 0.7 over `n_scores` 2; three missing slots give NaN and 0. */
  lemma AggregateExamples()
    ensures ScoredCount([Some(0.6), None, Some(0.8)]) == 2
    ensures ScoredMean([Some(0.6), None, Some(0.8)]) == Some(0.7)
    ensures ScoredCount([None, None, None]) == 0 && ScoredMean([None, None, None]) == None
  {
    var s: seq<Option<real>> := [Some(0.6), None, Some(0.8)];
    assert s[..2] == [Some(0.6), None] && s[..2][..1] == [Some(0.6)] && s[..2][..1][..0] == [];
    assert ScoredCount([Some(0.6)]) == 1 && ScoredSum([Some(0.6)]) == 0.6;
    assert ScoredCount(s[..2]) == 1 && ScoredSum(s[..2]) == 0.6;
    assert ScoredCount(s) == 2 && ScoredSum(s) == 1.4;
    var t: seq<Option<real>> := [None, None, None];
    assert t[..2] == [None, None] && t[..2][..1] == [None] && t[..2][..1][..0] == [];
    assert ScoredCount([None]) == 0;
    assert ScoredCount(t[..2]) == 0;
  }

  lemma ThreeMoviesExplode()
    ensures Explode([Movie(1, ["A"]), Movie(2, ["A"]), Movie(3, ["A"])], [0.5, 0.7, 0.9])
            == [Appearance("A", 1, 0.5), Appearance("A", 2, 0.7), Appearance("A", 3, 0.9)]
  {
    var X, y := [Movie(1, ["A"]), Movie(2, ["A"]), Movie(3, ["A"])], [0.5, 0.7, 0.9];
    var apps := [Appearance("A", 1, 0.5), Appearance("A", 2, 0.7), Appearance("A", 3, 0.9)];
    assert X[..2][..1] == X[..1] == [X[0]] && X[..1][..0] == [] && X[..2] == [X[0], X[1]];
    assert y[..2][..1] == y[..1] == [y[0]] && y[..1][..0] == [] && y[..2] == [y[0], y[1]];
    assert CastRows(X[0], y[0]) == [apps[0]];
    assert CastRows(X[1], y[1]) == [apps[1]];
    assert CastRows(X[2], y[2]) == [apps[2]];
    assert Explode(X[..1], y[..1]) == [apps[0]];
    assert Explode(X[..2], y[..2]) == [apps[0], apps[1]];
  }

  lemma ThreeMoviesMean()
    ensures MeanThrough([Appearance("A", 1, 0.5), Appearance("A", 2, 0.7), Appearance("A", 3, 0.9)], 2) == 0.7
  {
    var apps := [Appearance("A", 1, 0.5), Appearance("A", 2, 0.7), Appearance("A", 3, 0.9)];
    assert apps[..3] == apps && apps[..3][..2] == apps[..2] && apps[..2][..1] == [apps[0]] && apps[..1][..0] == [];
    assert ActorSum([apps[0]], "A") == 0.5 && ActorRows([apps[0]], "A") == 1;
    assert ActorSum(apps[..2], "A") == 1.2 && ActorRows(apps[..2], "A") == 2;
    assert ActorSum(apps, "A") == 2.1 && ActorRows(apps, "A") == 3;
  }

  /**
    Actor "A" scores 0.5, 0.7, 0.9 on days 1, 2, 3; a one-slot encoder
    reads 0.7, the mean through day 3, for a movie of day 4 starring "A".
  */
  lemma FitThenEncodeExample()
    ensures var X := [Movie(1, ["A"]), Movie(2, ["A"]), Movie(3, ["A"])];
            Encode(History(X, [0.5, 0.7, 0.9]), 1, Movie(4, ["A"])).slots == [Some(0.7)]
  {
    var X, y := [Movie(1, ["A"]), Movie(2, ["A"]), Movie(3, ["A"])], [0.5, 0.7, 0.9];
    var apps := [Appearance("A", 1, 0.5), Appearance("A", 2, 0.7), Appearance("A", 3, 0.9)];
    ThreeMoviesExplode();
    ThreeMoviesMean();
    PointInTimeLookup(X, y, "A", 4);
    var ex := Entries(X, y);
    var v := LatestScore(History(X, y), "A", 4);
    assert ex[2].actor == "A" && ex[2].date == 3;
    var k :| IsLatestBefore(ex, "A", 4, k) && v.value == MeanThrough(apps, k);
    assert k == 2;
    var raw := RawSlots(History(X, y), 1, Movie(4, ["A"]));
    assert raw == [Some(0.7)];
    assert raw[0..] == raw;
  }

  /**
    Cast ["A", "~"] with two slots, where "A" has one earlier score 0.4:
    slot 0 is 0.4, slot 1 stays missing (nothing after it), mean 0.4 over 1.
  */
  lemma ShortCastExample()
    ensures Encode([Entry("A", 1, 0.4)], 2, Movie(2, ["A", "~"]))
            == Encoded(Movie(2, ["A", "~"]), [Some(0.4), None], Some(0.4), 1)
  {
    var h, m := [Entry("A", 1, 0.4)], Movie(2, ["A", "~"]);
    assert h[..0] == [];
    assert LatestScore(h, "A", 2) == Some(0.4);
    assert LatestScore(h, "~", 2) == None;
    var raw := RawSlots(h, 2, m);
    assert raw == [Some(0.4), None];
    assert raw[..1] == [Some(0.4)] && raw[..1][..0] == [];
    assert ScoredCount(raw[..1]) == 1 && ScoredSum(raw[..1]) == 0.4;
    assert ScoredCount(raw) == 1 && ScoredSum(raw) == 0.4;
    assert raw[0..] == raw && raw[1..] == [None] && raw[1..][1..] == [];
    assert FirstPresent(raw[1..]) == None;
    assert BackFill(raw) == [Some(0.4), None];
  }

  // ---------------------------------------------------------------------------
  // The three loops of `transform`, for one movie

  /** Overwrites each slot with the first value at or after it (actor_encoder.py:54-55). */
  method BackFillSlots(a: array<Option<real>>)
    modifies a
    ensures a[..] == BackFill(old(a[..]))
  {
    ghost var raw := a[..];
    for i := 0 to a.Length
      invariant forall k :: 0 <= k < i ==> a[k] == FirstPresent(raw[k..])
      invariant forall k :: i <= k < a.Length ==> a[k] == raw[k]
    {
      assert a[i..] == raw[i..];
      a[i] := FirstPresent(a[i..]);
    }
  }

  /** Fills the slots, accumulates mean and count, then back-fills (actor_encoder.py:36-55). */
  method EncodeRow(h: seq<Entry>, n: nat, m: Movie) returns (e: Encoded)
    ensures e == Encode(h, n, m)
  {
    var slots := new Option<real>[n];
    for i := 0 to n
      invariant forall k :: 0 <= k < i ==> slots[k] == LatestScore(h, SlotActor(m.cast, k), m.date)
    {
      slots[i] := LatestScore(h, SlotActor(m.cast, i), m.date);
    }
    assert slots[..] == RawSlots(h, n, m);

    var total: real, count: nat := 0.0, 0;
    for i := 0 to n
      invariant total == ScoredSum(slots[..i]) && count == ScoredCount(slots[..i])
    {
      assert slots[..i + 1][..i] == slots[..i];
      if Scored(slots[i]) {
        total := total + slots[i].value;
        count := count + 1;
      }
    }
    assert slots[..n] == slots[..];
    var mean := if count == 0 then None else Some(total / (count as real));

    BackFillSlots(slots);
    e := Encoded(m, slots[..], mean, count);
  }

  // ---------------------------------------------------------------------------
  // The encoder object (actor_encoder.py:4-61)

  class ActorEncoder {
    var nActors: nat
    var history: seq<Entry>
    var fitted: bool

    /** `__init__(n_actors=3)`. */
    constructor (nActors: nat := 3)
      ensures this.nActors == nActors && !fitted && history == []
    {
      this.nActors := nActors;
      history := [];
      fitted := false;
    }

    /** `fit(X, y)`: stores the sorted history table; `y` is joined to `X` row by row. */
    method Fit(X: seq<Movie>, y: seq<real>)
      requires |X| == |y|
      modifies this
      ensures fitted && nActors == old(nActors) && history == History(X, y)
    {
      history := History(X, y);
      fitted := true;
    }

    /** `transform(df)`: reads the history, changes nothing, one output row per input row. */
    method Transform(X: seq<Movie>) returns (rows: seq<Encoded>)
      requires fitted
      ensures rows == EncodeAll(history, nActors, X)
    {
      rows := [];
      for r := 0 to |X|
        invariant rows == EncodeAll(history, nActors, X[..r])
      {
        var e := EncodeRow(history, nActors, X[r]);
        rows := rows + [e];
      }
      assert X[..|X|] == X;
    }

    /** `fit_transform(X, y)`: `fit` followed by `transform` of the same frame. */
    method FitTransform(X: seq<Movie>, y: seq<real>) returns (rows: seq<Encoded>)
      requires |X| == |y|
      modifies this
      ensures fitted && nActors == old(nActors) && history == History(X, y)
      ensures rows == EncodeAll(History(X, y), nActors, X)
    {
      Fit(X, y);
      rows := Transform(X);
    }
  }
}
