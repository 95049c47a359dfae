/**
  The history table that `ActorEncoder.fit` builds (actor_encoder.py:8-31)
  and the point-in-time lookup that `transform` runs against it
  (actor_encoder.py:39-43).

  Training movies are sequence positions (the frame index after a
  `train_test_split(shuffle=False)` of a reset frame is 0..n-1); dates are
  integers (days).
*/
module ActorHistory {
  import opened Wrappers
  import opened TextOrder

  /** The two columns of a movie row that the actor encoder reads. */
  datatype Movie = Movie(date: int, cast: seq<string>)

  /** One row of the exploded frame: an actor appearance with its movie's date and score. */
  datatype Appearance = Appearance(actor: string, date: int, score: real)

  /** One row of the stored history: actor, movie date and the actor's running mean score. */
  datatype Entry = Entry(actor: string, date: int, avg: real)

  // ---------------------------------------------------------------------------
  // Explode: one row per (movie, cast member) appearance

  function CastRows(m: Movie, score: real): seq<Appearance>
  {
    seq(|m.cast|, i requires 0 <= i < |m.cast| => Appearance(m.cast[i], m.date, score))
  }

  /** `X.join(y)[['cast','date','score']].explode('cast')`: movies in input order, each cast in billing order. */
  function Explode(X: seq<Movie>, y: seq<real>): seq<Appearance>
    requires |X| == |y|
  {
    if |X| == 0 then []
    else Explode(X[..|X| - 1], y[..|y| - 1]) + CastRows(X[|X| - 1], y[|y| - 1])
  }

  /** How many times `a` occurs in a cast list (duplicates count). */
  function Occurrences(cast: seq<string>, a: string): nat
  {
    if |cast| == 0 then 0
    else Occurrences(cast[..|cast| - 1], a) + (if cast[|cast| - 1] == a then 1 else 0)
  }

  /** How many times `a` occurs over all the cast lists of `X`. */
  function CastOccurrences(X: seq<Movie>, a: string): nat
  {
    if |X| == 0 then 0
    else CastOccurrences(X[..|X| - 1], a) + Occurrences(X[|X| - 1].cast, a)
  }

  /** Number of exploded rows that belong to actor `a`. */
  function ActorRows(apps: seq<Appearance>, a: string): nat
  {
    if |apps| == 0 then 0
    else ActorRows(apps[..|apps| - 1], a) + (if apps[|apps| - 1].actor == a then 1 else 0)
  }

  /** Sum of the scores of the rows of actor `a`. */
  function ActorSum(apps: seq<Appearance>, a: string): real
  {
    if |apps| == 0 then 0.0
    else ActorSum(apps[..|apps| - 1], a) + (if apps[|apps| - 1].actor == a then apps[|apps| - 1].score else 0.0)
  }

  lemma {:induction false} ActorRowsAppend(s: seq<Appearance>, t: seq<Appearance>, a: string)
    ensures ActorRows(s + t, a) == ActorRows(s, a) + ActorRows(t, a)
    ensures ActorSum(s + t, a) == ActorSum(s, a) + ActorSum(t, a)
  {
    if |t| > 0 {
      assert (s + t)[..|s + t| - 1] == s + t[..|t| - 1];
      ActorRowsAppend(s, t[..|t| - 1], a);
    } else {
      assert s + t == s;
    }
  }

  lemma {:induction false} CastRowsCount(m: Movie, score: real, a: string)
    ensures ActorRows(CastRows(m, score), a) == Occurrences(m.cast, a)
    decreases |m.cast|
  {
    if |m.cast| > 0 {
      var m' := Movie(m.date, m.cast[..|m.cast| - 1]);
      assert CastRows(m, score)[..|m.cast| - 1] == CastRows(m', score);
      CastRowsCount(m', score, a);
    }
  }

  /** Exploding keeps every appearance: an actor billed k times over the training casts has k rows. */
  lemma {:induction false} ExplodeCount(X: seq<Movie>, y: seq<real>, a: string)
    requires |X| == |y|
    ensures ActorRows(Explode(X, y), a) == CastOccurrences(X, a)
  {
    if |X| > 0 {
      var n := |X| - 1;
      ExplodeCount(X[..n], y[..n], a);
      ActorRowsAppend(Explode(X[..n], y[..n]), CastRows(X[n], y[n]), a);
      CastRowsCount(X[n], y[n], a);
    }
  }

  /** Every exploded row comes from one training movie: its actor is in that cast, with that date and score. */
  lemma {:induction false} ExplodeOrigin(X: seq<Movie>, y: seq<real>, k: nat)
    requires |X| == |y| && k < |Explode(X, y)|
    ensures exists i :: 0 <= i < |X| && Explode(X, y)[k].actor in X[i].cast
                        && Explode(X, y)[k].date == X[i].date && Explode(X, y)[k].score == y[i]
  {
    var n := |X| - 1;
    var prefix := Explode(X[..n], y[..n]);
    if k < |prefix| {
      ExplodeOrigin(X[..n], y[..n], k);
      var i :| 0 <= i < n && prefix[k].actor in X[..n][i].cast
                && prefix[k].date == X[..n][i].date && prefix[k].score == y[..n][i];
      assert X[..n][i] == X[i];
    } else {
      assert Explode(X, y)[k] == CastRows(X[n], y[n])[k - |prefix|];
    }
  }

  // ---------------------------------------------------------------------------
  // Running mean per actor (actor_encoder.py:15-21, intended meaning)

  /** The mean of actor `apps[k].actor`'s scores over its rows up to and including row k. */
  function MeanThrough(apps: seq<Appearance>, k: nat): real
    requires k < |apps|
  {
    assert apps[..k + 1][..k] == apps[..k];
    ActorSum(apps[..k + 1], apps[k].actor) / (ActorRows(apps[..k + 1], apps[k].actor) as real)
  }

  function SumOf(sums: map<string, real>, a: string): real
  {
    if a in sums then sums[a] else 0.0
  }

  function CountOf(counts: map<string, nat>, a: string): nat
  {
    if a in counts then counts[a] else 0
  }

  /** The expanding mean computed in one pass over rows i.., with per-actor running sums and counts. */
  function Accumulate(apps: seq<Appearance>, i: nat, sums: map<string, real>, counts: map<string, nat>): (r: seq<real>)
    requires i <= |apps|
    ensures |r| == |apps| - i
    decreases |apps| - i
  {
    if i == |apps| then []
    else
      var a := apps[i].actor;
      var s := SumOf(sums, a) + apps[i].score;
      var c := CountOf(counts, a) + 1;
      [s / (c as real)] + Accumulate(apps, i + 1, sums[a := s], counts[a := c])
  }

  /** `groupby('cast')['score'].expanding().mean()`, one value per exploded row, in row order. */
  function RunningMeans(apps: seq<Appearance>): (r: seq<real>)
    ensures |r| == |apps|
  {
    Accumulate(apps, 0, map[], map[])
  }

  /** Extending a prefix by row i adds that row to its actor's sum and count only. */
  lemma PrefixStep(apps: seq<Appearance>, i: nat, b: string)
    requires i < |apps|
    ensures ActorSum(apps[..i + 1], b) == ActorSum(apps[..i], b) + (if apps[i].actor == b then apps[i].score else 0.0)
    ensures ActorRows(apps[..i + 1], b) == ActorRows(apps[..i], b) + (if apps[i].actor == b then 1 else 0)
  {
    assert apps[..i + 1][..i] == apps[..i];
  }

  lemma {:induction false} AccumulateMeans(apps: seq<Appearance>, i: nat, sums: map<string, real>, counts: map<string, nat>)
    requires i <= |apps|
    requires forall a :: SumOf(sums, a) == ActorSum(apps[..i], a)
    requires forall a :: CountOf(counts, a) == ActorRows(apps[..i], a)
    ensures forall k :: i <= k < |apps| ==> Accumulate(apps, i, sums, counts)[k - i] == MeanThrough(apps, k)
    decreases |apps| - i
  {
    if i < |apps| {
      var a := apps[i].actor;
      var s := SumOf(sums, a) + apps[i].score;
      var c := CountOf(counts, a) + 1;
      var sums', counts' := sums[a := s], counts[a := c];
      forall b ensures SumOf(sums', b) == ActorSum(apps[..i + 1], b) && CountOf(counts', b) == ActorRows(apps[..i + 1], b) {
        PrefixStep(apps, i, b);
      }
      AccumulateMeans(apps, i + 1, sums', counts');
      var r := Accumulate(apps, i, sums, counts);
      assert r == [s / (c as real)] + Accumulate(apps, i + 1, sums', counts');
      forall k | i <= k < |apps| ensures r[k - i] == MeanThrough(apps, k) {
        if k == i {
          PrefixStep(apps, i, a);
        }
      }
    }
  }

  /** The one-pass expanding mean equals, row by row, the mean of the actor's scores up to that row. */
  lemma RunningMeansCorrect(apps: seq<Appearance>)
    ensures forall k :: 0 <= k < |apps| ==> RunningMeans(apps)[k] == MeanThrough(apps, k)
  {
    AccumulateMeans(apps, 0, map[], map[]);
  }

  /** An actor's first row carries exactly that movie's score. */
  lemma FirstAppearanceMean(apps: seq<Appearance>, k: nat)
    requires k < |apps|
    requires forall j :: 0 <= j < k ==> apps[j].actor != apps[k].actor
    ensures RunningMeans(apps)[k] == apps[k].score
  {
    RunningMeansCorrect(apps);
    NoEarlierRows(apps[..k], apps[k].actor);
    assert apps[..k + 1][..k] == apps[..k];
  }

  lemma {:induction false} NoEarlierRows(s: seq<Appearance>, a: string)
    requires forall j :: 0 <= j < |s| ==> s[j].actor != a
    ensures ActorRows(s, a) == 0 && ActorSum(s, a) == 0.0
  {
    if |s| > 0 {
      NoEarlierRows(s[..|s| - 1], a);
    }
  }

  lemma {:induction false} ActorSumBounds(s: seq<Appearance>, a: string)
    requires forall j :: 0 <= j < |s| ==> 0.0 <= s[j].score <= 1.0
    ensures 0.0 <= ActorSum(s, a) <= ActorRows(s, a) as real
  {
    if |s| > 0 {
      ActorSumBounds(s[..|s| - 1], a);
    }
  }

  /** When every score lies in [0, 1], every running mean lies in [0, 1]. */
  lemma RunningMeanBounds(apps: seq<Appearance>, k: nat)
    requires k < |apps|
    requires forall j :: 0 <= j < |apps| ==> 0.0 <= apps[j].score <= 1.0
    ensures 0.0 <= RunningMeans(apps)[k] <= 1.0
  {
    RunningMeansCorrect(apps);
    var p := apps[..k + 1];
    assert p[..k] == apps[..k];
    ActorSumBounds(p, apps[k].actor);
  }

  /** The exploded rows with their running means: the history table before it is sorted. */
  function Entries(X: seq<Movie>, y: seq<real>): (r: seq<Entry>)
    requires |X| == |y|
    ensures |r| == |Explode(X, y)|
    ensures forall k :: 0 <= k < |r| ==>
              var app := Explode(X, y)[k];
              r[k].actor == app.actor && r[k].date == app.date && r[k].avg == MeanThrough(Explode(X, y), k)
  {
    var apps := Explode(X, y);
    var means := RunningMeans(apps);
    RunningMeansCorrect(apps);
    seq(|apps|, k requires 0 <= k < |apps| => Entry(apps[k].actor, apps[k].date, means[k]))
  }

  // ---------------------------------------------------------------------------
  // The running mean as actor_encoder.py:15-21 literally computes it

  /** The frame label of each exploded row: `explode` repeats the movie's label (its position). */
  function ExplodeLabels(X: seq<Movie>): seq<nat>
  {
    if |X| == 0 then []
    else ExplodeLabels(X[..|X| - 1]) + seq(|X[|X| - 1].cast|, _ => |X| - 1)
  }

  /**
    `groupby('cast')...expanding().mean()` lists its values group by group,
    groups in ascending actor order and rows in input order inside a group:
    a stable sort on the actor alone (the date is blanked out of the key).
  */
  function GroupedMeans(ex: seq<Entry>): seq<real>
  {
    var byActor := SortByKey(seq(|ex|, k requires 0 <= k < |ex| => Entry(ex[k].actor, 0, ex[k].avg)));
    seq(|byActor|, k requires 0 <= k < |byActor| => byActor[k].avg)
  }

  /**
    As written: `reset_index(drop=True)` renumbers the grouped means 0..N-1
    and the assignment pairs them with the exploded rows by label, so the
    row of movie i receives the i-th grouped mean (missing when there is
    none), not its own running mean.
  */
  function AsWrittenMeans(X: seq<Movie>, y: seq<real>): (r: seq<Option<real>>)
    requires |X| == |y|
    ensures |r| == |Explode(X, y)|
  {
    var labels := ExplodeLabels(X);
    var grouped := GroupedMeans(Entries(X, y));
    seq(|Explode(X, y)|, k requires 0 <= k < |Explode(X, y)| =>
      if k < |labels| && labels[k] < |grouped| then Some(grouped[labels[k]]) else None)
  }

  lemma ExampleExplode()
    ensures Explode([Movie(1, ["B"]), Movie(2, ["A"])], [0.2, 0.8])
            == [Appearance("B", 1, 0.2), Appearance("A", 2, 0.8)]
    ensures ExplodeLabels([Movie(1, ["B"]), Movie(2, ["A"])]) == [0, 1]
  {
    var X, y := [Movie(1, ["B"]), Movie(2, ["A"])], [0.2, 0.8];
    assert X[..1] == [Movie(1, ["B"])] && X[..1][..0] == [];
    assert y[..1] == [0.2] && y[..1][..0] == [];
    assert Explode(X[..1], y[..1]) == [Appearance("B", 1, 0.2)];
  }

  lemma ExampleMeans()
    ensures var apps := [Appearance("B", 1, 0.2), Appearance("A", 2, 0.8)];
            MeanThrough(apps, 0) == 0.2 && MeanThrough(apps, 1) == 0.8
  {
    var apps := [Appearance("B", 1, 0.2), Appearance("A", 2, 0.8)];
    assert apps[..1] == [apps[0]] && apps[..1][..0] == [];
    assert apps[..2] == apps && apps[..2][..1] == [apps[0]];
  }

  lemma ExampleGrouped()
    ensures GroupedMeans([Entry("B", 1, 0.2), Entry("A", 2, 0.8)]) == [0.8, 0.2]
  {
    var ex := [Entry("B", 1, 0.2), Entry("A", 2, 0.8)];
    var blank := [Entry("B", 0, 0.2), Entry("A", 0, 0.8)];
    assert seq(|ex|, k requires 0 <= k < |ex| => Entry(ex[k].actor, 0, ex[k].avg)) == blank;
    assert blank[1..] == [blank[1]];
    assert SortByKey(blank[1..]) == [blank[1]];
    assert StrLt("A", "B");
    assert SortByKey(blank) == [Entry("A", 0, 0.8), Entry("B", 0, 0.2)];
  }

  /**
    Two movies, "B" (score 0.2) then "A" (score 0.8): as written, B's row is
    given A's mean 0.8, while its running mean is 0.2.
  */
  lemma AsWrittenMeansMisaligned()
    ensures var X, y := [Movie(1, ["B"]), Movie(2, ["A"])], [0.2, 0.8];
            AsWrittenMeans(X, y)[0] == Some(0.8) && Entries(X, y)[0].avg == 0.2
  {
    var X, y := [Movie(1, ["B"]), Movie(2, ["A"])], [0.2, 0.8];
    ExampleExplode();
    ExampleMeans();
    var ex := Entries(X, y);
    assert ex == [Entry("B", 1, 0.2), Entry("A", 2, 0.8)];
    ExampleGrouped();
  }

  // ---------------------------------------------------------------------------
  // Stable sort by (actor, date) (actor_encoder.py:26)

  /** Strict order of the sort key (actor, date). */
  predicate KeyLt(e: Entry, f: Entry)
  {
    StrLt(e.actor, f.actor) || (e.actor == f.actor && e.date < f.date)
  }

  predicate KeyLe(e: Entry, f: Entry)
  {
    !KeyLt(f, e)
  }

  lemma KeyLeTotal(e: Entry, f: Entry)
    ensures KeyLe(e, f) || KeyLe(f, e)
    ensures KeyLe(e, f) && KeyLe(f, e) <==> e.actor == f.actor && e.date == f.date
  {
    StrLtTotal(e.actor, f.actor);
    if StrLt(e.actor, f.actor) && StrLt(f.actor, e.actor) {
      StrLtTransitive(e.actor, f.actor, e.actor);
      StrLtIrreflexive(e.actor);
    }
    if e.actor == f.actor {
      StrLtIrreflexive(e.actor);
    }
  }

  lemma KeyLeTransitive(e: Entry, f: Entry, g: Entry)
    requires KeyLe(e, f) && KeyLe(f, g)
    ensures KeyLe(e, g)
  {
    KeyLeTotal(e, f);
    KeyLeTotal(f, g);
    KeyLeTotal(e, g);
    if KeyLt(g, e) {
      // g < e <= f gives g < f, against f <= g
      StrLtTotal(e.actor, f.actor);
      if StrLt(g.actor, e.actor) && StrLt(e.actor, f.actor) {
        StrLtTransitive(g.actor, e.actor, f.actor);
      }
      if StrLt(e.actor, f.actor) && StrLt(f.actor, g.actor) {
        StrLtTransitive(e.actor, f.actor, g.actor);
        if StrLt(g.actor, e.actor) {
          StrLtTransitive(e.actor, g.actor, e.actor);
          StrLtIrreflexive(e.actor);
        } else {
          StrLtIrreflexive(e.actor);
        }
      }
      if StrLt(f.actor, g.actor) && StrLt(g.actor, e.actor) {
        StrLtTransitive(f.actor, g.actor, e.actor);
      }
      StrLtIrreflexive(f.actor);
    }
  }

  ghost predicate Sorted(t: seq<Entry>)
  {
    forall i, j :: 0 <= i < j < |t| ==> KeyLe(t[i], t[j])
  }

  /** Puts `e` before the first element whose key is not smaller, so ahead of any equal keys. */
  function Insert(e: Entry, t: seq<Entry>): seq<Entry>
  {
    if t == [] then [e]
    else if KeyLe(e, t[0]) then [e] + t
    else [t[0]] + Insert(e, t[1..])
  }

  /** `sort_values(['cast','date'])`: pandas sorts on several columns with a stable sort. */
  function SortByKey(s: seq<Entry>): seq<Entry>
  {
    if s == [] then [] else Insert(s[0], SortByKey(s[1..]))
  }

  /** Putting an element no larger than the head in front of a sorted table keeps it sorted. */
  lemma PrependSorted(e: Entry, t: seq<Entry>)
    requires Sorted(t) && (t != [] ==> KeyLe(e, t[0]))
    ensures Sorted([e] + t)
  {
    var r := [e] + t;
    forall i, j | 0 <= i < j < |r| ensures KeyLe(r[i], r[j]) {
      if i == 0 && j > 1 {
        KeyLeTransitive(e, t[0], t[j - 1]);
      }
    }
  }

  lemma {:induction false} InsertSorted(e: Entry, t: seq<Entry>)
    requires Sorted(t)
    ensures Sorted(Insert(e, t))
    ensures multiset(Insert(e, t)) == multiset(t) + multiset{e}
  {
    if t == [] {
    } else if KeyLe(e, t[0]) {
      PrependSorted(e, t);
    } else {
      InsertSorted(e, t[1..]);
      var rest := Insert(e, t[1..]);
      assert t == [t[0]] + t[1..];
      KeyLeTotal(e, t[0]);
      assert rest[0] == e || rest[0] == t[1];
      PrependSorted(t[0], rest);
    }
  }

  /** The stored table is a sorted rearrangement of the exploded rows. */
  lemma {:induction false} SortByKeySorted(s: seq<Entry>)
    ensures Sorted(SortByKey(s))
    ensures multiset(SortByKey(s)) == multiset(s)
  {
    if s != [] {
      SortByKeySorted(s[1..]);
      InsertSorted(s[0], SortByKey(s[1..]));
      assert s == [s[0]] + s[1..];
    }
  }

  predicate HasKey(e: Entry, a: string, d: int)
  {
    e.actor == a && e.date == d
  }

  /** The rows with key (a, d), in table order. */
  function KeyRun(s: seq<Entry>, a: string, d: int): seq<Entry>
  {
    if s == [] then []
    else (if HasKey(s[0], a, d) then [s[0]] else []) + KeyRun(s[1..], a, d)
  }

  lemma {:induction false} InsertStable(e: Entry, t: seq<Entry>, a: string, d: int)
    ensures KeyRun(Insert(e, t), a, d) == (if HasKey(e, a, d) then [e] else []) + KeyRun(t, a, d)
  {
    if t == [] {
    } else if KeyLe(e, t[0]) {
      assert ([e] + t)[1..] == t;
    } else {
      InsertStable(e, t[1..], a, d);
      assert ([t[0]] + Insert(e, t[1..]))[1..] == Insert(e, t[1..]);
      if HasKey(e, a, d) && HasKey(t[0], a, d) {
        KeyLeTotal(e, t[0]);
      }
    }
  }

  /** Sorting keeps the relative order of rows that share an (actor, date) key. */
  lemma {:induction false} SortByKeyStable(s: seq<Entry>, a: string, d: int)
    ensures KeyRun(SortByKey(s), a, d) == KeyRun(s, a, d)
  {
    if s != [] {
      SortByKeyStable(s[1..], a, d);
      InsertStable(s[0], SortByKey(s[1..]), a, d);
    }
  }

  /** What `fit` stores in `self.actor_scores_df`. */
  function History(X: seq<Movie>, y: seq<real>): seq<Entry>
    requires |X| == |y|
  {
    SortByKey(Entries(X, y))
  }

  // ---------------------------------------------------------------------------
  // Point-in-time lookup (actor_encoder.py:39-43)

  predicate Qualifies(e: Entry, a: string, d: int)
  {
    e.actor == a && e.date < d
  }

  /** Position of the last row of actor `a` dated strictly before `d`, or -1. */
  function LastQualifying(t: seq<Entry>, a: string, d: int): (r: int)
    ensures -1 <= r < |t|
    ensures r >= 0 ==> Qualifies(t[r], a, d)
    ensures forall j :: r < j < |t| ==> !Qualifies(t[j], a, d)
  {
    if |t| == 0 then -1
    else if Qualifies(t[|t| - 1], a, d) then |t| - 1
    else LastQualifying(t[..|t| - 1], a, d)
  }

  /**
    Merge on the actor, keep rows with `date_x > date_y`, take the last one:
    the running mean the table holds for `a` as of date `d`, or missing.
  */
  function LatestScore(t: seq<Entry>, a: string, d: int): (r: Option<real>)
    ensures r.Some? ==> exists k :: 0 <= k < |t| && Qualifies(t[k], a, d) && t[k].avg == r.value
    ensures r.None? <==> forall k :: 0 <= k < |t| ==> !Qualifies(t[k], a, d)
  {
    var p := LastQualifying(t, a, d);
    if p < 0 then None else Some(t[p].avg)
  }

  /**
    Row k is the point-in-time answer in `s` for actor `a` at date `d`: it
    qualifies, no qualifying row has a later date, and among rows of the
    same date it is the last.
  */
  ghost predicate IsLatestBefore(s: seq<Entry>, a: string, d: int, k: int)
  {
    0 <= k < |s| && Qualifies(s[k], a, d) &&
    forall j :: 0 <= j < |s| && Qualifies(s[j], a, d) ==>
      s[j].date < s[k].date || (s[j].date == s[k].date && j <= k)
  }

  /** On a table sorted by (actor, date), "last qualifying row" is the latest-dated one, ties to the last. */
  lemma LastQualifyingIsLatest(t: seq<Entry>, a: string, d: int)
    requires Sorted(t)
    ensures LastQualifying(t, a, d) >= 0 ==> IsLatestBefore(t, a, d, LastQualifying(t, a, d))
  {
  }

  /** Position of the last row with key (a, d), or -1. */
  function LastWithKey(s: seq<Entry>, a: string, d: int): (r: int)
    ensures -1 <= r < |s|
    ensures r >= 0 ==> HasKey(s[r], a, d)
    ensures forall j :: r < j < |s| ==> !HasKey(s[j], a, d)
  {
    if |s| == 0 then -1
    else if HasKey(s[|s| - 1], a, d) then |s| - 1
    else LastWithKey(s[..|s| - 1], a, d)
  }

  /** The last element of a key run is the row found by LastWithKey. */
  lemma {:induction false} KeyRunLast(s: seq<Entry>, a: string, d: int)
    ensures KeyRun(s, a, d) == [] <==> LastWithKey(s, a, d) < 0
    ensures LastWithKey(s, a, d) >= 0 ==> KeyRun(s, a, d)[|KeyRun(s, a, d)| - 1] == s[LastWithKey(s, a, d)]
  {
    if s != [] {
      KeyRunLast(s[1..], a, d);
      var r' := LastWithKey(s[1..], a, d);
      forall j | r' + 1 < j < |s| ensures !HasKey(s[j], a, d) {
        assert s[j] == s[1..][j - 1];
      }
      var run := KeyRun(s, a, d);
      var head := if HasKey(s[0], a, d) then [s[0]] else [];
      assert run == head + KeyRun(s[1..], a, d);
      if r' >= 0 {
        assert s[r' + 1] == s[1..][r'];
        assert HasKey(s[r' + 1], a, d);
        assert LastWithKey(s, a, d) == r' + 1;
        assert run[|run| - 1] == KeyRun(s[1..], a, d)[|KeyRun(s[1..], a, d)| - 1];
      } else {
        assert run == head;
        assert LastWithKey(s, a, d) == (if HasKey(s[0], a, d) then 0 else -1);
      }
    }
  }

  /**
    Looking up the sorted table gives the row of the unsorted exploded table
    with the greatest date before `d`, ties going to the last in input order;
    missing exactly when the actor has no row dated before `d`.
  */
  lemma SortedLookupMatchesInput(ex: seq<Entry>, a: string, d: int)
    ensures var h := SortByKey(ex);
            (LastQualifying(h, a, d) < 0 <==> forall k :: 0 <= k < |ex| ==> !Qualifies(ex[k], a, d))
    ensures var h := SortByKey(ex); var r := LastQualifying(h, a, d);
            r >= 0 ==> exists k :: IsLatestBefore(ex, a, d, k) && ex[k] == h[r]
  {
    var h := SortByKey(ex);
    SortByKeySorted(ex);
    var r := LastQualifying(h, a, d);
    forall k | 0 <= k < |ex| && Qualifies(ex[k], a, d) ensures r >= 0 {
      assert ex[k] in multiset(h);
      var i :| 0 <= i < |h| && h[i] == ex[k];
    }
    if r >= 0 {
      assert h[r] in multiset(ex);
      LastQualifyingIsLatest(h, a, d);
      var D := h[r].date;
      SortByKeyStable(ex, a, D);
      // h[r] is the last row of h with key (a, D)
      assert LastWithKey(h, a, D) == r by {
        var w := LastWithKey(h, a, D);
        assert w >= r;
        if w > r {
          assert Qualifies(h[w], a, d);
        }
      }
      KeyRunLast(h, a, D);
      KeyRunLast(ex, a, D);
      var k := LastWithKey(ex, a, D);
      assert ex[k] == h[r];
      forall j | 0 <= j < |ex| && Qualifies(ex[j], a, d)
        ensures ex[j].date < ex[k].date || (ex[j].date == ex[k].date && j <= k)
      {
        assert ex[j] in multiset(h);
        var i :| 0 <= i < |h| && h[i] == ex[j];
      }
    }
  }

  // ---------------------------------------------------------------------------
  // Summary of the fitted table

  /**
    The value `transform` reads for actor `a` at date `d` from the fitted
    history: missing exactly when no training appearance of `a` is dated
    before `d`; otherwise the running mean at the latest such appearance
    (ties on the date: the last in input order).
  */
  lemma PointInTimeLookup(X: seq<Movie>, y: seq<real>, a: string, d: int)
    requires |X| == |y|
    ensures var apps := Explode(X, y);
            LatestScore(History(X, y), a, d).None? <==>
              forall k :: 0 <= k < |apps| ==> !(apps[k].actor == a && apps[k].date < d)
    ensures var apps := Explode(X, y); var v := LatestScore(History(X, y), a, d);
            v.Some? ==> exists k :: IsLatestBefore(Entries(X, y), a, d, k) && v.value == MeanThrough(apps, k)
  {
    var ex := Entries(X, y);
    var apps := Explode(X, y);
    var h := History(X, y);
    SortedLookupMatchesInput(ex, a, d);
    var r := LastQualifying(h, a, d);
    assert LatestScore(h, a, d).None? <==> r < 0;
    assert (forall k :: 0 <= k < |ex| ==> !Qualifies(ex[k], a, d)) <==>
           (forall k :: 0 <= k < |apps| ==> !(apps[k].actor == a && apps[k].date < d));
    if r >= 0 {
      var k :| IsLatestBefore(ex, a, d, k) && ex[k] == h[r];
      assert LatestScore(h, a, d).value == ex[k].avg == MeanThrough(apps, k);
    }
  }

  /** Cold start: an actor with no training movie dated before `d` gets a missing value, not 0. */
  lemma ColdStartMissing(X: seq<Movie>, y: seq<real>, a: string, d: int)
    requires |X| == |y|
    requires forall i :: 0 <= i < |X| && X[i].date < d ==> a !in X[i].cast
    ensures LatestScore(History(X, y), a, d) == None
  {
    PointInTimeLookup(X, y, a, d);
    var apps := Explode(X, y);
    forall k | 0 <= k < |apps| ensures !(apps[k].actor == a && apps[k].date < d) {
      ExplodeOrigin(X, y, k);
    }
  }

  // ---------------------------------------------------------------------------
  // No leakage through the stored mean, for a date-ordered training frame

  /** The training frame is in ascending date order (the loader sorts by date, the split keeps order). */
  predicate DateOrdered(X: seq<Movie>)
  {
    forall i, j :: 0 <= i <= j < |X| ==> X[i].date <= X[j].date
  }

  /** Exploded rows in ascending date order. */
  predicate RowsDateOrdered(apps: seq<Appearance>)
  {
    forall i, j :: 0 <= i <= j < |apps| ==> apps[i].date <= apps[j].date
  }

  /** The exploded rows dated strictly before `d`, in row order. */
  function DatedBefore(apps: seq<Appearance>, d: int): seq<Appearance>
  {
    if |apps| == 0 then []
    else DatedBefore(apps[..|apps| - 1], d) + (if apps[|apps| - 1].date < d then [apps[|apps| - 1]] else [])
  }

  /** Exploding a date-ordered frame gives date-ordered rows. */
  lemma {:induction false} ExplodeDateOrdered(X: seq<Movie>, y: seq<real>)
    requires |X| == |y| && DateOrdered(X)
    ensures RowsDateOrdered(Explode(X, y))
  {
    if |X| > 0 {
      var n := |X| - 1;
      var prefix := Explode(X[..n], y[..n]);
      var rows := CastRows(X[n], y[n]);
      ExplodeDateOrdered(X[..n], y[..n]);
      var apps := Explode(X, y);
      assert apps == prefix + rows;
      forall i | 0 <= i < |prefix| ensures prefix[i].date <= X[n].date {
        ExplodeOrigin(X[..n], y[..n], i);
      }
      forall t | 0 <= t < |rows| ensures rows[t].date == X[n].date {
      }
      forall i, j | 0 <= i <= j < |apps| ensures apps[i].date <= apps[j].date {
        if j < |prefix| {
          assert apps[i] == prefix[i] && apps[j] == prefix[j];
        } else if i < |prefix| {
          assert apps[i] == prefix[i] && apps[j] == rows[j - |prefix|];
        } else {
          assert apps[i] == rows[i - |prefix|] && apps[j] == rows[j - |prefix|];
        }
      }
    }
  }

  lemma {:induction false} DatedBeforeAll(s: seq<Appearance>, d: int)
    requires forall j :: 0 <= j < |s| ==> s[j].date < d
    ensures DatedBefore(s, d) == s
  {
    if |s| > 0 {
      var n := |s| - 1;
      DatedBeforeAll(s[..n], d);
      assert DatedBefore(s, d) == DatedBefore(s[..n], d) + [s[n]];
      assert s[..n] + [s[n]] == s;
    }
  }

  lemma {:induction false} DatedBeforeNone(s: seq<Appearance>, a: string, d: int)
    requires forall j :: 0 <= j < |s| ==> !(s[j].actor == a && s[j].date < d)
    ensures ActorRows(DatedBefore(s, d), a) == 0
  {
    if |s| > 0 {
      var n := |s| - 1;
      DatedBeforeNone(s[..n], a, d);
      var tail := if s[n].date < d then [s[n]] else [];
      ActorRowsAppend(DatedBefore(s[..n], d), tail, a);
      if tail != [] {
        assert tail[..0] == [];
      }
    }
  }

  /**
    When row k is the last row of `a` dated before `d` in date-ordered rows,
    the rows of `a` dated before `d` among the first n are exactly those up to k.
  */
  lemma {:induction false} DatedBeforeUpTo(apps: seq<Appearance>, a: string, d: int, k: nat, n: nat)
    requires k < n <= |apps|
    requires RowsDateOrdered(apps)
    requires apps[k].date < d
    requires forall j :: k < j < |apps| && apps[j].actor == a ==> apps[j].date >= d
    ensures ActorSum(DatedBefore(apps[..n], d), a) == ActorSum(apps[..k + 1], a)
    ensures ActorRows(DatedBefore(apps[..n], d), a) == ActorRows(apps[..k + 1], a)
    decreases n
  {
    if n == k + 1 {
      DatedBeforeAll(apps[..k + 1], d);
    } else {
      DatedBeforeUpTo(apps, a, d, k, n - 1);
      assert apps[..n][..n - 1] == apps[..n - 1];
      var tail := if apps[n - 1].date < d then [apps[n - 1]] else [];
      assert DatedBefore(apps[..n], d) == DatedBefore(apps[..n - 1], d) + tail;
      ActorRowsAppend(DatedBefore(apps[..n - 1], d), tail, a);
      if tail != [] {
        assert tail[..0] == [];
      }
    }
  }

  /**
    No leakage through the stored mean: when the training frame is in date
    order, the value read for actor `a` at date `d` is the mean of `a`'s
    scores over exactly its training appearances dated before `d`, and it is
    missing exactly when there are none. A frame out of date order gives no
    such guarantee, since each running mean is taken in input order.
  */
  lemma DateOrderedLookupMean(X: seq<Movie>, y: seq<real>, a: string, d: int)
    requires |X| == |y| && DateOrdered(X)
    ensures var before := DatedBefore(Explode(X, y), d);
            LatestScore(History(X, y), a, d).None? <==> ActorRows(before, a) == 0
    ensures var before := DatedBefore(Explode(X, y), d); var v := LatestScore(History(X, y), a, d);
            v.Some? ==> v.value == ActorSum(before, a) / (ActorRows(before, a) as real)
  {
    var apps := Explode(X, y);
    var ex := Entries(X, y);
    var v := LatestScore(History(X, y), a, d);
    PointInTimeLookup(X, y, a, d);
    assert apps[..|apps|] == apps;
    if v.Some? {
      var k :| IsLatestBefore(ex, a, d, k) && v.value == MeanThrough(apps, k);
      ExplodeDateOrdered(X, y);
      forall j | k < j < |apps| && apps[j].actor == a ensures apps[j].date >= d {
        if apps[j].date < d {
          assert Qualifies(ex[j], a, d);
        }
      }
      DatedBeforeUpTo(apps, a, d, k, |apps|);
      PrefixStep(apps, k, a);
    } else {
      DatedBeforeNone(apps, a, d);
    }
  }

  /**
    Why the date order matters: `fit` does not sort the frame, so on a frame
    out of date order the value read at day 2 already averages in the score
    of the day-5 movie.
  */
  lemma UnorderedFrameLeaks()
    ensures LatestScore(History([Movie(5, ["A"]), Movie(1, ["A"])], [0.9, 0.1]), "A", 2) == Some(0.5)
  {
    var X, y := [Movie(5, ["A"]), Movie(1, ["A"])], [0.9, 0.1];
    var apps := [Appearance("A", 5, 0.9), Appearance("A", 1, 0.1)];
    UnorderedExplode();
    UnorderedMean();
    PointInTimeLookup(X, y, "A", 2);
    var ex := Entries(X, y);
    assert ex[1].actor == "A" && ex[1].date == 1;
    var k :| IsLatestBefore(ex, "A", 2, k) && LatestScore(History(X, y), "A", 2).value == MeanThrough(apps, k);
    assert k == 1;
  }

  lemma UnorderedExplode()
    ensures Explode([Movie(5, ["A"]), Movie(1, ["A"])], [0.9, 0.1])
            == [Appearance("A", 5, 0.9), Appearance("A", 1, 0.1)]
  {
    var X, y := [Movie(5, ["A"]), Movie(1, ["A"])], [0.9, 0.1];
    assert X[..1] == [Movie(5, ["A"])] && X[..1][..0] == [];
    assert y[..1] == [0.9] && y[..1][..0] == [];
    assert Explode(X[..1], y[..1]) == [Appearance("A", 5, 0.9)];
  }

  lemma UnorderedMean()
    ensures MeanThrough([Appearance("A", 5, 0.9), Appearance("A", 1, 0.1)], 1) == 0.5
  {
    var apps := [Appearance("A", 5, 0.9), Appearance("A", 1, 0.1)];
    assert apps[..1] == [apps[0]] && apps[..1][..0] == [];
    assert apps[..2] == apps && apps[..2][..1] == [apps[0]];
    assert ActorSum(apps[..1], "A") == 0.9 && ActorRows(apps[..1], "A") == 1;
    assert ActorSum(apps, "A") == 1.0 && ActorRows(apps, "A") == 2;
  }

  /** With scores in [0, 1], every stored running mean lies in [0, 1]. */
  lemma HistoryBounds(X: seq<Movie>, y: seq<real>)
    requires |X| == |y|
    requires forall i :: 0 <= i < |y| ==> 0.0 <= y[i] <= 1.0
    ensures forall e :: e in History(X, y) ==> 0.0 <= e.avg <= 1.0
  {
    var apps := Explode(X, y);
    var ex := Entries(X, y);
    SortByKeySorted(ex);
    forall k | 0 <= k < |apps| ensures 0.0 <= apps[k].score <= 1.0 {
      ExplodeOrigin(X, y, k);
    }
    forall e | e in History(X, y) ensures 0.0 <= e.avg <= 1.0 {
      assert e in multiset(ex);
      var k :| 0 <= k < |ex| && ex[k] == e;
      RunningMeanBounds(apps, k);
    }
  }
}
