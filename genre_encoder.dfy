/**
  `GenreEncoder` (src/marp/genre_encoder.py): `fit` gathers the genre
  vocabulary of a frame, `transform` builds the rows x vocabulary 0/1
  matrix of genre membership.
*/
module GenreEncoding {

  /** The genres of one row, as a set. */
  function RowGenres(row: seq<string>): set<string>
  {
    set g | g in row
  }

  /** Every genre string that occurs in some row. */
  function GenresOf(rows: seq<seq<string>>): set<string>
  {
    if |rows| == 0 then {}
    else GenresOf(rows[..|rows| - 1]) + RowGenres(rows[|rows| - 1])
  }

  /** A genre is collected exactly when some row lists it. */
  lemma {:induction false} GenresOfMembers(rows: seq<seq<string>>, g: string)
    ensures g in GenresOf(rows) <==> exists i :: 0 <= i < |rows| && g in rows[i]
  {
    if |rows| > 0 {
      var n := |rows| - 1;
      GenresOfMembers(rows[..n], g);
      assert forall i :: 0 <= i < n ==> rows[..n][i] == rows[i];
    }
  }

  /** `v` lists each genre of `s` exactly once and nothing else. */
  ghost predicate IsVocabulary(v: seq<string>, s: set<string>)
  {
    (forall i, j :: 0 <= i < j < |v| ==> v[i] != v[j]) &&
    (forall g :: g in v <==> g in s)
  }

  /** The value `transform` stores at (row, column of genre `g`). */
  function Indicator(g: string, row: seq<string>): int
  {
    if g in row then 1 else 0
  }

  /** Row i of the matrix `transform` builds: one 0/1 entry per vocabulary genre. */
  function MultiHotRow(vocab: seq<string>, row: seq<string>): seq<int>
  {
    seq(|vocab|, j requires 0 <= j < |vocab| => Indicator(vocab[j], row))
  }

  function RowSum(r: seq<int>): int
  {
    if |r| == 0 then 0 else RowSum(r[..|r| - 1]) + r[|r| - 1]
  }

  /**
    With a duplicate-free vocabulary, the ones in a matrix row count the
    distinct genres of that row that are in the vocabulary: genres outside
    it add nothing.
  */
  lemma {:induction false} RowOnesCountKnownGenres(vocab: seq<string>, row: seq<string>)
    requires forall i, j :: 0 <= i < j < |vocab| ==> vocab[i] != vocab[j]
    ensures RowSum(MultiHotRow(vocab, row)) == |set g | g in vocab && g in row|
  {
    var r := MultiHotRow(vocab, row);
    if |vocab| == 0 {
      assert (set g | g in vocab && g in row) == {};
    } else {
      var n := |vocab| - 1;
      var v' := vocab[..n];
      RowOnesCountKnownGenres(v', row);
      assert r[..n] == MultiHotRow(v', row);
      var known := set g | g in v' && g in row;
      assert vocab == v' + [vocab[n]];
      assert vocab[n] !in v';
      if vocab[n] in row {
        assert (set g | g in vocab && g in row) == known + {vocab[n]};
      } else {
        assert (set g | g in vocab && g in row) == known;
      }
    }
  }

  /**
    A fitted vocabulary holds exactly the genres listed by some row other
    than "nan": "nan", and any genre no row lists, never gets a column.
  */
  lemma FittedVocabularyMembers(v: seq<string>, rows: seq<seq<string>>, g: string)
    requires IsVocabulary(v, GenresOf(rows) - {"nan"})
    ensures g in v <==> g != "nan" && exists i :: 0 <= i < |rows| && g in rows[i]
  {
    GenresOfMembers(rows, g);
  }

  class GenreEncoder {
    var genres: seq<string>
    var fitted: bool

    constructor ()
      ensures !fitted && genres == []
    {
      genres := [];
      fitted := false;
    }

    /**
      `fit(df)`: collects every genre into a set and removes "nan". When no
      row lists "nan", `set.remove` raises KeyError: `ok` is false and the
      encoder is left as it was.
    */
    method Fit(rows: seq<seq<string>>) returns (ok: bool)
      modifies this
      ensures ok == ("nan" in GenresOf(rows))
      ensures ok ==> fitted && IsVocabulary(genres, GenresOf(rows) - {"nan"})
      ensures !ok ==> genres == old(genres) && fitted == old(fitted)
    {
      var seen: set<string> := {};
      for r := 0 to |rows|
        invariant seen == GenresOf(rows[..r])
      {
        assert rows[..r + 1][..r] == rows[..r];
        for c := 0 to |rows[r]|
          invariant seen == GenresOf(rows[..r]) + RowGenres(rows[r][..c])
        {
          assert rows[r][..c + 1] == rows[r][..c] + [rows[r][c]];
          seen := seen + {rows[r][c]};
        }
        assert rows[r][..|rows[r]|] == rows[r];
      }
      assert rows[..|rows|] == rows;
      if "nan" !in seen {
        ok := false;
        return;
      }
      seen := seen - {"nan"};

      // `list(genres)`: some order of the set, each genre once
      var vocab: seq<string> := [];
      var rest := seen;
      while rest != {}
        invariant rest <= seen
        invariant forall i, j :: 0 <= i < j < |vocab| ==> vocab[i] != vocab[j]
        invariant forall g :: g in vocab <==> g in seen && g !in rest
        decreases rest
      {
        var g :| g in rest;
        vocab := vocab + [g];
        rest := rest - {g};
      }
      genres := vocab;
      fitted := true;
      ok := true;
    }

    /** `transform(df)`: a zero matrix with a 1 wherever the row lists the column's genre. */
    method Transform(rows: seq<seq<string>>) returns (a: array2<int>)
      requires fitted
      ensures fresh(a) && a.Length0 == |rows| && a.Length1 == |genres|
      ensures forall i, j :: 0 <= i < |rows| && 0 <= j < |genres| ==> a[i, j] == Indicator(genres[j], rows[i])
    {
      a := new int[|rows|, |genres|]((i, j) => 0);
      for i := 0 to |rows|
        invariant forall p, q :: 0 <= p < i && 0 <= q < |genres| ==> a[p, q] == Indicator(genres[q], rows[p])
        invariant forall p, q :: i <= p < |rows| && 0 <= q < |genres| ==> a[p, q] == 0
      {
        for j := 0 to |genres|
          invariant forall p, q :: 0 <= p < i && 0 <= q < |genres| ==> a[p, q] == Indicator(genres[q], rows[p])
          invariant forall q :: 0 <= q < j ==> a[i, q] == Indicator(genres[q], rows[i])
          invariant forall p, q :: i <= p < |rows| && j <= q < |genres| ==> a[p, q] == 0
          invariant forall p, q :: i < p < |rows| && 0 <= q < |genres| ==> a[p, q] == 0
        {
          if genres[j] in rows[i] {
            a[i, j] := 1;
          }
        }
      }
    }

    /** `fit_transform(df)`: `fit` and then `transform` of the same rows; no matrix when `fit` raises. */
    method FitTransform(rows: seq<seq<string>>) returns (ok: bool, a: array2?<int>)
      modifies this
      ensures ok == ("nan" in GenresOf(rows))
      ensures ok ==> fitted && IsVocabulary(genres, GenresOf(rows) - {"nan"})
      ensures ok ==> a != null && fresh(a) && a.Length0 == |rows| && a.Length1 == |genres|
      ensures ok ==> forall i, j :: 0 <= i < |rows| && 0 <= j < |genres| ==> a[i, j] == Indicator(genres[j], rows[i])
      ensures !ok ==> a == null && genres == old(genres) && fitted == old(fitted)
    {
      ok := Fit(rows);
      if !ok {
        a := null;
        return;
      }
      a := Transform(rows);
    }
  }
}
