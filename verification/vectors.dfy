/**
 * The protein-by-pathway score matrix the backend loads at start-up
 * (`_VECS_DF`, indexed by `protein_id`, one column per pathway). Loading it
 * is not modelled; the matrix is an input.
 */
module Vectors {

  /** Row `i` holds protein `ids[i]`'s score for each pathway column. */
  datatype Matrix = Matrix(ids: seq<string>, pathways: seq<string>, rows: seq<seq<real>>)

  /** A data frame is rectangular: one row per id, one score per column. */
  ghost predicate WellShaped(m: Matrix) {
    |m.rows| == |m.ids| && forall i :: 0 <= i < |m.rows| ==> |m.rows[i]| == |m.pathways|
  }

  /** `not (_V_NORM.size == 0 or _VECS_DF.empty)`: at least one protein and one pathway. */
  predicate Loaded(m: Matrix) {
    |m.ids| > 0 && |m.pathways| > 0
  }

  ghost predicate Distinct(s: seq<string>) {
    forall i, j :: 0 <= i < j < |s| ==> s[i] != s[j]
  }

  /** The position of the first row labelled `id` (what `np.where(_IDS == id)[0][0]` picks). */
  function IndexOf(ids: seq<string>, id: string): (i: nat)
    requires id in ids
    ensures i < |ids| && ids[i] == id
    ensures forall j :: 0 <= j < i ==> ids[j] != id
  {
    if ids[0] == id then 0 else 1 + IndexOf(ids[1..], id)
  }

  /**
   * `_VECS_DF.loc[id]` for a label with one row. Loading keeps duplicated
   * labels, and for those `.loc` returns every row (see `Occurrences`);
   * here it is the first of them, and the callers decide when the extra
   * rows make the endpoint fail.
   */
  function Row(m: Matrix, id: string): seq<real>
    requires WellShaped(m) && id in m.ids
  {
    m.rows[IndexOf(m.ids, id)]
  }

  /** The positions of the rows labelled `id`, in order: the rows `.loc[id]` selects. */
  function Occurrences(ids: seq<string>, id: string): (r: seq<nat>)
    ensures forall p :: 0 <= p < |r| ==> r[p] < |ids| && ids[r[p]] == id
  {
    OccurrencesFrom(ids, id, 0)
  }

  /** The positions from `from` on that hold `id`. */
  function OccurrencesFrom(ids: seq<string>, id: string, from: nat): (r: seq<nat>)
    requires from <= |ids|
    ensures forall p :: 0 <= p < |r| ==> from <= r[p] < |ids| && ids[r[p]] == id
    decreases |ids| - from
  {
    if from == |ids| then []
    else
      var rest := OccurrencesFrom(ids, id, from + 1);
      if ids[from] == id then [from] + rest else rest
  }

  ghost predicate Increasing(r: seq<nat>) {
    forall p, q :: 0 <= p < q < |r| ==> r[p] < r[q]
  }

  /** The scan misses no position holding `id`. */
  lemma {:induction false} OccurrencesFromComplete(ids: seq<string>, id: string, from: nat)
    requires from <= |ids|
    ensures forall i :: from <= i < |ids| && ids[i] == id ==> i in OccurrencesFrom(ids, id, from)
    decreases |ids| - from
  {
    if from < |ids| {
      OccurrencesFromComplete(ids, id, from + 1);
    }
  }

  /** The scan lists positions in increasing order. */
  lemma {:induction false} OccurrencesFromSorted(ids: seq<string>, id: string, from: nat)
    requires from <= |ids|
    ensures Increasing(OccurrencesFrom(ids, id, from))
    decreases |ids| - from
  {
    if from < |ids| {
      OccurrencesFromSorted(ids, id, from + 1);
      var rest := OccurrencesFrom(ids, id, from + 1);
      if ids[from] == id {
        var r := [from] + rest;
        forall p, q | 0 <= p < q < |r| ensures r[p] < r[q] {
          assert r[q] == rest[q - 1] && from + 1 <= rest[q - 1];
          if p > 0 { assert r[p] == rest[p - 1]; }
        }
        assert OccurrencesFrom(ids, id, from) == r;
      } else {
        assert OccurrencesFrom(ids, id, from) == rest;
      }
    }
  }

  /** A label absent from the positions scanned gives no position. */
  lemma {:induction false} OccurrencesFromAbsent(ids: seq<string>, id: string, from: nat)
    requires from <= |ids|
    requires forall i :: from <= i < |ids| ==> ids[i] != id
    ensures OccurrencesFrom(ids, id, from) == []
    decreases |ids| - from
  {
    if from < |ids| {
      OccurrencesFromAbsent(ids, id, from + 1);
    }
  }

  /** `Occurrences` lists exactly the positions holding `id`, in increasing order. */
  lemma OccurrencesExact(ids: seq<string>, id: string)
    ensures var r := Occurrences(ids, id);
      && (forall i :: 0 <= i < |ids| && ids[i] == id ==> i in r)
      && (forall p, q :: 0 <= p < q < |r| ==> r[p] < r[q])
      && (id !in ids ==> r == [])
  {
    assert Occurrences(ids, id) == OccurrencesFrom(ids, id, 0);
    OccurrencesFromComplete(ids, id, 0);
    OccurrencesFromSorted(ids, id, 0);
    if id !in ids {
      OccurrencesFromAbsent(ids, id, 0);
    }
  }

  /** The label has exactly one row, so `.loc` gives a single vector. */
  predicate SingleRow(ids: seq<string>, id: string) {
    |Occurrences(ids, id)| == 1
  }

  /** A table with one row has a single row for its one label. */
  lemma LoneIdSingleRow(ids: seq<string>, id: string)
    requires |ids| == 1 && id in ids
    ensures SingleRow(ids, id)
  {
    assert OccurrencesFrom(ids, id, 1) == [];
    assert Occurrences(ids, id) == [0];
  }

  /** A present label's first row is the one `IndexOf` finds. */
  lemma FirstOccurrence(ids: seq<string>, id: string)
    requires id in ids
    ensures |Occurrences(ids, id)| >= 1 && Occurrences(ids, id)[0] == IndexOf(ids, id)
  {
    OccurrencesExact(ids, id);
    var r := Occurrences(ids, id);
    var i := IndexOf(ids, id);
    assert i in r;
    var p :| 0 <= p < |r| && r[p] == i;
    assert r[0] <= r[p];
    assert ids[r[0]] == id;
  }

  /** With distinct ids a label has at most one row from any position on. */
  lemma {:induction false} DistinctAtMostOneRow(ids: seq<string>, id: string, from: nat)
    requires Distinct(ids) && from <= |ids|
    ensures |OccurrencesFrom(ids, id, from)| <= 1
    decreases |ids| - from
  {
    if from < |ids| {
      var rest := OccurrencesFrom(ids, id, from + 1);
      if ids[from] == id {
        forall i | from + 1 <= i < |ids| ensures ids[i] != id {
          assert ids[from] != ids[i];
        }
        OccurrencesFromAbsent(ids, id, from + 1);
        assert OccurrencesFrom(ids, id, from) == [from];
      } else {
        DistinctAtMostOneRow(ids, id, from + 1);
        assert OccurrencesFrom(ids, id, from) == rest;
      }
    }
  }

  /** With distinct ids every present label has one row. */
  lemma DistinctSingleRow(ids: seq<string>, id: string)
    requires Distinct(ids) && id in ids
    ensures SingleRow(ids, id)
  {
    FirstOccurrence(ids, id);
    DistinctAtMostOneRow(ids, id, 0);
  }
}
