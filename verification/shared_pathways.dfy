/**
 * `_shared_pathways` (backend/main.py): for a query protein and a list of
 * other proteins, the pathways where both score above a threshold, with
 * the product of the two scores, sorted by other protein then by that
 * product, best first.
 */
module SharedPathways {
  import opened Wrappers
  import opened Vectors
  import Sorting
  import StrOrder

  /** One row of the returned frame. */
  datatype Row = Row(otherProtein: string, pathwayId: string, scoreQuery: real, scoreOther: real, jointScore: real)

  /** A frame: its column names and its rows. */
  datatype Frame = Frame(columns: seq<string>, rows: seq<Row>)

  const Columns: seq<string> := ["other_protein", "pathway_id", "score_query", "score_other", "joint_score"]

  /** The row for pathway column `j` of protein `pid`. */
  function Entry(m: Matrix, pid: string, j: int, qv: seq<real>): Row
    requires WellShaped(m) && pid in m.ids && |qv| == |m.pathways| && 0 <= j < |m.pathways|
  {
    var pv := Vectors.Row(m, pid);
    Row(pid, m.pathways[j], qv[j], pv[j], qv[j] * pv[j])
  }

  /** Both the query's and `pid`'s score for column `j` exceed `thresh`. */
  predicate Above(m: Matrix, pid: string, j: int, qv: seq<real>, thresh: real)
    requires WellShaped(m) && pid in m.ids && |qv| == |m.pathways| && 0 <= j < |m.pathways|
  {
    qv[j] > thresh && Vectors.Row(m, pid)[j] > thresh
  }

  /** A row as the loop emits it: both scores above the threshold, and their product as the joint score. */
  predicate Passes(row: Row, thresh: real) {
    row.scoreQuery > thresh && row.scoreOther > thresh && row.jointScore == row.scoreQuery * row.scoreOther
  }

  /** The rows for columns `from` onwards of one other protein, in column order. */
  function Matches(m: Matrix, pid: string, qv: seq<real>, thresh: real, from: nat): (r: seq<Row>)
    requires WellShaped(m) && pid in m.ids && |qv| == |m.pathways| && from <= |m.pathways|
    ensures forall row :: row in r ==> row.otherProtein == pid && Passes(row, thresh)
    decreases |m.pathways| - from
  {
    if from == |m.pathways| then []
    else (if Above(m, pid, from, qv, thresh) then [Entry(m, pid, from, qv)] else [])
         + Matches(m, pid, qv, thresh, from + 1)
  }

  /** The loop over `others`: proteins missing from the index are skipped. */
  function Collect(m: Matrix, others: seq<string>, qv: seq<real>, thresh: real): (r: seq<Row>)
    requires WellShaped(m) && |qv| == |m.pathways|
    ensures forall row :: row in r ==> row.otherProtein in others && row.otherProtein in m.ids && Passes(row, thresh)
  {
    if others == [] then []
    else (if others[0] in m.ids then Matches(m, others[0], qv, thresh, 0) else [])
         + Collect(m, others[1..], qv, thresh)
  }

  /** The sort order: `other_protein` ascending, then `joint_score` descending. */
  predicate RowFirst(a: Row, b: Row) {
    StrOrder.StrLt(a.otherProtein, b.otherProtein)
    || (a.otherProtein == b.otherProtein && a.jointScore >= b.jointScore)
  }

  lemma RowOrderIsPreorder()
    ensures Sorting.TotalPreorder(RowFirst)
  {
    StrOrder.StrLeTotalOrder();
  }

  /**
   * Whether `q_present & (p_vec.values > thresh)` fails or leaves a 2-D mask
   * that `pathways[both]` then rejects. Each of `.loc[query]` and `.loc[pid]`
   * is a vector for a label with one row and a matrix for a duplicated one.
   * Two matrices with different row counts do not broadcast (ValueError).
   * Otherwise the mask is 2-D and the indexing raises IndexError as soon as
   * some aligned pair of rows (every pair against a vector, equal positions
   * between two matrices) both exceed the threshold in some column; with no
   * such pair `np.any(both)` is false and the protein is skipped.
   */
  predicate MaskClash(m: Matrix, query: string, pid: string, thresh: real)
    requires WellShaped(m)
  {
    var qs := Occurrences(m.ids, query);
    var ps := Occurrences(m.ids, pid);
    if |qs| <= 1 && |ps| <= 1 then false
    else if |qs| > 1 && |ps| > 1 && |qs| != |ps| then true
    else
      exists a, b, j :: 0 <= a < |qs| && 0 <= b < |ps| && 0 <= j < |m.pathways|
        && (|qs| == 1 || |ps| == 1 || a == b)
        && m.rows[qs[a]][j] > thresh && m.rows[ps[b]][j] > thresh
  }

  /** Some listed protein in the index makes the loop raise. */
  predicate Clashes(m: Matrix, query: string, others: seq<string>, thresh: real)
    requires WellShaped(m)
  {
    exists i :: 0 <= i < |others| && others[i] in m.ids && MaskClash(m, query, others[i], thresh)
  }

  /** The exceptions the function raises. */
  datatype SharedError =
    | MissingQuery(key: string)  // KeyError from `.loc[query]`
    | MultiRowMask               // ValueError or IndexError from a duplicated label's rows

  /** `_shared_pathways(query, others, thresh)` */
  function Shared(m: Matrix, query: string, others: seq<string>, thresh: real): (r: Result<Frame, SharedError>)
    requires WellShaped(m)
    ensures r.Ok? ==> r.value.columns == Columns
    ensures r == Err(MissingQuery(query)) <==> Loaded(m) && query !in m.ids
    ensures r == Err(MultiRowMask) <==> Loaded(m) && query in m.ids && Clashes(m, query, others, thresh)
    ensures r.Err? ==> r == Err(MissingQuery(query)) || r == Err(MultiRowMask)
    ensures !Loaded(m) ==> r == Ok(Frame(Columns, []))
    ensures r.Ok? && Loaded(m) ==>
      && multiset(r.value.rows) == multiset(Collect(m, others, Vectors.Row(m, query), thresh))
      && Sorting.Sorted(r.value.rows, RowFirst)
  {
    if !Loaded(m) then Ok(Frame(Columns, []))
    else if query !in m.ids then Err(MissingQuery(query))
    else if Clashes(m, query, others, thresh) then Err(MultiRowMask)
    else
      var out := Collect(m, others, Vectors.Row(m, query), thresh);
      if out == [] then Ok(Frame(Columns, []))
      else
        RowOrderIsPreorder();
        Ok(Frame(Columns, Sorting.Sort(out, RowFirst)))
  }

  lemma {:induction false} MatchesExact(m: Matrix, pid: string, qv: seq<real>, thresh: real, from: nat, row: Row)
    requires WellShaped(m) && pid in m.ids && |qv| == |m.pathways| && from <= |m.pathways|
    ensures row in Matches(m, pid, qv, thresh, from) <==>
      exists j :: from <= j < |m.pathways| && Above(m, pid, j, qv, thresh) && row == Entry(m, pid, j, qv)
    decreases |m.pathways| - from
  {
    if from < |m.pathways| {
      MatchesExact(m, pid, qv, thresh, from + 1, row);
    }
  }

  /**
   * A row is produced exactly for a listed protein that is in the index and
   * a pathway where both its score and the query's exceed the threshold;
   * the row carries the two scores and their product.
   */
  lemma {:induction false} CollectExact(m: Matrix, others: seq<string>, qv: seq<real>, thresh: real, row: Row)
    requires WellShaped(m) && |qv| == |m.pathways|
    ensures row in Collect(m, others, qv, thresh) <==>
      && row.otherProtein in others
      && row.otherProtein in m.ids
      && exists j :: 0 <= j < |m.pathways| && Above(m, row.otherProtein, j, qv, thresh) && row == Entry(m, row.otherProtein, j, qv)
  {
    if others != [] {
      CollectExact(m, others[1..], qv, thresh, row);
      if others[0] in m.ids {
        MatchesExact(m, others[0], qv, thresh, 0, row);
      }
      assert others == [others[0]] + others[1..];
    }
  }

  /**
   * The frame `_shared_pathways` returns holds exactly the qualifying
   * (protein, pathway) pairs and keeps the sort order.
   */
  lemma SharedRowsExact(m: Matrix, query: string, others: seq<string>, thresh: real, row: Row)
    requires WellShaped(m) && Loaded(m) && query in m.ids && !Clashes(m, query, others, thresh)
    ensures var r := Shared(m, query, others, thresh).value.rows;
      row in r <==>
      && row.otherProtein in others
      && row.otherProtein in m.ids
      && exists j :: 0 <= j < |m.pathways| && Above(m, row.otherProtein, j, Vectors.Row(m, query), thresh)
           && row == Entry(m, row.otherProtein, j, Vectors.Row(m, query))
  {
    var r := Shared(m, query, others, thresh).value.rows;
    var out := Collect(m, others, Vectors.Row(m, query), thresh);
    CollectExact(m, others, Vectors.Row(m, query), thresh, row);
    assert row in r <==> row in multiset(r);
    assert row in out <==> row in multiset(out);
  }

  /** With distinct ids every label has one row, so the loop never raises. */
  lemma DistinctNeverClashes(m: Matrix, query: string, others: seq<string>, thresh: real)
    requires WellShaped(m) && Distinct(m.ids) && query in m.ids
    ensures !Clashes(m, query, others, thresh)
  {
    DistinctSingleRow(m.ids, query);
    forall i | 0 <= i < |others| && others[i] in m.ids
      ensures !MaskClash(m, query, others[i], thresh)
    {
      DistinctSingleRow(m.ids, others[i]);
    }
  }

  /** Against a duplicated query, two first rows both above the threshold in one column make the loop raise. */
  lemma FirstRowsClash(m: Matrix, query: string, pid: string, thresh: real, j: int)
    requires WellShaped(m) && query in m.ids && pid in m.ids && !SingleRow(m.ids, query)
    requires 0 <= j < |m.pathways|
    ensures m.rows[IndexOf(m.ids, query)][j] > thresh && m.rows[IndexOf(m.ids, pid)][j] > thresh
      ==> MaskClash(m, query, pid, thresh)
  {
    FirstOccurrence(m.ids, query);
    FirstOccurrence(m.ids, pid);
    var qs, ps := Occurrences(m.ids, query), Occurrences(m.ids, pid);
    if m.rows[qs[0]][j] > thresh && m.rows[ps[0]][j] > thresh && !(|ps| > 1 && |qs| != |ps|) {
      assert 0 <= 0 < |qs| && 0 <= 0 < |ps| && (|qs| == 1 || |ps| == 1 || 0 == 0)
        && m.rows[qs[0]][j] > thresh && m.rows[ps[0]][j] > thresh;
    }
  }

  /** A protein the loop skips contributes no row, even from its first row. */
  lemma SkippedHasNoMatches(m: Matrix, query: string, pid: string, thresh: real)
    requires WellShaped(m) && query in m.ids && pid in m.ids
    requires !SingleRow(m.ids, query) && !MaskClash(m, query, pid, thresh)
    ensures Matches(m, pid, Vectors.Row(m, query), thresh, 0) == []
  {
    var qv := Vectors.Row(m, query);
    forall j | 0 <= j < |m.pathways| ensures !Above(m, pid, j, qv, thresh) {
      FirstRowsClash(m, query, pid, thresh, j);
    }
    NoneAboveNoMatches(m, pid, qv, thresh, 0);
  }

  lemma {:induction false} NoneAboveNoMatches(m: Matrix, pid: string, qv: seq<real>, thresh: real, from: nat)
    requires WellShaped(m) && pid in m.ids && |qv| == |m.pathways| && from <= |m.pathways|
    requires forall j :: from <= j < |m.pathways| ==> !Above(m, pid, j, qv, thresh)
    ensures Matches(m, pid, qv, thresh, from) == []
    decreases |m.pathways| - from
  {
    if from < |m.pathways| {
      NoneAboveNoMatches(m, pid, qv, thresh, from + 1);
    }
  }

  lemma {:induction false} CollectSkipsAll(m: Matrix, query: string, others: seq<string>, thresh: real)
    requires WellShaped(m) && query in m.ids && !SingleRow(m.ids, query)
    requires !Clashes(m, query, others, thresh)
    ensures Collect(m, others, Vectors.Row(m, query), thresh) == []
  {
    if others != [] {
      assert !Clashes(m, query, others[1..], thresh) by {
        forall i | 0 <= i < |others[1..]| && others[1..][i] in m.ids
          ensures !MaskClash(m, query, others[1..][i], thresh)
        {
          assert others[1..][i] == others[i + 1];
        }
      }
      CollectSkipsAll(m, query, others[1..], thresh);
      if others[0] in m.ids {
        assert !MaskClash(m, query, others[0], thresh);
        SkippedHasNoMatches(m, query, others[0], thresh);
      }
    }
  }

  /**
   * A duplicated query never yields a row: every listed protein either
   * makes the loop raise or is skipped.
   */
  lemma DuplicateQueryNoRows(m: Matrix, query: string, others: seq<string>, thresh: real)
    requires WellShaped(m) && Loaded(m) && query in m.ids && !SingleRow(m.ids, query)
    requires Shared(m, query, others, thresh).Ok?
    ensures Shared(m, query, others, thresh).value.rows == []
  {
    CollectSkipsAll(m, query, others, thresh);
  }
}
