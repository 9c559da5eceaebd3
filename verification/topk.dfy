/**
 * `_topk_cosine` (backend/main.py): the k proteins most similar to a query
 * protein, best first, the query itself excluded. The cosine similarities
 * are an input (one per matrix row); only the selection is modelled.
 */
module TopK {
  import opened Wrappers
  import opened Vectors
  import Sorting

  /** A similarity after the query's own entry has been set to `-inf`. */
  datatype Score = NegInf | Fin(v: real)

  /** `a >= b`, with `-inf` below every finite value. */
  predicate ScoreGe(a: Score, b: Score) {
    match (a, b)
    case (_, NegInf) => true
    case (NegInf, Fin(_)) => false
    case (Fin(x), Fin(y)) => x >= y
  }

  /** A row of the returned frame: `protein_id`, `cosine_sim`. */
  datatype Neighbor = Neighbor(proteinId: string, cosineSim: real)

  /** The exceptions the function raises. */
  datatype TopKError =
    | NotLoaded(message: string)       // RuntimeError
    | KeyNotFound(message: string)     // KeyError
    | KthOutOfBounds(message: string)  // numpy's ValueError from argpartition when N == 1
    /**
     * A duplicated query label: `.loc` yields a matrix, and numpy raises
     * either a ValueError (the product's shapes disagree) or an IndexError
     * (reordering the partitioned matrix); its text depends on the shapes.
     */
    | MultiRowQuery

  const NotLoadedMessage: string := "Embeddings not loaded. Check protein_map_outputs/manifest.json and parquet files."
  const KthMessage: string := "kth(=1) out of bounds (1)"

  /** `int(max(1, min(k, len(sims) - 1)))` */
  function EffectiveK(k: int, n: int): (r: int)
    ensures r >= 1
    ensures n >= 2 ==> r <= n - 1
    ensures 1 <= k <= n - 1 ==> r == k
    ensures n >= 2 && k >= n - 1 ==> r == n - 1
    ensures r == 1 <==> k <= 1 || n <= 2
  {
    var m := if k < n - 1 then k else n - 1;
    if m < 1 then 1 else m
  }

  /** The similarities with the query's first row masked to `-inf`. */
  function Masked(sims: seq<real>, self: nat): (s: seq<Score>)
    ensures |s| == |sims|
  {
    seq(|sims|, i requires 0 <= i < |sims| => if i == self then NegInf else Fin(sims[i]))
  }

  function Range(n: nat): (r: seq<int>)
    ensures |r| == n && forall i :: 0 <= i < n ==> r[i] == i
  {
    seq(n, i requires 0 <= i < n => i)
  }

  function ScoreAt(scores: seq<Score>, i: int): Score {
    if 0 <= i < |scores| then scores[i] else NegInf
  }

  lemma {:induction false} RangeOnce(n: nat, x: int)
    ensures multiset(Range(n))[x] == if 0 <= x < n then 1 else 0
  {
    if n > 0 {
      assert Range(n) == Range(n - 1) + [n - 1];
      RangeOnce(n - 1, x);
    } else {
      assert Range(0) == [];
    }
  }

  lemma CountTwo(s: seq<int>, a: int, b: int)
    requires 0 <= a < b < |s| && s[a] == s[b]
    ensures multiset(s)[s[a]] >= 2
  {
    assert s == s[..b] + s[b..];
    assert multiset(s) == multiset(s[..b]) + multiset(s[b..]);
    assert s[a] == s[..b][a];
    assert s[b] == s[b..][0];
    assert multiset(s[..b])[s[a]] >= 1;
    assert multiset(s[b..])[s[b]] >= 1;
  }

  lemma DistinctFromCounts(s: seq<int>)
    requires forall x :: multiset(s)[x] <= 1
    ensures forall a, b :: 0 <= a < b < |s| ==> s[a] != s[b]
  {
    forall a, b | 0 <= a < b < |s| ensures s[a] != s[b] {
      if s[a] == s[b] {
        CountTwo(s, a, b);
      }
    }
  }

  /** Every row position, best score first (equal scores keep position order). */
  function Ranked(scores: seq<Score>): (r: seq<int>)
    ensures |r| == |scores|
    ensures forall p :: 0 <= p < |r| ==> 0 <= r[p] < |scores|
    ensures forall i :: 0 <= i < |scores| ==> i in r
    ensures forall p, q :: 0 <= p < q < |r| ==> r[p] != r[q]
    ensures forall p, q :: 0 <= p < q < |r| ==> ScoreGe(scores[r[p]], scores[r[q]])
  {
    var le := (a: int, b: int) => ScoreGe(ScoreAt(scores, a), ScoreAt(scores, b));
    assert Sorting.TotalPreorder(le);
    var ranked := Sorting.Sort(Range(|scores|), le);
    forall x ensures multiset(ranked)[x] <= 1 {
      RangeOnce(|scores|, x);
    }
    DistinctFromCounts(ranked);
    forall p | 0 <= p < |ranked| ensures 0 <= ranked[p] < |scores| {
      RangeOnce(|scores|, ranked[p]);
      assert ranked[p] in multiset(Range(|scores|));
    }
    forall i | 0 <= i < |scores| ensures i in ranked {
      RangeOnce(|scores|, i);
      assert i in multiset(ranked);
    }
    ranked
  }

  /** No row outside the first `k` of the ranking scores higher than one inside. */
  lemma TopBeatsRest(scores: seq<Score>, k: nat)
    requires k < |scores|
    ensures var sel := Ranked(scores)[..k];
      forall p, i :: 0 <= p < k && 0 <= i < |scores| && i !in sel ==> ScoreGe(scores[sel[p]], scores[i])
  {
    var ranked := Ranked(scores);
    var sel := ranked[..k];
    forall p, i | 0 <= p < k && 0 <= i < |scores| && i !in sel
      ensures ScoreGe(scores[sel[p]], scores[i])
    {
      assert i in ranked;
      var q :| 0 <= q < |ranked| && ranked[q] == i;
      assert q >= k;
    }
  }

  /** When one row alone is `-inf` and some row stays out, the `-inf` row stays out. */
  lemma LoneNegInfLeftOut(scores: seq<Score>, k: nat, u: int)
    requires k < |scores|
    requires 0 <= u < |scores| && scores[u] == NegInf
    requires forall j :: 0 <= j < |scores| && j != u ==> scores[j].Fin?
    ensures u !in Ranked(scores)[..k]
  {
    var ranked := Ranked(scores);
    var sel := ranked[..k];
    var w := ranked[k];
    if w != u {
      forall p | 0 <= p < k ensures sel[p] != u {
        assert ScoreGe(scores[sel[p]], scores[w]);
      }
    } else {
      forall p | 0 <= p < k ensures sel[p] != u {
        assert ranked[p] != ranked[k];
      }
    }
  }

  /**
   * `argpartition` then `argsort` on the negated scores: `k` distinct row
   * positions, best first, and no row left out scores higher than a chosen
   * one. numpy does not fix the order of equal scores; the model keeps the
   * lower position first. When only the query row is `-inf` and fewer rows
   * are chosen than exist, the query row is never chosen.
   */
  function SelectTop(scores: seq<Score>, k: nat): (sel: seq<int>)
    requires k < |scores|
    ensures |sel| == k
    ensures forall p :: 0 <= p < k ==> 0 <= sel[p] < |scores|
    ensures forall p, q :: 0 <= p < q < k ==> sel[p] != sel[q]
    ensures forall p, q :: 0 <= p < q < k ==> ScoreGe(scores[sel[p]], scores[sel[q]])
    ensures forall p, i :: 0 <= p < k && 0 <= i < |scores| && i !in sel ==> ScoreGe(scores[sel[p]], scores[i])
    ensures forall u :: (0 <= u < |scores| && scores[u] == NegInf
      && (forall j :: 0 <= j < |scores| && j != u ==> scores[j].Fin?)) ==> u !in sel
  {
    TopBeatsRest(scores, k);
    forall u | 0 <= u < |scores| && scores[u] == NegInf
      && (forall j :: 0 <= j < |scores| && j != u ==> scores[j].Fin?)
      ensures u !in Ranked(scores)[..k]
    {
      LoneNegInfLeftOut(scores, k, u);
    }
    Ranked(scores)[..k]
  }

  /** Builds the returned rows from the chosen positions. */
  function Rows(m: Matrix, sims: seq<real>, sel: seq<int>): (r: seq<Neighbor>)
    requires |sims| == |m.ids|
    requires forall p :: 0 <= p < |sel| ==> 0 <= sel[p] < |m.ids|
    ensures |r| == |sel|
    ensures forall p :: 0 <= p < |sel| ==> r[p] == Neighbor(m.ids[sel[p]], sims[sel[p]])
  {
    seq(|sel|, p requires 0 <= p < |sel| => Neighbor(m.ids[sel[p]], sims[sel[p]]))
  }

  /** The top `kk` positions of `sims` with position `self` masked, read back as plain similarities. */
  lemma SelectedBySims(sims: seq<real>, self: nat, kk: nat)
    requires self < |sims| && kk < |sims|
    ensures var sel := SelectTop(Masked(sims, self), kk);
      && self !in sel
      && (forall p, q :: 0 <= p < q < |sel| ==> sims[sel[p]] >= sims[sel[q]])
      && (forall i, p :: 0 <= i < |sims| && i != self && i !in sel && 0 <= p < |sel| ==> sims[i] <= sims[sel[p]])
  {
    var scores := Masked(sims, self);
    var sel := SelectTop(scores, kk);
    assert self !in sel;
    forall p, q | 0 <= p < q < |sel| ensures sims[sel[p]] >= sims[sel[q]] {
      assert ScoreGe(scores[sel[p]], scores[sel[q]]);
    }
    forall i, p | 0 <= i < |sims| && i != self && i !in sel && 0 <= p < |sel|
      ensures sims[i] <= sims[sel[p]]
    {
      assert ScoreGe(scores[sel[p]], scores[i]);
    }
  }

  /** The positions chosen for a loaded matrix holding the query and at least two rows. */
  function Chosen(m: Matrix, sims: seq<real>, query: string, k: int): (sel: seq<int>)
    requires |sims| == |m.ids| && query in m.ids && |m.ids| >= 2
    ensures |sel| == EffectiveK(k, |m.ids|)
    ensures forall p :: 0 <= p < |sel| ==> 0 <= sel[p] < |m.ids| && sel[p] != IndexOf(m.ids, query)
    ensures forall p, q :: 0 <= p < q < |sel| ==> sel[p] != sel[q] && sims[sel[p]] >= sims[sel[q]]
    ensures forall i :: 0 <= i < |m.ids| && i != IndexOf(m.ids, query) && i !in sel ==>
      forall p :: 0 <= p < |sel| ==> sims[i] <= sims[sel[p]]
  {
    var self := IndexOf(m.ids, query);
    var kk := EffectiveK(k, |m.ids|);
    SelectedBySims(sims, self, kk);
    SelectTop(Masked(sims, self), kk)
  }

  /** `_topk_cosine(query, k)` given the similarity of every row to the query. */
  function TopKCosine(m: Matrix, sims: seq<real>, query: string, k: int): (r: Result<seq<Neighbor>, TopKError>)
    requires |sims| == |m.ids|
    ensures r == Err(NotLoaded(NotLoadedMessage)) <==> !Loaded(m)
    ensures r.Err? && r.error.KeyNotFound? <==> Loaded(m) && query !in m.ids
    ensures r.Err? && r.error.KeyNotFound? ==> r.error.message == query + " not found in vectors index"
    ensures r == Err(KthOutOfBounds(KthMessage)) <==> Loaded(m) && query in m.ids && |m.ids| == 1
    ensures r == Err(MultiRowQuery) <==> Loaded(m) && query in m.ids && !SingleRow(m.ids, query)
    ensures r.Ok? <==> Loaded(m) && query in m.ids && |m.ids| >= 2 && SingleRow(m.ids, query)
    ensures r.Ok? ==> |r.value| == EffectiveK(k, |m.ids|) && 1 <= |r.value| < |m.ids|
    ensures r.Ok? ==> forall p, q :: 0 <= p < q < |r.value| ==> r.value[p].cosineSim >= r.value[q].cosineSim
    ensures r.Ok? ==> forall p :: 0 <= p < |r.value| ==>
      exists i :: 0 <= i < |m.ids| && i != IndexOf(m.ids, query) && r.value[p] == Neighbor(m.ids[i], sims[i])
  {
    if !Loaded(m) then Err(NotLoaded(NotLoadedMessage))
    else if query !in m.ids then Err(KeyNotFound(query + " not found in vectors index"))
    else if |m.ids| == 1 then
      LoneIdSingleRow(m.ids, query);
      Err(KthOutOfBounds(KthMessage))
    else if !SingleRow(m.ids, query) then Err(MultiRowQuery)
    else
      var sel := Chosen(m, sims, query, k);
      var r := Rows(m, sims, sel);
      assert forall p :: 0 <= p < |r| ==> r[p] == Neighbor(m.ids[sel[p]], sims[sel[p]]);
      Ok(r)
  }

  lemma ChosenRowsOmitQuery(m: Matrix, sims: seq<real>, query: string, k: int)
    requires |sims| == |m.ids| && Distinct(m.ids) && query in m.ids && |m.ids| >= 2
    ensures var r := Rows(m, sims, Chosen(m, sims, query, k));
      forall p :: 0 <= p < |r| ==> r[p].proteinId != query
  {
    var sel := Chosen(m, sims, query, k);
    var r := Rows(m, sims, sel);
    var self := IndexOf(m.ids, query);
    forall p | 0 <= p < |r| ensures r[p].proteinId != query {
      assert sel[p] != self;
      if sel[p] < self {
        assert m.ids[sel[p]] != m.ids[self];
      } else {
        assert m.ids[self] != m.ids[sel[p]];
      }
    }
  }

  lemma ChosenRowsDistinct(m: Matrix, sims: seq<real>, query: string, k: int)
    requires |sims| == |m.ids| && Distinct(m.ids) && query in m.ids && |m.ids| >= 2
    ensures var r := Rows(m, sims, Chosen(m, sims, query, k));
      forall p, q :: 0 <= p < q < |r| ==> r[p].proteinId != r[q].proteinId
  {
    var sel := Chosen(m, sims, query, k);
    var r := Rows(m, sims, sel);
    forall p, q | 0 <= p < q < |r| ensures r[p].proteinId != r[q].proteinId {
      assert sel[p] != sel[q];
      if sel[p] < sel[q] {
        assert m.ids[sel[p]] != m.ids[sel[q]];
      } else {
        assert m.ids[sel[q]] != m.ids[sel[p]];
      }
    }
  }

  lemma ChosenRowsBeatRest(m: Matrix, sims: seq<real>, query: string, k: int)
    requires |sims| == |m.ids| && query in m.ids && |m.ids| >= 2
    ensures var r := Rows(m, sims, Chosen(m, sims, query, k));
      forall i :: (0 <= i < |m.ids| && m.ids[i] != query
        && (forall p :: 0 <= p < |r| ==> r[p].proteinId != m.ids[i])) ==> sims[i] <= r[|r| - 1].cosineSim
  {
    var sel := Chosen(m, sims, query, k);
    var r := Rows(m, sims, sel);
    var self := IndexOf(m.ids, query);
    forall i | 0 <= i < |m.ids| && m.ids[i] != query && (forall p :: 0 <= p < |r| ==> r[p].proteinId != m.ids[i])
      ensures sims[i] <= r[|r| - 1].cosineSim
    {
      forall p | 0 <= p < |sel| ensures sel[p] != i {
        assert r[p].proteinId != m.ids[i];
      }
      assert i != self;
    }
  }

  /**
   * With distinct protein ids: the query never appears among its
   * neighbours, no neighbour appears twice, and every protein left out
   * (other than the query) is no more similar than the last one returned.
   */
  lemma TopKExcludesQuery(m: Matrix, sims: seq<real>, query: string, k: int)
    requires |sims| == |m.ids| && Distinct(m.ids)
    requires TopKCosine(m, sims, query, k).Ok?
    ensures var r := TopKCosine(m, sims, query, k).value;
      && (forall p :: 0 <= p < |r| ==> r[p].proteinId != query)
      && (forall p, q :: 0 <= p < q < |r| ==> r[p].proteinId != r[q].proteinId)
      && (forall i :: (0 <= i < |m.ids| && m.ids[i] != query
            && (forall p :: 0 <= p < |r| ==> r[p].proteinId != m.ids[i])) ==> sims[i] <= r[|r| - 1].cosineSim)
  {
    assert TopKCosine(m, sims, query, k).value == Rows(m, sims, Chosen(m, sims, query, k));
    ChosenRowsOmitQuery(m, sims, query, k);
    ChosenRowsDistinct(m, sims, query, k);
    ChosenRowsBeatRest(m, sims, query, k);
  }
}
