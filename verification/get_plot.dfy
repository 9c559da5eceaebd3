/**
 * The `/plot` endpoint (backend/main.py): the neighbour table, the shared
 * pathways between the gene and its neighbours, and the mapping of
 * failures to HTTP status codes. The figure itself is not modelled; a
 * failure while building it is an input.
 */
module GetPlot {
  import opened Wrappers
  import opened Vectors
  import opened TopK
  import SharedPathways

  datatype Response =
    | Found(neighbors: seq<Neighbor>, sharedPathways: seq<SharedPathways.Row>)
    | Failure(status: int, error: string)

  const NotLoadedText: string := "Embeddings not loaded. See server logs for load errors."
  const InternalPrefix: string := "Internal error: "

  function MissingGeneText(gene: string): string {
    "Gene '" + gene + "' not found in vectors index."
  }

  /** The characters Python's `repr` writes with a backslash escape. */
  function EscapeChar(c: char, quote: char): string {
    if c == '\\' then "\\\\"
    else if c == '\n' then "\\n"
    else if c == '\r' then "\\r"
    else if c == '\t' then "\\t"
    else if c == quote then ['\\', quote]
    else [c]
  }

  function Escape(s: string, quote: char): string {
    if s == [] then [] else EscapeChar(s[0], quote) + Escape(s[1..], quote)
  }

  /**
   * `repr` of a Python string (what `str(KeyError(msg))` produces): double
   * quotes when the text holds a single quote and no double quote, single
   * quotes otherwise.
   */
  function PyRepr(s: string): (r: string)
    ensures |r| >= 2 && r[0] == r[|r| - 1]
    ensures r[0] == '"' || r[0] == '\''
    ensures r[0] == '"' <==> '\'' in s && '"' !in s
  {
    var quote := if '\'' in s && '"' !in s then '"' else '\'';
    [quote] + Escape(s, quote) + [quote]
  }

  /** Reads back an escaped body; the inverse of `Escape`. */
  function Unescape(t: string): string {
    if t == [] then []
    else if t[0] == '\\' && |t| >= 2 then
      [if t[1] == 'n' then '\n' else if t[1] == 'r' then '\r' else if t[1] == 't' then '\t' else t[1]]
      + Unescape(t[2..])
    else [t[0]] + Unescape(t[1..])
  }

  lemma {:induction false} UnescapeEscape(s: string, quote: char)
    requires quote != 'n' && quote != 'r' && quote != 't'
    ensures Unescape(Escape(s, quote)) == s
  {
    if s != [] {
      var e := EscapeChar(s[0], quote);
      var rest := Escape(s[1..], quote);
      assert Escape(s, quote) == e + rest;
      UnescapeEscape(s[1..], quote);
      if |e| == 2 {
        assert (e + rest)[2..] == rest;
      } else {
        assert (e + rest)[1..] == rest;
      }
      assert s == [s[0]] + s[1..];
    }
  }

  /** `repr` loses nothing: the text can be read back from it. */
  lemma PyReprInvertible(s: string)
    ensures |PyRepr(s)| >= 2
    ensures Unescape(PyRepr(s)[1..|PyRepr(s)| - 1]) == s
  {
    var quote := if '\'' in s && '"' !in s then '"' else '\'';
    UnescapeEscape(s, quote);
    assert PyRepr(s)[1..|PyRepr(s)| - 1] == Escape(s, quote);
  }

  /** Different genes get different 404 messages. */
  lemma MissingGeneMessagesDiffer(g1: string, g2: string)
    requires PyRepr(MissingGeneText(g1)) == PyRepr(MissingGeneText(g2))
    ensures g1 == g2
  {
    PyReprInvertible(MissingGeneText(g1));
    PyReprInvertible(MissingGeneText(g2));
    var t1 := MissingGeneText(g1);
    var t2 := MissingGeneText(g2);
    assert t1 == t2;
    assert g1 == t1[6..|t1| - 29];
    assert g2 == t2[6..|t2| - 29];
  }

  /** A character `repr` copies unchanged inside `quote` quotes. */
  predicate PlainChar(c: char, quote: char) {
    c != '\\' && c != '\n' && c != '\r' && c != '\t' && c != quote
  }

  lemma {:induction false} EscapePlain(s: string, quote: char)
    requires forall i :: 0 <= i < |s| ==> PlainChar(s[i], quote)
    ensures Escape(s, quote) == s
  {
    if s != [] {
      EscapePlain(s[1..], quote);
      assert s == [s[0]] + s[1..];
    }
  }

  /** `nbrs_df["protein_id"].tolist()` */
  function NeighbourIds(nbrs: seq<Neighbor>): (ids: seq<string>)
    ensures |ids| == |nbrs| && forall i :: 0 <= i < |nbrs| ==> ids[i] == nbrs[i].proteinId
  {
    seq(|nbrs|, i requires 0 <= i < |nbrs| => nbrs[i].proteinId)
  }

  /**
   * Whether the neighbour-pair loop of `_plot_network` raises. With two or
   * more neighbours every one of them is paired with another, and for a
   * duplicated label `.loc` gives a matrix: `np.dot` then either rejects
   * the shapes (ValueError) or yields several numbers that `float()`
   * refuses (TypeError).
   */
  predicate PairLoopFails(m: Matrix, nbrs: seq<Neighbor>) {
    |nbrs| >= 2 && exists p :: 0 <= p < |nbrs| && |Occurrences(m.ids, nbrs[p].proteinId)| > 1
  }

  /**
   * `get_plot(gene, topk)`. `sims` are the cosine similarities of every
   * protein to `gene`; `plotFailure` is the message of any other exception
   * raised while building the figure, if any; `shapeFailure` is the text numpy
   * gives when a duplicated label's rows reach an array operation (it
   * depends on the shapes involved).
   */
  function Plot(m: Matrix, sims: seq<real>, gene: string, topk: int, plotFailure: Option<string>, shapeFailure: string): (r: Response)
    requires WellShaped(m) && |sims| == |m.ids|
    ensures r.Failure? ==> r.status == 404 || r.status == 500
    ensures r.Failure? && r.status == 404 <==> Loaded(m) && gene !in m.ids
    ensures r.Failure? && r.status == 404 ==> r.error == PyRepr(MissingGeneText(gene))
    ensures r.Failure? && r.status == 500 ==> |r.error| >= |InternalPrefix| && r.error[..|InternalPrefix|] == InternalPrefix
    ensures !Loaded(m) ==> r == Failure(500, InternalPrefix + NotLoadedText)
    ensures Loaded(m) && gene in m.ids && |m.ids| == 1 ==> r == Failure(500, InternalPrefix + KthMessage)
    ensures Loaded(m) && gene in m.ids && !SingleRow(m.ids, gene) ==> r == Failure(500, InternalPrefix + shapeFailure)
    ensures TopKCosine(m, sims, gene, topk).Ok?
      && SharedPathways.Clashes(m, gene, NeighbourIds(TopKCosine(m, sims, gene, topk).value), 0.0)
      ==> r == Failure(500, InternalPrefix + shapeFailure)
    ensures TopKCosine(m, sims, gene, topk).Ok? && PairLoopFails(m, TopKCosine(m, sims, gene, topk).value)
      ==> r == Failure(500, InternalPrefix + shapeFailure)
    ensures r.Found? <==>
      && TopKCosine(m, sims, gene, topk).Ok?
      && !SharedPathways.Clashes(m, gene, NeighbourIds(TopKCosine(m, sims, gene, topk).value), 0.0)
      && !PairLoopFails(m, TopKCosine(m, sims, gene, topk).value)
      && plotFailure.None?
    ensures TopKCosine(m, sims, gene, topk).Ok? <==> Loaded(m) && gene in m.ids && |m.ids| >= 2 && SingleRow(m.ids, gene)
    ensures r.Found? ==> r.neighbors == TopKCosine(m, sims, gene, topk).value
  {
    if !Loaded(m) then Failure(500, InternalPrefix + NotLoadedText)
    else if gene !in m.ids then Failure(404, PyRepr(MissingGeneText(gene)))
    else
      match TopKCosine(m, sims, gene, topk)
      // The gene is indexed, so neither helper raises its KeyError here.
      case Err(e) =>
        if e.MultiRowQuery? then Failure(500, InternalPrefix + shapeFailure)
        else Failure(500, InternalPrefix + e.message)
      case Ok(nbrs) =>
        match SharedPathways.Shared(m, gene, NeighbourIds(nbrs), 0.0)
        case Err(_) => Failure(500, InternalPrefix + shapeFailure)
        case Ok(shared) =>
          if PairLoopFails(m, nbrs) then Failure(500, InternalPrefix + shapeFailure)
          else if plotFailure.Some? then Failure(500, InternalPrefix + plotFailure.value)
          else Found(nbrs, shared.rows)
  }

  /**
   * With distinct protein ids no label yields several rows, so a loaded
   * table holding the gene and another protein answers with the top-k
   * rows unless plotting fails.
   */
  lemma DistinctIdsSucceed(m: Matrix, sims: seq<real>, gene: string, topk: int, shapeFailure: string)
    requires WellShaped(m) && |sims| == |m.ids| && Distinct(m.ids)
    requires Loaded(m) && gene in m.ids && |m.ids| >= 2
    ensures Plot(m, sims, gene, topk, None, shapeFailure).Found?
  {
    DistinctSingleRow(m.ids, gene);
    var nbrs := TopKCosine(m, sims, gene, topk).value;
    SharedPathways.DistinctNeverClashes(m, gene, NeighbourIds(nbrs), 0.0);
    forall p | 0 <= p < |nbrs| ensures |Occurrences(m.ids, nbrs[p].proteinId)| <= 1 {
      DistinctAtMostOneRow(m.ids, nbrs[p].proteinId, 0);
    }
  }

  lemma MissingGeneTextPlain(gene: string)
    requires forall i :: 0 <= i < |gene| ==> PlainChar(gene[i], '"')
    ensures forall i :: 0 <= i < |MissingGeneText(gene)| ==> PlainChar(MissingGeneText(gene)[i], '"')
    ensures MissingGeneText(gene)[5] == '\''
  {
    var pre, post := "Gene '", "' not found in vectors index.";
    var t := MissingGeneText(gene);
    forall i | 0 <= i < |t| ensures PlainChar(t[i], '"') {
      if i < |pre| { assert t[i] == pre[i]; }
      else if i < |pre| + |gene| { assert t[i] == gene[i - |pre|]; }
      else { assert t[i] == post[i - |pre| - |gene|]; }
    }
  }

  /** For a gene with no double quote, backslash or tab/line break the 404 message is the text in double quotes, unescaped. */
  lemma PlainMissingGene(gene: string)
    requires forall i :: 0 <= i < |gene| ==> PlainChar(gene[i], '"')
    ensures PyRepr(MissingGeneText(gene)) == "\"" + MissingGeneText(gene) + "\""
  {
    var t := MissingGeneText(gene);
    MissingGeneTextPlain(gene);
    assert '\'' in t;
    assert forall i :: 0 <= i < |t| ==> t[i] != '"';
    EscapePlain(t, '"');
  }

  /**
   * The shared-pathway rows of a successful response pair the gene with one
   * of its returned neighbours, over a pathway where both score above 0.
   */
  lemma SharedRowsAreNeighbours(m: Matrix, sims: seq<real>, gene: string, topk: int, row: SharedPathways.Row)
    requires WellShaped(m) && |sims| == |m.ids|
    requires Plot(m, sims, gene, topk, None, "").Found?
    ensures var r := Plot(m, sims, gene, topk, None, "");
      row in r.sharedPathways <==>
      && row.otherProtein in NeighbourIds(r.neighbors)
      && exists j :: 0 <= j < |m.pathways| && SharedPathways.Above(m, row.otherProtein, j, Vectors.Row(m, gene), 0.0)
           && row == SharedPathways.Entry(m, row.otherProtein, j, Vectors.Row(m, gene))
  {
    var nbrs := TopKCosine(m, sims, gene, topk).value;
    var others := NeighbourIds(nbrs);
    SharedPathways.SharedRowsExact(m, gene, others, 0.0, row);
    if row.otherProtein in others {
      NeighboursIndexed(m, sims, gene, topk, row.otherProtein);
    }
  }

  lemma NeighboursIndexed(m: Matrix, sims: seq<real>, gene: string, topk: int, id: string)
    requires WellShaped(m) && |sims| == |m.ids|
    requires TopKCosine(m, sims, gene, topk).Ok?
    requires id in NeighbourIds(TopKCosine(m, sims, gene, topk).value)
    ensures id in m.ids
  {
    var nbrs := TopKCosine(m, sims, gene, topk).value;
    var p :| 0 <= p < |nbrs| && NeighbourIds(nbrs)[p] == id;
    assert nbrs[p].proteinId == id;
  }
}
