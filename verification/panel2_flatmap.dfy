/**
 * The 2D flatmap panel (frontend/src/components/Panel2Flatmap.tsx): loads
 * the pathway overlays available for the current gene, lets the user pick
 * one, and shows the flatmap image for the gene and the chosen overlay.
 * Note that `gene` is interpolated into both URLs without encoding.
 */
module Flatmap {
  import opened Wrappers
  import opened Js

  /** The component's props (`gene`) and state (`pathways`, `selected`). */
  datatype Panel = Panel(gene: string, pathways: seq<JsValue>, selected: string)

  /** The one request the panel issues: the overlay list for a gene. */
  datatype Request = PathwaysRequest(url: string)

  /** An entry of the overlay drop-down. */
  datatype Choice = Choice(value: JsValue, text: JsValue)

  /** What the image area shows. */
  datatype View = NoGene | Image(key: string, src: string)

  const DefaultLabel: string := "Default (cluster colors)"

  function PathwaysUrl(backend: string, gene: string): string {
    backend + "/flatmap/pathways?gene=" + gene
  }

  function BaseImageUrl(backend: string, gene: string): string {
    backend + "/flatmap/image?gene=" + gene
  }

  /** The effect keyed on `gene`: a request only for a non-empty gene. */
  function LoadEffect(backend: string, gene: string): (reqs: seq<Request>)
    ensures gene == "" <==> reqs == []
    ensures reqs != [] ==> reqs == [PathwaysRequest(PathwaysUrl(backend, gene))]
  {
    if gene == "" then [] else [PathwaysRequest(PathwaysUrl(backend, gene))]
  }

  /** Mounting the panel: empty state, then the effect runs once. */
  function Mount(backend: string, gene: string): (Panel, seq<Request>) {
    (Panel(gene, [], ""), LoadEffect(backend, gene))
  }

  /**
   * A new `gene` prop. The effect re-runs, but nothing in the state is
   * reset: the previously chosen overlay stays selected.
   */
  function GeneChanged(p: Panel, backend: string, gene: string): (r: (Panel, seq<Request>))
    ensures r.0.gene == gene
    ensures r.0.pathways == p.pathways && r.0.selected == p.selected
    ensures gene == p.gene ==> r.1 == []
    ensures gene != p.gene ==> r.1 == LoadEffect(backend, gene)
  {
    if gene == p.gene then (p, []) else (p.(gene := gene), LoadEffect(backend, gene))
  }

  /**
   * The overlay list request settles. A body whose `pathways` can be read
   * replaces the list with `data.pathways || []`; a failure, or a `null`
   * body whose property read throws, is only logged.
   */
  function OnPathways(p: Panel, outcome: FetchOutcome): (r: Panel)
    ensures r.gene == p.gene && r.selected == p.selected
    ensures outcome.Failed? ==> r == p
    ensures outcome.Arrived? && Nullish(outcome.body) ==> r == p
    ensures outcome.Arrived? && !Nullish(outcome.body) && !Truthy(Prop(outcome.body, "pathways")) ==> r.pathways == []
    ensures outcome.Arrived? && Prop(outcome.body, "pathways").Arr? ==> r.pathways == Prop(outcome.body, "pathways").items
  {
    match outcome
    case Failed => p
    case Arrived(_, body) =>
      match Get(body, "pathways")
      case None => p
      case Some(v) => p.(pathways := ArrayOrEmpty(v))
  }

  /** The drop-down's onChange: the chosen value becomes the overlay, nothing else changes. */
  function OnSelect(p: Panel, value: string): (r: Panel)
    ensures r.selected == value
    ensures r.(selected := p.selected) == p
  {
    p.(selected := value)
  }

  /** The image URL: the default map when no overlay is chosen, else the overlay named. */
  function ImageUrl(backend: string, p: Panel, enc: string -> string): (u: string)
    ensures BaseImageUrl(backend, p.gene) <= u
    ensures u == BaseImageUrl(backend, p.gene) <==> p.selected == ""
    ensures p.selected != "" ==> u[|BaseImageUrl(backend, p.gene)|..] == "&name=" + enc(p.selected)
  {
    if p.selected != "" then BaseImageUrl(backend, p.gene) + "&name=" + enc(p.selected)
    else BaseImageUrl(backend, p.gene)
  }

  /** The drop-down: the default entry first, then one entry per loaded pathway, in order. */
  function Choices(p: Panel): (r: seq<Choice>)
    ensures |r| == |p.pathways| + 1
    ensures r[0] == Choice(Str(""), Str(DefaultLabel))
    ensures forall i :: 0 <= i < |p.pathways| ==> r[i + 1] == Choice(p.pathways[i], p.pathways[i])
  {
    [Choice(Str(""), Str(DefaultLabel))] + seq(|p.pathways|, i requires 0 <= i < |p.pathways| => Choice(p.pathways[i], p.pathways[i]))
  }

  function Render(backend: string, p: Panel, enc: string -> string): (v: View)
    ensures v.NoGene? <==> p.gene == ""
    ensures v.Image? ==> v.key == v.src == ImageUrl(backend, p, enc)
  {
    if p.gene != "" then Image(ImageUrl(backend, p, enc), ImageUrl(backend, p, enc)) else NoGene
  }

  ghost predicate Injective(enc: string -> string) {
    forall a, b :: enc(a) == enc(b) ==> a == b
  }

  /**
   * For a fixed gene the image URL, which is also the image's key, names the
   * overlay: the default map and each overlay get different URLs, so
   * changing the overlay always reloads the image.
   */
  lemma ImageUrlIdentifiesOverlay(backend: string, p: Panel, q: Panel, enc: string -> string)
    requires Injective(enc)
    requires p.gene == q.gene
    requires ImageUrl(backend, p, enc) == ImageUrl(backend, q, enc)
    ensures p.selected == q.selected
  {
    var base := BaseImageUrl(backend, p.gene);
    var u := ImageUrl(backend, p, enc);
    if p.selected != "" && q.selected != "" {
      assert u[|base| + 6..] == enc(p.selected);
      assert u[|base| + 6..] == enc(q.selected);
    }
  }

  /**
   * Because `gene` is not encoded, two different (gene, overlay) states can
   * ask for the same image: gene "A&name=B" with the default map and gene
   * "A" with overlay "B" (under an encoding that leaves "B" alone).
   */
  lemma UnencodedGeneCollides(backend: string, enc: string -> string)
    requires enc("B") == "B"
    ensures ImageUrl(backend, Panel("A&name=B", [], ""), enc) == ImageUrl(backend, Panel("A", [], "B"), enc)
  {
  }

  /**
   * The overlay survives a gene change: after switching genes, the image
   * still names the overlay chosen for the old gene, whether or not the new
   * gene's list offers it, until the user picks again.
   */
  lemma OverlayKeptAcrossGenes(p: Panel, backend: string, gene: string, outcome: FetchOutcome, enc: string -> string)
    requires p.selected != "" && gene != "" && gene != p.gene
    ensures var q := OnPathways(GeneChanged(p, backend, gene).0, outcome);
      q.selected == p.selected
      && ImageUrl(backend, q, enc) == BaseImageUrl(backend, gene) + "&name=" + enc(p.selected)
  {
  }
}
