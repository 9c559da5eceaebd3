/**
 * The calibration-plot panel (frontend/src/components/Panel3Calibration.tsx):
 * an effect keyed on `gene` derives the image URL, and the render shows the
 * image or a placeholder.
 */
module Calibration {
  import opened Wrappers

  /** What the panel shows. */
  datatype View = NoGene | Image(key: string, src: string)

  function ImageUrl(backend: string, gene: string, enc: string -> string): string {
    backend + "/calibration/image?gene=" + enc(gene)
  }

  /** The effect: `imgUrl` is `null` for an empty gene and the gene's calibration URL otherwise. */
  function UrlEffect(backend: string, gene: string, enc: string -> string): (imgUrl: Option<string>)
    ensures imgUrl.None? <==> gene == ""
    ensures imgUrl.Some? ==> imgUrl.value == ImageUrl(backend, gene, enc)
  {
    if gene == "" then None else Some(ImageUrl(backend, gene, enc))
  }

  /** `imgUrl ? <img key={imgUrl} src={imgUrl}/> : "No gene selected."` */
  function Render(imgUrl: Option<string>): (v: View)
    ensures v.Image? <==> imgUrl.Some? && imgUrl.value != ""
    ensures v.Image? ==> v.key == imgUrl.value && v.src == imgUrl.value
  {
    match imgUrl
    case Some(u) => if u != "" then Image(u, u) else NoGene
    case None => NoGene
  }

  ghost predicate Injective(enc: string -> string) {
    forall a, b :: enc(a) == enc(b) ==> a == b
  }

  /**
   * After the effect has run, the panel shows an image exactly when a gene
   * is set, and (for an injective encoding) the image key tells genes apart,
   * so a gene change always swaps the image.
   */
  lemma ShownAfterEffect(backend: string, g1: string, g2: string, enc: string -> string)
    requires Injective(enc)
    ensures Render(UrlEffect(backend, g1, enc)).Image? <==> g1 != ""
    ensures g1 != "" && g2 != "" && Render(UrlEffect(backend, g1, enc)) == Render(UrlEffect(backend, g2, enc)) ==> g1 == g2
  {
    var pre := backend + "/calibration/image?gene=";
    if g1 != "" && g2 != "" && ImageUrl(backend, g1, enc) == ImageUrl(backend, g2, enc) {
      assert ImageUrl(backend, g1, enc)[|pre|..] == enc(g1);
      assert ImageUrl(backend, g2, enc)[|pre|..] == enc(g2);
    }
  }
}
