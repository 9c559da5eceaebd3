/**
 * The AUPRC-plot panel (frontend/src/components/Panel4AUPRC.tsx): like the
 * calibration panel, but the URL carries a `_ts` cache-busting timestamp
 * (`Date.now()`, a parameter here) and the render has a loading state.
 */
module Auprc {
  import opened Wrappers
  import Js

  /** What the panel shows. */
  datatype View = NoGene | Loading | Image(key: string, src: string)

  function ImageUrl(backend: string, gene: string, enc: string -> string, now: nat): string {
    backend + "/auprc/image?gene=" + enc(gene) + "&_ts=" + Js.NatText(now)
  }

  /** The effect: `imgUrl` is `null` for an empty gene, else the gene's URL stamped with `now`. */
  function UrlEffect(backend: string, gene: string, enc: string -> string, now: nat): (imgUrl: Option<string>)
    ensures imgUrl.None? <==> gene == ""
    ensures imgUrl.Some? ==> imgUrl.value == ImageUrl(backend, gene, enc, now)
  {
    if gene == "" then None else Some(ImageUrl(backend, gene, enc, now))
  }

  function ImageKey(url: string): string {
    "auprc-" + url
  }

  /** Three-way render: no gene, then a missing URL, then the image. */
  function Render(gene: string, imgUrl: Option<string>): (v: View)
    ensures v.NoGene? <==> gene == ""
    ensures v.Loading? <==> gene != "" && (imgUrl.None? || imgUrl.value == "")
    ensures v.Image? ==> v.src == imgUrl.value && v.key == ImageKey(imgUrl.value)
  {
    if gene == "" then NoGene
    else match imgUrl
      case None => Loading
      case Some(u) => if u == "" then Loading else Image(ImageKey(u), u)
  }

  /** The key is a fixed prefix on the URL: keys are equal exactly when URLs are. */
  lemma KeyTracksUrl(u1: string, u2: string)
    ensures ImageKey(u1) == ImageKey(u2) <==> u1 == u2
  {
    if ImageKey(u1) == ImageKey(u2) {
      assert u1 == ImageKey(u1)[6..];
      assert u2 == ImageKey(u2)[6..];
    }
  }

  /**
   * Cache busting: running the effect for the same gene at two different
   * times gives two different URLs, hence two different image keys.
   */
  lemma TimestampBustsCache(backend: string, gene: string, enc: string -> string, t1: nat, t2: nat)
    requires t1 != t2
    ensures ImageUrl(backend, gene, enc, t1) != ImageUrl(backend, gene, enc, t2)
    ensures ImageKey(ImageUrl(backend, gene, enc, t1)) != ImageKey(ImageUrl(backend, gene, enc, t2))
  {
    var pre := backend + "/auprc/image?gene=" + enc(gene) + "&_ts=";
    if ImageUrl(backend, gene, enc, t1) == ImageUrl(backend, gene, enc, t2) {
      assert ImageUrl(backend, gene, enc, t1)[|pre|..] == Js.NatText(t1);
      assert ImageUrl(backend, gene, enc, t2)[|pre|..] == Js.NatText(t2);
      Js.NatTextInjective(t1, t2);
    }
    KeyTracksUrl(ImageUrl(backend, gene, enc, t1), ImageUrl(backend, gene, enc, t2));
  }
}
