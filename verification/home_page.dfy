/**
 * The home page (frontend/src/app/page.tsx): a search box whose text is
 * kept verbatim, and a submit handler that trims it and routes to the search
 * view with the letters' case kept.
 */
module HomePage {
  import opened Wrappers
  import Js

  /** The page's one piece of state, the text in the search box. */
  datatype Home = Home(query: string)

  /** What submitting the form does: whether the browser's default submit is suppressed, and where it navigates. */
  datatype Submission = Submission(defaultPrevented: bool, route: Option<string>)

  const SearchRoute: string := "/search?gene="

  const Initial: Home := Home("")

  /** The input's change handler stores the typed text as is. */
  function OnChange(h: Home, typed: string): (r: Home)
    ensures r.query == typed
  {
    Home(typed)
  }

  /** `handleSearch`; `enc` stands for `encodeURIComponent`. */
  function HandleSearch(h: Home, enc: string -> string): (r: Submission)
    ensures r.defaultPrevented
    ensures r.route.None? <==> Js.AllSpace(h.query)
  {
    var q := Js.Trim(h.query);
    Submission(true, if q != [] then Some(SearchRoute + enc(q)) else None)
  }

  /**
   * A navigation always carries a piece of the typed text itself: the query
   * minus surrounding whitespace, not empty, with no whitespace at either
   * end and its letters' case unchanged.
   */
  lemma RoutedGeneIsTypedText(h: Home, enc: string -> string) returns (pre: string, gene: string, post: string)
    ensures Js.AllSpace(pre) && Js.AllSpace(post)
    ensures h.query == pre + gene + post
    ensures Js.Untrimmable(gene)
    ensures HandleSearch(h, enc).route.Some? ==> gene != [] && HandleSearch(h, enc).route == Some(SearchRoute + enc(gene))
  {
    pre, post := Js.TrimSplits(h.query);
    gene := Js.Trim(h.query);
  }

  /** Whitespace typed around a query does not change where the search goes. */
  lemma PaddingIgnored(pre: string, q: string, post: string, enc: string -> string)
    requires Js.AllSpace(pre) && Js.AllSpace(post)
    requires Js.Untrimmable(q)
    ensures HandleSearch(Home(pre + q + post), enc) == HandleSearch(Home(q), enc)
  {
    Js.TrimPadded(pre, q, post);
    Js.TrimPadded([], q, []);
    assert [] + q + [] == q;
  }

  /** Typing a text and submitting it routes to exactly that text with its padding removed. */
  lemma TypeThenSubmit(h: Home, pre: string, q: string, post: string, enc: string -> string)
    requires Js.AllSpace(pre) && Js.AllSpace(post)
    requires Js.Untrimmable(q) && q != []
    ensures HandleSearch(OnChange(h, pre + q + post), enc).route == Some(SearchRoute + enc(q))
  {
    Js.TrimPadded(pre, q, post);
  }
}
