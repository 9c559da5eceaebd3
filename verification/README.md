# Protein map browser — page state machines and backend helpers in Dafny

This project models the query orchestration of a protein-map browsing
interface and the pure data helpers of its backend.

**Frontend pages.** Each page is an immutable state record plus pure
functions. A handler is a transition `Step(page, event) -> (page', requests)`
and a render branch is a projection from the record to a small view datatype.
The events are:

- a navigation, meaning a new `gene` or `pathway` search parameter;
- a user selection (a neighbour, a group click, a threshold, an overlay);
- an inbound `postMessage`;
- the delivery of a request's outcome (`Arrived(body)` or `Failed`).

The effects that React runs after a render become the `requests` a step
returns. Each request carries the key values it was issued with. Fetch
continuations write state whatever the page's current key is, as the code
does. Lemmas show the resulting race: a late response for an old key can
overwrite newer data.

Frontend payloads are values of a small JavaScript value datatype
(`Js.JsValue`: undefined, null, booleans, numbers, NaN, strings, arrays,
objects). With it, `||`, `??`, `?.` and truthiness behave as in
JavaScript, and so does `===` on primitive values. Arrays and objects are
compared by structure, where JavaScript compares references (see "Left out").
The model treats these as parameters:

- `encodeURIComponent` (`enc`), an uninterpreted function;
- the backend base URL;
- `Date.now()`.

Modules:

- `Js`: JavaScript values, `String.prototype.trim` and decimal rendering of naturals.
- `SearchPage`: the search view (`frontend/src/app/search/page.tsx`). It covers
  the resize message, group label, plot/neighbours and shared-groups effects,
  the group toggle, and the plot-area, sidebar, viewer and group-label renders.
- `PathwayPage`: the pathway view. It covers the proteins effect keyed on
  (pathway, threshold), the threshold options, the explanation toggle and the
  proteins render.
- `HomePage`: the search form.
- `Flatmap`, `Calibration`, `Auprc`: the three image panels.
- `Vectors`: the embedding table (protein ids × pathway columns). Loading
  keeps duplicated ids, so a label can select several rows.
- `TopK`: `_topk_cosine`, with the similarity scores taken as input.
- `SharedPathways`: `_shared_pathways`.
- `GetPlot`: the `/plot` endpoint's response classification, including
  Python's `repr` quoting of a `KeyError` message.
- `WktPoint`: `parse_wkt_point`, which runs the regular expression
  `POINT\s*\(([-0-9\.Ee+]+)\s+([-0-9\.Ee+]+)\)` through `re.search`.
- `FlatmapFiles`: `list_pathways_for_gene` over a given list of file names.
- `Sorting`, `StrOrder`: a generic insertion sort with its permutation and
  sortedness facts, and Python's code-point string order.

Behaviours the model makes visible rather than hides:

- The home page routes the trimmed text with its case unchanged
  (`frontend/src/app/page.tsx:13`).
- No continuation checks that its key is still current.
  `SearchPage.LatePlotResponseWins`, `SearchPage.LateGroupsResponseWins` and
  `PathwayPage.LateThresholdResponseWins` state the race.

- `selectedGene` is only cleared when a plot response lands. So a gene
  change first re-requests shared groups with the old neighbour
  (`SearchPage.GeneChangeKeepsOldNeighbour`).
- The flatmap overlay survives a gene change
  (`Flatmap.OverlayKeptAcrossGenes`). The flatmap URL also puts the gene in
  unencoded, so two different panels can ask for the same URL
  (`Flatmap.UnencodedGeneCollides`).

## Model

| member | source | states |
|---|---|---|
| SearchPage.HandleMessage | frontend/src/app/search/page.tsx:27-35 | only a `resize-panel` message for `panel1` changes state; that entry becomes `height \|\| 600`; every other key and field is kept |
| SearchPage.RenderedHeightTruthy | frontend/src/app/search/page.tsx:117 | in every reachable state the viewer height is `iframeHeights["panel1"] ?? 600` and is truthy |
| SearchPage.MountReachable | frontend/src/app/search/page.tsx:15-23 | the initial state satisfies the reachability invariant (panel1-only truthy heights, null-or-truthy label, error implies cleared plot and neighbours) |
| SearchPage.StepReachable | frontend/src/app/search/page.tsx:27-95 | every event preserves the reachability invariant |
| SearchPage.RunReachable | frontend/src/app/search/page.tsx:27-95 | every event sequence preserves the reachability invariant |
| SearchPage.OnGroupLabel | frontend/src/app/search/page.tsx:43-47 | the label is truthy exactly when the response arrived with a truthy `group_label`, and is then that value; otherwise null; nothing else changes |
| SearchPage.SortNeighbors | frontend/src/app/search/page.tsx:60-63 | the result is a permutation of the payload list, ordered non-increasing by `cosine_sim`, with a missing value read as 0 |
| SearchPage.OnPlot | frontend/src/app/search/page.tsx:53-77 | every outcome clears selection, groups and expansion; success stores the plot, clears the error and stores the sorted permutation of `neighbors \|\| []`; a non-ok status, a failure, or a `null` entry among two or more compared entries (the comparator throws) sets the fixed message and clears plot and neighbours |
| SearchPage.Compared | frontend/src/app/search/page.tsx:60-62 | the entries the comparator sees are exactly the non-`undefined` ones |
| SearchPage.ComparedTwo | frontend/src/app/search/page.tsx:60-62 | two non-`undefined` entries mean at least two compared entries |
| SearchPage.NullNeighbourShowsError | frontend/src/app/search/page.tsx:60-77 | a `null` neighbour with another entry to compare it with ends in the catch branch: fixed message, no plot, no neighbours |
| SearchPage.OnSharedGroups | frontend/src/app/search/page.tsx:86-94 | an array `groups` is stored as is; a falsy `groups`, a null body or a failure stores `[]`; nothing else changes |
| SearchPage.Step | frontend/src/app/search/page.tsx:27-95 | only navigation changes the gene, and only navigation can issue label or plot requests; toggles and messages issue nothing; a selection stores the chosen neighbour; only a plot delivery can change the neighbour |
| SearchPage.RunEffects | frontend/src/app/search/page.tsx:42-95 | label and plot requests are issued exactly when the gene changed to non-empty; a shared-groups request exactly when the (gene, neighbour) key changed and both are non-empty; with an empty part the groups and expansion are cleared |
| SearchPage.RequestsFollowKeys | frontend/src/app/search/page.tsx:42-95 | every request a step issues carries the page's current gene (and non-empty neighbour); an empty gene issues none |
| SearchPage.GeneChangeKeepsOldNeighbour | frontend/src/app/search/page.tsx:81-95 | navigating to a new gene keeps the old neighbour and issues a shared-groups request for (new gene, old neighbour) |
| SearchPage.PlotDeliveryIgnoresKeys | frontend/src/app/search/page.tsx:51-78 | the state after a plot delivery does not depend on the page's gene or the request's gene |
| SearchPage.LatePlotResponseWins | frontend/src/app/search/page.tsx:51-78 | after navigating away, a late plot response for the old gene is what the plot area shows |
| SearchPage.LateGroupsResponseWins | frontend/src/app/search/page.tsx:81-95 | a late shared-groups response for the previous neighbour is shown under the new neighbour |
| SearchPage.ClearingSelectionResetsSidebar | frontend/src/app/search/page.tsx:81-95 | clearing the neighbour renders the select prompt and clears groups and expansion |
| SearchPage.Toggle | frontend/src/app/search/page.tsx:211-215 | clicking the expanded group collapses it, any other click expands the clicked group; nothing else changes |
| SearchPage.ToggleTwice | frontend/src/app/search/page.tsx:211-215 | clicking a group twice restores the state exactly when nothing or that group was expanded |
| SearchPage.AtMostOneExpanded | frontend/src/app/search/page.tsx:202-234 | with distinct group labels at most one rendered group is active |
| SearchPage.DuplicateLabelsExpandTogether | frontend/src/app/search/page.tsx:207-225 | two groups with the same primitive label are expanded together |
| SearchPage.RenderPlotArea | frontend/src/app/search/page.tsx:158-180 | a non-empty error is shown first, then a truthy plot, otherwise the loading text |
| SearchPage.RenderSidebar | frontend/src/app/search/page.tsx:202-234 | no neighbour gives the prompt, no groups gives the no-shared text, otherwise one block per group whose pathway list is shown exactly when it is the expanded one |
| SearchPage.RenderViewer | frontend/src/app/search/page.tsx:110-125 | an empty gene gives the placeholder, otherwise the viewer with the rendered height |
| SearchPage.RenderGroupLabel | frontend/src/app/search/page.tsx:153-155 | the label line is shown exactly when the label is truthy |
| PathwayPage.ThresholdOptionsAreTenths | frontend/src/app/pathway/page.tsx:109-116 | the options are exactly i/10 for i in 0..10, strictly increasing, and contain the initial 0.2 (line 12) |
| PathwayPage.OnProteins | frontend/src/app/pathway/page.tsx:26-43 | a truthy `error` is stored with no proteins; a mappable payload clears the error and pairs `proteins[i]` with `scores[i]` in order; a failure or an unmappable payload sets the fixed message |
| PathwayPage.ProteinsEffect | frontend/src/app/pathway/page.tsx:17-44 | a request carrying (pathway, threshold) is issued exactly when the pathway is non-empty and the key changed |
| PathwayPage.Step | frontend/src/app/pathway/page.tsx:17-55 | only navigation changes the pathway and only the drop-down changes the threshold; toggles and deliveries issue nothing; a request is issued only when the key changed; only deliveries change the list and the error |
| PathwayPage.ToggleShow | frontend/src/app/pathway/page.tsx:55 | the click negates `showExplanation` and changes nothing else |
| PathwayPage.ProteinsResponseShown | frontend/src/app/pathway/page.tsx:26-43 | after a response the panel shows the payload's `error`, the proteins in payload order, the none-found notice for an empty list, or the fixed failure message |
| PathwayPage.RequestsFollowKeys | frontend/src/app/pathway/page.tsx:17-44 | every request carries the current key; an empty pathway issues none |
| PathwayPage.EmptyPathwayNoFetch | frontend/src/app/pathway/page.tsx:18 | navigating to an empty pathway keeps the state and issues nothing |
| PathwayPage.KeyChangeRefetches | frontend/src/app/pathway/page.tsx:17-44 | changing the threshold or pathway re-requests with the new key |
| PathwayPage.ToggleShowFlips | frontend/src/app/pathway/page.tsx:55 | a click negates `showExplanation`; two clicks restore it |
| PathwayPage.LateThresholdResponseWins | frontend/src/app/pathway/page.tsx:26-43 | a late response for the old threshold replaces the list fetched for the new one |
| PathwayPage.RenderProteins | frontend/src/app/pathway/page.tsx:120-132 | error text first, then the non-empty list, otherwise the no-proteins text |
| HomePage.OnChange | frontend/src/app/page.tsx:25 | the typed text is stored as is |
| HomePage.HandleSearch | frontend/src/app/page.tsx:10-15 | submission is always prevented; there is no route exactly when the query is all whitespace |
| HomePage.RoutedGeneIsTypedText | frontend/src/app/page.tsx:10-15 | the routed gene is the typed text minus leading and trailing whitespace, case unchanged, behind `/search?gene=` |
| HomePage.PaddingIgnored | frontend/src/app/page.tsx:12-13 | whitespace around the query does not change the submission |
| HomePage.TypeThenSubmit | frontend/src/app/page.tsx:13-25 | typed text is stored verbatim, so submitting padded text routes to the encoded inner text |
| Js.Trim | frontend/src/app/page.tsx:12 | the result has no surrounding whitespace and is empty exactly when the input is all whitespace |
| Js.TrimSplits | frontend/src/app/page.tsx:12-13 | the input is whitespace + trimmed text + whitespace |
| Js.TrimPadded | frontend/src/app/page.tsx:12-13 | trimming padded untrimmable text gives that text back |
| Js.TrimIdempotent | frontend/src/app/page.tsx:12-13 | trimming twice is trimming once |
| Flatmap.LoadEffect | frontend/src/components/Panel2Flatmap.tsx:12-23 | a pathway-list request is issued exactly when the gene is non-empty |
| Flatmap.GeneChanged | frontend/src/components/Panel2Flatmap.tsx:12-23 | a gene change re-runs the load effect and keeps `pathways` and `selected` |
| Flatmap.OnPathways | frontend/src/components/Panel2Flatmap.tsx:16-21 | an array `pathways` replaces the list, a falsy one gives `[]`, a failure changes nothing |
| Flatmap.OnSelect | frontend/src/components/Panel2Flatmap.tsx:36 | the chosen value becomes the overlay; the gene and list are kept |
| Flatmap.ImageUrl | frontend/src/components/Panel2Flatmap.tsx:26-28 | the URL extends the gene's base image URL, is exactly that base when no overlay is chosen, and otherwise appends `&name=` and the encoded overlay |
| Flatmap.Choices | frontend/src/components/Panel2Flatmap.tsx:38-43 | the default entry, then one entry per pathway in list order |
| Flatmap.Render | frontend/src/components/Panel2Flatmap.tsx:51-60 | an empty gene gives the placeholder, otherwise an image whose key and source are the URL |
| Flatmap.ImageUrlIdentifiesOverlay | frontend/src/components/Panel2Flatmap.tsx:26-28 | for one gene and an injective encoding the URL determines the overlay, with the empty overlay giving no `name` parameter |
| Flatmap.UnencodedGeneCollides | frontend/src/components/Panel2Flatmap.tsx:26-28 | the unencoded gene lets two different panels produce the same URL |
| Flatmap.OverlayKeptAcrossGenes | frontend/src/components/Panel2Flatmap.tsx:9-28 | after a gene change and any list response the old overlay is still selected and in the new URL |
| Calibration.UrlEffect | frontend/src/components/Panel3Calibration.tsx:10-16 | an empty gene gives null, otherwise the calibration URL of the encoded gene |
| Calibration.Render | frontend/src/components/Panel3Calibration.tsx:21-37 | an image with key and source equal to the URL exactly when the URL is non-empty |
| Calibration.ShownAfterEffect | frontend/src/components/Panel3Calibration.tsx:10-37 | an image is shown exactly for a non-empty gene, and different genes give different images |
| Auprc.UrlEffect | frontend/src/components/Panel4AUPRC.tsx:10-19 | an empty gene gives null, otherwise the AUPRC URL with the encoded gene and the `_ts` timestamp |
| Auprc.Render | frontend/src/components/Panel4AUPRC.tsx:26-43 | no gene, then loading for a missing URL, otherwise the image with key `auprc-` + URL |
| Auprc.KeyTracksUrl | frontend/src/components/Panel4AUPRC.tsx:32 | two image keys are equal exactly when their URLs are |
| Auprc.TimestampBustsCache | frontend/src/components/Panel4AUPRC.tsx:15-18 | different timestamps give different URLs and keys |
| Js.NatTextInjective | frontend/src/components/Panel4AUPRC.tsx:17 | the decimal rendering of the timestamp is injective |
| Vectors.IndexOf | backend/main.py:101-103 | the first position holding the id |
| Vectors.Occurrences | backend/main.py:96 | every position listed holds the label: the rows `.loc[label]` selects |
| Vectors.OccurrencesExact | backend/main.py:63-72 | the positions listed are exactly those holding the label, increasing, and none for an absent label |
| Vectors.FirstOccurrence | backend/main.py:101-103 | a present label's first row is the one `np.where(...)[0][0]` picks |
| Vectors.DistinctSingleRow | backend/main.py:63-72 | with distinct ids every present label selects one row |
| TopK.EffectiveK | backend/main.py:105 | the count is at least 1 and for N ≥ 2 at most N-1; an in-range k is kept, a larger one becomes N-1, and the count is 1 exactly when k ≤ 1 or N ≤ 2 |
| TopK.Ranked | backend/main.py:106-108 | every index exactly once, in non-increasing score order |
| TopK.TopBeatsRest | backend/main.py:106-108 | every selected index scores at least every unselected one |
| TopK.LoneNegInfLeftOut | backend/main.py:101-108 | the masked self entry is never selected while k < N and all others are finite |
| TopK.SelectTop | backend/main.py:105-108 | k distinct indices, non-increasing, each beating every unselected index, never the lone masked one |
| TopK.Chosen | backend/main.py:101-108 | `max(1, min(k, N-1))` distinct non-self indices, non-increasing, beating every other non-self index |
| TopK.TopKCosine | backend/main.py:89-113 | the load error iff empty, the key error iff the query is absent, the kth error iff N = 1, the array error iff the query's label has several rows; rows exactly when loaded, present, N ≥ 2 and one row, and then exactly the effective k rows, non-increasing, each a non-self (id, score) |
| TopK.TopKExcludesQuery | backend/main.py:101-113 | with distinct ids no row is the query, rows are distinct, and every left-out protein scores at most the last row |
| SharedPathways.Shared | backend/main.py:115-148 | fixed columns; an empty table when not loaded; the key error exactly for an absent query; the array error exactly when some listed, indexed protein's rows and the query's rows make a mask that does not broadcast or is 2-D with a hit; otherwise the rows are a permutation of the collected matches, sorted by other protein ascending then joint score descending |
| SharedPathways.DistinctNeverClashes | backend/main.py:120-134 | with distinct ids the loop never raises the array error |
| SharedPathways.FirstRowsClash | backend/main.py:126-134 | against a duplicated query, first rows that both exceed the threshold in one column make the loop raise |
| SharedPathways.SkippedHasNoMatches | backend/main.py:128-132 | a protein the loop skips against a duplicated query contributes no row |
| SharedPathways.DuplicateQueryNoRows | backend/main.py:120-146 | a duplicated query that does not raise gets an empty table |
| SharedPathways.Collect | backend/main.py:125-143 | every emitted row's protein is listed and indexed, both its scores exceed the threshold, and its joint score is their product |
| SharedPathways.CollectExact | backend/main.py:125-143 | a row is collected exactly when its protein is listed, indexed and both scores exceed the threshold for that pathway, with the product as joint score |
| SharedPathways.SharedRowsExact | backend/main.py:117-148 | membership in the result table is exactly that condition |
| SharedPathways.RowOrderIsPreorder | backend/main.py:144-148 | the two-key order is a total preorder |
| GetPlot.Plot | backend/main.py:260-285 | 404 exactly for a loaded table missing the gene, with the repr of the message; every other failure is 500 with the internal-error prefix; a duplicated gene, a neighbour whose rows clash with the gene's, or a duplicated neighbour among two or more (the pair loop at lines 183-189) is a 500; success exactly when the top-k rows exist, no neighbour clashes, the pair loop does not fail and plotting succeeds, with those rows |
| GetPlot.DistinctIdsSucceed | backend/main.py:260-275 | with distinct ids a loaded table holding the gene and another protein succeeds unless plotting fails (no clash, no pair-loop failure) |
| GetPlot.SharedRowsAreNeighbours | backend/main.py:269-270 | a shared row belongs to the response exactly when its protein is a returned neighbour and the pathway passes the threshold of 0 |
| GetPlot.PyRepr | backend/main.py:280-281 | the text is wrapped in one quote character, double exactly when the message holds `'` and no `"` |
| GetPlot.PyReprInvertible | backend/main.py:280-281 | the quoted error text can be unquoted back to the message |
| GetPlot.UnescapeEscape | backend/main.py:280-281 | unescaping undoes escaping |
| GetPlot.MissingGeneMessagesDiffer | backend/main.py:266-281 | different missing genes give different 404 texts |
| GetPlot.PlainMissingGene | backend/main.py:266-281 | a plain gene's 404 text is the message in double quotes |
| WktPoint.RunMaximal | backend/main.py:304 | a greedy run takes every class character and stops at the first outside one |
| WktPoint.RunExact | backend/main.py:304 | a run bounded by an outside character is the greedy run |
| WktPoint.MatchAt | backend/main.py:304 | a match is found only where the text spells `POINT`; the shape of its parts is stated by `MatchAtSound` |
| WktPoint.MatchAtSound | backend/main.py:304-306 | a match is well formed and spelled at that position |
| WktPoint.PointTextMatches | backend/main.py:304-306 | every well-formed spelled point is matched at its position |
| WktPoint.Search | backend/main.py:306 | the leftmost matching position, or none exactly when no position matches |
| WktPoint.ParseWktPoint | backend/main.py:304-309 | no result exactly when nothing matches; otherwise the two tokens of the first match |
| WktPoint.LeadingPointParses | backend/main.py:304-309 | text starting with a well-formed point parses to its tokens |
| WktPoint.NoSpaceInsideParens | backend/main.py:304 | a match has a token character right after `(` and right before `)` |
| WktPoint.ExampleParses | backend/main.py:304-309 | illustration of `LeadingPointParses`: `POINT (1.5 -2)` gives `1.5` and `-2` |
| WktPoint.ExampleSpaceAfterParen | backend/main.py:304 | illustration of `NoSpaceInsideParens`: a space after `(` does not match |
| WktPoint.ExampleSpaceBeforeParen | backend/main.py:304 | illustration of `NoSpaceInsideParens`: a space before `)` does not match |
| FlatmapFiles.PathwayNameExact | backend/main.py:314-317 | a file yields name n exactly when it is `gene_n_GSEA.csv_gdf.csv` with n non-empty and single-line |
| FlatmapFiles.ForeignFileIgnored | backend/main.py:314-317 | a file not of that form yields nothing |
| FlatmapFiles.NamesExact | backend/main.py:313-317 | a name is collected exactly when its file is listed |
| FlatmapFiles.NamesCount | backend/main.py:313-317 | each name occurs as often as its file |
| FlatmapFiles.ListPathways | backend/main.py:311-318 | a permutation of the collected names, sorted ascending |
| FlatmapFiles.ListPathwaysExact | backend/main.py:311-318 | membership and multiplicity of each name follow the file list |
| FlatmapFiles.ListPathwaysUnique | backend/main.py:318 | every ascending arrangement of the collected names equals the returned list |
| StrOrder.StrLeTotalOrder | backend/main.py:318 | Python string order is a total order |
| Sorting.Sort | frontend/src/app/search/page.tsx:60-63 | a permutation of the input, sorted for any total preorder |

## Left out

- Transport and timing: `fetch`, async scheduling, JSON parsing and `Date.now()`. Responses are events and the timestamp is a parameter.
- React, CSS, the Plotly component, the iframe contents and Next.js routing. `encodeURIComponent` is an uninterpreted parameter.
- Static pages (about, user guide, drug, layout) and the downloads page. They hold content only.
- Backend numerics. Vector normalisation and the cosine computation are out, and similarity scores are inputs. So are `_plot_network` and every figure, the flatmap image and calibration plots, and the `collapse == "mean"` versus max choice in `flatmap_image`. A plotting failure in `/plot` is an input (`plotFailure`).
- Backend I/O and startup: artifact loading, the directory glob (the file names are an input), FastAPI and CORS setup, `plot_ping`, and `elapsed_sec`.
- The group-label endpoint's server side. Only the frontend's use of the response is modelled.
- SearchPage.OnSharedGroups: a truthy non-array `groups` is stored as `[]`, where the code stores the value itself. For a number, a boolean or an object without a truthy `length`, the sidebar's `sharedGroups.length` test fails and the page shows "No shared pathways found.", as the model does. A non-empty string or an object with a truthy `length` reaches `sharedGroups.map` and throws; the model shows the notice instead.
- Flatmap.OnPathways: a truthy non-array `pathways` is stored as `[]`. The code stores it, and the options' `pathways.map` then throws.
- SearchPage.SortNeighbors: a `cosine_sim` that is a string, boolean, array or object is read as 0. JavaScript's subtraction converts it with ToNumber (`"0.9"` sorts as 0.9, `true` as 1), and a NaN result makes the comparator inconsistent, leaving the order to the engine. A null element never reaches the sort: `SearchPage.OnPlot` sends a list holding `null` and another compared element to the catch branch. An `undefined` element, which JSON cannot produce, is sorted by key 0, where the engine moves it to the end.
- PathwayPage.OnProteins: `data.scores[i]` follows JavaScript indexing (an array element, a one-character string, or an object's property named by the index). The render's `toFixed` call on a score that is not a number, which throws, is not modelled. Neither is the floating-point formatting of the threshold in the request URL.
- TopK.SelectTop: numpy's order among equal scores is unspecified. The model proves only tie-independent facts.
- SharedPathways.Shared: the order pandas gives to rows equal on both sort keys is not stated.
- Sorting.Sort: stability is not proved. JavaScript's `Array.prototype.sort` is stable, but the neighbour contract states only permutation and order, not the relative order of equal similarities.
- SearchPage.RenderSidebar: a non-array `pathway_id` on the expanded group renders as an empty list, where the code's `.map` throws. A `null` element of `groups` renders as a button labelled `undefined`, where the code's `g.Group10` throws.
- SearchPage.DuplicateLabelsExpandTogether: stated for primitive labels only. `Js.StrictEq` compares arrays and objects by structure. JavaScript compares references, so two parsed objects are never `===`. For object or array labels, the model therefore opens every structurally equal label together in `RenderSidebar`. It also keeps such a label expanded after the groups are fetched again, where the fresh objects no longer match in JavaScript.
- GetPlot.PyRepr: escapes `\\`, the quote, `\n`, `\r` and `\t`. Other non-printable characters, which Python writes as `\x..` or `\u....`, are not modelled.
- GetPlot.Plot: the kth error text is numpy's message as a constant. Exception texts from `_plot_network` are taken verbatim from the input. For a duplicated id, `.loc` returns several rows. The request then ends with 500 in three cases: the gene itself is duplicated; a listed neighbour's rows clash with the gene's in `_shared_pathways`; or two or more neighbours are returned and one of them is duplicated, which `_plot_network`'s pair loop rejects. With a single returned neighbour whose rows do not clash, the answer is 200, as in the code. The error text depends on the array shapes and is an input (`shapeFailure`). An exception `_plot_network` raises before its pair loop (coordinate handling, main.py lines 151-174) would come first with its own text. The model reports the pair-loop failure in that case.
- WktPoint.ParseWktPoint: returns the two matched tokens as text. Their `float()` conversion, which can raise on tokens such as `1e`, is not modelled. Neither is `str(s)` of a non-string geometry.
- FlatmapFiles.ListPathways: a gene containing glob or regular-expression metacharacters is treated literally. Directory entries are assumed to be plain file names.
- SearchPage.ClearingSelectionResetsSidebar: holds only at the moment of clearing. A shared-groups response that arrives later still writes `sharedGroups`. The sidebar keeps showing the prompt because no neighbour is selected.
