/**
 * The search view (frontend/src/app/search/page.tsx) as a state machine.
 *
 * The page keeps one state record. Its effects are keyed on the `gene`
 * search parameter (group label, plot and neighbours) and on the pair
 * (`gene`, selected neighbour) (shared pathway groups). Fetch continuations
 * write the record unconditionally: a response is applied whenever it
 * arrives, whatever the page's current key is.
 */
module SearchPage {
  import opened Wrappers
  import opened Js
  import Sorting

  /** The page's state hooks. */
  datatype State = State(
    plot: JsValue,                       // plotJson, initially null
    neighbors: seq<JsValue>,
    selectedGene: string,
    error: Option<string>,
    groupLabel: JsValue,                 // initially null
    iframeHeights: map<string, JsValue>,
    sharedGroups: seq<JsValue>,
    expandedGroup: JsValue)              // initially null

  /** The state together with the current `gene` search parameter. */
  datatype Page = Page(gene: string, st: State)

  /** The requests the effects issue, with the values they are keyed on. */
  datatype Request =
    | GroupLabelRequest(gene: string)
    | PlotRequest(gene: string)
    | SharedGroupsRequest(query: string, neighbor: string)

  datatype Event =
    | Navigate(gene: string)                           // the `gene` parameter changes
    | SelectNeighbor(value: string)                    // the neighbour drop-down's onChange
    | ToggleGroup(group: JsValue)                      // a click on the button of a group whose `Group10` is `group`
    | Message(data: JsValue)                           // a window `message` event's `data`
    | Delivered(req: Request, outcome: FetchOutcome)   // a request issued earlier settles

  const NoDataMessage: string := "No data available for this gene."
  const LoadingText: string := "Loading network..."
  const SelectPromptText: string := "Select a neighbor gene"
  const NoSharedText: string := "No shared pathways found."
  const ResizeType: string := "resize-panel"
  const Panel1: string := "panel1"
  const DefaultHeight: JsValue := Num(600.0)

  const Initial: State := State(Null, [], "", None, Null, map[], [], Null)

  // ---------------------------------------------------------------- messages

  /** The one message shape the listener acts on. */
  predicate IsPanel1Resize(data: JsValue) {
    StrictEq(OptGet(data, "type"), Str(ResizeType)) && StrictEq(Prop(data, "panel"), Str(Panel1))
  }

  /**
   * `handleMessage`: only a "resize-panel" message for "panel1" changes
   * anything, and then only the "panel1" height, which becomes
   * `height || 600`.
   */
  function HandleMessage(st: State, data: JsValue): (r: State)
    ensures r.(iframeHeights := st.iframeHeights) == st
    ensures !IsPanel1Resize(data) ==> r == st
    ensures IsPanel1Resize(data) ==> Panel1 in r.iframeHeights && r.iframeHeights[Panel1] == Or(Prop(data, "height"), DefaultHeight)
    ensures forall k :: k != Panel1 ==> (k in r.iframeHeights <==> k in st.iframeHeights)
    ensures forall k :: k != Panel1 && k in st.iframeHeights ==> r.iframeHeights[k] == st.iframeHeights[k]
  {
    if IsPanel1Resize(data) then
      st.(iframeHeights := st.iframeHeights[Panel1 := Or(Prop(data, "height"), DefaultHeight)])
    else st
  }

  /** `iframeHeights["panel1"] ?? 600`, the height the structure viewer is given. */
  function RenderedHeight(st: State): JsValue {
    Coalesce(if Panel1 in st.iframeHeights then st.iframeHeights[Panel1] else Undefined, DefaultHeight)
  }

  // --------------------------------------------------------------- responses

  /**
   * The group-label continuation: `data.group_label || null`, and `null`
   * when the request or the property read fails.
   */
  function OnGroupLabel(st: State, outcome: FetchOutcome): (r: State)
    ensures r.(groupLabel := st.groupLabel) == st
    ensures r.groupLabel == Null || Truthy(r.groupLabel)
    ensures Truthy(r.groupLabel) <==> outcome.Arrived? && !Nullish(outcome.body) && Truthy(Prop(outcome.body, "group_label"))
    ensures Truthy(r.groupLabel) ==> r.groupLabel == Prop(outcome.body, "group_label")
  {
    match outcome
    case Failed => st.(groupLabel := Null)
    case Arrived(_, body) =>
      match Get(body, "group_label")
      case None => st.(groupLabel := Null)
      case Some(v) => st.(groupLabel := Or(v, Null))
  }

  /**
   * The neighbour sort key: `cosine_sim ?? 0`. A number is its own key; any
   * other kind of value is read as 0 here, where JavaScript's subtraction
   * would convert it with ToNumber.
   */
  function SimKey(n: JsValue): real {
    var v := Coalesce(Prop(n, "cosine_sim"), Num(0.0));
    if v.Num? then v.n else 0.0
  }

  /** `(a, b) => (b.cosine_sim ?? 0) - (a.cosine_sim ?? 0)` as a "may come first" relation. */
  predicate SimFirst(a: JsValue, b: JsValue) {
    SimKey(a) >= SimKey(b)
  }

  /** The neighbour list as stored: the payload's entries, highest similarity first. */
  function SortNeighbors(items: seq<JsValue>): (r: seq<JsValue>)
    ensures multiset(r) == multiset(items)
    ensures forall i, j :: 0 <= i < j < |r| ==> SimKey(r[i]) >= SimKey(r[j])
  {
    assert Sorting.TotalPreorder(SimFirst);
    Sorting.Sort(items, SimFirst)
  }

  /** The `catch` branch of the plot fetch. */
  function PlotFailed(st: State): State {
    st.(error := Some(NoDataMessage), plot := Null, neighbors := [], selectedGene := "",
        sharedGroups := [], expandedGroup := Null)
  }

  /**
   * The elements `Array.prototype.sort` passes to the comparator: all but
   * `undefined`, which it moves to the end without comparing.
   */
  function Compared(items: seq<JsValue>): (r: seq<JsValue>)
    ensures forall x :: x in r <==> x in items && !x.Undefined?
  {
    if items == [] then []
    else (if items[0].Undefined? then [] else [items[0]]) + Compared(items[1..])
  }

  /** Two positions holding values other than `undefined` both reach the comparator. */
  lemma {:induction false} ComparedTwo(items: seq<JsValue>, i: nat, j: nat)
    requires i < j < |items| && !items[i].Undefined? && !items[j].Undefined?
    ensures |Compared(items)| >= 2
  {
    if i == 0 {
      assert items[1..][j - 1] == items[j];
      assert items[j] in Compared(items[1..]);
    } else {
      ComparedTwo(items[1..], i - 1, j - 1);
    }
  }

  /**
   * Whether sorting throws: once two elements are compared, every compared
   * element reaches the comparator, and `null.cosine_sim` is a TypeError.
   */
  predicate SortThrows(items: seq<JsValue>) {
    |Compared(items)| >= 2 && Null in items
  }

  /**
   * Whether the plot continuation completes without throwing: the status is
   * ok, `data.plot` can be read, `data.neighbors || []` has a `sort`, and
   * the comparator does not meet a `null` element.
   */
  predicate PlotSucceeds(outcome: FetchOutcome) {
    outcome.Arrived? && outcome.ok && !Nullish(outcome.body)
    && Or(Prop(outcome.body, "neighbors"), Arr([])).Arr?
    && !SortThrows(Or(Prop(outcome.body, "neighbors"), Arr([])).items)
  }

  /** The plot-and-neighbours continuation and its `catch`. */
  function OnPlot(st: State, outcome: FetchOutcome): (r: State)
    ensures r.groupLabel == st.groupLabel && r.iframeHeights == st.iframeHeights
    ensures r.selectedGene == "" && r.sharedGroups == [] && r.expandedGroup == Null
    ensures PlotSucceeds(outcome) ==>
      && r.error == None
      && r.plot == Prop(outcome.body, "plot")
      && multiset(r.neighbors) == multiset(ArrayOrEmpty(Prop(outcome.body, "neighbors")))
      && (forall i, j :: 0 <= i < j < |r.neighbors| ==> SimKey(r.neighbors[i]) >= SimKey(r.neighbors[j]))
    ensures !PlotSucceeds(outcome) ==>
      r.error == Some(NoDataMessage) && r.plot == Null && r.neighbors == []
  {
    match outcome
    case Failed => PlotFailed(st)
    case Arrived(ok, body) =>
      if !ok then PlotFailed(st)
      else match Get(body, "plot")
        case None => PlotFailed(st)
        case Some(plot) =>
          var list := Or(Prop(body, "neighbors"), Arr([]));
          if !list.Arr? || SortThrows(list.items) then PlotFailed(st)
          else
            st.(plot := plot, neighbors := SortNeighbors(list.items), selectedGene := "",
                sharedGroups := [], expandedGroup := Null, error := None)
  }

  /**
   * A `null` entry in a neighbour list with another entry to compare it
   * with makes the sort throw, so the page shows the no-data message and
   * clears the plot and the list.
   */
  lemma NullNeighbourShowsError(st: State, body: JsValue, i: nat, j: nat)
    requires Prop(body, "neighbors").Arr?
    requires var items := Prop(body, "neighbors").items;
      i < |items| && j < |items| && i != j && items[i] == Null && !items[j].Undefined?
    ensures var r := OnPlot(st, Arrived(true, body));
      r.error == Some(NoDataMessage) && r.plot == Null && r.neighbors == []
  {
    var items := Prop(body, "neighbors").items;
    if i < j { ComparedTwo(items, i, j); } else { ComparedTwo(items, j, i); }
  }

  /** The shared-groups continuation: `data.groups || []`, and `[]` on failure. The expansion is left as it is. */
  function OnSharedGroups(st: State, outcome: FetchOutcome): (r: State)
    ensures r.(sharedGroups := st.sharedGroups) == st
    ensures outcome.Failed? || Nullish(outcome.body) ==> r.sharedGroups == []
    ensures outcome.Arrived? && Prop(outcome.body, "groups").Arr? ==> r.sharedGroups == Prop(outcome.body, "groups").items
    ensures outcome.Arrived? && !Truthy(Prop(outcome.body, "groups")) ==> r.sharedGroups == []
  {
    match outcome
    case Failed => st.(sharedGroups := [])
    case Arrived(_, body) =>
      match Get(body, "groups")
      case None => st.(sharedGroups := [])
      case Some(v) => st.(sharedGroups := ArrayOrEmpty(Or(v, Arr([]))))
  }

  /** Which continuation runs is fixed by the request kind; the request's key is not consulted. */
  function Deliver(st: State, req: Request, outcome: FetchOutcome): State {
    match req
    case GroupLabelRequest(_) => OnGroupLabel(st, outcome)
    case PlotRequest(_) => OnPlot(st, outcome)
    case SharedGroupsRequest(_, _) => OnSharedGroups(st, outcome)
  }

  /** The group button's click: expand `group`, or collapse it if it is the expanded one. */
  function Toggle(st: State, group: JsValue): (r: State)
    ensures r.(expandedGroup := st.expandedGroup) == st
    ensures StrictEq(st.expandedGroup, group) ==> r.expandedGroup == Null
    ensures !StrictEq(st.expandedGroup, group) ==> r.expandedGroup == group
  {
    st.(expandedGroup := if StrictEq(st.expandedGroup, group) then Null else group)
  }

  // ----------------------------------------------------------------- effects

  /**
   * The effects that run after a render. `before` holds the
   * (`gene`, `selectedGene`) pair of the previous run, `None` on mount.
   * Effects 2 and 3 depend on `gene`; effect 4 on both values.
   */
  function RunEffects(before: Option<(string, string)>, p: Page): (r: (Page, seq<Request>))
    ensures r.0.gene == p.gene
    ensures r.0.st.(sharedGroups := p.st.sharedGroups, expandedGroup := p.st.expandedGroup) == p.st
    ensures forall g :: GroupLabelRequest(g) in r.1 <==>
      g == p.gene && g != "" && (before.None? || before.value.0 != p.gene)
    ensures forall g :: PlotRequest(g) in r.1 <==>
      g == p.gene && g != "" && (before.None? || before.value.0 != p.gene)
    ensures forall q, n :: SharedGroupsRequest(q, n) in r.1 <==>
      q == p.gene && n == p.st.selectedGene && q != "" && n != ""
      && before != Some((p.gene, p.st.selectedGene))
    ensures before != Some((p.gene, p.st.selectedGene)) && (p.gene == "" || p.st.selectedGene == "") ==>
      r.0.st.sharedGroups == [] && r.0.st.expandedGroup == Null
    ensures before == Some((p.gene, p.st.selectedGene)) || (p.gene != "" && p.st.selectedGene != "") ==>
      r.0.st == p.st
  {
    var geneChanged := before.None? || before.value.0 != p.gene;
    var keyed: seq<Request> := if geneChanged && p.gene != "" then [GroupLabelRequest(p.gene), PlotRequest(p.gene)] else [];
    if before == Some((p.gene, p.st.selectedGene)) then (p, keyed)
    else if p.gene == "" || p.st.selectedGene == "" then
      (p.(st := p.st.(sharedGroups := [], expandedGroup := Null)), keyed)
    else (p, keyed + [SharedGroupsRequest(p.gene, p.st.selectedGene)])
  }

  /** Mounting the page with a `gene` parameter: initial state, then every effect. */
  function Mount(gene: string): (Page, seq<Request>) {
    RunEffects(None, Page(gene, Initial))
  }

  /** One event: the state update it causes, then the effects whose keys changed. */
  function Step(p: Page, e: Event): (r: (Page, seq<Request>))
    ensures r.0.gene == (if e.Navigate? then e.gene else p.gene)
    ensures !e.Navigate? ==> forall g :: GroupLabelRequest(g) !in r.1 && PlotRequest(g) !in r.1
    ensures e.ToggleGroup? || e.Message? ==> r.1 == []
    ensures e.SelectNeighbor? ==> r.0.st.selectedGene == e.value
    ensures !e.SelectNeighbor? && !(e.Delivered? && e.req.PlotRequest?) ==> r.0.st.selectedGene == p.st.selectedGene
  {
    var before := Some((p.gene, p.st.selectedGene));
    match e
    case Navigate(g) => RunEffects(before, Page(g, p.st))
    case SelectNeighbor(v) => RunEffects(before, p.(st := p.st.(selectedGene := v)))
    case ToggleGroup(g) => (p.(st := Toggle(p.st, g)), [])
    case Message(d) => (p.(st := HandleMessage(p.st, d)), [])
    case Delivered(req, outcome) => RunEffects(before, p.(st := Deliver(p.st, req, outcome)))
  }

  /** A run of events from a page; the requests issued along the way, in order. */
  function Run(p: Page, es: seq<Event>): (Page, seq<Request>)
    decreases |es|
  {
    if es == [] then (p, [])
    else
      var (q, reqs) := Step(p, es[0]);
      var (q', more) := Run(q, es[1..]);
      (q', reqs + more)
  }

  // ------------------------------------------------------------------ render

  /** The plot area. */
  datatype PlotView = ErrorText(message: string) | PlotShown(figure: JsValue) | LoadingNetwork

  /** One group in the sidebar: its label, whether its button is active, and its pathway list when expanded. */
  datatype GroupBlock = GroupBlock(group: JsValue, active: bool, pathways: Option<seq<JsValue>>)

  /** The sidebar's pathway box. */
  datatype SidebarView = SelectPrompt | NoSharedPathways | GroupButtons(blocks: seq<GroupBlock>)

  /** The structure-viewer panel. */
  datatype ViewerView = NoGeneSelected | Viewer(height: JsValue)

  /** `error ? error : plotJson ? plot : "Loading network..."` */
  function RenderPlotArea(st: State): (v: PlotView)
    ensures v.ErrorText? <==> st.error.Some? && st.error.value != ""
    ensures v.ErrorText? ==> v.message == st.error.value
    ensures v.PlotShown? <==> !v.ErrorText? && Truthy(st.plot)
    ensures v.PlotShown? ==> v.figure == st.plot
  {
    if st.error.Some? && st.error.value != "" then ErrorText(st.error.value)
    else if Truthy(st.plot) then PlotShown(st.plot)
    else LoadingNetwork
  }

  function RenderBlock(st: State, g: JsValue): GroupBlock {
    var name := Prop(g, "Group10");
    var open := StrictEq(st.expandedGroup, name);
    GroupBlock(name, open, if open then Some(ArrayOrEmpty(Prop(g, "pathway_id"))) else None)
  }

  /**
   * The pathway box: a prompt without a neighbour, a notice without groups,
   * otherwise one button per group, where only the expanded group shows its
   * `pathway_id` list.
   */
  function RenderSidebar(st: State): (v: SidebarView)
    ensures v.SelectPrompt? <==> st.selectedGene == ""
    ensures v.NoSharedPathways? <==> st.selectedGene != "" && st.sharedGroups == []
    ensures v.GroupButtons? ==> |v.blocks| == |st.sharedGroups|
    ensures v.GroupButtons? ==> forall i :: 0 <= i < |v.blocks| ==>
      && v.blocks[i].group == Prop(st.sharedGroups[i], "Group10")
      && (v.blocks[i].active <==> StrictEq(st.expandedGroup, Prop(st.sharedGroups[i], "Group10")))
      && (v.blocks[i].pathways.Some? <==> v.blocks[i].active)
      && (v.blocks[i].active ==> v.blocks[i].pathways.value == ArrayOrEmpty(Prop(st.sharedGroups[i], "pathway_id")))
  {
    if st.selectedGene == "" then SelectPrompt
    else if |st.sharedGroups| == 0 then NoSharedPathways
    else GroupButtons(seq(|st.sharedGroups|, i requires 0 <= i < |st.sharedGroups| => RenderBlock(st, st.sharedGroups[i])))
  }

  /** The structure viewer: an iframe sized by the stored height when a gene is set. */
  function RenderViewer(p: Page): (v: ViewerView)
    ensures v.NoGeneSelected? <==> p.gene == ""
    ensures v.Viewer? ==> v.height == RenderedHeight(p.st)
  {
    if p.gene != "" then Viewer(RenderedHeight(p.st)) else NoGeneSelected
  }

  /** The "Group Annotation" line, shown when the label is truthy. */
  function RenderGroupLabel(st: State): (line: Option<JsValue>)
    ensures line.Some? <==> Truthy(st.groupLabel)
    ensures line.Some? ==> line.value == st.groupLabel
  {
    if Truthy(st.groupLabel) then Some(st.groupLabel) else None
  }

  // -------------------------------------------------------------- properties

  /**
   * What holds in every state the page can reach: only the "panel1" height
   * is ever stored and it is truthy, the group label is `null` or truthy,
   * and an error is always the fixed message, shown with no plot and no
   * neighbours.
   */
  ghost predicate Reachable(st: State) {
    && (forall k :: k in st.iframeHeights ==> k == Panel1 && Truthy(st.iframeHeights[k]))
    && (st.groupLabel == Null || Truthy(st.groupLabel))
    && (st.error.Some? ==> st.error.value == NoDataMessage && st.plot == Null && st.neighbors == [])
  }

  lemma MountReachable(gene: string)
    ensures Reachable(Mount(gene).0.st)
  {
  }

  lemma StepReachable(p: Page, e: Event)
    requires Reachable(p.st)
    ensures Reachable(Step(p, e).0.st)
  {
    match e
    case Message(d) =>
      if IsPanel1Resize(d) {
        assert Truthy(Or(Prop(d, "height"), DefaultHeight));
      }
    case _ =>
  }

  lemma {:induction false} RunReachable(p: Page, es: seq<Event>)
    requires Reachable(p.st)
    ensures Reachable(Run(p, es).0.st)
    decreases |es|
  {
    if es != [] {
      StepReachable(p, es[0]);
      RunReachable(Step(p, es[0]).0, es[1..]);
    }
  }

  /**
   * In a reachable state the viewer's height is the stored "panel1" height
   * when there is one and 600 otherwise, and it is never a falsy value such
   * as 0 or NaN.
   */
  lemma RenderedHeightTruthy(st: State)
    requires Reachable(st)
    ensures Truthy(RenderedHeight(st))
    ensures RenderedHeight(st) == (if Panel1 in st.iframeHeights then st.iframeHeights[Panel1] else DefaultHeight)
  {
  }

  /**
   * With an empty `gene` no event issues a request; otherwise every request
   * an event issues is keyed on the current gene, and a shared-groups
   * request on the current neighbour as well.
   */
  lemma RequestsFollowKeys(p: Page, e: Event)
    ensures var (q, reqs) := Step(p, e);
      && (q.gene == "" ==> reqs == [])
      && (forall r :: r in reqs ==> match r
            case GroupLabelRequest(g) => g == q.gene
            case PlotRequest(g) => g == q.gene
            case SharedGroupsRequest(g, n) => g == q.gene && n == q.st.selectedGene && n != "")
  {
    var (q, reqs) := Step(p, e);
    if q.gene == "" && reqs != [] {
      match reqs[0]
      case GroupLabelRequest(g) =>
      case PlotRequest(g) =>
      case SharedGroupsRequest(g, n) =>
    }
    forall r | r in reqs
      ensures match r
        case GroupLabelRequest(g) => g == q.gene
        case PlotRequest(g) => g == q.gene
        case SharedGroupsRequest(g, n) => g == q.gene && n == q.st.selectedGene && n != ""
    {
      match r
      case GroupLabelRequest(g) =>
      case PlotRequest(g) =>
      case SharedGroupsRequest(g, n) =>
    }
  }

  /**
   * Emptying the neighbour selection always returns the sidebar to the
   * prompt, whatever was shown. The groups and the expansion are dropped
   * only when the selection actually changes: a groups response that landed
   * while nothing was selected stays in the state.
   */
  lemma ClearingSelectionResetsSidebar(p: Page)
    ensures var q := Step(p, SelectNeighbor("")).0;
      && RenderSidebar(q.st) == SelectPrompt
      && (p.st.selectedGene != "" ==> q.st.sharedGroups == [] && q.st.expandedGroup == Null)
      && (p.st.selectedGene == "" ==> q.st == p.st)
  {
  }

  /**
   * The selected neighbour is only reset when the plot response lands. A
   * gene change made while a neighbour is selected re-fires the
   * shared-groups request with the new gene and the old neighbour.
   */
  lemma GeneChangeKeepsOldNeighbour(p: Page, gene: string)
    requires p.st.selectedGene != "" && gene != "" && gene != p.gene
    ensures var (q, reqs) := Step(p, Navigate(gene));
      && q.st.selectedGene == p.st.selectedGene
      && reqs == [GroupLabelRequest(gene), PlotRequest(gene), SharedGroupsRequest(gene, p.st.selectedGene)]
  {
  }

  /**
   * The continuation does not check its key: what a plot response does to the state does not
   * depend on the gene it was requested for nor on the page's current gene.
   */
  lemma PlotDeliveryIgnoresKeys(st: State, g1: string, g2: string, a: string, b: string, outcome: FetchOutcome)
    ensures Step(Page(g1, st), Delivered(PlotRequest(a), outcome)).0.st
         == Step(Page(g2, st), Delivered(PlotRequest(b), outcome)).0.st
  {
  }

  /**
   * So a late response for the previous gene overwrites the page: after
   * navigating from `prev` to `gene` and receiving the new gene's plot, the
   * old gene's response arriving last is what the plot area shows.
   */
  lemma LatePlotResponseWins(st: State, prev: string, gene: string, current: FetchOutcome, stale: FetchOutcome)
    requires prev != gene && gene != ""
    requires PlotSucceeds(current) && PlotSucceeds(stale)
    requires Truthy(Prop(stale.body, "plot"))
    ensures var q := Run(Page(prev, st), [Navigate(gene), Delivered(PlotRequest(gene), current), Delivered(PlotRequest(prev), stale)]).0;
      q.gene == gene && RenderPlotArea(q.st) == PlotShown(Prop(stale.body, "plot"))
  {
    var es := [Navigate(gene), Delivered(PlotRequest(gene), current), Delivered(PlotRequest(prev), stale)];
    var p1 := Step(Page(prev, st), es[0]).0;
    var p2 := Step(p1, es[1]).0;
    var p3 := Step(p2, es[2]).0;
    RunThree(Page(prev, st), es);
  }

  /**
   * The same race for shared groups: after switching the neighbour from `x`
   * to `y`, a late response for `x` replaces `y`'s groups, and the sidebar
   * shows `x`'s groups under `y`'s name.
   */
  lemma LateGroupsResponseWins(p: Page, x: string, y: string, forY: FetchOutcome, forX: FetchOutcome)
    requires p.gene != "" && p.st.selectedGene == x && x != y && y != ""
    requires forX.Arrived? && Prop(forX.body, "groups").Arr? && Prop(forX.body, "groups").items != []
    ensures var q := Run(p, [SelectNeighbor(y), Delivered(SharedGroupsRequest(p.gene, y), forY),
                             Delivered(SharedGroupsRequest(p.gene, x), forX)]).0;
      q.st.selectedGene == y && q.st.sharedGroups == Prop(forX.body, "groups").items
      && RenderSidebar(q.st).GroupButtons?
  {
    var es := [SelectNeighbor(y), Delivered(SharedGroupsRequest(p.gene, y), forY), Delivered(SharedGroupsRequest(p.gene, x), forX)];
    var p1 := Step(p, es[0]).0;
    var p2 := Step(p1, es[1]).0;
    var p3 := Step(p2, es[2]).0;
    RunThree(p, es);
  }

  lemma RunThree(p: Page, es: seq<Event>)
    requires |es| == 3
    ensures Run(p, es).0 == Step(Step(Step(p, es[0]).0, es[1]).0, es[2]).0
  {
    var p1 := Step(p, es[0]).0;
    var p2 := Step(p1, es[1]).0;
    assert Run(p2, es[2..]).0 == Step(p2, es[2]).0 by {
      assert es[2..][1..] == [];
    }
    assert Run(p1, es[1..]).0 == Run(p2, es[2..]).0 by {
      assert es[1..][0] == es[1] && es[1..][1..] == es[2..];
    }
  }

  /**
   * Clicking the same group twice restores the previous expansion exactly
   * when nothing or that same group was expanded before (clicking `g` while
   * another group is open leaves everything collapsed).
   */
  lemma ToggleTwice(st: State, g: JsValue)
    ensures Toggle(Toggle(st, g), g) == st <==>
      (st.expandedGroup == Null && !g.NaN?) || StrictEq(st.expandedGroup, g) || (g.NaN? && st.expandedGroup.NaN?)
  {
  }

  /** With distinct group labels, at most one group is expanded at a time. */
  lemma AtMostOneExpanded(st: State)
    requires forall i, j :: 0 <= i < j < |st.sharedGroups| ==>
      Prop(st.sharedGroups[i], "Group10") != Prop(st.sharedGroups[j], "Group10")
    ensures var v := RenderSidebar(st);
      v.GroupButtons? ==> forall i, j :: 0 <= i < j < |v.blocks| && v.blocks[i].active ==> !v.blocks[j].active
  {
  }

  /** Expansion is by label, so two groups with the same primitive label (a string, say) open and close together. */
  lemma DuplicateLabelsExpandTogether(name: JsValue)
    requires !name.NaN? && !name.Arr? && !name.Obj?
    ensures var g := Obj(map["Group10" := name]);
      var st := Initial.(selectedGene := "X", sharedGroups := [g, g], expandedGroup := name);
      RenderSidebar(st) == GroupButtons([GroupBlock(name, true, Some([])), GroupBlock(name, true, Some([]))])
  {
    var g := Obj(map["Group10" := name]);
    var st := Initial.(selectedGene := "X", sharedGroups := [g, g], expandedGroup := name);
    assert Prop(g, "Group10") == name;
    assert RenderBlock(st, g) == GroupBlock(name, true, Some([]));
  }
}
