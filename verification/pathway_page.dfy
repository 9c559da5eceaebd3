/**
 * The pathway view (frontend/src/app/pathway/page.tsx) as a state machine:
 * a protein list fetched whenever the `pathway` parameter or the chosen
 * score threshold changes, a threshold drop-down, and a collapsible
 * explanation. As on the search view, the fetch continuation writes state
 * unconditionally.
 */
module PathwayPage {
  import opened Wrappers
  import opened Js

  /** One entry of the protein list: `{id: data.proteins[i], score: data.scores[i]}`. */
  datatype Protein = Protein(id: JsValue, score: JsValue)

  /** The page's state hooks. */
  datatype State = State(showExplanation: bool, threshold: real, proteins: seq<Protein>, error: JsValue)

  /** The state together with the current `pathway` search parameter. */
  datatype Page = Page(pathway: string, st: State)

  /** The proteins request carries both values it is keyed on. */
  datatype Request = ProteinsRequest(pathway: string, threshold: real)

  datatype Event =
    | Navigate(pathway: string)                       // the `pathway` parameter changes
    | SetThreshold(value: real)                       // the threshold drop-down's onChange
    | ToggleExplanation                               // a click on the explanation panel
    | Delivered(req: Request, outcome: FetchOutcome)  // a request issued earlier settles

  /** The protein panel below the threshold drop-down. */
  datatype ProteinsView = ErrorText(message: JsValue) | ProteinList(items: seq<Protein>) | NoneAboveThreshold

  const FailedMessage: string := "Failed to fetch proteins."
  const NoneText: string := "No proteins found above threshold."
  const InitialThreshold: real := 0.2

  const Initial: State := State(false, InitialThreshold, [], Null)

  /** `i / 10` */
  function Tenth(i: int): real {
    i as real / 10.0
  }

  /** The drop-down's values `i / 10` for `i` in 0..10. */
  function ThresholdOptions(): seq<real> {
    seq(11, i requires 0 <= i < 11 => Tenth(i))
  }

  /** The threshold choices are exactly the tenths from 0 to 1, ascending, and include the initial 0.2. */
  lemma ThresholdOptionsAreTenths()
    ensures |ThresholdOptions()| == 11
    ensures forall t :: t in ThresholdOptions() <==> exists i :: 0 <= i <= 10 && t == Tenth(i)
    ensures forall i, j :: 0 <= i < j < 11 ==> ThresholdOptions()[i] < ThresholdOptions()[j]
    ensures InitialThreshold in ThresholdOptions()
  {
    var opts := ThresholdOptions();
    forall t | t in opts ensures exists i :: 0 <= i <= 10 && t == Tenth(i) {
      var i :| 0 <= i < 11 && opts[i] == t;
    }
    forall t | exists i :: 0 <= i <= 10 && t == Tenth(i) ensures t in opts {
      var i :| 0 <= i <= 10 && t == Tenth(i);
      assert opts[i] == t;
    }
    assert opts[2] == InitialThreshold;
  }

  /** The `{id, score}` pairs built from `data.proteins` and `data.scores`. */
  function Pair(proteins: seq<JsValue>, scores: JsValue): seq<Protein>
    requires !Nullish(scores)
  {
    seq(|proteins|, i requires 0 <= i < |proteins| => Protein(proteins[i], Index(scores, i)))
  }

  /**
   * Whether the mapping branch completes: the body can be read, carries no
   * truthy `error`, `data.proteins` is an array, and `data.scores` can be
   * indexed unless there is nothing to index it for.
   */
  predicate Maps(outcome: FetchOutcome) {
    outcome.Arrived? && !Nullish(outcome.body)
    && !Truthy(Prop(outcome.body, "error"))
    && Prop(outcome.body, "proteins").Arr?
    && (Prop(outcome.body, "proteins").items == [] || !Nullish(Prop(outcome.body, "scores")))
  }

  /** The proteins continuation and its `catch`. */
  function OnProteins(st: State, outcome: FetchOutcome): (r: State)
    ensures r.showExplanation == st.showExplanation && r.threshold == st.threshold
    ensures outcome.Arrived? && !Nullish(outcome.body) && Truthy(Prop(outcome.body, "error")) ==>
      r.error == Prop(outcome.body, "error") && r.proteins == []
    ensures Maps(outcome) ==>
      var ids := Prop(outcome.body, "proteins").items;
      && r.error == Null
      && |r.proteins| == |ids|
      && forall i :: 0 <= i < |ids| ==>
           r.proteins[i] == Protein(ids[i], Index(Prop(outcome.body, "scores"), i))
    ensures (outcome.Failed? || Nullish(outcome.body) || (!Truthy(Prop(outcome.body, "error")) && !Maps(outcome))) ==>
      r.error == Str(FailedMessage) && r.proteins == []
  {
    var failed := st.(error := Str(FailedMessage), proteins := []);
    match outcome
    case Failed => failed
    case Arrived(_, body) =>
      match Get(body, "error")
      case None => failed
      case Some(e) =>
        if Truthy(e) then st.(error := e, proteins := [])
        else
          var list := Prop(body, "proteins");
          if !list.Arr? then failed
          else if list.items == [] then st.(error := Null, proteins := [])
          else if Nullish(Prop(body, "scores")) then failed
          else st.(error := Null, proteins := Pair(list.items, Prop(body, "scores")))
  }

  /** The explanation panel's click handler. */
  function ToggleShow(st: State): (r: State)
    ensures r.showExplanation != st.showExplanation
    ensures r.(showExplanation := st.showExplanation) == st
  {
    st.(showExplanation := !st.showExplanation)
  }

  /** The effect keyed on (`pathway`, `threshold`); `before` is the previous key, `None` on mount. */
  function ProteinsEffect(before: Option<(string, real)>, p: Page): (reqs: seq<Request>)
    ensures reqs == [] || reqs == [ProteinsRequest(p.pathway, p.st.threshold)]
    ensures reqs != [] <==> p.pathway != "" && before != Some((p.pathway, p.st.threshold))
  {
    if before == Some((p.pathway, p.st.threshold)) || p.pathway == "" then []
    else [ProteinsRequest(p.pathway, p.st.threshold)]
  }

  function Mount(pathway: string): (Page, seq<Request>) {
    var p := Page(pathway, Initial);
    (p, ProteinsEffect(None, p))
  }

  /** One event: its state update, then the effect if its key changed. */
  function Step(p: Page, e: Event): (r: (Page, seq<Request>))
    ensures r.0.pathway == (if e.Navigate? then e.pathway else p.pathway)
    ensures r.0.st.threshold == (if e.SetThreshold? then e.value else p.st.threshold)
    ensures e.ToggleExplanation? || e.Delivered? ==> r.1 == []
    ensures r.1 != [] ==> (r.0.pathway, r.0.st.threshold) != (p.pathway, p.st.threshold)
    ensures !e.Delivered? ==> r.0.st.proteins == p.st.proteins && r.0.st.error == p.st.error
  {
    var before := Some((p.pathway, p.st.threshold));
    var q := match e
      case Navigate(w) => Page(w, p.st)
      case SetThreshold(t) => p.(st := p.st.(threshold := t))
      case ToggleExplanation => p.(st := ToggleShow(p.st))
      case Delivered(_, outcome) => p.(st := OnProteins(p.st, outcome));
    (q, ProteinsEffect(before, q))
  }

  function Run(p: Page, es: seq<Event>): (Page, seq<Request>)
    decreases |es|
  {
    if es == [] then (p, [])
    else
      var (q, reqs) := Step(p, es[0]);
      var (q', more) := Run(q, es[1..]);
      (q', reqs + more)
  }

  /** Error text first, then the list when non-empty, else the "none found" notice. */
  function RenderProteins(st: State): (v: ProteinsView)
    ensures v.ErrorText? <==> Truthy(st.error)
    ensures v.ErrorText? ==> v.message == st.error
    ensures v.ProteinList? <==> !Truthy(st.error) && st.proteins != []
    ensures v.ProteinList? ==> v.items == st.proteins
  {
    if Truthy(st.error) then ErrorText(st.error)
    else if st.proteins != [] then ProteinList(st.proteins)
    else NoneAboveThreshold
  }

  // -------------------------------------------------------------- properties

  /**
   * Every request is keyed on the page's current pathway and threshold;
   * with an empty pathway nothing is requested, and an event that does not
   * touch the state leaves it unchanged.
   */
  lemma RequestsFollowKeys(p: Page, e: Event)
    ensures var (q, reqs) := Step(p, e);
      && (forall r :: r in reqs ==> r == ProteinsRequest(q.pathway, q.st.threshold))
      && (q.pathway == "" ==> reqs == [])
  {
  }

  /** Navigating to an empty pathway issues no request and changes nothing but the parameter. */
  lemma EmptyPathwayNoFetch(p: Page)
    ensures Step(p, Navigate("")) == (Page("", p.st), [])
  {
  }

  /** A change of either key value re-issues the request with both new values. */
  lemma KeyChangeRefetches(p: Page, pathway: string, t: real)
    requires pathway != ""
    ensures Step(Page(pathway, p.st), SetThreshold(t)).1 ==
      (if t != p.st.threshold then [ProteinsRequest(pathway, t)] else [])
    ensures Step(p, Navigate(pathway)).1 ==
      (if pathway != p.pathway then [ProteinsRequest(pathway, p.st.threshold)] else [])
  {
  }

  /** Clicking the explanation twice restores it; clicking once shows the opposite. */
  lemma ToggleShowFlips(st: State)
    ensures ToggleShow(st).showExplanation != st.showExplanation
    ensures ToggleShow(ToggleShow(st)) == st
  {
  }

  /**
   * The continuation does not check its key: after moving the threshold from `t1` to `t2`, a
   * response for `t1` that arrives after `t2`'s decides the list shown.
   */
  lemma LateThresholdResponseWins(p: Page, t2: real, current: FetchOutcome, stale: FetchOutcome)
    requires p.pathway != "" && t2 != p.st.threshold
    requires Maps(stale)
    ensures var q := Run(p, [SetThreshold(t2), Delivered(ProteinsRequest(p.pathway, t2), current),
                             Delivered(ProteinsRequest(p.pathway, p.st.threshold), stale)]).0;
      var ids := Prop(stale.body, "proteins").items;
      && q.st.threshold == t2
      && q.st.error == Null
      && |q.st.proteins| == |ids|
      && forall i :: 0 <= i < |ids| ==> q.st.proteins[i] == Protein(ids[i], Index(Prop(stale.body, "scores"), i))
  {
    var es := [SetThreshold(t2), Delivered(ProteinsRequest(p.pathway, t2), current),
               Delivered(ProteinsRequest(p.pathway, p.st.threshold), stale)];
    var p1 := Step(p, es[0]).0;
    var p2 := Step(p1, es[1]).0;
    assert Run(p2, es[2..]).0 == Step(p2, es[2]).0 by {
      assert es[2..][1..] == [];
    }
    assert Run(p1, es[1..]).0 == Run(p2, es[2..]).0 by {
      assert es[1..][0] == es[1] && es[1..][1..] == es[2..];
    }
  }

  /**
   * What the panel shows once a response has been handled: the payload's
   * `error`, the proteins in payload order, the "none found" notice for an
   * empty list, or the fixed failure message.
   */
  lemma ProteinsResponseShown(st: State, outcome: FetchOutcome)
    ensures var v := RenderProteins(OnProteins(st, outcome));
      && (outcome.Arrived? && !Nullish(outcome.body) && Truthy(Prop(outcome.body, "error")) ==>
            v == ErrorText(Prop(outcome.body, "error")))
      && (Maps(outcome) && Prop(outcome.body, "proteins").items == [] ==> v == NoneAboveThreshold)
      && (Maps(outcome) && Prop(outcome.body, "proteins").items != [] ==>
            var ids := Prop(outcome.body, "proteins").items;
            v.ProteinList? && |v.items| == |ids| && forall i :: 0 <= i < |ids| ==> v.items[i].id == ids[i])
      && (outcome.Failed? || Nullish(outcome.body) || (!Truthy(Prop(outcome.body, "error")) && !Maps(outcome)) ==>
            v == ErrorText(Str(FailedMessage)))
  {
  }
}
