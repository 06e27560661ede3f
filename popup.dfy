/**
 * The popup's `PopupController`: the routes it lists, the set of selected
 * route ids, the processing flag, the search and type filter over the
 * list, the selection handed to a capture, the per-route records a capture
 * produces, and the capture button's state.
 */
module Popup {
  import opened Wrappers
  import Text
  import Collections
  import Progress
  import BackgroundTypes
  import ContentPage

  /** A route as the popup lists it; an absent text field is the empty string. */
  datatype PopupRoute = PopupRoute(id: string, url: string, fullUrl: string, title: string, kind: string)

  // ---------------------------------------------------------------------------
  // getVisibleRoutes (and the same filter in renderRoutes)

  const AllTypes := "all"

  /** The route's lower-cased title or url contains the lower-cased term. */
  predicate MatchesTerm(route: PopupRoute, term: string)
  {
    Text.Contains(Text.LowerStr(route.title), Text.LowerStr(term))
    || Text.Contains(Text.LowerStr(route.url), Text.LowerStr(term))
  }

  /**
   * The listed routes: with a non-empty term only those matching it, with a
   * type other than "all" only those of that type, in the list's order.
   */
  function VisibleRoutes(routes: seq<PopupRoute>, term: string, filterType: string): (r: seq<PopupRoute>)
    ensures Collections.IsSubseq(r, routes)
    ensures forall x :: x in r <==>
      && x in routes
      && (term == "" || MatchesTerm(x, term))
      && (filterType == AllTypes || x.kind == filterType)
    ensures term == "" && filterType == AllTypes ==> r == routes
  {
    var searched := if term == "" then routes else Collections.Filter(routes, (x: PopupRoute) => MatchesTerm(x, term));
    Collections.IsSubseqRefl(routes);
    if filterType == AllTypes then searched
    else
      var typed := Collections.Filter(searched, (x: PopupRoute) => x.kind == filterType);
      Collections.IsSubseqTrans(typed, searched, routes);
      typed
  }

  // ---------------------------------------------------------------------------
  // captureRoutes: the selection

  /** `routes.find(route => route.id === id)`. */
  function FindRoute(routes: seq<PopupRoute>, id: string): (r: Option<PopupRoute>)
    ensures r.None? <==> forall x :: x in routes ==> x.id != id
    ensures r.Some? ==> exists k :: 0 <= k < |routes| && routes[k] == r.value && r.value.id == id
                                  && (forall j :: 0 <= j < k ==> routes[j].id != id)
  {
    if routes == [] then None
    else if routes[0].id == id then
      assert routes[0] == routes[0];
      Some(routes[0])
    else
      var r := FindRoute(routes[1..], id);
      if r.Some? then
        var k :| 0 <= k < |routes[1..]| && routes[1..][k] == r.value && r.value.id == id
                 && (forall j :: 0 <= j < k ==> routes[1..][j].id != id);
        assert routes[k + 1] == r.value;
        assert forall j :: 1 <= j < k + 1 ==> routes[j] == routes[1..][j - 1];
        r
      else
        assert forall x :: x in routes ==> x == routes[0] || x in routes[1..];
        r
  }

  /** The selected ids mapped to the first route carrying each, dropping ids no route carries. */
  function Selection(selected: seq<string>, routes: seq<PopupRoute>): (r: seq<PopupRoute>)
    ensures |r| <= |selected|
    ensures forall x :: x in r <==> exists id :: id in selected && FindRoute(routes, id) == Some(x)
  {
    if selected == [] then []
    else
      var init, id := selected[..|selected| - 1], selected[|selected| - 1];
      assert selected == init + [id];
      var r := Selection(init, routes);
      assert forall i :: i in selected <==> i in init || i == id;
      match FindRoute(routes, id)
      case None => r
      case Some(x) => r + [x]
  }

  /** The routes a capture processes: the selection, less the routes without a url. */
  function ValidSelection(selected: seq<string>, routes: seq<PopupRoute>): (r: seq<PopupRoute>)
    ensures forall x :: x in r ==> x in routes && x.id in selected && x.url != ""
    ensures forall x :: x in r <==> x.url != "" && exists id :: id in selected && FindRoute(routes, id) == Some(x)
  {
    Collections.Filter(Selection(selected, routes), (x: PopupRoute) => x.url != "")
  }

  // ---------------------------------------------------------------------------
  // processRoutesInPopup

  /** A record's `route` or `title`: a string, or the route object itself when every candidate is empty. */
  datatype Label = Named(text: string) | WholeRoute(route: PopupRoute)

  /** `route.url || route.fullUrl || route`. */
  function RouteLabel(route: PopupRoute): (l: Label)
    ensures l.Named? ==> l.text != "" && (l.text == route.url || l.text == route.fullUrl)
    ensures route.url != "" ==> l == Named(route.url)
    ensures l.WholeRoute? <==> route.url == "" && route.fullUrl == ""
  {
    if route.url != "" then Named(route.url)
    else if route.fullUrl != "" then Named(route.fullUrl)
    else WholeRoute(route)
  }

  /** `route.title || route.url || route`. */
  function TitleLabel(route: PopupRoute): (l: Label)
    ensures l.Named? ==> l.text != "" && (l.text == route.title || l.text == route.url)
    ensures route.title != "" ==> l == Named(route.title)
    ensures l.WholeRoute? <==> route.title == "" && route.url == ""
  {
    if route.title != "" then Named(route.title)
    else if route.url != "" then Named(route.url)
    else WholeRoute(route)
  }

  /** The content script's answer to `analyzePageStructure`. */
  datatype AnalysisReply =
    | Structure(structure: ContentPage.PageStructure)
    | NoAnswer
    | SendFailed(message: string)

  /** The background's answer to `captureScreenshot`. */
  datatype ShotReply = ShotAnswer(success: bool, dataUrl: string) | NoShotAnswer | ShotThrew

  /** What happens at the active tab while one route is processed. */
  datatype Visit =
    | NoActiveTab
    | Visited(analysis: AnalysisReply, shot: ShotReply)
    | QueryFailed(message: string)

  /**
   * One entry of the processed data. `components`, `accessibility` and
   * `metadata` are absent from what the content script sends, so they are
   * always empty and are not fields here; `None` stands for `{}`.
   */
  datatype Record =
    | Processed(route: Label, title: Label, routeData: PopupRoute, sections: seq<BackgroundTypes.RawSection>,
                dom: Option<ContentPage.DomStructure>, layout: Option<ContentPage.Layout>, screenshot: Option<string>)
    | Failed(route: Label, title: Label, routeData: PopupRoute, error: string)

  /** `screenshotResponse.dataUrl` when the capture succeeded, else `null`. */
  function Screenshot(shot: ShotReply): (s: Option<string>)
    ensures s.Some? <==> shot.ShotAnswer? && shot.success
  {
    match shot
    case ShotAnswer(success, dataUrl) => if success then Some(dataUrl) else None
    case _ => None
  }

  /** The analysis fields of a record: a missing or failed analysis leaves them empty. */
  function AnalysisSections(a: AnalysisReply): seq<BackgroundTypes.RawSection>
  {
    if a.Structure? then a.structure.sections else []
  }

  function AnalysisDom(a: AnalysisReply): Option<ContentPage.DomStructure>
  {
    if a.Structure? then Some(a.structure.dom) else None
  }

  function AnalysisLayout(a: AnalysisReply): Option<ContentPage.Layout>
  {
    if a.Structure? then a.structure.layout else None
  }

  /** The record for one route, or none when there was no active tab. */
  function RecordOf(route: PopupRoute, visit: Visit): (r: Option<Record>)
    ensures r.None? <==> visit.NoActiveTab?
    ensures r.Some? ==> r.value.routeData == route && r.value.route == RouteLabel(route) && r.value.title == TitleLabel(route)
    ensures r.Some? && r.value.Failed? <==> visit.QueryFailed?
  {
    match visit
    case NoActiveTab => None
    case QueryFailed(message) => Some(Failed(RouteLabel(route), TitleLabel(route), route, message))
    case Visited(a, shot) =>
      Some(Processed(RouteLabel(route), TitleLabel(route), route,
                     AnalysisSections(a), AnalysisDom(a), AnalysisLayout(a), Screenshot(shot)))
  }

  /** The records of the routes in order; `visits(i)` is what happened at route `i`. */
  function Records(routes: seq<PopupRoute>, visits: nat -> Visit): (r: seq<Record>)
    ensures |r| <= |routes|
    ensures forall k :: 0 <= k < |r| ==> r[k].routeData in routes
    decreases |routes|
  {
    if routes == [] then []
    else
      var init := routes[..|routes| - 1];
      assert forall x :: x in init ==> x in routes;
      Extend(Records(init, visits), RecordOf(routes[|routes| - 1], visits(|routes| - 1)))
  }

  /** When every route has an active tab, each route has its record, in order. */
  lemma RecordsAllVisited(routes: seq<PopupRoute>, visits: nat -> Visit)
    requires forall i :: 0 <= i < |routes| ==> !visits(i).NoActiveTab?
    ensures |Records(routes, visits)| == |routes|
    ensures forall i :: 0 <= i < |routes| ==> Some(Records(routes, visits)[i]) == RecordOf(routes[i], visits(i))
  {
    RecordsLength(routes, visits);
    forall i | 0 <= i < |routes|
      ensures Some(Records(routes, visits)[i]) == RecordOf(routes[i], visits(i))
    {
      RecordAt(routes, visits, i);
    }
  }

  lemma {:induction false} RecordsLength(routes: seq<PopupRoute>, visits: nat -> Visit)
    requires forall i :: 0 <= i < |routes| ==> !visits(i).NoActiveTab?
    ensures |Records(routes, visits)| == |routes|
    decreases |routes|
  {
    if routes != [] {
      var n := |routes| - 1;
      RecordsLength(routes[..n], visits);
      assert RecordOf(routes[n], visits(n)).Some?;
    }
  }

  lemma {:induction false} RecordAt(routes: seq<PopupRoute>, visits: nat -> Visit, i: nat)
    requires forall i :: 0 <= i < |routes| ==> !visits(i).NoActiveTab?
    requires i < |routes|
    ensures i < |Records(routes, visits)| && Some(Records(routes, visits)[i]) == RecordOf(routes[i], visits(i))
    decreases |routes|
  {
    var n := |routes| - 1;
    var init := routes[..n];
    var x := RecordOf(routes[n], visits(n));
    assert x.Some?;
    RecordsLength(init, visits);
    assert Records(routes, visits) == Records(init, visits) + [x.value];
    if i < n {
      RecordAt(init, visits, i);
      assert init[i] == routes[i];
    }
  }

  /** The records so far, followed by the next one if there is one. */
  function Extend(records: seq<Record>, next: Option<Record>): (r: seq<Record>)
  {
    match next
    case None => records
    case Some(x) => records + [x]
  }

  /** One more route processed: its record, if any, follows the earlier ones. */
  lemma RecordsStep(routes: seq<PopupRoute>, i: nat, visits: nat -> Visit)
    requires i < |routes|
    ensures Records(routes[..i + 1], visits) == Extend(Records(routes[..i], visits), RecordOf(routes[i], visits(i)))
  {
    assert routes[..i + 1][..i] == routes[..i];
  }

  /** A failed analysis leaves no trace: its record is that of a page that did not answer. */
  lemma AnalysisFailureForgotten(route: PopupRoute, message: string, shot: ShotReply)
    ensures RecordOf(route, Visited(SendFailed(message), shot)) == RecordOf(route, Visited(NoAnswer, shot))
    ensures RecordOf(route, Visited(SendFailed(message), shot)).value.sections == []
  {
  }

  // ---------------------------------------------------------------------------
  // updateCaptureButton

  const CaptureRoutesLabel := "Capture Routes"

  datatype Buttons = Buttons(captureDisabled: bool, captureLabel: string, exportDisabled: bool)

  /** "Capture N Routes" for a non-empty selection. */
  function CaptureLabel(count: nat): (s: string)
  {
    if count > 0 then "Capture " + Text.NatToString(count) + " Routes" else CaptureRoutesLabel
  }

  /** Different selection sizes give different labels: the label always shows the count. */
  lemma CaptureLabelInjective(m: nat, n: nat)
    requires CaptureLabel(m) == CaptureLabel(n)
    ensures m == n
  {
    var a, b := CaptureLabel(m), CaptureLabel(n);
    if m > 0 && n > 0 {
      var dm, dn := Text.NatToString(m), Text.NatToString(n);
      assert a[8..|a| - 7] == dm;
      assert b[8..|b| - 7] == dn;
      Text.NatToStringInjective(m, n);
    }
  }

  // ---------------------------------------------------------------------------
  // scanRoutes

  /** A route as the content script reports it: serialised, or already an object. */
  datatype ReportedRoute = Serialised(text: string) | Plain(route: PopupRoute)

  /** The content script's answer to `getRoutes`; `routes` is `None` when the answer lacks them. */
  datatype RoutesReply = NoRoutesReply | RoutesAnswer(routes: Option<seq<ReportedRoute>>)

  datatype Tab = Tab(url: string, title: string)

  const ParseErrorPrefix := "parse-error-"
  const CurrentPagePrefix := "current-page-"
  const CurrentPageTitle := "Current Page"
  const UnknownType := "unknown"
  const CurrentType := "current"

  /**
   * One reported route: a serialised one is parsed (`parse` stands for
   * `JSON.parse`), and one that does not parse becomes an "unknown" route
   * whose url, full url and title are the text itself.
   */
  function ParseRoute(reported: ReportedRoute, parse: string -> Option<PopupRoute>, now: nat): (r: PopupRoute)
    ensures reported.Plain? ==> r == reported.route
    ensures reported.Serialised? && parse(reported.text).Some? ==> r == parse(reported.text).value
    ensures reported.Serialised? && parse(reported.text).None? ==>
      && r.url == r.fullUrl == r.title == reported.text
      && r.kind == UnknownType
      && Text.StartsWith(r.id, ParseErrorPrefix)
  {
    match reported
    case Plain(route) => route
    case Serialised(text) =>
      match parse(text)
      case Some(route) => route
      case None => PopupRoute(ParseErrorPrefix + Text.NatToString(now), text, text, text, UnknownType)
  }

  function ParseRoutes(reported: seq<ReportedRoute>, parse: string -> Option<PopupRoute>, now: nat): (r: seq<PopupRoute>)
    ensures |r| == |reported|
    ensures forall i :: 0 <= i < |r| ==> r[i] == ParseRoute(reported[i], parse, now)
  {
    seq(|reported|, i requires 0 <= i < |reported| => ParseRoute(reported[i], parse, now))
  }

  /** The one route listed when the page reported none: the page itself. */
  function CurrentPageRoute(tab: Tab, now: nat): (r: PopupRoute)
    ensures r.url == r.fullUrl == tab.url && r.kind == CurrentType
    ensures r.title == if tab.title != "" then tab.title else CurrentPageTitle
  {
    PopupRoute(CurrentPagePrefix + Text.NatToString(now), tab.url, tab.url,
               if tab.title != "" then tab.title else CurrentPageTitle, CurrentType)
  }

  datatype ScanStatus = Found(count: nat) | AddedCurrentPage | ScanFailed

  datatype CaptureOutcome =
    | NothingSelected
    | NoValidRoutes
    | SetupFailed
    | NothingProcessed
    | Stored(records: seq<Record>)

  class PopupController {
    /** The listed routes. */
    var routes: seq<PopupRoute>
    /** The selected route ids, an insertion-ordered set. */
    var selected: seq<string>
    /** True while a capture runs. */
    var isProcessing: bool

    ghost predicate Valid()
      reads this
    {
      Collections.Distinct(selected)
    }

    constructor()
      ensures Valid()
      ensures routes == [] && selected == [] && !isProcessing
    {
      routes := [];
      selected := [];
      isProcessing := false;
    }

    /** `selectAllRoutes`: the visible routes' ids join the selection; earlier selections stay. */
    method SelectAll(term: string, filterType: string)
      requires Valid()
      modifies this
      ensures Valid()
      ensures selected == Collections.AddAll(old(selected), IdsOf(VisibleRoutes(routes, term, filterType)))
      ensures routes == old(routes) && isProcessing == old(isProcessing)
    {
      Collections.AddAllDistinct(selected, IdsOf(VisibleRoutes(routes, term, filterType)));
      selected := Collections.AddAll(selected, IdsOf(VisibleRoutes(routes, term, filterType)));
    }

    /** `deselectAllRoutes`. */
    method DeselectAll()
      modifies this
      ensures Valid()
      ensures selected == [] && routes == old(routes) && isProcessing == old(isProcessing)
    {
      selected := [];
    }

    /** A route's checkbox changed: exactly its id enters or leaves the selection. */
    method Toggle(id: string, checked: bool)
      requires Valid()
      modifies this
      ensures Valid()
      ensures selected == if checked then Collections.Add(old(selected), id) else Collections.Remove(old(selected), id)
      ensures routes == old(routes) && isProcessing == old(isProcessing)
    {
      if checked {
        Collections.AddDistinct(selected, id);
        selected := Collections.Add(selected, id);
      } else {
        Collections.RemoveDistinct(selected, id);
        selected := Collections.Remove(selected, id);
      }
    }

    /** The capture and export buttons after `updateCaptureButton`. */
    function ButtonState(): (b: Buttons)
      reads this
      requires Valid()
      ensures b.captureDisabled <==> selected == []
      ensures b.captureLabel == CaptureRoutesLabel <==> selected == []
      ensures b.exportDisabled <==> isProcessing || routes == []
    {
      Buttons(|selected| == 0, CaptureLabel(|selected|), isProcessing || routes == [])
    }

    /**
     * `scanRoutes`: with an active tab, the reported routes (parsed) when the
     * answer carries a list, even an empty one; otherwise the page itself as
     * the only route. Without an active tab nothing changes.
     */
    method ScanRoutes(tab: Option<Tab>, reply: RoutesReply, parse: string -> Option<PopupRoute>, now: nat)
      returns (status: ScanStatus)
      modifies this
      ensures selected == old(selected) && isProcessing == old(isProcessing)
      ensures tab.None? ==> status == ScanFailed && routes == old(routes)
      ensures tab.Some? && reply.RoutesAnswer? && reply.routes.Some? ==>
        routes == ParseRoutes(reply.routes.value, parse, now) && status == Found(|routes|)
      ensures tab.Some? && !(reply.RoutesAnswer? && reply.routes.Some?) ==>
        routes == [CurrentPageRoute(tab.value, now)] && status == AddedCurrentPage
    {
      if tab.None? {
        return ScanFailed;
      }
      if reply.RoutesAnswer? && reply.routes.Some? {
        routes := ParseRoutes(reply.routes.value, parse, now);
        status := Found(|routes|);
      } else {
        routes := [CurrentPageRoute(tab.value, now)];
        status := AddedCurrentPage;
      }
    }

    /**
     * `processRoutesInPopup`: before route `i` the progress shows
     * `round((i + 1) / n * 100)`; each route with an active tab then gets a
     * record, a failed one a record carrying the error.
     */
    method ProcessRoutesInPopup(todo: seq<PopupRoute>, visits: nat -> Visit)
      returns (records: seq<Record>, progress: seq<nat>)
      ensures records == Records(todo, visits)
      ensures progress == Progress.Percentages(|todo|)
    {
      records, progress := [], [];
      var shown := Progress.Percentages(|todo|);
      var i := 0;
      while i < |todo|
        invariant i <= |todo|
        invariant records == Records(todo[..i], visits)
        invariant progress == shown[..i]
      {
        Collections.PrefixStep(shown, i);
        progress := progress + [shown[i]];
        RecordsStep(todo, i, visits);
        ghost var next := Records(todo[..i + 1], visits);
        records := Extend(records, RecordOf(todo[i], visits(i)));
        assert records == next;
        i := i + 1;
      }
      Collections.PrefixFull(todo, i);
      Collections.PrefixFull(shown, i);
    }

    /**
     * `captureRoutes`: nothing happens unless some selected id names a route
     * with a url and the page is ready; otherwise the records of those
     * routes are stored when there are any, and the processing flag is
     * cleared at the end either way.
     */
    method CaptureRoutes(ready: bool, visits: nat -> Visit) returns (outcome: CaptureOutcome, progress: seq<nat>)
      modifies this
      ensures routes == old(routes) && selected == old(selected)
      ensures var todo := ValidSelection(old(selected), old(routes));
        && (Selection(old(selected), old(routes)) == [] ==> outcome == NothingSelected && progress == [])
        && (Selection(old(selected), old(routes)) != [] && todo == [] ==> outcome == NoValidRoutes && progress == [])
        && (todo != [] && !ready ==> outcome == SetupFailed && progress == [])
        && (outcome.NothingSelected? || outcome.NoValidRoutes? || outcome.SetupFailed? ==> isProcessing == old(isProcessing))
        && (todo != [] && ready ==>
              && progress == [0] + Progress.Percentages(|todo|)
              && !isProcessing
              && outcome == (if Records(todo, visits) == [] then NothingProcessed else Stored(Records(todo, visits))))
    {
      progress := [];
      var chosen := Selection(selected, routes);
      if chosen == [] {
        return NothingSelected, [];
      }
      var todo := Collections.Filter(chosen, (x: PopupRoute) => x.url != "");
      if todo == [] {
        return NoValidRoutes, [];
      }
      if !ready {
        return SetupFailed, [];
      }
      isProcessing := true;
      var records, shown := ProcessRoutesInPopup(todo, visits);
      progress := [0] + shown;
      if records != [] {
        outcome := Stored(records);
      } else {
        outcome := NothingProcessed;
      }
      isProcessing := false;
    }
  }

  function IdsOf(rs: seq<PopupRoute>): (ids: seq<string>)
    ensures |ids| == |rs|
    ensures forall i :: 0 <= i < |rs| ==> ids[i] == rs[i].id
  {
    seq(|rs|, i requires 0 <= i < |rs| => rs[i].id)
  }

  /** After "select all", every visible route is selected and so is everything selected before. */
  lemma SelectAllCovers(selected: seq<string>, routes: seq<PopupRoute>, term: string, filterType: string, x: PopupRoute)
    requires x in VisibleRoutes(routes, term, filterType)
    ensures x.id in Collections.AddAll(selected, IdsOf(VisibleRoutes(routes, term, filterType)))
  {
    var v := VisibleRoutes(routes, term, filterType);
    var k :| 0 <= k < |v| && v[k] == x;
    assert IdsOf(v)[k] == x.id;
  }

  /** Ticking a box and unticking it again restores the selection. */
  lemma ToggleUndo(selected: seq<string>, id: string)
    requires id !in selected
    ensures Collections.Remove(Collections.Add(selected, id), id) == selected
  {
    Collections.RemoveAdd(selected, id);
  }

  /** The progress a capture shows starts at 0, never decreases, and ends at 100. */
  lemma CaptureProgressRises(n: nat)
    requires n > 0
    ensures var p := [0] + Progress.Percentages(n);
      && p[0] == 0 && p[|p| - 1] == 100
      && forall i, j :: 0 <= i <= j < |p| ==> p[i] <= p[j] <= 100
  {
    Progress.PercentagesRise(n);
  }

  /** A capture processes only known, selected routes that have a url, in selection order. */
  lemma CaptureTakesOnlySelected(selected: seq<string>, routes: seq<PopupRoute>, visits: nat -> Visit, k: nat)
    requires k < |Records(ValidSelection(selected, routes), visits)|
    ensures var x := Records(ValidSelection(selected, routes), visits)[k].routeData;
      x in routes && x.id in selected && x.url != ""
  {
  }
}
