/**
 * The background service worker's run state: validating a batch of routes,
 * the status machine `pending -> in-progress -> completed | error` that the
 * batch run writes into local storage, the per-route processing, the
 * classification of capture failures, and the message dispatch.
 *
 * Everything the browser does (querying tabs, injecting the content script,
 * capturing, downloading) is an oracle: a parameter that says how that step
 * turned out.
 */
module BackgroundWorker {
  import opened Wrappers
  import Text
  import opened Store
  import opened Progress
  import opened BackgroundTypes
  import opened BackgroundAnalysis
  import opened BackgroundMessages
  import ContentPage
  import opened ComponentParts

  /** The local-storage keys a run writes: the run state, and one key per route. */
  datatype Key =
    | PendingRoutes
    | ProcessingStatus
    | ProcessingProgress
    | ProcessingError
    | Processed(routeId: string)

  /** The key's name in the storage area. */
  function KeyName(k: Key): (name: string)
    ensures k.Processed? ==> |name| == 10 + |k.routeId| && name[10..] == k.routeId
  {
    match k
    case PendingRoutes => "pendingRoutes"
    case ProcessingStatus => "processingStatus"
    case ProcessingProgress => "processingProgress"
    case ProcessingError => "processingError"
    case Processed(id) => "processed_" + id
  }

  /** Distinct keys have distinct names: no route's key collides with the run state or another route's. */
  lemma KeyNameInjective(a: Key, b: Key)
    requires a != b
    ensures KeyName(a) != KeyName(b)
  {
    if a.Processed? && b.Processed? {
    } else if a.Processed? || b.Processed? {
      var (p, q) := if a.Processed? then (a, b) else (b, a);
      var name := KeyName(p);
      assert name[7] == 'e' && name[9] == '_';
      assert KeyName(ProcessingStatus)[7] == 'i' && KeyName(ProcessingProgress)[7] == 'i';
      assert KeyName(ProcessingError)[7] == 'i' && KeyName(PendingRoutes)[1] == 'e';
    }
  }

  // ---------------------------------------------------------------------------
  // processRoutes: validation

  /** The `routes` argument of a `processRoutes` message: an array, or a value of another JavaScript type. */
  datatype RoutesArg = NotArray(jsType: string) | RouteArray(routes: seq<Route>)

  function ValidateRoutes(arg: RoutesArg): (r: Result<seq<Route>>)
    ensures r.Ok? <==> arg.RouteArray? && arg.routes != []
    ensures r.Ok? ==> r.value == arg.routes
    ensures arg.NotArray? ==> r == Err("Invalid routes: expected array, got " + arg.jsType)
    ensures arg == RouteArray([]) ==> r == Err("No routes provided for processing")
  {
    match arg
    case NotArray(t) => Err("Invalid routes: expected array, got " + t)
    case RouteArray(routes) =>
      if routes == [] then Err("No routes provided for processing") else Ok(routes)
  }

  // ---------------------------------------------------------------------------
  // processIndividualRoute: specification

  /**
   * How the browser answers while one route is processed: the active tab's
   * url (none when there is no active tab), whether the content script
   * answers or can be injected, and the page analysis it returns (none when
   * the reply is missing or the request fails for good).
   */
  datatype RouteEnv = RouteEnv(activeTabUrl: Option<string>, scriptReady: bool, dom: Option<DomAnalysis>)

  /**
   * What one route's processing comes to: the analysis it stored; the
   * fallback page analysis it returns, without storing anything, when the
   * content script is not ready; or the error it threw, with the fallback
   * record it stored before rethrowing.
   */
  datatype RouteResult =
    | Stored(analysis: RouteAnalysis)
    | NotReady(fallback: DomAnalysis)
    | Threw(error: string, record: RouteAnalysis)

  /**
   * Whether the route is the page already shown. The third test reads
   * `window.location`, and a service worker has no `window`: it throws
   * whenever the first two tests fail.
   */
  function CurrentPageTest(route: Route, tabUrl: string): Result<bool>
  {
    if route.url == "current-page" || Text.Contains(tabUrl, route.url) then Ok(true)
    else Err(NoWindowMessage)
  }

  const NoTabMessage := "No active tab found"
  const NoWindowMessage := "window is not defined"

  /** A thrown error, with the fallback record stored for the route before the rethrow. */
  function Failure(route: Route, error: string): (r: RouteResult)
    ensures r.Threw? && r.error == error
    ensures r.record.error == Some(error) && r.record.route == route.url
  {
    Threw(error, GenerateFallbackAnalysis(route, error))
  }

  function IndividualRoute(route: Route, env: RouteEnv): (r: RouteResult)
    ensures env.activeTabUrl.None? ==> r == Failure(route, NoTabMessage)
    ensures r.Threw? ==> r == Failure(route, r.error)
    ensures r.Stored? ==> r.analysis.route == route.url && env.scriptReady
    ensures r.NotReady? ==> r.fallback == CreateFallbackAnalysis()
  {
    match env.activeTabUrl
    case None => Failure(route, NoTabMessage)
    case Some(url) =>
      match CurrentPageTest(route, url)
      case Err(e) => Failure(route, e)
      case Ok(_) =>
        if !env.scriptReady then NotReady(CreateFallbackAnalysis())
        else
          var dom := if env.dom.Some? then env.dom.value else CreateFallbackAnalysis();
          match ProcessDetailedAnalysis(Some(dom), route)
          case Err(e) => Failure(route, e)
          case Ok(a) => Stored(a)
  }

  /**
   * A page the content script reports with one of its detailed section
   * records (whose `elements` is the `{direct, all}` count object) makes the
   * route's processing throw, and the fallback record is stored instead.
   */
  lemma AnalysedPageThrows(route: Route, url: string, p: ContentPage.PageFacts,
                           k: nat, selector: string, index: nat, e: ContentPage.ElementFacts)
    requires CurrentPageTest(route, url).Ok?
    requires k < |p.sections| && p.sections[k] == ContentPage.SectionRecord(selector, index, e)
    ensures var dom := ContentPage.ToDomAnalysis(ContentPage.AnalyzePageStructure(Ok(p)));
      IndividualRoute(route, RouteEnv(Some(url), true, Some(dom))) == Failure(route, NotIterableMessage)
  {
    var dom := ContentPage.ToDomAnalysis(ContentPage.AnalyzePageStructure(Ok(p)));
    assert SectionsOrEmpty(dom.sections) == p.sections;
    assert HasCountObject(p.sections) by {
      assert p.sections[k].elements.ElementCounts?;
    }
  }

  /**
   * What one route's processing stores under its key: its analysis, or the
   * fallback record when it throws; nothing when the content script is not
   * ready.
   */
  function RouteValue(route: Route, r: RouteResult): (v: Option<Value>)
    ensures v.Some? <==> !r.NotReady?
  {
    match r
    case Stored(a) => Some(Analysis(a))
    case NotReady(_) => None
    case Threw(_, record) => Some(Analysis(record))
  }

  function RouteWrites(route: Route, r: RouteResult): seq<Write<Key, Value>>
  {
    var v := RouteValue(route, r);
    if v.Some? then [[(Processed(route.id), v.value)]] else []
  }

  /** One route's processing writes its own key and nothing else. */
  lemma RouteWritesLast(route: Route, r: RouteResult, key: Key)
    ensures LastWritten(RouteWrites(route, r), key)
      == if key == Processed(route.id) then RouteValue(route, r) else None
  {
    var v := RouteValue(route, r);
    if v.Some? {
      LastWrittenSingle([(Processed(route.id), v.value)], key);
      assert [(Processed(route.id), v.value)][..0] == [];
    }
  }

  // ---------------------------------------------------------------------------
  // startRouteProcessing: specification

  /** The write that ends a run in which every route went through. */
  const DoneWrite: Write<Key, Value> := [(ProcessingStatus, Str("completed")), (ProcessingProgress, Number(100))]

  const NoRoutesMessage := "No routes to process"

  /** The write that ends a run at an error. */
  function FailWrite(message: string): Write<Key, Value>
  {
    [(ProcessingStatus, Str("error")), (ProcessingError, Str(message))]
  }

  /** Iteration `i` of `n`: the progress, the route's own writes, and the error when the route threw. */
  function StepWrites(route: Route, i: nat, n: nat, r: RouteResult): seq<Write<Key, Value>>
    requires i < n
  {
    [[(ProcessingProgress, Number(RoundPercent(i, n)))]] + RouteWrites(route, r)
      + (if r.Threw? then [FailWrite(r.error)] else [])
  }

  /** The writes of the loop from route `i` on, up to the end of the run. */
  function LoopWrites(routes: seq<Route>, outcome: nat -> RouteResult, i: nat): seq<Write<Key, Value>>
    requires i <= |routes|
    decreases |routes| - i
  {
    if i == |routes| then [DoneWrite]
    else
      var r := outcome(i);
      StepWrites(routes[i], i, |routes|, r) + (if r.Threw? then [] else LoopWrites(routes, outcome, i + 1))
  }

  /** How each route of a run turns out. */
  function Outcomes(routes: seq<Route>, env: nat -> RouteEnv): nat -> RouteResult
  {
    (j: nat) => if j < |routes| then IndividualRoute(routes[j], env(j)) else NotReady(CreateFallbackAnalysis())
  }

  /** All the local-storage writes of `startRouteProcessing(routes)`, in order. */
  function RunWrites(routes: seq<Route>, outcome: nat -> RouteResult): seq<Write<Key, Value>>
  {
    if routes == [] then [FailWrite(NoRoutesMessage)]
    else [[(ProcessingStatus, Str("in-progress"))]] + LoopWrites(routes, outcome, 0)
  }

  /** The index of the first route from `i` on that throws, or the number of routes. */
  function StopFrom(routes: seq<Route>, outcome: nat -> RouteResult, i: nat): (k: nat)
    requires i <= |routes|
    ensures i <= k <= |routes|
    ensures k < |routes| ==> outcome(k).Threw?
    ensures forall j :: i <= j < k ==> !outcome(j).Threw?
    decreases |routes| - i
  {
    if i == |routes| then i
    else if outcome(i).Threw? then i
    else StopFrom(routes, outcome, i + 1)
  }

  /** The route at which a run stops: the first that throws, or the number of routes. */
  function Stop(routes: seq<Route>, outcome: nat -> RouteResult): (k: nat)
    ensures k <= |routes|
    ensures k < |routes| ==> outcome(k).Threw?
    ensures forall j :: 0 <= j < k ==> !outcome(j).Threw?
  {
    StopFrom(routes, outcome, 0)
  }

  /** What one iteration leaves in each key. */
  lemma StepLast(route: Route, i: nat, n: nat, r: RouteResult, key: Key)
    requires i < n
    ensures LastWritten(StepWrites(route, i, n, r), key) ==
      if key == ProcessingStatus then (if r.Threw? then Some(Str("error")) else None)
      else if key == ProcessingError then (if r.Threw? then Some(Str(r.error)) else None)
      else if key == ProcessingProgress then Some(Number(RoundPercent(i, n)))
      else if key == Processed(route.id) then RouteValue(route, r)
      else None
  {
    var pw: Write<Key, Value> := [(ProcessingProgress, Number(RoundPercent(i, n)))];
    var rw := RouteWrites(route, r);
    var fw: seq<Write<Key, Value>> := if r.Threw? then [FailWrite(r.error)] else [];
    LastWrittenConcat([pw] + rw, fw, key);
    LastWrittenConcat([pw], rw, key);
    LastWrittenSingle(pw, key);
    assert pw[..0] == [];
    RouteWritesLast(route, r, key);
    if r.Threw? {
      LastWrittenSingle(FailWrite(r.error), key);
      WrittenPair(ProcessingStatus, Str("error"), ProcessingError, Str(r.error), key);
    } else {
      assert fw == [];
    }
  }

  /** The loop from `i` splits into iteration `i` and the rest; what the rest writes wins. */
  lemma LoopSplit(routes: seq<Route>, outcome: nat -> RouteResult, i: nat, key: Key)
    requires i < |routes|
    ensures var r := outcome(i);
      var rest := if r.Threw? then [] else LoopWrites(routes, outcome, i + 1);
      LastWritten(LoopWrites(routes, outcome, i), key)
        == if LastWritten(rest, key).Some? then LastWritten(rest, key)
           else LastWritten(StepWrites(routes[i], i, |routes|, r), key)
  {
    var r := outcome(i);
    var rest := if r.Threw? then [] else LoopWrites(routes, outcome, i + 1);
    LastWrittenConcat(StepWrites(routes[i], i, |routes|, r), rest, key);
  }

  /** What the final write of a run that went through leaves in each key. */
  lemma DoneLast(key: Key)
    ensures LastWritten([DoneWrite], key)
      == if key == ProcessingStatus then Some(Str("completed"))
         else if key == ProcessingProgress then Some(Number(100)) else None
  {
    LastWrittenSingle(DoneWrite, key);
    WrittenPair(ProcessingStatus, Str("completed"), ProcessingProgress, Number(100), key);
  }

  /** The run ends in `error` exactly when some route throws, and in `completed` otherwise. */
  lemma {:induction false} LoopStatus(routes: seq<Route>, outcome: nat -> RouteResult, i: nat)
    requires i <= |routes|
    ensures LastWritten(LoopWrites(routes, outcome, i), ProcessingStatus)
      == Some(Str(if StopFrom(routes, outcome, i) < |routes| then "error" else "completed"))
    decreases |routes| - i
  {
    if i < |routes| {
      var r := outcome(i);
      LoopSplit(routes, outcome, i, ProcessingStatus);
      StepLast(routes[i], i, |routes|, r, ProcessingStatus);
      if !r.Threw? {
        LoopStatus(routes, outcome, i + 1);
      }
    } else {
      DoneLast(ProcessingStatus);
    }
  }

  /** The stored error is the message of the first route that throws; a run that goes through writes none. */
  lemma {:induction false} LoopError(routes: seq<Route>, outcome: nat -> RouteResult, i: nat)
    requires i <= |routes|
    ensures var k := StopFrom(routes, outcome, i);
      LastWritten(LoopWrites(routes, outcome, i), ProcessingError)
        == if k < |routes| then Some(Str(outcome(k).error)) else None
    decreases |routes| - i
  {
    if i < |routes| {
      var r := outcome(i);
      LoopSplit(routes, outcome, i, ProcessingError);
      StepLast(routes[i], i, |routes|, r, ProcessingError);
      if !r.Threw? {
        LoopError(routes, outcome, i + 1);
      }
    } else {
      DoneLast(ProcessingError);
    }
  }

  /**
   * The last progress is 100 when every route went through, and otherwise
   * the percentage written just before the route that threw.
   */
  lemma {:induction false} LoopProgress(routes: seq<Route>, outcome: nat -> RouteResult, i: nat)
    requires i <= |routes|
    ensures var k := StopFrom(routes, outcome, i);
      LastWritten(LoopWrites(routes, outcome, i), ProcessingProgress)
        == Some(Number(if k < |routes| then RoundPercent(k, |routes|) else 100))
    decreases |routes| - i
  {
    if i < |routes| {
      var r := outcome(i);
      LoopSplit(routes, outcome, i, ProcessingProgress);
      StepLast(routes[i], i, |routes|, r, ProcessingProgress);
      if !r.Threw? {
        LoopProgress(routes, outcome, i + 1);
      }
    } else {
      DoneLast(ProcessingProgress);
    }
  }

  /** Route ids are pairwise distinct. */
  ghost predicate DistinctIds(routes: seq<Route>)
  {
    forall a, b :: 0 <= a < b < |routes| ==> routes[a].id != routes[b].id
  }

  /** No key is written but the run-state keys and the keys of the routes processed up to the stop. */
  lemma {:induction false} LoopOther(routes: seq<Route>, outcome: nat -> RouteResult, i: nat, key: Key)
    requires i <= |routes|
    requires key != ProcessingStatus && key != ProcessingError && key != ProcessingProgress
    requires forall j :: i <= j < |routes| && j <= StopFrom(routes, outcome, i) ==> key != Processed(routes[j].id)
    ensures LastWritten(LoopWrites(routes, outcome, i), key) == None
    decreases |routes| - i
  {
    if i < |routes| {
      var r := outcome(i);
      LoopSplit(routes, outcome, i, key);
      StepLast(routes[i], i, |routes|, r, key);
      if !r.Threw? {
        LoopOther(routes, outcome, i + 1, key);
      }
    } else {
      DoneLast(key);
    }
  }

  /** Each route processed up to the stop keeps what its own processing stored. */
  lemma {:induction false} LoopRoute(routes: seq<Route>, outcome: nat -> RouteResult, i: nat, j: nat)
    requires DistinctIds(routes)
    requires i <= j < |routes| && j <= StopFrom(routes, outcome, i)
    ensures RouteKept(routes, outcome, i, j)
    decreases |routes| - i, 1
  {
    if j == i {
      LoopRouteHere(routes, outcome, i);
    } else {
      StopFromNext(routes, outcome, i);
      LoopRouteLater(routes, outcome, i, j);
    }
  }

  /** A route after route `i` keeps its value through iteration `i`, which went through. */
  lemma LoopRouteLater(routes: seq<Route>, outcome: nat -> RouteResult, i: nat, j: nat)
    requires DistinctIds(routes)
    requires i < j < |routes| && !outcome(i).Threw? && j <= StopFrom(routes, outcome, i + 1)
    ensures RouteKept(routes, outcome, i, j)
    decreases |routes| - i, 0
  {
    LoopRoute(routes, outcome, i + 1, j);
    RouteKeptStep(routes, outcome, i, j);
  }

  /** The loop from `i` leaves route `j`'s key holding what route `j`'s processing stored. */
  ghost predicate RouteKept(routes: seq<Route>, outcome: nat -> RouteResult, i: nat, j: nat)
    requires i <= |routes| && j < |routes|
  {
    LastWritten(LoopWrites(routes, outcome, i), Processed(routes[j].id)) == RouteValue(routes[j], outcome(j))
  }

  lemma RouteKeptStep(routes: seq<Route>, outcome: nat -> RouteResult, i: nat, j: nat)
    requires DistinctIds(routes)
    requires i < j < |routes| && !outcome(i).Threw?
    requires RouteKept(routes, outcome, i + 1, j)
    ensures RouteKept(routes, outcome, i, j)
  {
    LoopSplit(routes, outcome, i, Processed(routes[j].id));
    StepOther(routes, outcome, i, j);
  }

  /** Route `i` keeps what its own processing stored through the rest of the run. */
  lemma LoopRouteHere(routes: seq<Route>, outcome: nat -> RouteResult, i: nat)
    requires DistinctIds(routes)
    requires i < |routes|
    ensures RouteKept(routes, outcome, i, i)
  {
    var key := Processed(routes[i].id);
    LoopSplit(routes, outcome, i, key);
    StepLast(routes[i], i, |routes|, outcome(i), key);
    if !outcome(i).Threw? {
      LaterRoutesUntouched(routes, outcome, i);
    }
  }

  /** A run that stops after route `i` went through it and stops where the loop from `i + 1` does. */
  lemma StopFromNext(routes: seq<Route>, outcome: nat -> RouteResult, i: nat)
    requires i <= |routes| && i < StopFrom(routes, outcome, i)
    ensures !outcome(i).Threw?
    ensures StopFrom(routes, outcome, i + 1) == StopFrom(routes, outcome, i)
  {
  }

  /** Iteration `i` does not write the key of another route. */
  lemma StepOther(routes: seq<Route>, outcome: nat -> RouteResult, i: nat, j: nat)
    requires DistinctIds(routes)
    requires i < j < |routes|
    ensures LastWritten(StepWrites(routes[i], i, |routes|, outcome(i)), Processed(routes[j].id)) == None
  {
    var key := Processed(routes[j].id);
    StepLast(routes[i], i, |routes|, outcome(i), key);
  }

  /** The routes after route `i` do not write its key. */
  lemma LaterRoutesUntouched(routes: seq<Route>, outcome: nat -> RouteResult, i: nat)
    requires DistinctIds(routes)
    requires i < |routes|
    ensures LastWritten(LoopWrites(routes, outcome, i + 1), Processed(routes[i].id)) == None
  {
    var key := Processed(routes[i].id);
    forall a | i + 1 <= a < |routes| && a <= StopFrom(routes, outcome, i + 1)
      ensures key != Processed(routes[a].id)
    {
    }
    LoopOther(routes, outcome, i + 1, key);
  }

  // ---------------------------------------------------------------------------
  // The progress bar

  /** The progress values one call writes. */
  function ProgressOf(w: Write<Key, Value>): seq<nat>
  {
    var v := Written(w, ProcessingProgress);
    if v.Some? && v.value.Number? then [v.value.n] else []
  }

  /** The progress values a history writes, oldest first. */
  function ProgressTrace(ws: seq<Write<Key, Value>>): seq<nat>
  {
    if ws == [] then [] else ProgressTrace(ws[..|ws| - 1]) + ProgressOf(ws[|ws| - 1])
  }

  lemma {:induction false} ProgressTraceConcat(a: seq<Write<Key, Value>>, b: seq<Write<Key, Value>>)
    ensures ProgressTrace(a + b) == ProgressTrace(a) + ProgressTrace(b)
    decreases |b|
  {
    if b != [] {
      assert (a + b)[..|a + b| - 1] == a + b[..|b| - 1];
      assert (a + b)[|a + b| - 1] == b[|b| - 1];
      ProgressTraceConcat(a, b[..|b| - 1]);
    } else {
      assert a + b == a;
    }
  }

  /** The percentages of iterations `i` up to `last`, exclusive. */
  function Percents(i: nat, last: nat, n: nat): (ps: seq<nat>)
    requires i <= last <= n
    ensures |ps| == last - i
    ensures forall j :: 0 <= j < |ps| ==> ps[j] == RoundPercent(i + j, n)
    decreases last - i
  {
    if i == last then [] else [RoundPercent(i, n)] + Percents(i + 1, last, n)
  }

  /** An iteration writes exactly one progress value, its own. */
  lemma StepTrace(route: Route, i: nat, n: nat, r: RouteResult)
    requires i < n
    ensures ProgressTrace(StepWrites(route, i, n, r)) == [RoundPercent(i, n)]
  {
    var pw: Write<Key, Value> := [(ProcessingProgress, Number(RoundPercent(i, n)))];
    var rw := RouteWrites(route, r);
    var fw: seq<Write<Key, Value>> := if r.Threw? then [FailWrite(r.error)] else [];
    ProgressTraceConcat([pw] + rw, fw);
    ProgressTraceConcat([pw], rw);
    LastWrittenSingle(pw, ProcessingProgress);
    assert Written(pw, ProcessingProgress) == Some(Number(RoundPercent(i, n))) by {
      assert pw[..0] == [];
    }
    if rw != [] {
      var w := rw[0];
      assert rw == [w] && w == [(Processed(route.id), RouteValue(route, r).value)];
      assert w[..0] == [];
      assert Written(w, ProcessingProgress) == None;
      LastWrittenSingle(w, ProcessingProgress);
    }
    if r.Threw? {
      WrittenPair(ProcessingStatus, Str("error"), ProcessingError, Str(r.error), ProcessingProgress);
      assert fw[..0] == [];
    }
  }

  /** Induction over the loop for `TraceFrom`. */
  lemma {:induction false} LoopTrace(routes: seq<Route>, outcome: nat -> RouteResult, i: nat)
    requires i <= |routes|
    ensures TraceFrom(routes, outcome, i)
    decreases |routes| - i
  {
    if i == |routes| {
      TraceAtEnd(routes, outcome, i);
    } else if outcome(i).Threw? {
      TraceAtThrow(routes, outcome, i);
    } else {
      LoopTrace(routes, outcome, i + 1);
      TraceStep(routes, outcome, i);
    }
  }

  /**
   * The loop from `i` writes the percentage of every iteration it reaches,
   * in order, and 100 at the end when no route throws.
   */
  ghost predicate TraceFrom(routes: seq<Route>, outcome: nat -> RouteResult, i: nat)
    requires i <= |routes|
  {
    var n, k := |routes|, StopFrom(routes, outcome, i);
    ProgressTrace(LoopWrites(routes, outcome, i))
      == if k < n then Percents(i, k + 1, n) else Percents(i, n, n) + [100]
  }

  lemma TraceAtThrow(routes: seq<Route>, outcome: nat -> RouteResult, i: nat)
    requires i < |routes| && outcome(i).Threw?
    ensures TraceFrom(routes, outcome, i)
  {
    var n := |routes|;
    LoopTraceSplit(routes, outcome, i);
    assert StopFrom(routes, outcome, i) == i;
    assert Percents(i, i + 1, n) == [RoundPercent(i, n)] + Percents(i + 1, i + 1, n);
  }

  lemma TraceStep(routes: seq<Route>, outcome: nat -> RouteResult, i: nat)
    requires i < |routes| && !outcome(i).Threw?
    requires TraceFrom(routes, outcome, i + 1)
    ensures TraceFrom(routes, outcome, i)
  {
    LoopTraceSplit(routes, outcome, i);
    StopFromNext(routes, outcome, i);
    PercentsCons(i, StopFrom(routes, outcome, i), |routes|);
  }

  /** The trace of the loop from `i` is iteration `i`'s percentage followed by the trace of the rest. */
  lemma LoopTraceSplit(routes: seq<Route>, outcome: nat -> RouteResult, i: nat)
    requires i < |routes|
    ensures ProgressTrace(LoopWrites(routes, outcome, i))
      == [RoundPercent(i, |routes|)] + (if outcome(i).Threw? then [] else ProgressTrace(LoopWrites(routes, outcome, i + 1)))
  {
    var n, r := |routes|, outcome(i);
    var rest := if r.Threw? then [] else LoopWrites(routes, outcome, i + 1);
    ProgressTraceConcat(StepWrites(routes[i], i, n, r), rest);
    StepTrace(routes[i], i, n, r);
  }

  /** Prepending iteration `i`'s percentage to the trace from `i + 1` gives the trace from `i`. */
  lemma PercentsCons(i: nat, k: nat, n: nat)
    requires i < n && i < k <= n
    ensures k < n ==> [RoundPercent(i, n)] + Percents(i + 1, k + 1, n) == Percents(i, k + 1, n)
    ensures k == n ==> [RoundPercent(i, n)] + (Percents(i + 1, n, n) + [100]) == Percents(i, n, n) + [100]
  {
  }

  /** The loop past the last route writes only the final 100. */
  lemma TraceAtEnd(routes: seq<Route>, outcome: nat -> RouteResult, i: nat)
    requires i == |routes|
    ensures TraceFrom(routes, outcome, i)
  {
    WrittenPair(ProcessingStatus, Str("completed"), ProcessingProgress, Number(100), ProcessingProgress);
    assert [DoneWrite][..0] == [];
    assert ProgressTrace([DoneWrite]) == [100];
  }

  /** Values never decrease along a sequence. */
  ghost predicate NonDecreasing(s: seq<nat>)
  {
    forall a, b :: 0 <= a < b < |s| ==> s[a] <= s[b]
  }

  /** The percentages rise and stay at most 100, and so does the trace with a final 100. */
  lemma PercentsRise(i: nat, last: nat, n: nat)
    requires i <= last <= n
    ensures NonDecreasing(Percents(i, last, n)) && NonDecreasing(Percents(i, last, n) + [100])
    ensures forall j :: 0 <= j < last - i ==> Percents(i, last, n)[j] <= 100
  {
    var ps := Percents(i, last, n);
    forall a, b | 0 <= a < b < |ps| ensures ps[a] <= ps[b] {
      PercentMonotone(i + a, i + b, n);
    }
    forall j | 0 <= j < |ps| ensures ps[j] <= 100 {
      PercentBounded(i + j, n);
    }
    var t := ps + [100];
    forall a, b | 0 <= a < b < |t| ensures t[a] <= t[b] {
      if b < |ps| {
        assert t[a] == ps[a] && t[b] == ps[b];
      }
    }
  }

  // ---------------------------------------------------------------------------
  // The state a run leaves behind

  /**
   * After a run, the status is `error` exactly when some route throws and
   * `completed` otherwise; the error is the first thrower's message, and a
   * run that goes through leaves the previous error in place; the progress
   * is 100, or the percentage of the route that threw.
   */
  lemma RunState(m: map<Key, Value>, routes: seq<Route>, outcome: nat -> RouteResult)
    requires routes != []
    ensures var s, n, k := ApplyAll(m, RunWrites(routes, outcome)), |routes|, Stop(routes, outcome);
      && Lookup(s, ProcessingStatus) == Some(Str(if k < n then "error" else "completed"))
      && Lookup(s, ProcessingError) == (if k < n then Some(Str(outcome(k).error)) else Lookup(m, ProcessingError))
      && Lookup(s, ProcessingProgress) == Some(Number(if k < n then RoundPercent(k, n) else 100))
  {
    var head: Write<Key, Value> := [(ProcessingStatus, Str("in-progress"))];
    var ws := RunWrites(routes, outcome);
    assert ws == [head] + LoopWrites(routes, outcome, 0);
    LoopStatus(routes, outcome, 0);
    LoopError(routes, outcome, 0);
    LoopProgress(routes, outcome, 0);
    LastWrittenConcat([head], LoopWrites(routes, outcome, 0), ProcessingError);
    LastWrittenConcat([head], LoopWrites(routes, outcome, 0), ProcessingStatus);
    LastWrittenConcat([head], LoopWrites(routes, outcome, 0), ProcessingProgress);
    LastWrittenSingle(head, ProcessingError);
    assert head[..0] == [];
    ApplyAllLookup(m, ws, ProcessingStatus);
    ApplyAllLookup(m, ws, ProcessingError);
    ApplyAllLookup(m, ws, ProcessingProgress);
  }

  /** Every route processed up to the stop holds what its processing stored, or its old value when nothing was. */
  lemma RunRoute(m: map<Key, Value>, routes: seq<Route>, outcome: nat -> RouteResult, j: nat)
    requires DistinctIds(routes)
    requires j < |routes| && j <= Stop(routes, outcome)
    ensures var key := Processed(routes[j].id);
      Lookup(ApplyAll(m, RunWrites(routes, outcome)), key)
        == if RouteValue(routes[j], outcome(j)).Some? then RouteValue(routes[j], outcome(j)) else Lookup(m, key)
  {
    var key := Processed(routes[j].id);
    var head: Write<Key, Value> := [(ProcessingStatus, Str("in-progress"))];
    var ws := RunWrites(routes, outcome);
    assert ws == [head] + LoopWrites(routes, outcome, 0);
    LoopRoute(routes, outcome, 0, j);
    LastWrittenConcat([head], LoopWrites(routes, outcome, 0), key);
    LastWrittenSingle(head, key);
    assert head[..0] == [];
    ApplyAllLookup(m, ws, key);
  }

  /**
   * A run changes no key but the status, progress and error keys and the
   * keys of the routes it reached: the pending routes, every later route's
   * key and everything else keep their old values.
   */
  lemma RunUntouched(m: map<Key, Value>, routes: seq<Route>, outcome: nat -> RouteResult, key: Key)
    requires key != ProcessingStatus && key != ProcessingError && key != ProcessingProgress
    requires forall j :: 0 <= j < |routes| && j <= Stop(routes, outcome) ==> key != Processed(routes[j].id)
    ensures Lookup(ApplyAll(m, RunWrites(routes, outcome)), key) == Lookup(m, key)
  {
    var ws := RunWrites(routes, outcome);
    if routes == [] {
      LastWrittenSingle(FailWrite(NoRoutesMessage), key);
      WrittenPair(ProcessingStatus, Str("error"), ProcessingError, Str(NoRoutesMessage), key);
    } else {
      var head: Write<Key, Value> := [(ProcessingStatus, Str("in-progress"))];
      assert ws == [head] + LoopWrites(routes, outcome, 0);
      LoopOther(routes, outcome, 0, key);
      LastWrittenConcat([head], LoopWrites(routes, outcome, 0), key);
      LastWrittenSingle(head, key);
      assert head[..0] == [];
    }
    ApplyAllLookup(m, ws, key);
  }

  /** A run given no routes records the error and nothing else. */
  lemma RunEmpty(m: map<Key, Value>, outcome: nat -> RouteResult)
    ensures var s := ApplyAll(m, RunWrites([], outcome));
      && Lookup(s, ProcessingStatus) == Some(Str("error"))
      && Lookup(s, ProcessingError) == Some(Str(NoRoutesMessage))
      && Lookup(s, ProcessingProgress) == Lookup(m, ProcessingProgress)
  {
    var w := FailWrite(NoRoutesMessage);
    assert RunWrites([], outcome) == [w];
    EmptyRunKey(m, ProcessingStatus);
    EmptyRunKey(m, ProcessingError);
    EmptyRunKey(m, ProcessingProgress);
  }

  lemma EmptyRunKey(m: map<Key, Value>, key: Key)
    ensures var w := FailWrite(NoRoutesMessage);
      Lookup(ApplyAll(m, [w]), key)
        == if key == ProcessingStatus then Some(Str("error"))
           else if key == ProcessingError then Some(Str(NoRoutesMessage)) else Lookup(m, key)
  {
    var w := FailWrite(NoRoutesMessage);
    ApplyAllLookup(m, [w], key);
    LastWrittenSingle(w, key);
    WrittenPair(ProcessingStatus, Str("error"), ProcessingError, Str(NoRoutesMessage), key);
  }

  /**
   * The progress values of a run that reaches route `k` of `n`: one
   * percentage per route reached, then 100 when the run went through.
   */
  function ExpectedTrace(n: nat, k: nat): seq<nat>
    requires k <= n
  {
    if k < n then Percents(0, k + 1, n) else Percents(0, n, n) + [100]
  }

  /** The expected trace starts at 0, never decreases, stays at most 100, and ends at 100 exactly when the run went through. */
  lemma ExpectedTraceRises(n: nat, k: nat)
    requires 0 < n && k <= n
    ensures var t := ExpectedTrace(n, k);
      && |t| > 0 && t[0] == 0
      && NonDecreasing(t)
      && (forall j :: 0 <= j < |t| ==> t[j] <= 100)
      && |t| == (if k < n then k + 1 else n + 1)
      && t[|t| - 1] == (if k < n then RoundPercent(k, n) else 100)
  {
    PercentEnds(n);
    var t := ExpectedTrace(n, k);
    if k < n {
      PercentsRise(0, k + 1, n);
    } else {
      PercentsRise(0, n, n);
    }
  }

  /**
   * With fewer than 200 routes, the percentage written before any route
   * stays below 100, so a run that stops early never shows 100; from 200
   * routes on, rounding makes the last route's percentage 100 already.
   */
  lemma PercentBelowFull(k: nat, n: nat)
    requires k < n < 200
    ensures RoundPercent(k, n) < 100
  {
    var x, d := 200 * k + n, 2 * n;
    MulMono(k, n - 1, 200);
    assert x < 100 * d;
    if x / d >= 100 {
      MulMono(100, x / d, d);
    }
  }

  lemma PercentFullEarly()
    ensures RoundPercent(199, 200) == 100
  {
  }

  /**
   * The progress a run writes rises from 0, one percentage per route it
   * reaches, never exceeds 100, and ends with 100 exactly when no route
   * throws.
   */
  lemma RunProgress(routes: seq<Route>, outcome: nat -> RouteResult)
    requires routes != []
    ensures ProgressTrace(RunWrites(routes, outcome)) == ExpectedTrace(|routes|, Stop(routes, outcome))
  {
    RunTrace(routes, outcome);
  }

  lemma RunTrace(routes: seq<Route>, outcome: nat -> RouteResult)
    requires routes != []
    ensures ProgressTrace(RunWrites(routes, outcome)) == ProgressTrace(LoopWrites(routes, outcome, 0))
    ensures TraceFrom(routes, outcome, 0)
  {
    var head: Write<Key, Value> := [(ProcessingStatus, Str("in-progress"))];
    assert RunWrites(routes, outcome) == [head] + LoopWrites(routes, outcome, 0);
    ProgressTraceConcat([head], LoopWrites(routes, outcome, 0));
    assert head[..0] == [];
    assert ProgressTrace([head]) == ProgressTrace([]) + ProgressOf(head);
    LoopTrace(routes, outcome, 0);
  }

  /** A run that reaches route `i` stops there when it throws, and goes past it otherwise. */
  lemma StopAt(routes: seq<Route>, outcome: nat -> RouteResult, i: nat)
    requires i < |routes| && i <= Stop(routes, outcome)
    ensures outcome(i).Threw? ==> Stop(routes, outcome) == i
    ensures !outcome(i).Threw? ==> i + 1 <= Stop(routes, outcome)
  {
  }

  /** After iteration `i`, the writes still to come are those of the loop from `i + 1`, or none when route `i` threw. */
  lemma LoopAfterStep(routes: seq<Route>, outcome: nat -> RouteResult, i: nat,
                      done: seq<Write<Key, Value>>, done': seq<Write<Key, Value>>, full: seq<Write<Key, Value>>)
    requires i < |routes|
    requires done + LoopWrites(routes, outcome, i) == full
    requires done' == done + StepWrites(routes[i], i, |routes|, outcome(i))
    ensures outcome(i).Threw? ==> done' == full
    ensures !outcome(i).Threw? ==> done' + LoopWrites(routes, outcome, i + 1) == full
  {
    var step := StepWrites(routes[i], i, |routes|, outcome(i));
    if outcome(i).Threw? {
      assert LoopWrites(routes, outcome, i) == step + [];
      assert step + [] == step;
    } else {
      var rest := LoopWrites(routes, outcome, i + 1);
      assert LoopWrites(routes, outcome, i) == step + rest;
      Append3(done, step, rest);
    }
  }

  lemma Append3<T>(a: seq<T>, b: seq<T>, c: seq<T>)
    ensures a + b + c == a + (b + c)
  {
  }

  // ---------------------------------------------------------------------------
  // Notices, replies and the other handlers

  /** The `processingComplete` message a run sends to the popup. */
  datatype Notice = ProcessingComplete(success: bool, error: Option<string>)

  /** The notice a run sends: none when it has no routes. */
  function RunNotices(routes: seq<Route>, outcome: nat -> RouteResult): (ns: seq<Notice>)
    ensures routes != [] ==> |ns| == 1 && (ns[0].success <==> Stop(routes, outcome) == |routes|)
  {
    var k := Stop(routes, outcome);
    if routes == [] then []
    else if k < |routes| then [ProcessingComplete(false, Some(outcome(k).error))]
    else [ProcessingComplete(true, None)]
  }

  /** A message to the background service, by its `action`. */
  datatype Request =
    | CaptureScreenshot
    | DownloadFiles(files: seq<FileSpec>)
    | ProcessRoutes(routes: RoutesArg)
    | GetSettings
    | Unknown(action: string)

  /**
   * How the browser answers: the capture, the url encoding, which downloads
   * fail and with what message, and how each route of a run turns out.
   */
  datatype Browser = Browser(
    capture: Result<string>,
    encode: string -> string,
    downloadFailure: nat -> Option<string>,
    routeEnv: nat -> RouteEnv)

  /** `outcome` says how each route of the batch turns out in `env`. */
  ghost predicate Agrees(routes: seq<Route>, env: nat -> RouteEnv, outcome: nat -> RouteResult)
  {
    forall j {:trigger IndividualRoute(routes[j], env(j))} :: 0 <= j < |routes| ==> outcome(j) == IndividualRoute(routes[j], env(j))
  }

  lemma OutcomesAgree(routes: seq<Route>, env: nat -> RouteEnv)
    ensures Agrees(routes, env, Outcomes(routes, env))
  {
  }

  /** The notice of a run that stops at route `i`. */
  lemma NoticeAtStop(routes: seq<Route>, outcome: nat -> RouteResult, i: nat)
    requires routes != [] && Stop(routes, outcome) == i
    ensures RunNotices(routes, outcome)
      == if i < |routes| then [ProcessingComplete(false, Some(outcome(i).error))] else [ProcessingComplete(true, None)]
  {
  }

  // ---------------------------------------------------------------------------
  // processRoutes: specification

  /** The write that hands a validated batch to the run. */
  function PendingWrite(routes: seq<Route>): Write<Key, Value>
  {
    [(PendingRoutes, RouteList(routes)), (ProcessingStatus, Str("pending"))]
  }

  /** All the local-storage writes of an accepted `processRoutes(routes)`, in order. */
  function SubmitWrites(routes: seq<Route>, outcome: nat -> RouteResult): seq<Write<Key, Value>>
  {
    [PendingWrite(routes)] + RunWrites(routes, outcome)
  }

  /**
   * After an accepted batch, the pending routes are stored and the status
   * has left `pending`: it reads `completed` when every route went
   * through, and `error` when one threw.
   */
  lemma SubmittedState(m: map<Key, Value>, routes: seq<Route>, outcome: nat -> RouteResult)
    requires routes != []
    ensures var s, n, k := ApplyAll(m, SubmitWrites(routes, outcome)), |routes|, Stop(routes, outcome);
      && Lookup(s, PendingRoutes) == Some(RouteList(routes))
      && Lookup(s, ProcessingStatus) == Some(Str(if k < n then "error" else "completed"))
  {
    var pw := PendingWrite(routes);
    ApplyAllConcat(m, [pw], RunWrites(routes, outcome));
    var m1 := ApplyAll(m, [pw]);
    RunState(m1, routes, outcome);
    RunUntouched(m1, routes, outcome, PendingRoutes);
    ApplyAllLookup(m, [pw], PendingRoutes);
    LastWrittenSingle(pw, PendingRoutes);
    WrittenPair(PendingRoutes, RouteList(routes), ProcessingStatus, Str("pending"), PendingRoutes);
  }

  /** The accepted batch's writes are the pending write followed by the run's. */
  lemma SubmitApply(m: map<Key, Value>, routes: seq<Route>, outcome: nat -> RouteResult)
    ensures ApplyAll(m, SubmitWrites(routes, outcome)) == ApplyAll(ApplyWrite(m, PendingWrite(routes)), RunWrites(routes, outcome))
  {
    var pw := PendingWrite(routes);
    ApplyAllConcat(m, [pw], RunWrites(routes, outcome));
    ApplyAllSnoc(m, [], pw);
    assert [] + [pw] == [pw];
  }

  const StartedMessage := "Processing started"
  const UnknownMessage := "Unknown action"

  // ---------------------------------------------------------------------------
  // The service

  class BackgroundService {
    /** `chrome.storage.local`. */
    var local: map<Key, Value>
    /** Every `chrome.storage.local.set` call, oldest first. */
    var localLog: seq<Write<Key, Value>>
    /** `chrome.storage.sync`. */
    var sync: map<string, Value>
    /** The notices sent to the popup. */
    var notices: seq<Notice>
    /** The downloads handed to the browser. */
    var downloads: seq<Download>
    /** Whether the options page was opened. */
    var optionsOpened: bool

    constructor(local0: map<Key, Value>, sync0: map<string, Value>)
      ensures local == local0 && sync == sync0
      ensures localLog == [] && notices == [] && downloads == [] && !optionsOpened
    {
      local, sync := local0, sync0;
      localLog, notices, downloads := [], [], [];
      optionsOpened := false;
    }

    /** On installation, write the default settings and open the options page. */
    method HandleInstalled(reason: string)
      modifies this
      ensures reason == "install" ==> sync == old(sync) + DefaultSettings && optionsOpened
      ensures reason != "install" ==> sync == old(sync) && optionsOpened == old(optionsOpened)
      ensures local == old(local) && localLog == old(localLog)
      ensures notices == old(notices) && downloads == old(downloads)
    {
      if reason == "install" {
        sync := sync + DefaultSettings;
        optionsOpened := true;
      }
    }

    /** One `chrome.storage.local.set` call. */
    method SetLocal(w: Write<Key, Value>)
      modifies this
      ensures local == ApplyWrite(old(local), w) && localLog == old(localLog) + [w]
      ensures sync == old(sync) && notices == old(notices) && downloads == old(downloads)
      ensures optionsOpened == old(optionsOpened)
    {
      local := ApplyWrite(local, w);
      localLog := localLog + [w];
    }

    /** The settings stored in sync storage. */
    function GetSettings(): (r: map<string, Value>)
      reads this
      ensures forall k :: k in r <==> k in sync && k in SettingKeys
      ensures forall k :: k in r ==> r[k] == sync[k]
    {
      SettingsOf(sync)
    }

    method ProcessIndividualRoute(route: Route, env: RouteEnv) returns (r: RouteResult)
      modifies this
      ensures r == IndividualRoute(route, env)
      ensures localLog == old(localLog) + RouteWrites(route, r)
      ensures local == ApplyAll(old(local), RouteWrites(route, r))
      ensures sync == old(sync) && notices == old(notices) && downloads == old(downloads)
      ensures optionsOpened == old(optionsOpened)
    {
      var error: string;
      if env.activeTabUrl.None? {
        error := NoTabMessage;
      } else {
        var isCurrentPage := CurrentPageTest(route, env.activeTabUrl.value);
        if isCurrentPage.Err? {
          error := isCurrentPage.error;
        } else if !env.scriptReady {
          r := NotReady(CreateFallbackAnalysis());
          return;
        } else {
          var dom := if env.dom.Some? then env.dom.value else CreateFallbackAnalysis();
          var detailed := ProcessDetailedAnalysis(Some(dom), route);
          if detailed.Err? {
            error := detailed.error;
          } else {
            SetLocal([(Processed(route.id), Analysis(detailed.value))]);
            r := Stored(detailed.value);
            ApplyAllSnoc(old(local), [], [(Processed(route.id), Analysis(detailed.value))]);
            return;
          }
        }
      }
      var fallback := GenerateFallbackAnalysis(route, error);
      SetLocal([(Processed(route.id), Analysis(fallback))]);
      r := Threw(error, fallback);
      ApplyAllSnoc(old(local), [], [(Processed(route.id), Analysis(fallback))]);
    }

    /** Local storage holds `local0` updated by `done`, and the log is `log0` followed by `done`. */
    ghost predicate Logged(local0: map<Key, Value>, log0: seq<Write<Key, Value>>, done: seq<Write<Key, Value>>)
      reads this
    {
      localLog == log0 + done && local == ApplyAll(local0, done)
    }

    /** `SetLocal` extends the logged history by one call. */
    method LogLocal(w: Write<Key, Value>, ghost local0: map<Key, Value>, ghost log0: seq<Write<Key, Value>>, ghost done: seq<Write<Key, Value>>)
      requires Logged(local0, log0, done)
      modifies this
      ensures Logged(local0, log0, done + [w])
      ensures sync == old(sync) && notices == old(notices) && downloads == old(downloads)
      ensures optionsOpened == old(optionsOpened)
    {
      SetLocal(w);
      ApplyAllSnoc(local0, done, w);
    }

    /** One iteration of the batch run: the progress write, then the route; an error write when it throws. */
    method RunStep(routes: seq<Route>, env: nat -> RouteEnv, i: nat, ghost outcome: nat -> RouteResult,
                   ghost local0: map<Key, Value>, ghost log0: seq<Write<Key, Value>>, ghost done: seq<Write<Key, Value>>)
      returns (r: RouteResult, ghost done': seq<Write<Key, Value>>)
      requires i < |routes| && Agrees(routes, env, outcome)
      requires Logged(local0, log0, done)
      modifies this
      ensures r == outcome(i)
      ensures done' == done + StepWrites(routes[i], i, |routes|, r)
      ensures Logged(local0, log0, done')
      ensures sync == old(sync) && notices == old(notices) && downloads == old(downloads)
      ensures optionsOpened == old(optionsOpened)
    {
      var progress: Write<Key, Value> := [(ProcessingProgress, Number(RoundPercent(i, |routes|)))];
      LogLocal(progress, local0, log0, done);
      r := RouteAt(routes, env, i, outcome, local0, log0, done + [progress]);
      done' := done + [progress] + RouteWrites(routes[i], r);
      if r.Threw? {
        LogLocal(FailWrite(r.error), local0, log0, done');
        done' := done' + [FailWrite(r.error)];
      }
      assert StepWrites(routes[i], i, |routes|, r) == [progress] + RouteWrites(routes[i], r) + (if r.Threw? then [FailWrite(r.error)] else []);
    }

    /** Route `i` of the run, processed as the run's outcomes say it turns out. */
    method RouteAt(routes: seq<Route>, env: nat -> RouteEnv, i: nat, ghost outcome: nat -> RouteResult,
                   ghost local0: map<Key, Value>, ghost log0: seq<Write<Key, Value>>, ghost done: seq<Write<Key, Value>>)
      returns (r: RouteResult)
      requires i < |routes| && Agrees(routes, env, outcome)
      requires Logged(local0, log0, done)
      modifies this
      ensures r == outcome(i)
      ensures Logged(local0, log0, done + RouteWrites(routes[i], r))
      ensures sync == old(sync) && notices == old(notices) && downloads == old(downloads)
      ensures optionsOpened == old(optionsOpened)
    {
      r := ProcessIndividualRoute(routes[i], env(i));
      ApplyAllConcat(local0, done, RouteWrites(routes[i], r));
    }

    /**
     * The batch run: the status and progress writes, each route in turn,
     * and a stop at the first route that throws.
     */
    method StartRouteProcessing(routes: seq<Route>, env: nat -> RouteEnv)
      modifies this
      ensures localLog == old(localLog) + RunWrites(routes, Outcomes(routes, env))
      ensures local == ApplyAll(old(local), RunWrites(routes, Outcomes(routes, env)))
      ensures notices == old(notices) + RunNotices(routes, Outcomes(routes, env))
      ensures sync == old(sync) && downloads == old(downloads) && optionsOpened == old(optionsOpened)
    {
      if |routes| == 0 {
        LogLocal(FailWrite(NoRoutesMessage), local, localLog, []);
        assert notices == old(notices) + [];
        return;
      }
      var started: Write<Key, Value> := [(ProcessingStatus, Str("in-progress"))];
      LogLocal(started, local, localLog, []);
      OutcomesAgree(routes, env);
      RunLoop(routes, env, Outcomes(routes, env), old(local), old(localLog), [started]);
    }

    /** The loop of the batch run, from the first route on. */
    method RunLoop(routes: seq<Route>, env: nat -> RouteEnv, ghost outcome: nat -> RouteResult,
                   ghost local0: map<Key, Value>, ghost log0: seq<Write<Key, Value>>, ghost done0: seq<Write<Key, Value>>)
      requires routes != [] && Agrees(routes, env, outcome)
      requires done0 + LoopWrites(routes, outcome, 0) == RunWrites(routes, outcome)
      requires Logged(local0, log0, done0)
      modifies this
      ensures Logged(local0, log0, RunWrites(routes, outcome))
      ensures notices == old(notices) + RunNotices(routes, outcome)
      ensures sync == old(sync) && downloads == old(downloads) && optionsOpened == old(optionsOpened)
    {
      ghost var done := done0;
      var i := 0;
      while i < |routes|
        invariant i <= |routes|
        invariant done + LoopWrites(routes, outcome, i) == RunWrites(routes, outcome)
        invariant Logged(local0, log0, done)
        invariant i <= Stop(routes, outcome)
        invariant notices == old(notices)
        invariant sync == old(sync) && downloads == old(downloads) && optionsOpened == old(optionsOpened)
      {
        var r;
        ghost var done';
        r, done' := RunStep(routes, env, i, outcome, local0, log0, done);
        LoopAfterStep(routes, outcome, i, done, done', RunWrites(routes, outcome));
        StopAt(routes, outcome, i);
        if r.Threw? {
          Notify(routes, outcome, i, Some(r.error));
          return;
        }
        done := done';
        i := i + 1;
      }
      LogLocal(DoneWrite, local0, log0, done);
      Notify(routes, outcome, i, None);
    }

    /** The `processingComplete` notice of a run that stops at route `i`. */
    method Notify(routes: seq<Route>, ghost outcome: nat -> RouteResult, i: nat, failure: Option<string>)
      requires routes != [] && Stop(routes, outcome) == i
      requires failure == if i < |routes| then Some(outcome(i).error) else None
      modifies this
      ensures notices == old(notices) + RunNotices(routes, outcome)
      ensures local == old(local) && localLog == old(localLog)
      ensures sync == old(sync) && downloads == old(downloads) && optionsOpened == old(optionsOpened)
    {
      NoticeAtStop(routes, outcome, i);
      if failure.Some? {
        notices := notices + [ProcessingComplete(false, failure)];
      } else {
        notices := notices + [ProcessingComplete(true, None)];
      }
    }

    /**
     * Hand each file to the browser as a data url, in order; the first
     * download that fails ends the loop and its error is the reply.
     */
    method DownloadFiles(files: seq<FileSpec>, encode: string -> string, failure: nat -> Option<string>)
      returns (reply: Reply)
      modifies this
      ensures var k := DownloadStop(files, failure, 0);
        && downloads == old(downloads) + DownloadsOf(files[..k], encode)
        && reply == if k < |files| then Failed(failure(k).value) else Downloaded
      ensures reply == Downloaded <==> forall j :: 0 <= j < |files| ==> failure(j).None?
      ensures local == old(local) && localLog == old(localLog) && sync == old(sync)
      ensures notices == old(notices) && optionsOpened == old(optionsOpened)
    {
      var i := 0;
      while i < |files|
        invariant i <= DownloadStop(files, failure, 0)
        invariant downloads == old(downloads) + DownloadsOf(files[..i], encode)
        invariant local == old(local) && localLog == old(localLog) && sync == old(sync)
        invariant notices == old(notices) && optionsOpened == old(optionsOpened)
      {
        var error := failure(i);
        if error.Some? {
          assert DownloadStop(files, failure, 0) == i;
          return Failed(error.value);
        }
        DownloadsStep(files, encode, i);
        StartDownload(files[i], encode);
        i := i + 1;
      }
      assert files[..i] == files;
      reply := Downloaded;
    }

    /** One `chrome.downloads.download` call that succeeds. */
    method StartDownload(file: FileSpec, encode: string -> string)
      modifies this
      ensures downloads == old(downloads) + [Download(DataUrl(file, encode), file.filename)]
      ensures local == old(local) && localLog == old(localLog) && sync == old(sync)
      ensures notices == old(notices) && optionsOpened == old(optionsOpened)
    {
      var url := DataUrl(file, encode);
      downloads := downloads + [Download(url, file.filename)];
    }

    /**
     * Validate the batch; an accepted batch is stored as pending and run.
     * A rejected one changes nothing and its validation error is the reply.
     */
    method ProcessRoutes(arg: RoutesArg, env: nat -> RouteEnv) returns (reply: Reply)
      modifies this
      ensures ValidateRoutes(arg).Err? ==>
        && reply == Failed(ValidateRoutes(arg).error)
        && local == old(local) && localLog == old(localLog) && notices == old(notices)
      ensures ValidateRoutes(arg).Ok? ==>
        var routes := arg.routes;
        && reply == Started(StartedMessage)
        && localLog == old(localLog) + SubmitWrites(routes, Outcomes(routes, env))
        && local == ApplyAll(old(local), SubmitWrites(routes, Outcomes(routes, env)))
        && notices == old(notices) + RunNotices(routes, Outcomes(routes, env))
      ensures sync == old(sync) && downloads == old(downloads) && optionsOpened == old(optionsOpened)
    {
      var valid := ValidateRoutes(arg);
      if valid.Err? {
        return Failed(valid.error);
      }
      var routes := valid.value;
      SetLocal(PendingWrite(routes));
      StartRouteProcessing(routes, env);
      ghost var outcome := Outcomes(routes, env);
      SubmitApply(old(local), routes, outcome);
      Append3(old(localLog), [PendingWrite(routes)], RunWrites(routes, outcome));
      reply := Started(StartedMessage);
    }

    /** Dispatch a message on its action. */
    method HandleMessage(request: Request, browser: Browser) returns (reply: Reply)
      modifies this
      ensures request.CaptureScreenshot? ==> reply == CaptureReply(browser.capture)
      ensures request.GetSettings? ==> reply == Settings(SettingsOf(old(sync)))
      ensures request.Unknown? ==> reply == Failed(UnknownMessage)
      ensures request.DownloadFiles? ==>
        var files, k := request.files, DownloadStop(request.files, browser.downloadFailure, 0);
        && downloads == old(downloads) + DownloadsOf(files[..k], browser.encode)
        && reply == if k < |files| then Failed(browser.downloadFailure(k).value) else Downloaded
      ensures request.ProcessRoutes? ==>
        var v := ValidateRoutes(request.routes);
        if v.Err? then reply == Failed(v.error) && local == old(local) && localLog == old(localLog)
        else
          var routes := v.value;
          && reply == Started(StartedMessage)
          && local == ApplyAll(old(local), SubmitWrites(routes, Outcomes(routes, browser.routeEnv)))
          && localLog == old(localLog) + SubmitWrites(routes, Outcomes(routes, browser.routeEnv))
      ensures !request.ProcessRoutes? ==> local == old(local) && localLog == old(localLog) && notices == old(notices)
      ensures !request.DownloadFiles? ==> downloads == old(downloads)
      ensures sync == old(sync) && optionsOpened == old(optionsOpened)
    {
      match request
      case CaptureScreenshot =>
        reply := CaptureReply(browser.capture);
      case DownloadFiles(files) =>
        reply := DownloadFiles(files, browser.encode, browser.downloadFailure);
      case ProcessRoutes(arg) =>
        reply := ProcessRoutes(arg, browser.routeEnv);
      case GetSettings =>
        reply := Settings(GetSettings());
      case Unknown(_) =>
        reply := Failed(UnknownMessage);
    }
  }
}
