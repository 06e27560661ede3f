/**
 * The content script's `RouteDetector`: the set of detected routes (kept as
 * serialised records, so an identical route is stored once), the
 * re-entrancy flag of a detection pass, the sitemap parse, and the message
 * handler.
 */
module ContentScript {
  import opened Wrappers
  import Collections
  import opened ContentRoutes
  import ContentPage

  /** The prefix of a pass that came before step `i`, when nothing before it threw. */
  lemma InsertedStep(steps: seq<Step>, i: nat)
    requires i < |steps| && Throw !in steps[..i]
    ensures steps[i].Throw? ==> Inserted(steps) == Inserted(steps[..i])
    ensures !steps[i].Throw? ==> Throw !in steps[..i + 1]
    ensures steps[i].Insert? ==> Inserted(steps[..i + 1]) == Inserted(steps[..i]) + [steps[i].route]
    ensures steps[i].Skip? ==> Inserted(steps[..i + 1]) == Inserted(steps[..i])
  {
    assert steps == steps[..i] + steps[i..];
    InsertedConcat(steps[..i], steps[i..]);
    assert steps[..i + 1] == steps[..i] + [steps[i]];
    InsertedConcat(steps[..i], [steps[i]]);
    assert [steps[i]][1..] == [];
  }

  /** A pass that reaches the end without a throw has inserted everything it met. */
  lemma InsertedWhole(steps: seq<Step>)
    requires Throw !in steps
    ensures Inserted(steps) == Inserted(steps[..|steps|])
  {
    assert steps[..|steps|] == steps;
  }

  datatype Request = GetRoutes | AnalyzePageStructure | AnalyzeRoute | PageReady | RefreshRoutes | Unknown(action: string)

  datatype Reply =
    | RoutesReply(routes: seq<DetectedRoute>)
    | StructureReply(structure: ContentPage.PageStructure)
    | SuccessReply
    | ErrorReply(error: string)

  const UnknownAction := "Unknown action"

  class RouteDetector {
    /** The detected routes, in insertion order and without repetition. */
    var routes: seq<DetectedRoute>
    /** True while a detection pass runs. */
    var isAnalyzing: bool

    /** A new detector; the first pass `init` starts is a separate `DetectRoutes` call. */
    constructor()
      ensures routes == [] && !isAnalyzing
    {
      routes := [];
      isAnalyzing := false;
    }

    /** `this.routes.add(JSON.stringify(route))`. */
    method AddRoute(route: DetectedRoute)
      modifies this
      ensures routes == Collections.Add(old(routes), route)
      ensures isAnalyzing == old(isAnalyzing)
    {
      if route !in routes {
        routes := routes + [route];
      }
    }

    /** Run the steps of a pass in order, stopping at the first throw. */
    method RunSteps(steps: seq<Step>) returns (threw: bool)
      modifies this
      ensures routes == Collections.AddAll(old(routes), Inserted(steps))
      ensures threw <==> Throw in steps
      ensures isAnalyzing == old(isAnalyzing)
    {
      var i := 0;
      while i < |steps|
        invariant i <= |steps|
        invariant Throw !in steps[..i]
        invariant routes == Collections.AddAll(old(routes), Inserted(steps[..i]))
        invariant isAnalyzing == old(isAnalyzing)
      {
        InsertedStep(steps, i);
        match steps[i] {
          case Throw =>
            return true;
          case Skip =>
          case Insert(route) =>
            Collections.AddAllSnoc(old(routes), Inserted(steps[..i]), route);
            AddRoute(route);
        }
        i := i + 1;
      }
      InsertedWhole(steps);
      threw := false;
    }

    /**
     * `detectRoutes`: nothing while a pass is running; otherwise the static,
     * router and menu passes (a throw ends them early), and the flag is
     * cleared on the way out whether or not one threw.
     */
    method DetectRoutes(page: Page)
      modifies this
      ensures old(isAnalyzing) ==> routes == old(routes) && isAnalyzing
      ensures !old(isAnalyzing) ==> routes == Collections.AddAll(old(routes), Inserted(PassSteps(page))) && !isAnalyzing
    {
      if isAnalyzing {
        return;
      }
      isAnalyzing := true;
      var _ := RunSteps(PassSteps(page));
      isAnalyzing := false;
    }

    /**
     * `parseSitemap`: add the routes of the sitemap's `loc` entries, and
     * return the sitemap references of a robots.txt text, which the page
     * then fetches and parses in turn.
     */
    method ParseSitemap(content: string, locs: seq<string>, page: Page) returns (references: seq<string>)
      modifies this
      ensures routes == Collections.AddAll(old(routes), Inserted(SitemapSteps(content, locs, page)))
      ensures references == SitemapReferences(content)
      ensures isAnalyzing == old(isAnalyzing)
    {
      var _ := RunSteps(SitemapSteps(content, locs, page));
      references := SitemapReferences(content);
    }

    /**
     * `handleMessage`: the reply sent, if any. `analyzeRoute` and `pageReady`
     * send none; `refreshRoutes` empties the set before detecting again.
     */
    method HandleMessage(request: Request, page: Page, facts: Result<ContentPage.PageFacts>) returns (reply: Option<Reply>)
      requires !isAnalyzing
      modifies this
      ensures !isAnalyzing
      ensures request.GetRoutes? ==> reply == Some(RoutesReply(old(routes))) && routes == old(routes)
      ensures request.AnalyzePageStructure? ==>
        reply == Some(StructureReply(ContentPage.AnalyzePageStructure(facts))) && routes == old(routes)
      ensures request.AnalyzeRoute? ==> reply.None? && routes == old(routes)
      ensures request.PageReady? ==> reply.None? && routes == Collections.AddAll(old(routes), Inserted(PassSteps(page)))
      ensures request.RefreshRoutes? ==> reply == Some(SuccessReply) && routes == Collections.AddAll([], Inserted(PassSteps(page)))
      ensures request.Unknown? ==> reply == Some(ErrorReply(UnknownAction)) && routes == old(routes)
    {
      match request
      case GetRoutes =>
        reply := Some(RoutesReply(routes));
      case AnalyzePageStructure =>
        reply := Some(StructureReply(ContentPage.AnalyzePageStructure(facts)));
      case AnalyzeRoute =>
        reply := None;
      case PageReady =>
        DetectRoutes(page);
        reply := None;
      case RefreshRoutes =>
        routes := [];
        DetectRoutes(page);
        reply := Some(SuccessReply);
      case Unknown(_) =>
        reply := Some(ErrorReply(UnknownAction));
    }
  }

  /** Detecting the same page twice stores nothing new: insertion into the set is idempotent. */
  lemma RedetectAddsNothing(routes: seq<DetectedRoute>, page: Page)
    ensures var once := Collections.AddAll(routes, Inserted(PassSteps(page)));
      Collections.AddAll(once, Inserted(PassSteps(page))) == once
  {
    Collections.AddAllIdempotent(routes, Inserted(PassSteps(page)));
  }

  /** After a refresh every stored route was inserted by the new pass: nothing stale survives. */
  lemma RefreshKeepsOnlyFresh(page: Page, r: DetectedRoute)
    requires r in Collections.AddAll([], Inserted(PassSteps(page)))
    ensures Insert(r) in PassSteps(page)
  {
  }
}
