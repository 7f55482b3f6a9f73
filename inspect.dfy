/**
 * The sequential part of inspectPage in src/inspect.go: the depth guard,
 * the admission request, the page's subpages and the summary counts. The
 * concurrent fan-out (a liveness probe and a recursive inspectPage per
 * subpage) is not part of this model; the probes are the function `probe`.
 */
module Inspect {
  import opened Wrappers
  import opened Urls
  import opened Href
  import opened Liveness
  import opened Visited

  /** How one inspectPage call ends. */
  datatype Inspection =
    | DepthExhausted                                  // depth <= 0: nothing requested, nothing fetched
    | AlreadyVisited                                  // admission refused: nothing fetched
    | Crashed                                         // handleHref panicked on one of the page's hrefs
    | Inspected(page: PageResult, summary: Summary)   // the page's subpages and its printed counts

  /**
   * inspectPage without its goroutines: `anchors` is what the page fetch and
   * the tokeniser produce (None when the fetch failed), `probe` is the
   * outcome of each subpage's liveness fetch.
   */
  method InspectPage(pageURL: string, depth: int, coordinator: VisitCoordinator,
                     anchors: Option<seq<string>>, probe: string -> Response, lib: UrlLibrary)
    returns (outcome: Inspection)
    modifies coordinator
    ensures depth <= 0 ==> coordinator.visited == old(coordinator.visited)
    ensures depth > 0 ==> coordinator.visited == old(coordinator.visited) + {pageURL}
    ensures outcome == DepthExhausted <==> depth <= 0
    ensures outcome == AlreadyVisited <==> depth > 0 && pageURL in old(coordinator.visited)
    ensures outcome.Inspected? <==>
              && depth > 0 && pageURL !in old(coordinator.visited)
              && (anchors.None? || Panic !in Resolutions(Normalize(pageURL, lib), anchors.value, lib))
    ensures Normalize(pageURL, lib) != [] && Normalize(pageURL, lib)[0] != '/' ==> outcome != Crashed
    ensures outcome.Inspected? ==>
              && outcome.summary.total == |outcome.page.subpages|
              && outcome.summary.active == outcome.summary.total - outcome.summary.inactive - outcome.summary.unknown
              && outcome.summary.active >= 0
              && outcome.summary.inactive == |LinksWith(outcome.page.subpages, probe, Inactive)|
              && outcome.summary.unknown == |LinksWith(outcome.page.subpages, probe, Unknown)|
    ensures depth > 0 && pageURL !in old(coordinator.visited) && anchors.None? ==>
              outcome.Inspected? && outcome.page == PageResult("", {})
    ensures depth > 0 && pageURL !in old(coordinator.visited) && anchors.Some? ==>
              (outcome == Crashed <==> Panic in Resolutions(Normalize(pageURL, lib), anchors.value, lib))
    ensures outcome.Inspected? && anchors.Some? ==>
              outcome.page.subpages == KeysOf(Resolutions(Normalize(pageURL, lib), anchors.value, lib))
  {
    if depth <= 0 {
      return DepthExhausted;
    }
    var admitted := coordinator.Admit(pageURL);
    if !admitted {
      return AlreadyVisited;
    }
    var r := FindSubpages(pageURL, anchors, lib);
    var pageurl := Normalize(pageURL, lib);
    if pageurl != [] && pageurl[0] != '/' && anchors.Some? {
      NoPanicOnPage(pageurl, anchors.value, lib);
    }
    if r.None? {
      return Crashed;
    }
    var summary := Tally(r.value.subpages, probe);
    LinksPartition(r.value.subpages, probe);
    outcome := Inspected(r.value, summary);
  }
}
