/**
 * Link classification (inspectSubpage in src/inspect.go) and the per-page
 * counters that inspectPage reports.
 */
module Liveness {
  import opened Text

  /** What the liveness probe of one subpage returned: a transport error or a status code. */
  datatype Response = TransportError | Status(code: int)

  /** active: no signal; inactive: a "ghost" page; unknown: could not be verified. */
  datatype Liveness = Active | Inactive | Unknown

  /** Which of the printed messages is chosen (the emoji texts themselves are not modelled). */
  datatype Message = ErrorOccurred | Reachable | Ghost | UnverifiableTwitter | Unverifiable

  datatype Verdict = Verdict(liveness: Liveness, message: Message)

  /**
   * inspectSubpage: 200 is active, 404 and 410 are ghosts, a transport error
   * and every other status are unknown; the Twitter caveat is chosen by a
   * plain substring test on the URL.
   */
  function InspectSubpage(url: string, resp: Response): (v: Verdict)
    ensures v.liveness == Active <==> resp == Status(200)
    ensures v.liveness == Inactive <==> resp == Status(404) || resp == Status(410)
    ensures resp.TransportError? <==> v.message == ErrorOccurred
    ensures v.message == UnverifiableTwitter <==> v.liveness == Unknown && resp.Status? && Contains(url, "twitter.com")
    ensures v.message == Reachable <==> resp == Status(200)
    ensures v.message == Ghost <==> v.liveness == Inactive
    ensures v.message == Unverifiable <==> v.liveness == Unknown && resp.Status? && !Contains(url, "twitter.com")
  {
    match resp
    case TransportError => Verdict(Unknown, ErrorOccurred)
    case Status(code) =>
      if code == 200 then Verdict(Active, Reachable)
      else if code == 404 || code == 410 then Verdict(Inactive, Ghost)
      else if Contains(url, "twitter.com") then Verdict(Unknown, UnverifiableTwitter)
      else Verdict(Unknown, Unverifiable)
  }

  /** The subpages whose probe gives the liveness `l`. */
  function LinksWith(subpages: set<string>, probe: string -> Response, l: Liveness): (r: set<string>)
    ensures r <= subpages
  {
    set u | u in subpages && InspectSubpage(u, probe(u)).liveness == l
  }

  /** Adding one unclassified subpage grows its own class by one and no other. */
  lemma LinksWithAdd(done: set<string>, url: string, probe: string -> Response, l: Liveness)
    requires url !in done
    ensures |LinksWith(done + {url}, probe, l)|
         == |LinksWith(done, probe, l)| + (if InspectSubpage(url, probe(url)).liveness == l then 1 else 0)
  {
    var before := LinksWith(done, probe, l);
    if InspectSubpage(url, probe(url)).liveness == l {
      assert LinksWith(done + {url}, probe, l) == before + {url};
    } else {
      assert LinksWith(done + {url}, probe, l) == before;
    }
  }

  /**
   * Each subpage sends at most one signal, so the three classes split the
   * subpages: their sizes add up to the number of subpages.
   */
  lemma LinksPartition(subpages: set<string>, probe: string -> Response)
    ensures |LinksWith(subpages, probe, Active)| + |LinksWith(subpages, probe, Inactive)|
            + |LinksWith(subpages, probe, Unknown)| == |subpages|
  {
    var active := LinksWith(subpages, probe, Active);
    var inactive := LinksWith(subpages, probe, Inactive);
    var unknown := LinksWith(subpages, probe, Unknown);
    assert active * inactive == {};
    assert (active + inactive) * unknown == {};
    assert active + inactive + unknown == subpages;
  }

  /**
   * Three distinct subpages answering 200, 404 and a transport error fall
   * into one class each.
   */
  lemma OneOfEachClass(a: string, b: string, c: string, probe: string -> Response)
    requires a != b && b != c && a != c
    requires probe(a) == Status(200) && probe(b) == Status(404) && probe(c) == TransportError
    ensures |LinksWith({a, b, c}, probe, Active)| == 1
    ensures |LinksWith({a, b, c}, probe, Inactive)| == 1
    ensures |LinksWith({a, b, c}, probe, Unknown)| == 1
  {
    assert LinksWith({a, b, c}, probe, Active) == {a};
    assert LinksWith({a, b, c}, probe, Inactive) == {b};
    assert LinksWith({a, b, c}, probe, Unknown) == {c};
  }

  /** The line inspectPage prints for a page: its subpage count and the three classes. */
  datatype Summary = Summary(total: int, active: int, inactive: int, unknown: int)

  /**
   * The counting half of inspectPage, done one subpage at a time: the
   * inactive and unknown counters each count their class, and the reported
   * active count `total - inactive - unknown` is exactly the number of
   * active subpages, hence never negative.
   */
  method Tally(subpages: set<string>, probe: string -> Response) returns (s: Summary)
    ensures s.total == |subpages|
    ensures s.inactive == |LinksWith(subpages, probe, Inactive)|
    ensures s.unknown == |LinksWith(subpages, probe, Unknown)|
    ensures s.active == |LinksWith(subpages, probe, Active)| && s.active >= 0
  {
    var inactiveCount, unknownCount := 0, 0;
    var pending, done := subpages, {};
    while pending != {}
      invariant pending + done == subpages && pending !! done
      invariant inactiveCount == |LinksWith(done, probe, Inactive)|
      invariant unknownCount == |LinksWith(done, probe, Unknown)|
      decreases pending
    {
      var url :| url in pending;
      var verdict := InspectSubpage(url, probe(url));
      match verdict.liveness {
        case Active =>
        case Inactive => inactiveCount := inactiveCount + 1;
        case Unknown => unknownCount := unknownCount + 1;
      }
      LinksWithAdd(done, url, probe, Inactive);
      LinksWithAdd(done, url, probe, Unknown);
      assert (pending - {url}) + (done + {url}) == pending + done;
      pending, done := pending - {url}, done + {url};
    }
    LinksPartition(subpages, probe);
    var total := |subpages|;
    s := Summary(total, total - inactiveCount - unknownCount, inactiveCount, unknownCount);
  }
}
