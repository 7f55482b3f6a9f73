/**
 * The visit coordinator (visitCoordinator in src/visited.go).
 *
 * The request channel and the per-request reply channel are replaced by a
 * method call and its result: a visitRequest is the pair of the URL passed to
 * `Admit` and the boolean it returns. URLs are compared as exact strings.
 */
module Visited {

  /** The single owner of the visited set. */
  class VisitCoordinator {
    var visited: set<string>

    constructor ()
      ensures visited == {}
    {
      visited := {};
    }

    /**
     * One request: the reply is true exactly when the URL had not been seen;
     * afterwards it has been. A rejected request changes nothing.
     */
    method Admit(url: string) returns (reply: bool)
      modifies this
      ensures reply <==> url !in old(visited)
      ensures visited == old(visited) + {url}
      ensures !reply ==> visited == old(visited)
    {
      var seen := url in visited;
      if !seen {
        visited := visited + {url};
      }
      reply := !seen;
    }
  }

  /** The URLs of a request sequence. */
  function Elems(requests: seq<string>): set<string> {
    set url | url in requests
  }

  /** One more request adds its URL to the requested set. */
  lemma ElemsStep(requests: seq<string>, i: nat)
    requires i < |requests|
    ensures Elems(requests[..i + 1]) == Elems(requests[..i]) + {requests[i]}
  {
  }

  /**
   * The replies the coordinator gives to `requests` when it starts with the
   * visited set `visited`: the last request is admitted when its URL is
   * neither in `visited` nor among the earlier requests.
   */
  function Replies(visited: set<string>, requests: seq<string>): (r: seq<bool>)
    ensures |r| == |requests|
    decreases |requests|
  {
    if requests == [] then []
    else
      var n := |requests| - 1;
      Replies(visited, requests[..n]) + [requests[n] !in visited + Elems(requests[..n])]
  }

  /** One more request appends its reply to those of the earlier requests. */
  lemma RepliesStep(visited: set<string>, requests: seq<string>, i: nat)
    requires i < |requests|
    ensures Replies(visited, requests[..i + 1])
         == Replies(visited, requests[..i]) + [requests[i] !in visited + Elems(requests[..i])]
  {
    assert requests[..i + 1][..i] == requests[..i];
  }

  /** The number of true replies. */
  function Admissions(replies: seq<bool>): nat
    decreases |replies|
  {
    if replies == [] then 0
    else Admissions(replies[..|replies| - 1]) + (if replies[|replies| - 1] then 1 else 0)
  }

  /**
   * The coordinator loop from an empty visited set: the replies are those of
   * `Replies`, and the final visited set holds exactly the requested URLs.
   */
  method Coordinate(requests: seq<string>) returns (replies: seq<bool>, visited: set<string>)
    ensures replies == Replies({}, requests)
    ensures visited == Elems(requests)
  {
    var coordinator := new VisitCoordinator();
    replies := [];
    var i := 0;
    while i < |requests|
      invariant 0 <= i <= |requests|
      invariant coordinator.visited == Elems(requests[..i])
      invariant replies == Replies({}, requests[..i])
    {
      var reply := coordinator.Admit(requests[i]);
      ElemsStep(requests, i);
      RepliesStep({}, requests, i);
      replies := replies + [reply];
      i := i + 1;
    }
    assert requests[..i] == requests;
    visited := coordinator.visited;
  }

  /**
   * A request is admitted exactly when its URL is neither already visited
   * nor requested earlier in the sequence.
   */
  lemma {:induction false} FirstRequestAdmitted(visited: set<string>, requests: seq<string>, i: nat)
    requires i < |requests|
    ensures Replies(visited, requests)[i] <==> requests[i] !in visited && requests[i] !in requests[..i]
    decreases |requests|
  {
    var n := |requests| - 1;
    if i < n {
      FirstRequestAdmitted(visited, requests[..n], i);
      assert requests[..n][..i] == requests[..i];
    } else {
      assert requests[i] in Elems(requests[..n]) <==> requests[i] in requests[..i];
    }
  }

  /** Two requests for the same URL are never both admitted. */
  lemma AdmittedAtMostOnce(visited: set<string>, requests: seq<string>, i: nat, j: nat)
    requires i < j < |requests| && requests[i] == requests[j]
    ensures !(Replies(visited, requests)[i] && Replies(visited, requests)[j])
  {
  }

  /** The index of the first request for `url`. */
  lemma {:induction false} FirstIndex(requests: seq<string>, url: string) returns (i: nat)
    requires url in requests
    ensures i < |requests| && requests[i] == url && url !in requests[..i]
    decreases |requests|
  {
    if requests[0] == url {
      i := 0;
    } else {
      var k := FirstIndex(requests[1..], url);
      i := k + 1;
      assert requests[..i] == [requests[0]] + requests[1..][..k];
    }
  }

  /** From an empty visited set, every requested URL is admitted once, at its first request. */
  lemma AdmittedAtFirstRequest(requests: seq<string>, url: string)
    requires url in requests
    ensures exists i :: 0 <= i < |requests| && requests[i] == url && Replies({}, requests)[i]
  {
  }

  /** The number of admissions is the number of new distinct URLs. */
  lemma {:induction false} AdmissionsCount(visited: set<string>, requests: seq<string>)
    ensures Admissions(Replies(visited, requests)) == |Elems(requests) - visited|
    decreases |requests|
  {
    if requests != [] {
      var n := |requests| - 1;
      var prefix := requests[..n];
      AdmissionsCount(visited, prefix);
      var before, isNew := Elems(prefix) - visited, requests[n] !in visited + Elems(prefix);
      var r := Replies(visited, requests);
      assert r[..n] == Replies(visited, prefix) && r[n] == isNew;
      assert Admissions(r) == |before| + (if isNew then 1 else 0);
      ElemsStep(requests, n);
      assert requests[..n + 1] == requests;
      if isNew {
        assert Elems(requests) - visited == before + {requests[n]};
      } else {
        assert Elems(requests) - visited == before;
      }
    }
  }

  /** Keys are exact strings: "http://a" and "https://a" are both admitted. */
  lemma NoNormalization(first: string, second: string)
    requires first != second
    ensures Replies({}, [first, second]) == [true, true]
  {
  }
}
