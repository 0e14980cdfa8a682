/** Properties relating the transports to each other and to repeated use. */
module TransportProps {
  import opened Wrappers
  import opened Transport

  /** Repeated viaDOM calls accumulate links: the head keeps its old entries
      and gains one prefetch link per call, in call order. */
  lemma {:induction false} ViaDOMEachAccumulates(head: seq<Link>, urls: seq<string>, hasCrossorigin: bool)
    ensures |ViaDOMEach(head, urls, hasCrossorigin)| == |head| + |urls|
    ensures ViaDOMEach(head, urls, hasCrossorigin)[..|head|] == head
    ensures forall i :: 0 <= i < |urls| ==>
      ViaDOMEach(head, urls, hasCrossorigin)[|head| + i] == PrefetchLink(urls[i], hasCrossorigin)
    decreases |urls|
  {
    if |urls| > 0 {
      var head1 := ViaDOM(head, urls[0], hasCrossorigin);
      ViaDOMEachAccumulates(head1, urls[1..], hasCrossorigin);
      var r := ViaDOMEach(head, urls, hasCrossorigin);
      assert r == ViaDOMEach(head1, urls[1..], hasCrossorigin);
      assert r[..|head|] == head by {
        assert r[..|head1|] == head1;
        assert head1[..|head|] == head;
      }
      forall i | 0 <= i < |urls|
        ensures r[|head| + i] == PrefetchLink(urls[i], hasCrossorigin)
      {
        if i == 0 {
          assert r[|head|] == r[..|head1|][|head|];
        } else {
          assert urls[1..][i - 1] == urls[i];
          assert |head| + i == |head1| + (i - 1);
        }
      }
    }
  }

  /** Without `fetch`, viaFetch is viaXHR with the credentials flag: the CORS
      mode and priority flags make no difference. */
  lemma FallbackIgnoresModeAndPriority(url: string, hasCredentials: bool,
                                       cors1: bool, cors2: bool, prio1: bool, prio2: bool)
    ensures ViaFetch(false, url, cors1, hasCredentials, prio1) == XhrIssued(ViaXHR(url, hasCredentials))
    ensures ViaFetch(false, url, cors1, hasCredentials, prio1) == ViaFetch(false, url, cors2, hasCredentials, prio2)
  {
  }

  /** Both paths of viaFetch send credentials exactly when asked to. */
  lemma ViaFetchCredentials(hasFetch: bool, url: string, hasModeCors: bool, hasCredentials: bool, isPriority: bool)
    ensures IssuedCredentials(ViaFetch(hasFetch, url, hasModeCors, hasCredentials, isPriority)) == Include
      <==> hasCredentials
  {
  }

  /** With `fetch`, the request is "cors" exactly when the CORS flag is set
      and "no-cors" otherwise; the XMLHttpRequest fallback is always "cors". */
  lemma ViaFetchMode(hasFetch: bool, url: string, hasModeCors: bool, hasCredentials: bool, isPriority: bool)
    ensures hasFetch ==>
      IssuedMode(ViaFetch(hasFetch, url, hasModeCors, hasCredentials, isPriority)) == (if hasModeCors then Cors else NoCors)
    ensures !hasFetch ==> IssuedMode(ViaFetch(hasFetch, url, hasModeCors, hasCredentials, isPriority)) == Cors
  {
  }

  /** The same HTTP error status settles the two paths of viaFetch
      differently: `fetch` resolves, the XMLHttpRequest fallback rejects. */
  lemma ErrorStatusDependsOnPath(url: string, hasModeCors: bool, hasCredentials: bool, isPriority: bool, status: nat)
    requires status != 200
    ensures IssuedSettle(ViaFetch(true, url, hasModeCors, hasCredentials, isPriority),
                         Some(Responded(status)), Some(Loaded(status))) == Resolved
    ensures IssuedSettle(ViaFetch(false, url, hasModeCors, hasCredentials, isPriority),
                         Some(Responded(status)), Some(Loaded(status))) == Rejected
  {
  }

  /** A network failure on the fallback path leaves the promise pending when
      credentials were requested (asynchronous open) and rejects it when they
      were not (synchronous open); an url `open()` cannot parse rejects it
      either way. */
  lemma FallbackNetworkFailure(url: string, hasModeCors: bool, hasCredentials: bool, isPriority: bool)
    ensures IssuedSettle(ViaFetch(false, url, hasModeCors, hasCredentials, isPriority), None, Some(NetworkFailure))
      == (if hasCredentials then Pending else Rejected)
    ensures IssuedSettle(ViaFetch(false, url, hasModeCors, hasCredentials, isPriority), None, Some(OpenFailed))
      == Rejected
  {
  }
}
