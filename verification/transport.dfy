/** The three transports of src/prefetch.mjs, each a pure function from its
    flags to the request it issues, plus the rule by which the promise it
    returns settles. The browser is replaced by abstract records: a `<link>`
    element, an XMLHttpRequest open/header/send record and a fetch `RequestInit`. */
module Transport {
  import opened Wrappers

  /** How a transport's promise has settled so far. */
  datatype Outcome = Pending | Resolved | Rejected

  // ---------------------------------------------------------------- viaDOM

  /** A `<link>` element as viaDOM configures it. */
  datatype Link = Link(rel: string, href: string, crossorigin: Option<string>)

  /** The element viaDOM creates before appending it. */
  function PrefetchLink(url: string, hasCrossorigin: bool): (l: Link)
    ensures l.rel == "prefetch" && l.href == url
    ensures l.crossorigin.Some? <==> hasCrossorigin
    ensures l.crossorigin.Some? ==> l.crossorigin.value == "anonymous"
  {
    var link := Link("prefetch", url, None);
    if hasCrossorigin then link.(crossorigin := Some("anonymous")) else link
  }

  /** viaDOM: append one prefetch link to the document head. The head is
      append-only; nothing already in it is touched. */
  function ViaDOM(head: seq<Link>, url: string, hasCrossorigin: bool): (head': seq<Link>)
    ensures |head'| == |head| + 1
    ensures head'[..|head|] == head
    ensures head'[|head|] == PrefetchLink(url, hasCrossorigin)
  {
    head + [PrefetchLink(url, hasCrossorigin)]
  }

  /** Repeated viaDOM calls, one per url, all with the same crossorigin flag. */
  function ViaDOMEach(head: seq<Link>, urls: seq<string>, hasCrossorigin: bool): (head': seq<Link>)
    decreases |urls|
  {
    if |urls| == 0 then head
    else ViaDOMEach(ViaDOM(head, urls[0], hasCrossorigin), urls[1..], hasCrossorigin)
  }

  /** The events a prefetch link can fire; `onload` resolves, `onerror` rejects. */
  datatype LinkEvent = LinkLoad | LinkError

  function DomSettle(event: Option<LinkEvent>): (o: Outcome)
    ensures o == Resolved <==> event == Some(LinkLoad)
    ensures o == Rejected <==> event == Some(LinkError)
    ensures o == Pending <==> event.None?
  {
    match event
    case None => Pending
    case Some(LinkLoad) => Resolved
    case Some(LinkError) => Rejected
  }

  // ---------------------------------------------------------------- viaXHR

  datatype Header = Header(name: string, value: string)

  /** What viaXHR does to its XMLHttpRequest: the arguments of `open` (its method is `verb`), the
      `withCredentials` flag, the headers set and whether `send` was called. */
  datatype XhrCall = XhrCall(
    verb: string,
    url: string,
    async: bool,
    withCredentials: bool,
    headers: seq<Header>,
    sent: bool)

  /** viaXHR. The third argument of `open` is the value of the assignment
      `request.withCredentials = hasCredentials`, so the request is
      synchronous exactly when credentials are not requested. */
  function ViaXHR(url: string, hasCredentials: bool): (x: XhrCall)
    ensures x.verb == "GET" && x.url == url
    ensures x.withCredentials == hasCredentials
    ensures x.async == hasCredentials
    ensures x.headers == [Header("Accept", "*/*")]
    ensures x.sent
  {
    var withCredentials := hasCredentials;
    var afterOpen := XhrCall("GET", url, withCredentials, withCredentials, [], false);
    var withAccept := afterOpen.(headers := afterOpen.headers + [Header("Accept", "*/*")]);
    withAccept.(sent := true)
  }

  /** How an XMLHttpRequest ends: a load with an HTTP status, a
      network-level failure, or `open()` throwing because the url does not
      parse. */
  datatype XhrEnd = Loaded(status: nat) | NetworkFailure | OpenFailed

  /** Settlement of viaXHR's promise. Only `onload` is handled: it resolves
      exactly on status 200 and rejects otherwise. A network failure fires
      no handled event on an asynchronous request, so the promise stays
      pending; on a synchronous request `send()` throws instead (the
      request error steps of the XMLHttpRequest Living Standard), and an
      exception inside the promise executor rejects the promise. An url that
      does not parse makes `open()` throw a SyntaxError inside the executor,
      which rejects the promise whether the request is synchronous or not. */
  function XhrSettle(x: XhrCall, end: Option<XhrEnd>): (o: Outcome)
    ensures o == Resolved <==> end == Some(Loaded(200))
    ensures o == Rejected <==>
      (end.Some? && end.value.Loaded? && end.value.status != 200) ||
      (end == Some(NetworkFailure) && !x.async) ||
      end == Some(OpenFailed)
    ensures o == Pending <==> end.None? || (end == Some(NetworkFailure) && x.async)
  {
    match end
    case None => Pending
    case Some(Loaded(status)) => if status == 200 then Resolved else Rejected
    case Some(NetworkFailure) => if x.async then Pending else Rejected
    case Some(OpenFailed) => Rejected
  }

  // ---------------------------------------------------------------- viaFetch

  /** The `RequestInit` dictionary viaFetch builds (section 5.4 of the Fetch
      Standard); an absent member is None. */
  datatype FetchInit = FetchInit(
    headers: map<string, string>,
    mode: Option<string>,
    credentials: Option<string>,
    priority: Option<string>)

  /** The options object of viaFetch, built member by member as the source does. */
  function FetchOptions(hasModeCors: bool, hasCredentials: bool, isPriority: bool): (o: FetchInit)
    ensures o.headers == map["accept" := "*/*"]
    ensures o.mode.Some? <==> !hasModeCors
    ensures o.mode.Some? ==> o.mode.value == "no-cors"
    ensures o.credentials.Some? <==> hasCredentials
    ensures o.credentials.Some? ==> o.credentials.value == "include"
    ensures o.priority.Some?
    ensures o.priority.value == "high" <==> isPriority
    ensures o.priority.value == "low" <==> !isPriority
  {
    var options := FetchInit(map["accept" := "*/*"], None, None, None);
    var options := if !hasModeCors then options.(mode := Some("no-cors")) else options;
    var options := if hasCredentials then options.(credentials := Some("include")) else options;
    if isPriority then options.(priority := Some("high")) else options.(priority := Some("low"))
  }

  /** A request issued over the network API: a `fetch(url, init)` call or an
      XMLHttpRequest. */
  datatype Issued = FetchIssued(url: string, init: FetchInit) | XhrIssued(xhr: XhrCall)

  /** viaFetch: `fetch(url, options)` when the environment has `fetch`,
      otherwise viaXHR with the credentials flag alone. */
  function ViaFetch(hasFetch: bool, url: string, hasModeCors: bool, hasCredentials: bool, isPriority: bool): (r: Issued)
    ensures r.FetchIssued? <==> hasFetch
    ensures r.FetchIssued? ==> r.url == url && r.init == FetchOptions(hasModeCors, hasCredentials, isPriority)
    ensures r.XhrIssued? ==> r.xhr == ViaXHR(url, hasCredentials)
  {
    var options := FetchOptions(hasModeCors, hasCredentials, isPriority);
    if hasFetch then FetchIssued(url, options) else XhrIssued(ViaXHR(url, hasCredentials))
  }

  /** How a `fetch` call ends: any HTTP response, or a failure. A failure is
      a network error, or the `Request` constructor throwing a TypeError
      before any network activity (an url that does not parse, or one with
      a username or password). */
  datatype FetchEnd = Responded(status: nat) | FetchFailed

  /** Settlement of a `fetch` promise: it fulfils with the response whatever
      its status and rejects only when the fetch fails. */
  function FetchSettle(end: Option<FetchEnd>): (o: Outcome)
    ensures o == Resolved <==> end.Some? && end.value.Responded?
    ensures o == Rejected <==> end == Some(FetchFailed)
  {
    match end
    case None => Pending
    case Some(Responded(_)) => Resolved
    case Some(FetchFailed) => Rejected
  }

  // ---------------------------------------------------------------- request semantics

  /** The request mode the browser derives from what a transport set up. */
  datatype Mode = Cors | NoCors | SameOrigin

  /** The credentials mode the browser derives from what a transport set up. */
  datatype Credentials = Omit | SameOriginCredentials | Include

  /** A link without a crossorigin attribute fetches in "no-cors" mode; with
      crossorigin="anonymous" it fetches in "cors" mode (the HTML Standard's
      CORS settings attributes). */
  function LinkMode(l: Link): Mode
  {
    if l.crossorigin.Some? then Cors else NoCors
  }

  /** The request mode of an issued request: a `fetch` of a URL string
      defaults to "cors" (the `Request` constructor of the Fetch Standard)
      and an XMLHttpRequest always uses "cors". */
  function IssuedMode(i: Issued): Mode
  {
    match i
    case FetchIssued(_, init) =>
      if init.mode == Some("no-cors") then NoCors
      else if init.mode == Some("same-origin") then SameOrigin
      else Cors
    case XhrIssued(_) => Cors
  }

  /** The credentials mode of an issued request: `fetch` defaults to
      "same-origin"; an XMLHttpRequest uses "include" exactly when
      `withCredentials` is set and "same-origin" otherwise. */
  function IssuedCredentials(i: Issued): Credentials
  {
    match i
    case FetchIssued(_, init) =>
      if init.credentials == Some("include") then Include
      else if init.credentials == Some("omit") then Omit
      else SameOriginCredentials
    case XhrIssued(x) => if x.withCredentials then Include else SameOriginCredentials
  }

  /** The settlement of whichever request viaFetch issued. */
  function IssuedSettle(i: Issued, fetchEnd: Option<FetchEnd>, xhrEnd: Option<XhrEnd>): Outcome
  {
    match i
    case FetchIssued(_, _) => FetchSettle(fetchEnd)
    case XhrIssued(x) => XhrSettle(x, xhrEnd)
  }
}
