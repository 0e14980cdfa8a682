# quicklink prefetch core, modelled in Dafny

This project models `src/prefetch.mjs` of quicklink. That file is a browser
helper that warms the cache for a URL before the user navigates to it. The
browser is replaced by abstract values:

- a `<link>` element record and a document-head sequence stand for the DOM;
- an XMLHttpRequest record (arguments of `open`, `withCredentials`, headers,
  `send`) and a fetch `RequestInit` record stand for the network APIs;
- capability booleans stand for `window.fetch` and `relList.supports`;
- a trace of `Enter(el)`, `Leave(el)` and `Expire(timer)` events stands for
  mouse events and the 200 ms timers.

Modules:

- `Transport` (transport.dfy) holds `viaDOM`, `viaXHR` and `viaFetch` as pure
  functions from their flags to the request they set up. It also holds the
  rule that maps how each request ends to a promise outcome
  (`Pending | Resolved | Rejected`), and the request and credentials mode the
  browser derives from each request record.
- `TransportProps` (transport_props.dfy) relates the transports: the fallback
  path of viaFetch, and how links accumulate in the head.
- `Selection` (selection.dfy) holds the `hasPrefetch` probe, the
  `supported` binding, and what calling the bound transport with positional
  flags does.
- `Hover` (hover.dfy) holds `prefetchOnHover` as a setup function and a step
  function, folded over an event trace, together with the invariant of gated
  states.
- `HoverProps` (hover_props.dfy) holds the trace lemmas. A hover cancelled
  before expiry invokes nothing. An expiry invokes the callback once and
  silences the element for good. With alternating enter/leave, each anchor
  fires at most once.

Behaviour of the code worth noting:

- `hasPrefetch` returns `undefined`, not a boolean, when `relList` or
  `supports` is missing, despite its `@return {Boolean}` comment
  (src/prefetch.mjs:24, 28). The `&&` chain returns its first falsy operand.
- viaXHR installs only `onload` (src/prefetch.mjs:67-74). An asynchronous
  request that fails at the network level therefore never settles its
  promise.
  - The request is synchronous when `hasCredentials` is false, because
    `open`'s third argument is the value of the `withCredentials` assignment
    (src/prefetch.mjs:63).
  - A synchronous `send()` throws on a network failure, and so does `open()`
    on an url it cannot parse. Both throws happen inside the promise
    executor, so in those cases the promise rejects.
- The mouseenter listener overwrites the element's `timerMap` entry without
  clearing the timer already registered there (src/prefetch.mjs:120-125).
  - A second mouseenter without a mouseleave therefore leaves an orphaned
    timer that mouseleave can no longer clear. Both timers then fire the
    callback for the same element (`HoverProps.EnterOrphans`,
    `HoverProps.DoubleEnterFiresTwice`).
  - Removing the listeners on expiry (src/prefetch.mjs:121-122) gives "at
    most once per element" only for traces where enter and leave alternate
    (`HoverProps.AtMostOncePerElement`).
- The `fetch` path resolves on any HTTP response, 404 included. The
  XMLHttpRequest fallback rejects every status other than 200
  (src/prefetch.mjs:68, 101; `TransportProps.ErrorStatusDependsOnPath`).

## Model

| member | source | states |
|---|---|---|
| `Wrappers.Get` | src/prefetch.mjs:129 | `timerMap.get(el)` yields a value exactly when the element has an entry, and that value is the entry |
| `Transport.PrefetchLink` | src/prefetch.mjs:39-44 | the created link has rel "prefetch" and href equal to the url; it has a crossorigin attribute exactly when requested, and its value is "anonymous" |
| `Transport.ViaDOM` | src/prefetch.mjs:37-50 | viaDOM appends exactly one link to the head: the prefetch link for the url, carrying crossorigin="anonymous" exactly when requested; earlier head entries are unchanged |
| `TransportProps.ViaDOMEachAccumulates` | src/prefetch.mjs:37-50 | repeated viaDOM calls accumulate: the head keeps its old prefix and gains one link per call, in call order, each for its own url |
| `Transport.DomSettle` | src/prefetch.mjs:46-47 | the link's load event resolves the promise, its error event rejects it, and without either it stays pending |
| `Transport.ViaXHR` | src/prefetch.mjs:59-65 | the request is opened with GET and the url; withCredentials equals hasCredentials and so does the async argument of open; `Accept: */*` is the only header set; send is called |
| `Transport.XhrSettle` | src/prefetch.mjs:59-76 | the promise resolves exactly on a load with status 200; it rejects on any other status, on a url `open()` cannot parse, and on a network failure of a synchronous request; a network failure of an asynchronous request leaves it pending |
| `Transport.FetchOptions` | src/prefetch.mjs:97-100 | accept is always `*/*`; mode is present exactly when the CORS flag is off, and is then "no-cors" (never "cors"); credentials is present exactly when requested, as "include"; priority is always present, "high" exactly when isPriority and "low" otherwise |
| `Transport.ViaFetch` | src/prefetch.mjs:89-102 | a fetch is issued exactly when fetch exists, for the url with the options above; otherwise the request is viaXHR with the credentials flag |
| `Transport.FetchSettle` | src/prefetch.mjs:101 | the returned fetch promise resolves on any HTTP response, whatever its status. It rejects only when the fetch fails: a network error, or a TypeError thrown before any request for an unparseable url or one carrying credentials |
| `TransportProps.FallbackIgnoresModeAndPriority` | src/prefetch.mjs:101 | without fetch, viaFetch equals viaXHR(url, hasCredentials), and the CORS and priority flags make no difference |
| `TransportProps.ViaFetchCredentials` | src/prefetch.mjs:99-101 | on both the fetch path and the XHR fallback, credentials are included exactly when hasCredentials is set |
| `TransportProps.ViaFetchMode` | src/prefetch.mjs:98-101 | with fetch, the request is "cors" exactly when hasModeCors and "no-cors" otherwise; the XHR fallback is always "cors", since it drops the flag |
| `TransportProps.ErrorStatusDependsOnPath` | src/prefetch.mjs:67-101 | for any non-200 status, the fetch path resolves while the XHR fallback rejects |
| `TransportProps.FallbackNetworkFailure` | src/prefetch.mjs:63-101 | on the XHR fallback, a network failure leaves the promise pending when credentials were requested and rejects it otherwise; an unparseable url rejects it either way |
| `Selection.HasPrefetch` | src/prefetch.mjs:26-29 | the probe is truthy exactly when relList exists, supports exists and accepts "prefetch"; it is undefined exactly when relList or supports is missing, and a boolean otherwise; the link argument plays no part |
| `Selection.Supported` | src/prefetch.mjs:141 | `supported` is viaDOM exactly when relList and supports exist and "prefetch" is supported; otherwise it is viaFetch |
| `Selection.Invoke` | src/prefetch.mjs:141 | calling the bound transport as `transport(url, ...flags)`: viaDOM appends exactly the prefetch link for the url with the first flag as crossorigin; viaFetch leaves the head alone and issues, for the url, a fetch with the first three flags as (cors, credentials, priority) when fetch exists, else viaXHR with the second flag; missing flags read as false |
| `Selection.SupportedFirstFlagIsCors` | src/prefetch.mjs:37-101 | the first flag passed to `supported` gives a "cors" request exactly when set, and a "no-cors" one otherwise, on both bindings; the exception is viaFetch's XHR fallback, which is always "cors" |
| `Hover.Query` | src/prefetch.mjs:115 | the selected elements are exactly the anchors whose href equals the url |
| `Hover.PrefetchOnHover` | src/prefetch.mjs:112-139 | immediate mode returns the callback's result and logs exactly one invocation with the url and args, attaching no listeners; gated mode returns undefined, invokes nothing, and attaches listeners to exactly the anchors whose href equals the url |
| `Hover.Step` | src/prefetch.mjs:119-134 | enter on a listening element registers a timer with a handle never handed out before, pending for that element; every other pending timer, map entry and listener stays as it was. Leave on a listening element with a registered timer clears and unregisters that timer and keeps the listeners; no other entry or timer changes. Expiry of a pending timer removes only its element's listeners, keeps the map entry, and adds exactly one invocation with the original url and args. Events on silenced elements and expiry of dead timers change nothing |
| `Hover.Run` | src/prefetch.mjs:118-138 | over any trace, url, args and the anchor set are fixed, listeners are only ever removed, and the invocation log only grows, by at most one per event |
| `HoverProps.GatedStartsInv` | src/prefetch.mjs:115-138 | a gated call starts in a state satisfying the scheduler invariant |
| `HoverProps.StepInv` | src/prefetch.mjs:119-134 | every event preserves the invariant. For a listening element, the registered timer is still pending and belongs to it. Every invocation carries the original url and args and comes from an anchor that has lost its listeners |
| `HoverProps.RunInv` | src/prefetch.mjs:119-134 | every event trace preserves the invariant |
| `HoverProps.EnterThenLeaveCancels` | src/prefetch.mjs:119-133 | enter then leave before expiry invokes nothing, leaves no new pending timer, deletes the element's map entry, keeps the listeners and leaves other entries alone |
| `HoverProps.LeaveWithoutTimerIsNoOp` | src/prefetch.mjs:128-134 | a leave on an element without a map entry changes nothing |
| `HoverProps.EnterOrphans` | src/prefetch.mjs:119-126 | an enter on an element that already has a registered timer leaves that timer pending for the element and registers a different pending timer in its place |
| `HoverProps.EnterThenExpireFires` | src/prefetch.mjs:119-126 | for any listening element, enter followed by expiry of the timer it started appends exactly one invocation with the original url and args and removes that element's listeners |
| `HoverProps.ExpireFires` | src/prefetch.mjs:120-124 | expiry of a pending timer removes that element's listeners and logs exactly one invocation with the original url and args; the map entry is not deleted |
| `HoverProps.DeafElementIgnoresHovers` | src/prefetch.mjs:121-122 | once an element has lost its listeners, any sequence of enters and leaves on it changes nothing |
| `HoverProps.FiredElementStaysQuiet` | src/prefetch.mjs:120-137 | after its timer fires, later enters and leaves on that element change nothing |
| `HoverProps.OrderlyStep` | src/prefetch.mjs:119-134 | when no element is entered twice without a leave, every pending timer stays its element's registered one, only elements under the pointer are armed, and no trigger fires twice |
| `HoverProps.OrderlyRun` | src/prefetch.mjs:119-134 | along every alternating trace, all of the orderly-state facts hold in the final state for the final pointer position: the invariant, no orphaned pending timer, every pending timer's element still listening, only elements under the pointer armed, and no trigger fired twice |
| `HoverProps.AtMostOncePerElement` | src/prefetch.mjs:119-137 | in a gated call driven by alternating enters and leaves, every invocation comes from a hover and no element fires twice |
| `HoverProps.CallsBoundedByAnchors` | src/prefetch.mjs:115-137 | in a gated call driven by alternating enters and leaves, the callback runs at most once per matching anchor, always with the original url and args |
| `HoverProps.DoubleEnterFiresTwice` | src/prefetch.mjs:119-125 | two enters without a leave orphan the first timer, and the one element then invokes the callback twice |
| `HoverProps.HoverScenario` | src/prefetch.mjs:112-138 | with one matching anchor: enter, then expiry, invokes the callback once with the url; later enter/leave/enter and another expiry add nothing, and no listeners remain |

## Left out

- The license header (src/prefetch.mjs:1-18) and the doc comments.
- The real DOM, network and timer implementations (`document.createElement`, `querySelectorAll`, `fetch`, `XMLHttpRequest`, `setTimeout`, `clearTimeout`). They are foreign calls, so they are replaced by records, capability flags and trace events.
- Promise and event-loop scheduling and wall-clock time. Settlement is an outcome value, and the 200 ms dwell is reduced to the `Expire` event.
- What the browser does with an issued request: caching, CORS enforcement and priority handling. Only the request and credentials modes it derives are modelled.
- The payload of a settled promise: fetch fulfils with a Response, which the model reduces to `Resolved`.
- CSS selector parsing beyond the exact `[href="url"]` match. In gated mode `Hover.PrefetchOnHover` requires a url with no `"`, `\`, CSS newline or NUL; any other url builds a different or malformed selector.
- Hover.PrefetchOnHover: in immediate mode, the model does not show the effect of the callback itself, only its result and the single invocation.
- Timer handles are drawn from a counter starting at 1; a browser may pick any positive handle not in use, which only renames them.
- Header-name case folding: `Accept` and `accept` are kept as written.
