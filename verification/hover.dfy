/** prefetchOnHover as a state machine. The DOM query, the listeners and the
    timers are replaced by an abstract document and by a trace of events:
    `Enter(el)` and `Leave(el)` are mouseenter/mouseleave on an element and
    `Expire(t)` is the 200 ms timer `t` coming due (the dwell itself
    is not modelled, only the expiry event). One scheduler value is
    the state of one prefetchOnHover call. */
module Hover {
  import opened Wrappers

  /** Element identity (DOM nodes are compared by identity). */
  type ElemId = nat

  /** A `setTimeout` handle. */
  type TimerId = nat

  /** An element as the selector `a[href="url"]` sees it. */
  datatype Node = Node(id: ElemId, isAnchor: bool, href: Option<string>)

  /** A url that can be pasted between double quotes of a CSS string
      unchanged: no quote or backslash (which would end or escape the
      string), no CSS newline (which makes the string invalid) and no NUL
      (which CSS replaces). Only such urls select the anchors whose `href`
      equals them. */
  predicate SelectorSafe(url: string)
  {
    forall i :: 0 <= i < |url| ==> url[i] !in {'"', '\\', '\n', '\r', '\U{C}', '\0'}
  }

  /** `a[href="url"]` (section 6.3.1 of Selectors Level 3): anchors whose
      href attribute is exactly `url`, in document order. */
  function Query(doc: seq<Node>, url: string): (ids: seq<ElemId>)
    ensures forall id :: id in ids <==> exists n :: n in doc && n.id == id && n.isAnchor && n.href == Some(url)
    decreases |doc|
  {
    if |doc| == 0 then []
    else
      var rest := Query(doc[1..], url);
      assert forall n :: n in doc[1..] ==> n in doc;
      assert forall n :: n in doc ==> n == doc[0] || n in doc[1..];
      if doc[0].isAnchor && doc[0].href == Some(url) then [doc[0].id] + rest else rest
  }

  /** What caused a callback invocation: the call itself (immediate mode) or
      the expiry of a hover timer on an element. */
  datatype Trigger = Direct | Hovered(el: ElemId)

  /** One invocation `callback(url, ...args)`. The trigger is bookkeeping of
      the model; the callback does not receive it. */
  datatype Invocation<A> = Invocation(url: string, args: seq<A>, trigger: Trigger)

  /** The state of one prefetchOnHover call.
      - anchors: the elements the query returned;
      - listening: those that still have their mouseenter/mouseleave pair;
      - timerMap: the source's `timerMap`, element to last timer handle;
      - pending: timers scheduled and neither cleared nor fired, with the
        element whose mouseenter started them;
      - nextTimer: the handle the next `setTimeout` returns;
      - calls: the callback invocations so far, in order. */
  datatype Scheduler<A> = Scheduler(
    url: string,
    args: seq<A>,
    anchors: set<ElemId>,
    listening: set<ElemId>,
    timerMap: map<ElemId, TimerId>,
    pending: map<TimerId, ElemId>,
    nextTimer: TimerId,
    calls: seq<Invocation<A>>)

  datatype Event = Enter(el: ElemId) | Leave(el: ElemId) | Expire(timer: TimerId)

  /** What prefetchOnHover returns (None is `undefined`) and the state it leaves. */
  datatype Setup<A, R> = Setup(returned: Option<R>, state: Scheduler<A>)

  /** The scheduler state a gated call starts from. `setTimeout` handles are
      positive integers, so handles are drawn from 1 upwards. */
  function Gated<A>(doc: seq<Node>, url: string, args: seq<A>): Scheduler<A>
  {
    var anchors := set id | id in Query(doc, url);
    Scheduler(url, args, anchors, anchors, map[], map[], 1, [])
  }

  /** prefetchOnHover. Without `onlyOnMouseover` the callback runs at once and
      its result is returned; otherwise one listener pair is attached to
      every matching anchor, nothing runs and `undefined` is returned. The
      selector is only built in the gated case, so only there must the url
      be selector-safe. */
  function PrefetchOnHover<A, R>(callback: (string, seq<A>) -> R, doc: seq<Node>, url: string,
                                 onlyOnMouseover: bool, args: seq<A>): (s: Setup<A, R>)
    requires onlyOnMouseover ==> SelectorSafe(url)
    ensures !onlyOnMouseover ==>
      && s.returned == Some(callback(url, args))
      && s.state.calls == [Invocation(url, args, Direct)]
      && s.state.listening == {}
    ensures onlyOnMouseover ==>
      && s.returned.None?
      && s.state.calls == []
      && (forall id :: id in s.state.listening <==>
            exists n :: n in doc && n.id == id && n.isAnchor && n.href == Some(url))
      && s.state.timerMap == map[]
      && s.state.pending == map[]
  {
    if !onlyOnMouseover then
      Setup(Some(callback(url, args)),
            Scheduler(url, args, {}, {}, map[], map[], 1, [Invocation(url, args, Direct)]))
    else
      Setup(None, Gated(doc, url, args))
  }

  /** JavaScript truthiness of `timerMap.get(el)`: undefined and 0 are falsy. */
  function TimerTruthy(timer: Option<TimerId>): bool
  {
    timer.Some? && timer.value != 0
  }

  /** One event, handled as the listeners and the timer callback of the
      source handle it. Events on an element without listeners, and expiry
      of a timer that was cleared or already fired, change nothing. */
  function Step<A>(s: Scheduler<A>, e: Event): (r: Scheduler<A>)
    ensures r.url == s.url && r.args == s.args && r.anchors == s.anchors
    ensures r.listening <= s.listening
    ensures r.nextTimer >= s.nextTimer
    ensures |s.calls| <= |r.calls| <= |s.calls| + 1 && r.calls[..|s.calls|] == s.calls
    ensures |r.calls| == |s.calls| + 1 <==> e.Expire? && e.timer in s.pending
    ensures |r.calls| == |s.calls| + 1 ==>
      r.calls[|s.calls|] == Invocation(s.url, s.args, Hovered(s.pending[e.timer]))
    ensures (e.Enter? || e.Leave?) && e.el !in s.listening ==> r == s
    // enter arms a timer with a handle not handed out before, and clears none
    ensures e.Enter? && e.el in s.listening ==>
      && e.el in r.timerMap && r.timerMap[e.el] >= s.nextTimer
      && r.timerMap[e.el] in r.pending && r.pending[r.timerMap[e.el]] == e.el
      && s.pending.Keys <= r.pending.Keys
    // enter touches nothing but the new timer and the element's map entry
    ensures e.Enter? && e.el in s.listening ==>
      && r.listening == s.listening
      && r.calls == s.calls
      && r.pending.Keys == s.pending.Keys + {r.timerMap[e.el]}
      && (forall t :: t in s.pending && t != s.nextTimer ==> r.pending[t] == s.pending[t])
      && r.timerMap.Keys == s.timerMap.Keys + {e.el}
      && (forall x :: x in s.timerMap && x != e.el ==> r.timerMap[x] == s.timerMap[x])
    // leave keeps the listeners and removes at most the element's own entry and timer
    ensures e.Leave? ==>
      && r.listening == s.listening
      && r.calls == s.calls
      && (forall t :: t in r.pending ==> t in s.pending && r.pending[t] == s.pending[t])
      && (forall x :: x != e.el ==> (x in r.timerMap <==> x in s.timerMap))
      && (forall x :: x in r.timerMap ==> x in s.timerMap && r.timerMap[x] == s.timerMap[x])
    // expiry of a pending timer silences its element only and leaves the map entry
    ensures e.Expire? && e.timer in s.pending ==>
      && r.listening == s.listening - {s.pending[e.timer]}
      && r.pending == s.pending - {e.timer}
      && r.timerMap == s.timerMap
    // leave clears and unregisters the element's timer, if it has one
    ensures e.Leave? && e.el in s.listening && e.el in s.timerMap && s.timerMap[e.el] != 0 ==>
      && e.el !in r.timerMap && s.timerMap[e.el] !in r.pending
      && r.pending.Keys == s.pending.Keys - {s.timerMap[e.el]}
      && r.listening == s.listening
    ensures e.Expire? && e.timer !in s.pending ==> r == s
  {
    match e
    case Enter(el) =>
      if el !in s.listening then s
      else
        var timer := s.nextTimer;
        s.(pending := s.pending[timer := el],
           nextTimer := timer + 1,
           timerMap := s.timerMap[el := timer])
    case Leave(el) =>
      if el !in s.listening then s
      else
        var timer := Get(s.timerMap, el);
        if TimerTruthy(timer) then
          s.(pending := s.pending - {timer.value}, timerMap := s.timerMap - {el})
        else s
    case Expire(t) =>
      if t !in s.pending then s
      else
        var el := s.pending[t];
        s.(listening := s.listening - {el},
           pending := s.pending - {t},
           calls := s.calls + [Invocation(s.url, s.args, Hovered(el))])
  }

  /** The state after a trace of events, applied left to right. */
  function Run<A>(s: Scheduler<A>, trace: seq<Event>): (r: Scheduler<A>)
    ensures r.url == s.url && r.args == s.args && r.anchors == s.anchors
    ensures r.listening <= s.listening
    ensures |s.calls| <= |r.calls| <= |s.calls| + |trace|
    ensures r.calls[..|s.calls|] == s.calls
    decreases |trace|
  {
    if |trace| == 0 then s else Run(Step(s, trace[0]), trace[1..])
  }

  /** The facts every gated state keeps, whatever the trace. */
  ghost predicate Inv<A>(s: Scheduler<A>)
  {
    && s.listening <= s.anchors
    && 1 <= s.nextTimer
    && (forall t :: t in s.pending ==> 1 <= t < s.nextTimer && s.pending[t] in s.anchors)
    && (forall el :: el in s.timerMap ==> 1 <= s.timerMap[el] < s.nextTimer)
    // a registered timer that is still pending was started by that element
    && (forall el :: el in s.timerMap && s.timerMap[el] in s.pending ==> s.pending[s.timerMap[el]] == el)
    // a listening element's registered timer has neither fired nor been cleared
    && (forall el :: el in s.listening && el in s.timerMap ==>
          s.timerMap[el] in s.pending && s.pending[s.timerMap[el]] == el)
    // every invocation carries the original url and arguments and came
    // from an anchor that has since lost its listeners
    && (forall i :: 0 <= i < |s.calls| ==>
          && s.calls[i].url == s.url
          && s.calls[i].args == s.args
          && s.calls[i].trigger.Hovered?
          && s.calls[i].trigger.el in s.anchors
          && s.calls[i].trigger.el !in s.listening)
  }
}
