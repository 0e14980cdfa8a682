/** Properties of the hover scheduler over event traces. */
module HoverProps {
  import opened Wrappers
  import opened Hover

  /** A gated call starts in a state satisfying the invariant. */
  lemma GatedStartsInv<A, R>(callback: (string, seq<A>) -> R, doc: seq<Node>, url: string, args: seq<A>)
    requires SelectorSafe(url)
    ensures Inv(PrefetchOnHover(callback, doc, url, true, args).state)
  {
  }

  /** Every event preserves the invariant. */
  lemma StepInv<A>(s: Scheduler<A>, e: Event)
    requires Inv(s)
    ensures Inv(Step(s, e))
  {
  }

  /** Every trace preserves the invariant. */
  lemma {:induction false} RunInv<A>(s: Scheduler<A>, trace: seq<Event>)
    requires Inv(s)
    ensures Inv(Run(s, trace))
    decreases |trace|
  {
    if |trace| > 0 {
      StepInv(s, trace[0]);
      RunInv(Step(s, trace[0]), trace[1..]);
    }
  }

  // ---------------------------------------------------------------- single hovers

  /** Leaving before the timer fires cancels it: no invocation, the new
      timer is no longer pending, the element's map entry is gone and the
      listeners stay, so a later enter can start over. */
  lemma EnterThenLeaveCancels<A>(s: Scheduler<A>, el: ElemId)
    requires Inv(s)
    requires el in s.listening
    ensures var r := Run(s, [Enter(el), Leave(el)]);
      && r.calls == s.calls
      && r.pending == s.pending
      && r.listening == s.listening
      && el !in r.timerMap
      && (forall x :: x in s.timerMap && x != el ==> x in r.timerMap && r.timerMap[x] == s.timerMap[x])
  {
    var s1 := Step(s, Enter(el));
    var t := s.nextTimer;
    assert s1.timerMap[el] == t;
    var s2 := Step(s1, Leave(el));
    assert Run(s, [Enter(el), Leave(el)]) == s2 by {
      assert [Enter(el), Leave(el)][1..] == [Leave(el)];
      assert [Leave(el)][1..] == [];
      assert Run(s2, []) == s2;
      assert Run(s1, [Leave(el)]) == Run(s2, []);
    }
    assert s2.pending == s1.pending - {t};
    assert t !in s.pending;
  }

  /** A leave with no timer registered for the element does nothing. */
  lemma LeaveWithoutTimerIsNoOp<A>(s: Scheduler<A>, el: ElemId)
    requires el !in s.timerMap
    ensures Step(s, Leave(el)) == s
  {
  }

  /** Expiry of a pending timer removes that element's listeners, logs one
      invocation with the original url and arguments, and leaves the map
      entry in place. */
  lemma ExpireFires<A>(s: Scheduler<A>, t: TimerId)
    requires Inv(s)
    requires t in s.pending
    ensures var el := s.pending[t]; var r := Step(s, Expire(t));
      && r.listening == s.listening - {el}
      && r.calls == s.calls + [Invocation(s.url, s.args, Hovered(el))]
      && r.timerMap == s.timerMap
      && t !in r.pending
  {
  }

  /** An enter on an element that already has a registered timer does not
      clear it: the old timer stays pending for that element, and a fresh
      one becomes the registered timer. */
  lemma EnterOrphans<A>(s: Scheduler<A>, el: ElemId)
    requires Inv(s)
    requires el in s.listening && el in s.timerMap
    ensures var r := Step(s, Enter(el));
      && s.timerMap[el] in r.pending && r.pending[s.timerMap[el]] == el
      && r.timerMap[el] != s.timerMap[el]
      && r.timerMap[el] in r.pending && r.pending[r.timerMap[el]] == el
  {
  }

  /** Entering a listening element and letting the new timer expire invokes
      the callback exactly once, with the original url and arguments, and
      removes the element's listeners. */
  lemma EnterThenExpireFires<A>(s: Scheduler<A>, el: ElemId)
    requires Inv(s)
    requires el in s.listening
    ensures var r := Run(s, [Enter(el), Expire(s.nextTimer)]);
      && r.calls == s.calls + [Invocation(s.url, s.args, Hovered(el))]
      && r.listening == s.listening - {el}
  {
    var s1 := Step(s, Enter(el));
    var s2 := Step(s1, Expire(s.nextTimer));
    assert Run(s, [Enter(el), Expire(s.nextTimer)]) == s2 by {
      assert [Enter(el), Expire(s.nextTimer)][1..] == [Expire(s.nextTimer)];
      assert [Expire(s.nextTimer)][1..] == [];
      assert Run(s2, []) == s2;
      assert Run(s1, [Expire(s.nextTimer)]) == Run(s2, []);
    }
  }

  /** Only enters and leaves on `el`. */
  ghost predicate OnlyHovers(trace: seq<Event>, el: ElemId)
  {
    forall i :: 0 <= i < |trace| ==> trace[i] in {Enter(el), Leave(el)}
  }

  /** Once an element has lost its listeners, entering and leaving it
      change nothing at all. */
  lemma {:induction false} DeafElementIgnoresHovers<A>(s: Scheduler<A>, el: ElemId, trace: seq<Event>)
    requires el !in s.listening
    requires OnlyHovers(trace, el)
    ensures Run(s, trace) == s
    decreases |trace|
  {
    if |trace| > 0 {
      assert trace[0] in {Enter(el), Leave(el)};
      assert Step(s, trace[0]) == s;
      assert OnlyHovers(trace[1..], el) by {
        forall i | 0 <= i < |trace[1..]|
          ensures trace[1..][i] in {Enter(el), Leave(el)}
        {
          assert trace[1..][i] == trace[i + 1];
        }
      }
      DeafElementIgnoresHovers(s, el, trace[1..]);
    }
  }

  /** Once fired, an element never fires again through hovering: after the
      expiry, any sequence of enters and leaves on it changes nothing. */
  lemma FiredElementStaysQuiet<A>(s: Scheduler<A>, t: TimerId, trace: seq<Event>)
    requires Inv(s)
    requires t in s.pending
    requires OnlyHovers(trace, s.pending[t])
    ensures Run(Step(s, Expire(t)), trace) == Step(s, Expire(t))
  {
  }

  // ---------------------------------------------------------------- at most once per element

  /** The elements the pointer is inside after an event, as far as the
      trace tells: enter puts it inside, leave takes it out. */
  function PointerAfter(inside: set<ElemId>, e: Event): set<ElemId>
  {
    match e
    case Enter(el) => inside + {el}
    case Leave(el) => inside - {el}
    case Expire(_) => inside
  }

  /** Enter and leave alternate: no element is entered while the pointer is
      already inside it. */
  ghost predicate Alternates(inside: set<ElemId>, trace: seq<Event>)
    decreases |trace|
  {
    |trace| == 0 ||
    ((trace[0].Enter? ==> trace[0].el !in inside) && Alternates(PointerAfter(inside, trace[0]), trace[1..]))
  }

  /** No two invocations came from the same trigger. */
  ghost predicate DistinctTriggers<A>(calls: seq<Invocation<A>>)
  {
    forall i, j :: 0 <= i < j < |calls| ==> calls[i].trigger != calls[j].trigger
  }

  /** An element has a timer that can still fire and that leave would cancel. */
  ghost predicate Armed<A>(s: Scheduler<A>, el: ElemId)
  {
    el in s.timerMap && s.timerMap[el] in s.pending
  }

  /** What alternating traces keep on top of Inv: every pending timer is its
      element's registered one (no orphaned timer) and belongs to a
      listening element, only elements the pointer is inside are armed,
      and no element has fired twice. */
  ghost predicate Orderly<A>(s: Scheduler<A>, inside: set<ElemId>)
  {
    && Inv(s)
    && (forall t :: t in s.pending ==> s.pending[t] in s.timerMap && s.timerMap[s.pending[t]] == t)
    && (forall t :: t in s.pending ==> s.pending[t] in s.listening)
    && (forall el :: Armed(s, el) ==> el in inside)
    && DistinctTriggers(s.calls)
  }

  lemma OrderlyStep<A>(s: Scheduler<A>, inside: set<ElemId>, e: Event)
    requires Orderly(s, inside)
    requires e.Enter? ==> e.el !in inside
    ensures Orderly(Step(s, e), PointerAfter(inside, e))
  {
    StepInv(s, e);
  }

  /** Where the pointer is after a whole trace. */
  function PointerAfterAll(inside: set<ElemId>, trace: seq<Event>): set<ElemId>
    decreases |trace|
  {
    if |trace| == 0 then inside else PointerAfterAll(PointerAfter(inside, trace[0]), trace[1..])
  }

  lemma {:induction false} OrderlyRun<A>(s: Scheduler<A>, inside: set<ElemId>, trace: seq<Event>)
    requires Orderly(s, inside)
    requires Alternates(inside, trace)
    ensures Orderly(Run(s, trace), PointerAfterAll(inside, trace))
    decreases |trace|
  {
    if |trace| > 0 {
      OrderlyStep(s, inside, trace[0]);
      OrderlyRun(Step(s, trace[0]), PointerAfter(inside, trace[0]), trace[1..]);
    }
  }

  /** In a gated call driven by alternating enters and leaves, no element
      ever fires more than once. */
  lemma AtMostOncePerElement<A, R>(callback: (string, seq<A>) -> R, doc: seq<Node>, url: string,
                                   args: seq<A>, trace: seq<Event>)
    requires SelectorSafe(url)
    requires Alternates({}, trace)
    ensures var r := Run(PrefetchOnHover(callback, doc, url, true, args).state, trace);
      && (forall i :: 0 <= i < |r.calls| ==> r.calls[i].trigger.Hovered?)
      && (forall i, j :: 0 <= i < j < |r.calls| ==>
            r.calls[i].trigger.Hovered? && r.calls[j].trigger.Hovered? && r.calls[i].trigger.el != r.calls[j].trigger.el)
  {
    var s0 := PrefetchOnHover(callback, doc, url, true, args).state;
    assert Orderly(s0, {});
    OrderlyRun(s0, {}, trace);
  }

  /** Invocations with distinct triggers, all hovers on elements of
      `anchors`, number at most |anchors|. */
  lemma {:induction false} DistinctHoversBounded<A>(calls: seq<Invocation<A>>, anchors: set<ElemId>)
    requires DistinctTriggers(calls)
    requires forall i :: 0 <= i < |calls| ==> calls[i].trigger.Hovered? && calls[i].trigger.el in anchors
    ensures |calls| <= |anchors|
    decreases |calls|
  {
    if |calls| > 0 {
      var el := calls[0].trigger.el;
      var rest := calls[1..];
      forall i | 0 <= i < |rest|
        ensures rest[i].trigger.Hovered? && rest[i].trigger.el in anchors - {el}
      {
        assert rest[i] == calls[i + 1];
        assert calls[0].trigger != calls[i + 1].trigger;
      }
      assert DistinctTriggers(rest) by {
        forall i, j | 0 <= i < j < |rest|
          ensures rest[i].trigger != rest[j].trigger
        {
          assert rest[i] == calls[i + 1] && rest[j] == calls[j + 1];
        }
      }
      DistinctHoversBounded(rest, anchors - {el});
    }
  }

  /** In a gated call driven by alternating enters and leaves, the callback
      runs at most once per matching anchor, with the original url and
      arguments every time. */
  lemma CallsBoundedByAnchors<A, R>(callback: (string, seq<A>) -> R, doc: seq<Node>, url: string,
                                    args: seq<A>, trace: seq<Event>)
    requires SelectorSafe(url)
    requires Alternates({}, trace)
    ensures var s0 := PrefetchOnHover(callback, doc, url, true, args).state;
      var r := Run(s0, trace);
      && |r.calls| <= |s0.anchors|
      && forall i :: 0 <= i < |r.calls| ==> r.calls[i].url == url && r.calls[i].args == args
  {
    var s0 := PrefetchOnHover(callback, doc, url, true, args).state;
    assert Orderly(s0, {});
    OrderlyRun(s0, {}, trace);
    DistinctHoversBounded(Run(s0, trace).calls, s0.anchors);
  }

  // ---------------------------------------------------------------- concrete traces

  /** Two enters without a leave orphan the first timer: it cannot be
      cleared any more, and both timers fire the callback for the same
      element. */
  lemma DoubleEnterFiresTwice()
    ensures var url := "/next";
      var s0 := PrefetchOnHover((u: string, a: seq<int>) => 0, [Node(7, true, Some(url))], url, true, []).state;
      var r := Run(s0, [Enter(7), Enter(7), Expire(1), Expire(2)]);
      r.calls == [Invocation(url, [], Hovered(7)), Invocation(url, [], Hovered(7))]
  {
  }

  /** One anchor for "https://example.com/a": entering it and letting the
      timer expire invokes the callback once with the url; a later enter,
      leave and enter, and any further expiry, add nothing. */
  lemma HoverScenario()
    ensures var url := "https://example.com/a";
      var doc := [Node(1, true, Some(url)), Node(2, true, Some("https://example.com/b")), Node(3, false, Some(url))];
      var s0 := PrefetchOnHover((u: string, a: seq<bool>) => 0, doc, url, true, []).state;
      var r := Run(s0, [Enter(1), Expire(1), Enter(1), Leave(1), Enter(1), Expire(2)]);
      && r.calls == [Invocation(url, [], Hovered(1))]
      && r.listening == {}
  {
  }

}
