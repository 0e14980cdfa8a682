/** The capability probe `hasPrefetch` and the load-time binding `supported`,
    with the browser's capabilities passed in as an explicit environment. */
module Selection {
  import opened Wrappers
  import opened Transport

  /** The JavaScript values the probe can produce. `relList` and its
      `supports` method are objects; `supports('prefetch')` is a boolean. */
  datatype JsValue = Undefined | JsObject | JsBool(b: bool)

  function Truthy(v: JsValue): bool
  {
    match v
    case Undefined => false
    case JsObject => true
    case JsBool(b) => b
  }

  /** JavaScript's `a && b`: the first operand when it is falsy, else the second. */
  function JsAnd(a: JsValue, b: JsValue): JsValue
  {
    if Truthy(a) then b else a
  }

  /** A fresh link's `relList`: absent, or present with a `supports` method
      that is absent or accepts exactly the tokens in the set. */
  datatype RelList = RelList(supports: Option<set<string>>)

  /** What the environment offers: the `relList` of a newly created link and
      whether `window.fetch` exists. */
  datatype Env = Env(relList: Option<RelList>, hasFetch: bool)

  function RelListValue(env: Env): JsValue
  {
    if env.relList.Some? then JsObject else Undefined
  }

  function SupportsValue(env: Env): JsValue
    requires env.relList.Some?
  {
    if env.relList.value.supports.Some? then JsObject else Undefined
  }

  /** hasPrefetch. The `link` argument is overwritten by a fresh element
      before it is read, so it never matters. The `&&` chain returns
      `undefined`, not `false`, when `relList` or `supports` is missing. */
  function HasPrefetch<L>(link: L, env: Env): (v: JsValue)
    ensures Truthy(v) <==>
      env.relList.Some? && env.relList.value.supports.Some? && "prefetch" in env.relList.value.supports.value
    ensures v.Undefined? <==> env.relList.None? || env.relList.value.supports.None?
    ensures !v.Undefined? ==> v.JsBool?
  {
    var relList := RelListValue(env);
    if !Truthy(relList) then relList
    else
      var supports := SupportsValue(env);
      JsAnd(JsAnd(relList, supports),
            if supports.JsObject? then JsBool("prefetch" in env.relList.value.supports.value) else Undefined)
  }

  /** The two transports `supported` can be bound to. */
  datatype Strategy = DomStrategy | FetchStrategy

  /** `supported`: viaDOM when the probe is truthy, viaFetch otherwise. */
  function Supported(env: Env): (s: Strategy)
    ensures s == DomStrategy <==>
      env.relList.Some? && env.relList.value.supports.Some? && "prefetch" in env.relList.value.supports.value
  {
    if Truthy(HasPrefetch(Undefined, env)) then DomStrategy else FetchStrategy
  }

  /** The i-th trailing argument read as a flag: a missing argument is
      `undefined`, which is falsy. */
  function Flag(flags: seq<bool>, i: nat): bool
  {
    i < |flags| && flags[i]
  }

  /** What one call of a transport does: the document head afterwards and
      the request it started (a link, or a network request). */
  datatype Effect = LinkEffect(head: seq<Link>) | NetworkEffect(head: seq<Link>, issued: Issued)

  /** Calling a transport as `transport(url, ...flags)`. The same positional
      flags mean (hasCrossorigin) to viaDOM and (hasModeCors, hasCredentials,
      isPriority) to viaFetch. */
  function Invoke(s: Strategy, env: Env, head: seq<Link>, url: string, flags: seq<bool>): (e: Effect)
    ensures e.LinkEffect? <==> s == DomStrategy
    ensures |e.head| == |head| + (if s == DomStrategy then 1 else 0)
    ensures e.head[..|head|] == head
    ensures e.LinkEffect? ==> e.head[|head|] == PrefetchLink(url, Flag(flags, 0))
    ensures e.NetworkEffect? && e.issued.FetchIssued? ==>
      e.issued.url == url && e.issued.init == FetchOptions(Flag(flags, 0), Flag(flags, 1), Flag(flags, 2))
    ensures e.NetworkEffect? && e.issued.XhrIssued? ==> e.issued.xhr == ViaXHR(url, Flag(flags, 1))
    ensures e.NetworkEffect? ==> (e.issued.FetchIssued? <==> env.hasFetch)
  {
    match s
    case DomStrategy => LinkEffect(ViaDOM(head, url, Flag(flags, 0)))
    case FetchStrategy => NetworkEffect(head, ViaFetch(env.hasFetch, url, Flag(flags, 0), Flag(flags, 1), Flag(flags, 2)))
  }

  /** The request mode of an effect: the appended link's, or the issued request's. */
  function EffectMode(e: Effect): Mode
    requires e.LinkEffect? ==> |e.head| > 0
  {
    match e
    case LinkEffect(head) => LinkMode(head[|head| - 1])
    case NetworkEffect(_, issued) => IssuedMode(issued)
  }

  /** The first flag passed to `supported` means the same thing on both
      bindings: the request is "cors" exactly when it is set. The one
      exception is viaFetch's XMLHttpRequest fallback, which always uses
      "cors" because it drops that flag. */
  lemma SupportedFirstFlagIsCors(env: Env, head: seq<Link>, url: string, flags: seq<bool>)
    ensures var e := Invoke(Supported(env), env, head, url, flags);
      (Supported(env) == DomStrategy || env.hasFetch) ==>
        (EffectMode(e) == Cors <==> Flag(flags, 0)) &&
        (!Flag(flags, 0) ==> EffectMode(e) == NoCors)
    ensures var e := Invoke(Supported(env), env, head, url, flags);
      (Supported(env) == FetchStrategy && !env.hasFetch) ==> EffectMode(e) == Cors
  {
  }
}
