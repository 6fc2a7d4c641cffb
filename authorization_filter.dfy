/** The request-authorization gate `AuthorizationFilter`: on each pass of a request it
    either forwards at once (already applied in this request, or an error or async
    dispatch it is told to ignore), or marks the request, asks the authorization manager
    for a decision, publishes that decision, and then denies or forwards, removing the
    mark again on the way out.

    The collaborators the filter cannot see into are inputs: the authentication held by
    the security context, the manager's reply, the event publisher's behaviour, and the
    rest of the filter chain (a function from the attributes it is handed to what it
    does). A ghost trace of `Event`s records, in order, each call the filter makes to
    the manager, the publisher and the chain. */
module Intercept {
  import opened Wrappers
  import opened Servlet

  /** What `getClass().getName()` yields for this filter. */
  const ClassName: string := "org.springframework.security.web.access.intercept.AuthorizationFilter"

  /** Appended to the filter's name to form the marker attribute's name. */
  const AppliedSuffix: string := ".APPLIED"

  const AccessDeniedMessage: string := "Access Denied"
  const CredentialsNotFoundMessage: string := "An Authentication object was not found in the SecurityContext"
  const NullManagerMessage: string := "authorizationManager cannot be null"
  const NullPublisherMessage: string := "eventPublisher cannot be null"

  /** The identity held by the security context; its content does not matter to the filter. */
  datatype Authentication = Authentication(principal: string)

  /** The configured decision-maker, known to the filter only by identity. */
  datatype AuthorizationManager = AuthorizationManager(id: nat)

  /** What the manager does when the filter calls `check`: whether it dereferences the
      authentication supplier, and the decision it returns (`None` is a null decision,
      `Some(g)` a decision whose `isGranted()` is `g`). */
  datatype ManagerReply = ManagerReply(readsAuthentication: bool, decision: Option<bool>)

  /** The event publisher: the default no-op, or a replacement set by the application,
      which may dereference the authentication supplier when it publishes. */
  datatype EventPublisher = NoPublish | Publisher(id: nat, readsAuthentication: bool)
  {
    predicate Dereferences() {
      Publisher? && readsAuthentication
    }
  }

  /** The exceptions a pass can end in. `Downstream` is anything thrown further down the
      chain (a `ServletException` or `IOException`), passed through unchanged. */
  datatype Failure =
    | AccessDenied(message: string)
    | AuthenticationCredentialsNotFound(message: string)
    | IllegalArgument(message: string)
    | Downstream(code: nat)

  /** How a call returns: normally, or by throwing. */
  datatype Outcome = Completed | Thrown(failure: Failure)

  /** The calls the filter makes to its collaborators, and, within the rest of the chain,
      the attribute updates made by code other than this filter: the names removed, then
      the names assigned. */
  datatype Event =
    | ManagerChecked
    | Published(decision: Option<bool>)
    | ChainInvoked
    | AttributesUpdated(assignments: map<string, bool>, removed: set<string>)

  /** The result of a pass: how it returned, the request's attributes afterwards, and the
      calls made, in order. */
  datatype Step = Step(outcome: Outcome, attributes: map<string, bool>, trace: seq<Event>)

  /** The rest of the filter chain: given the request attributes at the moment it is
      invoked, how it returns, the attributes it leaves and the calls made within it. */
  type Chain = map<string, bool> -> Step

  /** A snapshot of the filter's configuration. */
  datatype FilterConfig = FilterConfig(
    observeOncePerRequest: bool,
    filterErrorDispatch: bool,
    filterAsyncDispatch: bool,
    eventPublisher: EventPublisher,
    filterName: Option<string>)

  /** The configuration a new filter has. */
  const DefaultConfig: FilterConfig := FilterConfig(true, false, false, NoPublish, None)

  /** The name under which the filter is known: its configured name, or its class name
      when it has none. */
  function FilterNameOrClassName(filterName: Option<string>): (n: string)
    ensures filterName.Some? ==> n == filterName.value
    ensures filterName.None? ==> n == ClassName
  {
    match filterName
    case Some(name) => name
    case None => ClassName
  }

  /** `getAlreadyFilteredAttributeName`: the marker attribute's name is the filter's name
      followed by ".APPLIED". */
  function AlreadyFilteredAttributeName(filterName: Option<string>): (r: string)
    ensures |r| == |FilterNameOrClassName(filterName)| + |AppliedSuffix|
    ensures r[..|FilterNameOrClassName(filterName)|] == FilterNameOrClassName(filterName)
    ensures r[|FilterNameOrClassName(filterName)|..] == AppliedSuffix
  {
    FilterNameOrClassName(filterName) + AppliedSuffix
  }

  /** Two filters known by different names mark a request under different attributes, so
      neither mistakes the other's marker for its own. */
  lemma DistinctNamesDistinctMarkers(a: Option<string>, b: Option<string>)
    requires FilterNameOrClassName(a) != FilterNameOrClassName(b)
    ensures AlreadyFilteredAttributeName(a) != AlreadyFilteredAttributeName(b)
  {
  }

  /** `isApplied`: the marker attribute is present (its value does not matter). */
  function IsApplied(attributes: map<string, bool>, marker: string): (applied: bool)
    ensures applied <==> marker in attributes
  {
    marker in attributes
  }

  /** `skipDispatch`: an error dispatch is skipped unless error dispatches are filtered,
      an async dispatch unless async dispatches are filtered, and no other kind ever. */
  function SkipDispatch(config: FilterConfig, dispatcherType: DispatcherType): (skip: bool)
    ensures dispatcherType == ERROR ==> (skip <==> !config.filterErrorDispatch)
    ensures dispatcherType == ASYNC ==> (skip <==> !config.filterAsyncDispatch)
    ensures dispatcherType in {REQUEST, FORWARD, INCLUDE} ==> !skip
  {
    if dispatcherType == ERROR && !config.filterErrorDispatch then true
    else if dispatcherType == ASYNC && !config.filterAsyncDispatch then true
    else false
  }

  /** `getAuthentication`: the identity in the security context, or
      `AuthenticationCredentialsNotFoundException` when there is none. */
  function GetAuthentication(context: Option<Authentication>): (r: Result<Authentication, Failure>)
    ensures r.Success? <==> context.Some?
    ensures r.Success? ==> r.value == context.value
    ensures r.Failure? ==> r.error == AuthenticationCredentialsNotFound(CredentialsNotFoundMessage)
  {
    match context
    case Some(authentication) => Success(authentication)
    case None => Failure(AuthenticationCredentialsNotFound(CredentialsNotFoundMessage))
  }

  /** Whether a pass goes past both bypasses (the once-per-request one, then the
      dispatcher-type one) and performs the guarded check. */
  predicate Guards(config: FilterConfig, attributes: map<string, bool>, dispatcherType: DispatcherType) {
    && !(config.observeOncePerRequest && IsApplied(attributes, AlreadyFilteredAttributeName(config.filterName)))
    && !SkipDispatch(config, dispatcherType)
  }

  /** Whether the manager's check throws because it reads an absent authentication. */
  predicate ManagerFails(context: Option<Authentication>, reply: ManagerReply) {
    reply.readsAuthentication && GetAuthentication(context).Failure?
  }

  /** Whether publishing throws because the publisher reads an absent authentication. */
  predicate PublisherFails(config: FilterConfig, context: Option<Authentication>) {
    config.eventPublisher.Dereferences() && GetAuthentication(context).Failure?
  }

  /** `chain.doFilter(request, response)` with the given attributes, after the calls in `before`. */
  function Forward(chain: Chain, attributes: map<string, bool>, before: seq<Event>): Step {
    var r := chain(attributes);
    Step(r.outcome, r.attributes, before + [ChainInvoked] + r.trace)
  }

  /** The body of the `try` block, run with the marker already set. */
  function Guarded(config: FilterConfig, context: Option<Authentication>, attributes: map<string, bool>,
                   reply: ManagerReply, chain: Chain): Step
  {
    if ManagerFails(context, reply) then
      Step(Thrown(GetAuthentication(context).error), attributes, [ManagerChecked])
    else
      var published := [ManagerChecked, Published(reply.decision)];
      if PublisherFails(config, context) then
        Step(Thrown(GetAuthentication(context).error), attributes, published)
      else if reply.decision.Some? && !reply.decision.value then
        Step(Thrown(AccessDenied(AccessDeniedMessage)), attributes, published)
      else
        Forward(chain, attributes, published)
  }

  /** `doFilter`, as a function of the configuration, the security context, the request's
      attributes and dispatcher type, the manager's reply and the rest of the chain. */
  function DoFilterSpec(config: FilterConfig, context: Option<Authentication>, attributes: map<string, bool>,
                        dispatcherType: DispatcherType, reply: ManagerReply, chain: Chain): Step
  {
    var marker := AlreadyFilteredAttributeName(config.filterName);
    if !Guards(config, attributes, dispatcherType) then
      Forward(chain, attributes, [])
    else
      var s := Guarded(config, context, attributes[marker := true], reply, chain);
      Step(s.outcome, s.attributes - {marker}, s.trace)
  }

  /** A request already marked, with once-per-request on, goes straight to the chain
      exactly once, untouched: no check, no event, no attribute change by the filter. */
  lemma OncePerRequestBypass(config: FilterConfig, context: Option<Authentication>, attributes: map<string, bool>,
                             dispatcherType: DispatcherType, reply: ManagerReply, chain: Chain)
    requires config.observeOncePerRequest
    requires AlreadyFilteredAttributeName(config.filterName) in attributes
    ensures var s := DoFilterSpec(config, context, attributes, dispatcherType, reply, chain);
      && s.trace == [ChainInvoked] + chain(attributes).trace
      && s.outcome == chain(attributes).outcome
      && s.attributes == chain(attributes).attributes
  {
  }

  /** A skipped error or async dispatch goes straight to the chain exactly once, untouched. */
  lemma DispatchTypeBypass(config: FilterConfig, context: Option<Authentication>, attributes: map<string, bool>,
                           dispatcherType: DispatcherType, reply: ManagerReply, chain: Chain)
    requires SkipDispatch(config, dispatcherType)
    ensures dispatcherType == ERROR || dispatcherType == ASYNC
    ensures var s := DoFilterSpec(config, context, attributes, dispatcherType, reply, chain);
      && s.trace == [ChainInvoked] + chain(attributes).trace
      && s.outcome == chain(attributes).outcome
      && s.attributes == chain(attributes).attributes
  {
  }

  /** A checked pass that gets past authentication ends in `AccessDenied` without calling
      the chain exactly when the decision is present and not granted; otherwise it calls
      the chain exactly once, with the marker set, and takes the chain's outcome. */
  lemma DecisionDeniesOrForwards(config: FilterConfig, context: Option<Authentication>, attributes: map<string, bool>,
                                 dispatcherType: DispatcherType, reply: ManagerReply, chain: Chain)
    requires Guards(config, attributes, dispatcherType)
    requires !ManagerFails(context, reply) && !PublisherFails(config, context)
    ensures var s := DoFilterSpec(config, context, attributes, dispatcherType, reply, chain);
      var marker := AlreadyFilteredAttributeName(config.filterName);
      var c := chain(attributes[marker := true]);
      && (ChainInvoked in s.trace <==> reply.decision != Some(false))
      && (reply.decision == Some(false) ==>
            s == Step(Thrown(AccessDenied(AccessDeniedMessage)), attributes - {marker},
                      [ManagerChecked, Published(reply.decision)]))
      && (reply.decision != Some(false) ==>
            s == Step(c.outcome, c.attributes - {marker},
                      [ManagerChecked, Published(reply.decision), ChainInvoked] + c.trace))
  {
    var marker := AlreadyFilteredAttributeName(config.filterName);
    assert attributes[marker := true] - {marker} == attributes - {marker};
  }

  /** A missing authentication, read by the manager or by the publisher, ends a checked
      pass in `AuthenticationCredentialsNotFoundException` without calling the chain. */
  lemma MissingAuthenticationFails(config: FilterConfig, context: Option<Authentication>, attributes: map<string, bool>,
                                   dispatcherType: DispatcherType, reply: ManagerReply, chain: Chain)
    requires Guards(config, attributes, dispatcherType)
    requires ManagerFails(context, reply) || PublisherFails(config, context)
    ensures var s := DoFilterSpec(config, context, attributes, dispatcherType, reply, chain);
      && s.outcome == Thrown(AuthenticationCredentialsNotFound(CredentialsNotFoundMessage))
      && ChainInvoked !in s.trace
      && s.attributes == attributes - {AlreadyFilteredAttributeName(config.filterName)}
  {
    var marker := AlreadyFilteredAttributeName(config.filterName);
    assert attributes[marker := true] - {marker} == attributes - {marker};
  }

  /** On every checked pass the marker is gone afterwards, whatever the ending, even when
      it was there before; when the chain is not called, no other attribute changed. */
  lemma MarkerRemovedOnEveryExit(config: FilterConfig, context: Option<Authentication>, attributes: map<string, bool>,
                                 dispatcherType: DispatcherType, reply: ManagerReply, chain: Chain)
    requires Guards(config, attributes, dispatcherType)
    ensures var s := DoFilterSpec(config, context, attributes, dispatcherType, reply, chain);
      var marker := AlreadyFilteredAttributeName(config.filterName);
      && marker !in s.attributes
      && (ChainInvoked !in s.trace ==> s.attributes == attributes - {marker})
  {
    var marker := AlreadyFilteredAttributeName(config.filterName);
    assert attributes[marker := true] - {marker} == attributes - {marker};
  }

  /** A checked pass whose manager returns publishes exactly one event, carrying the
      decision, right after the check and before the deny-or-forward choice. */
  lemma DecisionPublishedBeforeVerdict(config: FilterConfig, context: Option<Authentication>, attributes: map<string, bool>,
                                       dispatcherType: DispatcherType, reply: ManagerReply, chain: Chain)
    requires Guards(config, attributes, dispatcherType)
    ensures var s := DoFilterSpec(config, context, attributes, dispatcherType, reply, chain);
      && |s.trace| >= 1 && s.trace[0] == ManagerChecked
      && (ManagerFails(context, reply) <==> |s.trace| == 1)
      && (!ManagerFails(context, reply) ==> s.trace[1] == Published(reply.decision))
  {
  }

  /** The calls a checked pass makes: the check; then, unless the manager threw, one
      publication of the decision; then, unless the pass threw or denied, the chain once
      with the marker set. */
  lemma CheckedPassTrace(config: FilterConfig, context: Option<Authentication>, attributes: map<string, bool>,
                         dispatcherType: DispatcherType, reply: ManagerReply, chain: Chain)
    requires Guards(config, attributes, dispatcherType)
    ensures var s := DoFilterSpec(config, context, attributes, dispatcherType, reply, chain);
      var c := chain(attributes[AlreadyFilteredAttributeName(config.filterName) := true]);
      || s.trace == [ManagerChecked]
      || s.trace == [ManagerChecked, Published(reply.decision)]
      || s.trace == [ManagerChecked, Published(reply.decision), ChainInvoked] + c.trace
  {
  }

  /** With every dispatcher type filtered (once-per-request off, error and async on),
      every pass is checked, whatever the dispatch and whatever the attributes. */
  lemma AllDispatcherTypesChecked(config: FilterConfig, context: Option<Authentication>, attributes: map<string, bool>,
                                  dispatcherType: DispatcherType, reply: ManagerReply, chain: Chain)
    requires !config.observeOncePerRequest && config.filterErrorDispatch && config.filterAsyncDispatch
    ensures Guards(config, attributes, dispatcherType)
    ensures DoFilterSpec(config, context, attributes, dispatcherType, reply, chain).trace[0] == ManagerChecked
  {
  }

  /** `chain.doFilter(request, response)`: hands the request to the rest of the chain. */
  method CallChain(request: Request, chain: Chain) returns (outcome: Outcome, ghost trace: seq<Event>)
    modifies request`attributes
    ensures var r := chain(old(request.attributes));
      && outcome == r.outcome
      && request.attributes == r.attributes
      && trace == [ChainInvoked] + r.trace
  {
    var r := chain(request.attributes);
    request.attributes := r.attributes;
    outcome := r.outcome;
    trace := [ChainInvoked] + r.trace;
  }

  class AuthorizationFilter {
    const authorizationManager: AuthorizationManager
    var eventPublisher: EventPublisher
    var observeOncePerRequest: bool
    var filterErrorDispatch: bool
    var filterAsyncDispatch: bool
    /** Set by the framework's wiring (the filter or bean name), never by this class. */
    var filterName: Option<string>

    /** The configuration the filter currently has. */
    function Config(): FilterConfig
      reads this
    {
      FilterConfig(observeOncePerRequest, filterErrorDispatch, filterAsyncDispatch, eventPublisher, filterName)
    }

    /** The constructor, given a non-null manager: the default configuration. */
    constructor (authorizationManager: AuthorizationManager)
      ensures this.authorizationManager == authorizationManager
      ensures Config() == DefaultConfig
    {
      this.authorizationManager := authorizationManager;
      eventPublisher := NoPublish;
      observeOncePerRequest := true;
      filterErrorDispatch := false;
      filterAsyncDispatch := false;
      filterName := None;
    }

    /** `getAuthorizationManager`. */
    function GetAuthorizationManager(): (m: AuthorizationManager)
      ensures m == authorizationManager
    {
      authorizationManager
    }

    /** `isObserveOncePerRequest`. */
    function IsObserveOncePerRequest(): (b: bool)
      reads this
      ensures b == Config().observeOncePerRequest
    {
      observeOncePerRequest
    }

    /** `setAuthorizationEventPublisher`: a null publisher is rejected and changes nothing. */
    method SetAuthorizationEventPublisher(eventPublisher: Option<EventPublisher>) returns (outcome: Outcome)
      modifies this`eventPublisher
      ensures eventPublisher.None? ==> outcome == Thrown(IllegalArgument(NullPublisherMessage)) && Config() == old(Config())
      ensures eventPublisher.Some? ==> outcome == Completed && Config() == old(Config()).(eventPublisher := eventPublisher.value)
    {
      if eventPublisher.None? {
        return Thrown(IllegalArgument(NullPublisherMessage));
      }
      this.eventPublisher := eventPublisher.value;
      outcome := Completed;
    }

    /** `setShouldFilterAllDispatcherTypes`: one switch for all three flags. */
    method SetShouldFilterAllDispatcherTypes(shouldFilterAllDispatcherTypes: bool)
      modifies this`observeOncePerRequest, this`filterErrorDispatch, this`filterAsyncDispatch
      ensures Config() == old(Config()).(observeOncePerRequest := !shouldFilterAllDispatcherTypes,
                                         filterErrorDispatch := shouldFilterAllDispatcherTypes,
                                         filterAsyncDispatch := shouldFilterAllDispatcherTypes)
    {
      observeOncePerRequest := !shouldFilterAllDispatcherTypes;
      filterErrorDispatch := shouldFilterAllDispatcherTypes;
      filterAsyncDispatch := shouldFilterAllDispatcherTypes;
    }

    /** `setObserveOncePerRequest`: changes that flag only. */
    method SetObserveOncePerRequest(observeOncePerRequest: bool)
      modifies this`observeOncePerRequest
      ensures Config() == old(Config()).(observeOncePerRequest := observeOncePerRequest)
    {
      this.observeOncePerRequest := observeOncePerRequest;
    }

    /** `setFilterErrorDispatch`: changes that flag only. */
    method SetFilterErrorDispatch(filterErrorDispatch: bool)
      modifies this`filterErrorDispatch
      ensures Config() == old(Config()).(filterErrorDispatch := filterErrorDispatch)
    {
      this.filterErrorDispatch := filterErrorDispatch;
    }

    /** `setFilterAsyncDispatch`: changes that flag only. */
    method SetFilterAsyncDispatch(filterAsyncDispatch: bool)
      modifies this`filterAsyncDispatch
      ensures Config() == old(Config()).(filterAsyncDispatch := filterAsyncDispatch)
    {
      this.filterAsyncDispatch := filterAsyncDispatch;
    }

    /** `doFilter`: one pass of the request through the filter. The request's attributes
        are changed in place; the rest of the chain is `chain`. */
    method DoFilter(request: Request, context: Option<Authentication>, reply: ManagerReply, chain: Chain)
      returns (outcome: Outcome, ghost trace: seq<Event>)
      modifies request`attributes
      ensures var s := DoFilterSpec(Config(), context, old(request.attributes), request.dispatcherType, reply, chain);
        && outcome == s.outcome
        && request.attributes == s.attributes
        && trace == s.trace
    {
      if observeOncePerRequest && IsApplied(request.attributes, AlreadyFilteredAttributeName(filterName)) {
        outcome, trace := CallChain(request, chain);
        return;
      }
      if SkipDispatch(Config(), request.dispatcherType) {
        outcome, trace := CallChain(request, chain);
        return;
      }
      var alreadyFilteredAttributeName := AlreadyFilteredAttributeName(filterName);
      request.SetAttribute(alreadyFilteredAttributeName, true);
      // try
      trace := [ManagerChecked];
      if ManagerFails(context, reply) {
        outcome := Thrown(GetAuthentication(context).error);
      } else {
        var decision := reply.decision;
        trace := trace + [Published(decision)];
        if PublisherFails(Config(), context) {
          outcome := Thrown(GetAuthentication(context).error);
        } else if decision.Some? && !decision.value {
          outcome := Thrown(AccessDenied(AccessDeniedMessage));
        } else {
          ghost var chainTrace;
          outcome, chainTrace := CallChain(request, chain);
          trace := trace + chainTrace;
        }
      }
      // finally
      request.RemoveAttribute(alreadyFilteredAttributeName);
    }
  }

  /** The constructor's null check: a null manager is rejected with
      `IllegalArgumentException`; otherwise a new filter with the default configuration. */
  method NewAuthorizationFilter(authorizationManager: Option<AuthorizationManager>)
    returns (r: Result<AuthorizationFilter, Failure>)
    ensures authorizationManager.None? <==> r.Failure?
    ensures r.Failure? ==> r.error == IllegalArgument(NullManagerMessage)
    ensures r.Success? ==> fresh(r.value)
                           && r.value.GetAuthorizationManager() == authorizationManager.value
                           && r.value.Config() == DefaultConfig
  {
    if authorizationManager.None? {
      return Failure(IllegalArgument(NullManagerMessage));
    }
    var filter := new AuthorizationFilter(authorizationManager.value);
    r := Success(filter);
  }
}
