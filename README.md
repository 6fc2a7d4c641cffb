# AuthorizationFilter, modelled in Dafny

A model of Spring Security's request-authorization gate `AuthorizationFilter`
(package `org.springframework.security.web.access.intercept`). On each pass of an HTTP
request through the filter chain the filter either forwards at once, or sets a marker
attribute on the request, asks its `AuthorizationManager` for a decision, publishes the
decision to its `AuthorizationEventPublisher`, and then throws `AccessDeniedException`
or forwards to the rest of the chain, removing the marker on every way out.

Files:

- `wrappers.dfy` (module `Wrappers`): `Option` for nullable references, `Result` for
  calls that return or throw.
- `servlet.dfy` (module `Servlet`): `DispatcherType` and a `Request` class whose
  attribute map is changed in place by `SetAttribute` and `RemoveAttribute`.
- `authorization_filter.dfy` (module `Intercept`): the filter. The pure queries
  (`skipDispatch`, `isApplied`, `getAlreadyFilteredAttributeName`, `getAuthentication`)
  are functions; `DoFilterSpec` states one pass of `doFilter` as a function;
  the class `AuthorizationFilter` holds the configuration fields, its setters change
  them in place, and its `DoFilter` method changes the request's attributes in place and
  is proved to do exactly what `DoFilterSpec` says. Lemmas state the bypasses, the deny
  and forward paths, authentication failures, marker cleanup and event publication.
- `reentry.dfy` (module `Reentry`): a whole request lifecycle. Before a pass returns,
  the rest of the chain may set and remove attributes of its own and may send the same
  request through the same filter again (a `RequestDispatcher` forward or include),
  nested to any depth. Inductive lemmas prove that the filter's only effect on the
  attributes is removing its own marker, on top of whatever the other code did, and
  that with once-per-request on an unmarked pass whose dispatcher type is not skipped
  is checked exactly once however deeply it is re-dispatched, while with it off every
  forward and include that is reached and not skipped is checked again. Error and async
  dispatches happen after the earlier pass has returned; they are separate top-level
  passes, and a lemma shows they are checked again unless their dispatcher type is
  skipped.

Collaborators the filter cannot see into are inputs: the authentication in the
security context (`Option<Authentication>`), the manager's reply to `check` (whether it
reads the authentication supplier, and the decision: `None` for a null decision,
`Some(granted)` otherwise), the event publisher (the default no-op, or one that may read
the authentication supplier), and the rest of the chain (a function from the attributes
it is handed to its outcome, the attributes it leaves and the calls made within it). A
ghost trace of events records each call to the manager, the publisher and the chain, in
order; counting in it gives the number of checks, publications and chain calls.

`setShouldFilterAllDispatcherTypes(false)` turns once-per-request back on and both
dispatch flags off (AuthorizationFilter.java:160-164); only `true` enables filtering of
every dispatcher type.

## Model

| member | source | states |
|---|---|---|
| `Intercept.FilterNameOrClassName` | web/src/main/java/org/springframework/security/web/access/intercept/AuthorizationFilter.java:119-122 | the filter's name when it has one, the class name when it is null |
| `Intercept.AlreadyFilteredAttributeName` | web/src/main/java/org/springframework/security/web/access/intercept/AuthorizationFilter.java:118-124 | the marker's name starts with the filter name (or class name) and ends with ".APPLIED", and is exactly that long |
| `Intercept.DistinctNamesDistinctMarkers` | web/src/main/java/org/springframework/security/web/access/intercept/AuthorizationFilter.java:118-124 | filters known by different names use different marker attributes |
| `Intercept.IsApplied` | web/src/main/java/org/springframework/security/web/access/intercept/AuthorizationFilter.java:114-116 | applied exactly when an attribute under the marker's name is present, whatever its value |
| `Intercept.SkipDispatch` | web/src/main/java/org/springframework/security/web/access/intercept/AuthorizationFilter.java:104-112 | an ERROR dispatch is skipped iff error dispatch filtering is off, an ASYNC dispatch iff async filtering is off; REQUEST, FORWARD and INCLUDE never |
| `Intercept.GetAuthentication` | web/src/main/java/org/springframework/security/web/access/intercept/AuthorizationFilter.java:126-133 | returns the context's authentication when present; otherwise fails with AuthenticationCredentialsNotFound and its message |
| `Intercept.OncePerRequestBypass` | web/src/main/java/org/springframework/security/web/access/intercept/AuthorizationFilter.java:78-81 | once-per-request on and marker present: the chain is called once with the attributes as they are, no check, no event, and the pass returns what the chain returns |
| `Intercept.DispatchTypeBypass` | web/src/main/java/org/springframework/security/web/access/intercept/AuthorizationFilter.java:83-86 | a skipped dispatch is ERROR or ASYNC and goes to the chain once, unchecked and unmarked |
| `Intercept.DecisionDeniesOrForwards` | web/src/main/java/org/springframework/security/web/access/intercept/AuthorizationFilter.java:88-101 | on a checked pass with authentication available: the chain is called iff the decision is not a present denial; a denial throws AccessDenied with only the check and the event in the trace and the marker removed; otherwise the chain is called once with the marker set and the pass ends with the chain's outcome, marker removed |
| `Intercept.MissingAuthenticationFails` | web/src/main/java/org/springframework/security/web/access/intercept/AuthorizationFilter.java:88-101 | when the manager or the publisher reads an absent authentication the pass throws AuthenticationCredentialsNotFound, never calls the chain, and leaves the attributes as before minus the marker |
| `Intercept.MarkerRemovedOnEveryExit` | web/src/main/java/org/springframework/security/web/access/intercept/AuthorizationFilter.java:88-101 | after every checked pass the marker is absent, even if it was present before with once-per-request off; when the chain was not called no other attribute changed |
| `Intercept.DecisionPublishedBeforeVerdict` | web/src/main/java/org/springframework/security/web/access/intercept/AuthorizationFilter.java:92-95 | a checked pass starts with the manager call; the decision is published right after it, unless and only unless the manager threw |
| `Intercept.CheckedPassTrace` | web/src/main/java/org/springframework/security/web/access/intercept/AuthorizationFilter.java:88-101 | the calls of a checked pass are the check, then at most one publication, then at most one chain call with the marker set |
| `Intercept.AllDispatcherTypesChecked` | web/src/main/java/org/springframework/security/web/access/intercept/AuthorizationFilter.java:154-164 | with the flags setShouldFilterAllDispatcherTypes(true) leaves, every pass is checked whatever its dispatcher type and attributes |
| `Intercept.CallChain` | web/src/main/java/org/springframework/security/web/access/intercept/AuthorizationFilter.java:97 | calling the chain records one chain call and leaves the outcome and attributes the chain produces |
| `Intercept.AuthorizationFilter.constructor` | web/src/main/java/org/springframework/security/web/access/intercept/AuthorizationFilter.java:52-69 | keeps the manager; once-per-request on, both dispatch flags off, the no-op publisher |
| `Intercept.NewAuthorizationFilter` | web/src/main/java/org/springframework/security/web/access/intercept/AuthorizationFilter.java:66-69 | a null manager is rejected with IllegalArgument; otherwise a fresh filter with that manager and the defaults |
| `Intercept.AuthorizationFilter.GetAuthorizationManager` | web/src/main/java/org/springframework/security/web/access/intercept/AuthorizationFilter.java:150-152 | the manager given at construction |
| `Intercept.AuthorizationFilter.IsObserveOncePerRequest` | web/src/main/java/org/springframework/security/web/access/intercept/AuthorizationFilter.java:171-173 | the current once-per-request flag |
| `Intercept.AuthorizationFilter.SetAuthorizationEventPublisher` | web/src/main/java/org/springframework/security/web/access/intercept/AuthorizationFilter.java:141-144 | a null publisher throws IllegalArgument and changes nothing; otherwise only the publisher changes |
| `Intercept.AuthorizationFilter.SetShouldFilterAllDispatcherTypes` | web/src/main/java/org/springframework/security/web/access/intercept/AuthorizationFilter.java:160-164 | once-per-request becomes !b, both dispatch flags become b, publisher and name unchanged |
| `Intercept.AuthorizationFilter.SetObserveOncePerRequest` | web/src/main/java/org/springframework/security/web/access/intercept/AuthorizationFilter.java:184-186 | only the once-per-request flag changes |
| `Intercept.AuthorizationFilter.SetFilterErrorDispatch` | web/src/main/java/org/springframework/security/web/access/intercept/AuthorizationFilter.java:192-194 | only the error dispatch flag changes |
| `Intercept.AuthorizationFilter.SetFilterAsyncDispatch` | web/src/main/java/org/springframework/security/web/access/intercept/AuthorizationFilter.java:201-203 | only the async dispatch flag changes |
| `Intercept.AuthorizationFilter.DoFilter` | web/src/main/java/org/springframework/security/web/access/intercept/AuthorizationFilter.java:72-102 | the outcome, the request's new attributes and the trace of calls are those of DoFilterSpec for the current configuration, so every lemma about DoFilterSpec holds of it |
| `Reentry.DispatchFrame` | web/src/main/java/org/springframework/security/web/access/intercept/AuthorizationFilter.java:88-101 | however often the request re-enters the filter, the attributes afterwards are exactly what the other code's updates, applied in order, made of them, or that without the marker: the filter writes no other attribute and neither restores nor discards what the rest of the chain did |
| `Reentry.PipelineFrame` | web/src/main/java/org/springframework/security/web/access/intercept/AuthorizationFilter.java:88-101 | the same for the rest of the chain with all its updates and re-dispatches |
| `Reentry.MarkedDispatchOnlyForwards` | web/src/main/java/org/springframework/security/web/access/intercept/AuthorizationFilter.java:78-81 | a marked request with once-per-request on is never checked or published again at any nesting depth, and the attributes end exactly as the other code's updates made them |
| `Reentry.MarkedPipelineOnlyForwards` | web/src/main/java/org/springframework/security/web/access/intercept/AuthorizationFilter.java:78-81 | the same for the rest of the chain with all its updates and re-dispatches |
| `Reentry.CheckedOncePerRequest` | web/src/main/java/org/springframework/security/web/access/intercept/AuthorizationFilter.java:175-186 | with once-per-request on, an unmarked request whose pass is not skipped is checked exactly once in that pass however deeply it is forwarded or included, at most one event is published and it carries that check's decision, every other event is a chain call or another component's update, and the attributes end as the other code's updates made them |
| `Reentry.CheckedOnEveryPass` | web/src/main/java/org/springframework/security/web/access/intercept/AuthorizationFilter.java:175-186 | with once-per-request off, an unskipped pass is checked first whatever its attributes, even when an enclosing pass left the marker set, and a lifecycle holds exactly one check per reached pass whose dispatcher type is not skipped, counted by `DispatchChecks`, which stops a pipeline at the first exception |
| `Reentry.PipelineCheckedOnEveryPass` | web/src/main/java/org/springframework/security/web/access/intercept/AuthorizationFilter.java:175-186 | the same count for the rest of the chain with all its updates and re-dispatches, and it throws exactly when `PipelineThrows` says |
| `Reentry.LifecycleEndsUnmarked` | web/src/main/java/org/springframework/security/web/access/intercept/AuthorizationFilter.java:88-101 | a pass that starts without the marker ends without it, every other attribute exactly as the other code's updates left it |
| `Reentry.LaterDispatchCheckedAgain` | web/src/main/java/org/springframework/security/web/access/intercept/AuthorizationFilter.java:99-112 | a later top-level pass (an error or async dispatch after the first pass returned) starts unmarked and is checked exactly when its dispatcher type is not skipped |

## Left out

- Servlet plumbing: the casts to `HttpServletRequest`/`HttpServletResponse` and the
  response object are not modelled; `ServletException` and `IOException` thrown further
  down the chain are one `Downstream` failure passed through unchanged.
- `SecurityContextHolder`: the thread-local security context is an input to each pass,
  the authentication present or absent.
- The `AuthorizationManager`'s decision algorithm: its reply is an input per pass; the
  manager object is kept only by identity for `getAuthorizationManager`.
- Event publishing: what an `AuthorizationEventPublisher` does with the event, and the
  `noPublish` method body, are not modelled; each publish call is recorded in the trace
  with its decision, and a replacement publisher may fail by reading an absent
  authentication.
- `getFilterName`: the filter name comes from the framework's wiring; it is a field the
  wiring assigns, and `getClass().getName()` is the constant class name of this class
  (a subclass would have its own name).
- Attribute values other than the filter's own `Boolean.TRUE`: the attribute bag maps
  names to `bool`.
- Concurrency: each request owns its attributes and the configuration is read-only after
  setup, so passes are modelled one at a time.
- DispatchFrame, PipelineFrame, MarkedDispatchOnlyForwards, MarkedPipelineOnlyForwards,
  CheckedOncePerRequest, LifecycleEndsUnmarked and LaterDispatchCheckedAgain assume that
  code other than the filter never sets or removes the filter's own marker attribute;
  what happens when it does is not stated.
- Catching a nested pass's exception: in `Reentry` an exception from a re-dispatched
  pass always ends the enclosing pipeline; code between the passes that catches it (an
  exception-translating filter, or the servlet that made the include) is not modelled.
- `TrzOweTest`: a reflection test with a `println`, with no logic to model.
