/** One request lifecycle. The request passes through the filter, and the rest of the
    chain may, before it returns, dispatch the same request through the same filter
    again (a `RequestDispatcher` forward or include), nested to any depth; it may also
    set and remove request attributes of its own. The marker attribute is what lets a
    nested pass see that an enclosing pass already checked the request. Error and async
    dispatches made by the container after a pass has returned are separate top-level
    passes that start from the attributes the earlier pass left.

    The lemmas here are about the whole lifecycle, built from the single pass
    `Intercept.DoFilterSpec`. They assume that code other than this filter does not
    write the filter's own marker attribute (`DispatchSpares`). */
module Reentry {
  import opened Wrappers
  import opened Servlet
  import opened Intercept

  /** One pass of the request through the filter: the dispatcher type of that pass, what
      the manager replies if asked, and what the rest of the chain does if called. */
  datatype Dispatch = Dispatch(dispatcherType: DispatcherType, reply: ManagerReply, pipeline: Pipeline)

  /** The rest of the chain behind the filter, as a sequence of actions: re-dispatch the
      request through the filter (an exception from that pass propagates and ends the
      pipeline), update request attributes, or return with a result. */
  datatype Pipeline =
    | Finish(result: Outcome)
    | Redispatch(dispatch: Dispatch, rest: Pipeline)
    | Update(assignments: map<string, bool>, removed: set<string>, rest: Pipeline)

  /** `removeAttribute` for each removed name, then `setAttribute` for each assigned one. */
  function UpdateAttributes(attributes: map<string, bool>, assignments: map<string, bool>, removed: set<string>): map<string, bool> {
    (attributes - removed) + assignments
  }

  /** The single pass, with the rest of the chain given by the dispatch's pipeline. */
  function RunDispatch(config: FilterConfig, context: Option<Authentication>, attributes: map<string, bool>,
                       d: Dispatch): Step
    decreases d, 0
  {
    DoFilterSpec(config, context, attributes, d.dispatcherType, d.reply, PipelineChain(config, context, d.pipeline))
  }

  /** The pipeline as the chain a pass hands the request to. */
  function PipelineChain(config: FilterConfig, context: Option<Authentication>, p: Pipeline): (chain: Chain)
    decreases p, 1
  {
    a => RunPipeline(config, context, a, p)
  }

  /** The rest of the chain, run on the attributes it is handed. */
  function RunPipeline(config: FilterConfig, context: Option<Authentication>, attributes: map<string, bool>,
                       p: Pipeline): Step
    decreases p, 0
  {
    match p
    case Finish(result) => Step(result, attributes, [])
    case Update(assignments, removed, rest) =>
      var q := RunPipeline(config, context, UpdateAttributes(attributes, assignments, removed), rest);
      Step(q.outcome, q.attributes, [AttributesUpdated(assignments, removed)] + q.trace)
    case Redispatch(d, rest) =>
      var r := RunDispatch(config, context, attributes, d);
      if r.outcome.Thrown? then r
      else
        var q := RunPipeline(config, context, r.attributes, rest);
        Step(q.outcome, q.attributes, r.trace + q.trace)
  }

  /** No attribute update anywhere in the dispatch, at any depth, names the marker. */
  predicate DispatchSpares(d: Dispatch, marker: string)
    decreases d, 1
  {
    PipelineSpares(d.pipeline, marker)
  }

  /** No attribute update anywhere in the pipeline, at any depth, names the marker. */
  predicate PipelineSpares(p: Pipeline, marker: string)
    decreases p, 0
  {
    match p
    case Finish(_) => true
    case Update(assignments, removed, rest) =>
      marker !in assignments && marker !in removed && PipelineSpares(rest, marker)
    case Redispatch(d, rest) => DispatchSpares(d, marker) && PipelineSpares(rest, marker)
  }

  /** The attributes after the updates recorded in a trace, applied in order; the
      filter's own calls are not updates. */
  function ApplyUpdates(attributes: map<string, bool>, trace: seq<Event>): map<string, bool>
    decreases |trace|
  {
    if trace == [] then attributes
    else
      var next := if trace[0].AttributesUpdated?
                  then UpdateAttributes(attributes, trace[0].assignments, trace[0].removed)
                  else attributes;
      ApplyUpdates(next, trace[1..])
  }

  /** No update recorded in the trace names the key. */
  predicate SparesKey(trace: seq<Event>, key: string) {
    forall i | 0 <= i < |trace| :: trace[i].AttributesUpdated? ==> key !in trace[i].assignments && key !in trace[i].removed
  }

  /** Nothing in the trace checks or publishes: it holds only chain calls and updates. */
  predicate Unchecked(trace: seq<Event>) {
    forall i | 0 <= i < |trace| :: trace[i] == ChainInvoked || trace[i].AttributesUpdated?
  }

  /** Applying the updates of two traces one after the other is applying those of both. */
  lemma {:induction false} ApplyUpdatesAppend(attributes: map<string, bool>, first: seq<Event>, second: seq<Event>)
    ensures ApplyUpdates(attributes, first + second) == ApplyUpdates(ApplyUpdates(attributes, first), second)
    decreases |first|
  {
    if first != [] {
      assert (first + second)[0] == first[0];
      assert (first + second)[1..] == first[1..] + second;
      var e := first[0];
      var next := if e.AttributesUpdated? then UpdateAttributes(attributes, e.assignments, e.removed) else attributes;
      ApplyUpdatesAppend(next, first[1..], second);
    } else {
      assert first + second == second;
    }
  }

  /** Updates that spare a key commute with assigning or removing that key. */
  lemma {:induction false} SparedKeyCommutes(attributes: map<string, bool>, trace: seq<Event>, key: string, value: bool)
    requires SparesKey(trace, key)
    ensures ApplyUpdates(attributes[key := value], trace) == ApplyUpdates(attributes, trace)[key := value]
    ensures ApplyUpdates(attributes - {key}, trace) == ApplyUpdates(attributes, trace) - {key}
    decreases |trace|
  {
    if trace != [] {
      var e := trace[0];
      assert SparesKey(trace[1..], key) by {
        forall i | 0 <= i < |trace[1..]| ensures trace[1..][i] == trace[i + 1] { }
      }
      if e.AttributesUpdated? {
        assert key !in e.assignments && key !in e.removed by { assert trace[0] == e; }
        assert UpdateAttributes(attributes[key := value], e.assignments, e.removed)
            == UpdateAttributes(attributes, e.assignments, e.removed)[key := value];
        assert UpdateAttributes(attributes - {key}, e.assignments, e.removed)
            == UpdateAttributes(attributes, e.assignments, e.removed) - {key};
        SparedKeyCommutes(UpdateAttributes(attributes, e.assignments, e.removed), trace[1..], key, value);
      } else {
        SparedKeyCommutes(attributes, trace[1..], key, value);
      }
    }
  }

  /** Updates that spare a key leave that key as it was. */
  lemma SparedKeyKept(attributes: map<string, bool>, trace: seq<Event>, key: string)
    requires SparesKey(trace, key)
    ensures key in ApplyUpdates(attributes, trace) <==> key in attributes
    ensures key in attributes ==> ApplyUpdates(attributes, trace)[key] == attributes[key]
  {
    if key in attributes {
      assert attributes == attributes[key := attributes[key]];
      SparedKeyCommutes(attributes, trace, key, attributes[key]);
    } else {
      assert attributes == attributes - {key};
      SparedKeyCommutes(attributes, trace, key, false);
    }
  }

  /** The filter's own calls, before a trace, update nothing. */
  lemma FilterCallsUpdateNothing(attributes: map<string, bool>, calls: seq<Event>, trace: seq<Event>)
    requires forall i | 0 <= i < |calls| :: !calls[i].AttributesUpdated?
    ensures ApplyUpdates(attributes, calls + trace) == ApplyUpdates(attributes, trace)
  {
    ApplyUpdatesAppend(attributes, calls, trace);
    FilterCallsAlone(attributes, calls);
  }

  /** A trace of the filter's own calls alone leaves the attributes as they were. */
  lemma {:induction false} FilterCallsAlone(attributes: map<string, bool>, calls: seq<Event>)
    requires forall i | 0 <= i < |calls| :: !calls[i].AttributesUpdated?
    ensures ApplyUpdates(attributes, calls) == attributes
    decreases |calls|
  {
    if calls != [] {
      FilterCallsAlone(attributes, calls[1..]);
    }
  }

  /** However often the filter is re-entered, the attributes afterwards are exactly what
      the other code's updates made of them, in the order they happened, with at most one
      difference: the filter's marker may have been removed. The filter writes no other
      attribute, and neither restores nor discards what the rest of the chain did. */
  lemma {:induction false} DispatchFrame(config: FilterConfig, context: Option<Authentication>,
                                         attributes: map<string, bool>, d: Dispatch)
    requires DispatchSpares(d, AlreadyFilteredAttributeName(config.filterName))
    ensures var r := RunDispatch(config, context, attributes, d);
      var marker := AlreadyFilteredAttributeName(config.filterName);
      && SparesKey(r.trace, marker)
      && (r.attributes == ApplyUpdates(attributes, r.trace)
          || r.attributes == ApplyUpdates(attributes, r.trace) - {marker})
    decreases d, 0
  {
    var marker := AlreadyFilteredAttributeName(config.filterName);
    var chain := PipelineChain(config, context, d.pipeline);
    var r := RunDispatch(config, context, attributes, d);
    if !Guards(config, attributes, d.dispatcherType) {
      var c := RunPipeline(config, context, attributes, d.pipeline);
      PipelineFrame(config, context, attributes, d.pipeline);
      assert r.trace == [ChainInvoked] + c.trace;
      FilterCallsUpdateNothing(attributes, [ChainInvoked], c.trace);
    } else {
      var marked := attributes[marker := true];
      var c := RunPipeline(config, context, marked, d.pipeline);
      CheckedPassTrace(config, context, attributes, d.dispatcherType, d.reply, chain);
      PipelineFrame(config, context, marked, d.pipeline);
      var calls := [ManagerChecked, Published(d.reply.decision), ChainInvoked];
      if r.trace == calls + c.trace {
        FilterCallsUpdateNothing(attributes, calls, c.trace);
        SparedKeyCommutes(attributes, c.trace, marker, true);
        assert ApplyUpdates(attributes, c.trace)[marker := true] - {marker} - {marker}
            == ApplyUpdates(attributes, c.trace) - {marker};
        assert ApplyUpdates(attributes, c.trace)[marker := true] - {marker}
            == ApplyUpdates(attributes, c.trace) - {marker};
      } else {
        FilterCallsAlone(attributes, r.trace);
        assert marked - {marker} == attributes - {marker};
      }
    }
  }

  /** The same for the rest of the chain, with all its updates and re-dispatches. */
  lemma {:induction false} PipelineFrame(config: FilterConfig, context: Option<Authentication>,
                                         attributes: map<string, bool>, p: Pipeline)
    requires PipelineSpares(p, AlreadyFilteredAttributeName(config.filterName))
    ensures var r := RunPipeline(config, context, attributes, p);
      var marker := AlreadyFilteredAttributeName(config.filterName);
      && SparesKey(r.trace, marker)
      && (r.attributes == ApplyUpdates(attributes, r.trace)
          || r.attributes == ApplyUpdates(attributes, r.trace) - {marker})
    decreases p, 1
  {
    var marker := AlreadyFilteredAttributeName(config.filterName);
    match p
    case Finish(_) =>
    case Update(assignments, removed, rest) =>
      var updated := UpdateAttributes(attributes, assignments, removed);
      PipelineFrame(config, context, updated, rest);
      var q := RunPipeline(config, context, updated, rest);
      var r := RunPipeline(config, context, attributes, p);
      assert r.trace == [AttributesUpdated(assignments, removed)] + q.trace;
      assert r.trace[1..] == q.trace;
      assert ApplyUpdates(attributes, r.trace) == ApplyUpdates(updated, q.trace);
    case Redispatch(d, rest) =>
      DispatchFrame(config, context, attributes, d);
      var r := RunDispatch(config, context, attributes, d);
      if r.outcome.Completed? {
        PipelineFrame(config, context, r.attributes, rest);
        var q := RunPipeline(config, context, r.attributes, rest);
        ApplyUpdatesAppend(attributes, r.trace, q.trace);
        var mid := ApplyUpdates(attributes, r.trace);
        if r.attributes != mid {
          SparedKeyCommutes(mid, q.trace, marker, false);
          assert ApplyUpdates(mid, q.trace) - {marker} - {marker} == ApplyUpdates(mid, q.trace) - {marker};
        }
      }
  }

  /** A request that carries the marker, with once-per-request on, is never checked
      again inside its pass: every nested pass only forwards, and the attributes end as
      the other code's updates made them. */
  lemma {:induction false} MarkedDispatchOnlyForwards(config: FilterConfig, context: Option<Authentication>,
                                                      attributes: map<string, bool>, d: Dispatch)
    requires config.observeOncePerRequest
    requires AlreadyFilteredAttributeName(config.filterName) in attributes
    requires DispatchSpares(d, AlreadyFilteredAttributeName(config.filterName))
    ensures var r := RunDispatch(config, context, attributes, d);
      Unchecked(r.trace) && r.attributes == ApplyUpdates(attributes, r.trace)
    decreases d, 0
  {
    var c := RunPipeline(config, context, attributes, d.pipeline);
    MarkedPipelineOnlyForwards(config, context, attributes, d.pipeline);
    FilterCallsUpdateNothing(attributes, [ChainInvoked], c.trace);
  }

  /** The same for the rest of the chain, with all its updates and re-dispatches. */
  lemma {:induction false} MarkedPipelineOnlyForwards(config: FilterConfig, context: Option<Authentication>,
                                                      attributes: map<string, bool>, p: Pipeline)
    requires config.observeOncePerRequest
    requires AlreadyFilteredAttributeName(config.filterName) in attributes
    requires PipelineSpares(p, AlreadyFilteredAttributeName(config.filterName))
    ensures var r := RunPipeline(config, context, attributes, p);
      Unchecked(r.trace) && r.attributes == ApplyUpdates(attributes, r.trace)
    decreases p, 1
  {
    var marker := AlreadyFilteredAttributeName(config.filterName);
    match p
    case Finish(_) =>
    case Update(assignments, removed, rest) =>
      var updated := UpdateAttributes(attributes, assignments, removed);
      MarkedPipelineOnlyForwards(config, context, updated, rest);
      var q := RunPipeline(config, context, updated, rest);
      var r := RunPipeline(config, context, attributes, p);
      assert r.trace[1..] == q.trace;
    case Redispatch(d, rest) =>
      MarkedDispatchOnlyForwards(config, context, attributes, d);
      DispatchFrame(config, context, attributes, d);
      var r := RunDispatch(config, context, attributes, d);
      if r.outcome.Completed? {
        SparedKeyKept(attributes, r.trace, marker);
        MarkedPipelineOnlyForwards(config, context, r.attributes, rest);
        var q := RunPipeline(config, context, r.attributes, rest);
        ApplyUpdatesAppend(attributes, r.trace, q.trace);
      }
  }

  /** Once per request, across nested forwards and includes: with once-per-request on, an
      unmarked request whose pass is not skipped is checked exactly once in that pass,
      however deeply it is re-dispatched before the pass returns; at most one event is
      published, carrying that check's decision; and the attributes end as the other
      code's updates made them, without the marker. */
  lemma CheckedOncePerRequest(config: FilterConfig, context: Option<Authentication>,
                              attributes: map<string, bool>, d: Dispatch)
    requires config.observeOncePerRequest
    requires AlreadyFilteredAttributeName(config.filterName) !in attributes
    requires !SkipDispatch(config, d.dispatcherType)
    requires DispatchSpares(d, AlreadyFilteredAttributeName(config.filterName))
    ensures var r := RunDispatch(config, context, attributes, d);
      && r.trace[0] == ManagerChecked
      && multiset(r.trace)[ManagerChecked] == 1
      && (|r.trace| > 1 ==> r.trace[1] == Published(d.reply.decision))
      && (forall i | 1 < i < |r.trace| :: r.trace[i] == ChainInvoked || r.trace[i].AttributesUpdated?)
      && r.attributes == ApplyUpdates(attributes, r.trace)
  {
    CheckedOnceTrace(config, context, attributes, d);
    LifecycleEndsUnmarked(config, context, attributes, d);
  }

  /** The trace part of `CheckedOncePerRequest`. */
  lemma CheckedOnceTrace(config: FilterConfig, context: Option<Authentication>,
                         attributes: map<string, bool>, d: Dispatch)
    requires config.observeOncePerRequest
    requires AlreadyFilteredAttributeName(config.filterName) !in attributes
    requires !SkipDispatch(config, d.dispatcherType)
    requires DispatchSpares(d, AlreadyFilteredAttributeName(config.filterName))
    ensures var r := RunDispatch(config, context, attributes, d);
      && r.trace[0] == ManagerChecked
      && multiset(r.trace)[ManagerChecked] == 1
      && (|r.trace| > 1 ==> r.trace[1] == Published(d.reply.decision))
      && (forall i | 1 < i < |r.trace| :: r.trace[i] == ChainInvoked || r.trace[i].AttributesUpdated?)
  {
    var marker := AlreadyFilteredAttributeName(config.filterName);
    var marked := attributes[marker := true];
    var r := RunDispatch(config, context, attributes, d);
    var c := RunPipeline(config, context, marked, d.pipeline);
    CheckedPassTrace(config, context, attributes, d.dispatcherType, d.reply, PipelineChain(config, context, d.pipeline));
    MarkedPipelineOnlyForwards(config, context, marked, d.pipeline);
    assert forall i | 1 < i < |r.trace| :: r.trace[i] == ChainInvoked || r.trace[i].AttributesUpdated? by {
      if 2 < |r.trace| {
        assert r.trace == [ManagerChecked, Published(d.reply.decision), ChainInvoked] + c.trace;
      }
    }
    SingleCheck(r.trace);
  }

  /** A trace that starts with a check and has none after it holds exactly one check. */
  lemma SingleCheck(trace: seq<Event>)
    requires |trace| > 0 && trace[0] == ManagerChecked
    requires forall i | 0 < i < |trace| :: trace[i] != ManagerChecked
    ensures multiset(trace)[ManagerChecked] == 1
  {
    assert trace == [trace[0]] + trace[1..];
    assert ManagerChecked !in trace[1..];
  }

  /** A pass that starts without the marker ends without it, with every other attribute
      exactly as the other code's updates left it. */
  lemma LifecycleEndsUnmarked(config: FilterConfig, context: Option<Authentication>,
                              attributes: map<string, bool>, d: Dispatch)
    requires AlreadyFilteredAttributeName(config.filterName) !in attributes
    requires DispatchSpares(d, AlreadyFilteredAttributeName(config.filterName))
    ensures var r := RunDispatch(config, context, attributes, d);
      && AlreadyFilteredAttributeName(config.filterName) !in r.attributes
      && r.attributes == ApplyUpdates(attributes, r.trace)
  {
    var marker := AlreadyFilteredAttributeName(config.filterName);
    var r := RunDispatch(config, context, attributes, d);
    DispatchFrame(config, context, attributes, d);
    SparedKeyKept(attributes, r.trace, marker);
    var after := ApplyUpdates(attributes, r.trace);
    assert after - {marker} == after;
  }

  /** Error and async dispatches come after the earlier pass has returned and removed its
      marker, so once-per-request does not cover them: a later top-level pass starts
      unmarked and is checked again unless its dispatcher type is skipped. */
  lemma LaterDispatchCheckedAgain(config: FilterConfig, context: Option<Authentication>,
                                  attributes: map<string, bool>, first: Dispatch, next: Dispatch)
    requires AlreadyFilteredAttributeName(config.filterName) !in attributes
    requires DispatchSpares(first, AlreadyFilteredAttributeName(config.filterName))
    ensures var r := RunDispatch(config, context, attributes, first);
      var s := RunDispatch(config, context, r.attributes, next);
      && AlreadyFilteredAttributeName(config.filterName) !in r.attributes
      && (s.trace[0] == ManagerChecked <==> !SkipDispatch(config, next.dispatcherType))
  {
    LifecycleEndsUnmarked(config, context, attributes, first);
  }

  /** The number of passes a dispatch reaches whose dispatcher type is not skipped,
      counting nested forwards and includes until an exception ends a pipeline. With
      once-per-request off each of them is a separate check. */
  function DispatchChecks(config: FilterConfig, context: Option<Authentication>, d: Dispatch): nat
    decreases d, 1
  {
    if SkipDispatch(config, d.dispatcherType) then PipelineChecks(config, context, d.pipeline)
    else if ManagerFails(context, d.reply) || PublisherFails(config, context) || d.reply.decision == Some(false) then 1
    else 1 + PipelineChecks(config, context, d.pipeline)
  }

  /** The same count for the rest of the chain. */
  function PipelineChecks(config: FilterConfig, context: Option<Authentication>, p: Pipeline): nat
    decreases p, 0
  {
    match p
    case Finish(_) => 0
    case Update(_, _, rest) => PipelineChecks(config, context, rest)
    case Redispatch(d, rest) =>
      DispatchChecks(config, context, d)
      + (if DispatchThrows(config, context, d) then 0 else PipelineChecks(config, context, rest))
  }

  /** Whether a pass ends in an exception when every unskipped pass is checked: its own
      check throws or denies, or the rest of the chain throws. */
  predicate DispatchThrows(config: FilterConfig, context: Option<Authentication>, d: Dispatch)
    decreases d, 1
  {
    if SkipDispatch(config, d.dispatcherType) then PipelineThrows(config, context, d.pipeline)
    else ManagerFails(context, d.reply) || PublisherFails(config, context) || d.reply.decision == Some(false)
         || PipelineThrows(config, context, d.pipeline)
  }

  /** Whether the rest of the chain ends in an exception. */
  predicate PipelineThrows(config: FilterConfig, context: Option<Authentication>, p: Pipeline)
    decreases p, 0
  {
    match p
    case Finish(result) => result.Thrown?
    case Update(_, _, rest) => PipelineThrows(config, context, rest)
    case Redispatch(d, rest) => DispatchThrows(config, context, d) || PipelineThrows(config, context, rest)
  }

  /** With once-per-request off the filter runs again on every forward and include: an
      unskipped pass is checked first whatever its attributes, even with the marker an
      enclosing pass left, and the lifecycle holds one check per reached unskipped pass. */
  lemma {:induction false} CheckedOnEveryPass(config: FilterConfig, context: Option<Authentication>,
                                              attributes: map<string, bool>, d: Dispatch)
    requires !config.observeOncePerRequest
    ensures var r := RunDispatch(config, context, attributes, d);
      && (!SkipDispatch(config, d.dispatcherType) ==> r.trace[0] == ManagerChecked)
      && multiset(r.trace)[ManagerChecked] == DispatchChecks(config, context, d)
      && (r.outcome.Thrown? <==> DispatchThrows(config, context, d))
    decreases d, 0
  {
    var r := RunDispatch(config, context, attributes, d);
    if SkipDispatch(config, d.dispatcherType) {
      var c := RunPipeline(config, context, attributes, d.pipeline);
      PipelineCheckedOnEveryPass(config, context, attributes, d.pipeline);
      DispatchTypeBypass(config, context, attributes, d.dispatcherType, d.reply, PipelineChain(config, context, d.pipeline));
      assert r.trace == [ChainInvoked] + c.trace;
    } else {
      var marker := AlreadyFilteredAttributeName(config.filterName);
      if !(ManagerFails(context, d.reply) || PublisherFails(config, context) || d.reply.decision == Some(false)) {
        PipelineCheckedOnEveryPass(config, context, attributes[marker := true], d.pipeline);
      }
      CheckedPassCount(config, context, attributes, d);
    }
  }

  /** The checked pass of `CheckedOnEveryPass`, given the count for its pipeline when the
      chain is reached. */
  lemma CheckedPassCount(config: FilterConfig, context: Option<Authentication>,
                         attributes: map<string, bool>, d: Dispatch)
    requires !config.observeOncePerRequest && !SkipDispatch(config, d.dispatcherType)
    requires var c := RunPipeline(config, context, attributes[AlreadyFilteredAttributeName(config.filterName) := true], d.pipeline);
      !(ManagerFails(context, d.reply) || PublisherFails(config, context) || d.reply.decision == Some(false)) ==>
        && multiset(c.trace)[ManagerChecked] == PipelineChecks(config, context, d.pipeline)
        && (c.outcome.Thrown? <==> PipelineThrows(config, context, d.pipeline))
    ensures var r := RunDispatch(config, context, attributes, d);
      && r.trace[0] == ManagerChecked
      && multiset(r.trace)[ManagerChecked] == DispatchChecks(config, context, d)
      && (r.outcome.Thrown? <==> DispatchThrows(config, context, d))
  {
    var marker := AlreadyFilteredAttributeName(config.filterName);
    var c := RunPipeline(config, context, attributes[marker := true], d.pipeline);
    var r := RunDispatch(config, context, attributes, d);
    CheckedPassTrace(config, context, attributes, d.dispatcherType, d.reply, PipelineChain(config, context, d.pipeline));
    if ManagerFails(context, d.reply) {
      assert r.trace == [ManagerChecked];
    } else if PublisherFails(config, context) || d.reply.decision == Some(false) {
      assert r.trace == [ManagerChecked, Published(d.reply.decision)];
    } else {
      assert r.trace == [ManagerChecked, Published(d.reply.decision), ChainInvoked] + c.trace;
      assert r.outcome == c.outcome;
    }
  }

  /** The same for the rest of the chain, with all its updates and re-dispatches. */
  lemma {:induction false} PipelineCheckedOnEveryPass(config: FilterConfig, context: Option<Authentication>,
                                                      attributes: map<string, bool>, p: Pipeline)
    requires !config.observeOncePerRequest
    ensures var r := RunPipeline(config, context, attributes, p);
      && multiset(r.trace)[ManagerChecked] == PipelineChecks(config, context, p)
      && (r.outcome.Thrown? <==> PipelineThrows(config, context, p))
    decreases p, 1
  {
    match p
    case Finish(_) =>
    case Update(assignments, removed, rest) =>
      var updated := UpdateAttributes(attributes, assignments, removed);
      PipelineCheckedOnEveryPass(config, context, updated, rest);
    case Redispatch(d, rest) =>
      CheckedOnEveryPass(config, context, attributes, d);
      var r := RunDispatch(config, context, attributes, d);
      if r.outcome.Completed? {
        PipelineCheckedOnEveryPass(config, context, r.attributes, rest);
      }
  }
}
