/** The refresher of one feed: it installs every loaded snapshot, and sweeps all reports only
    when the content marker changed. */
module Feeds {
  import opened Base
  import opened App
  import opened Queue
  import opened Controller

  const NO_MARKER: Marker := ("", "")

  /** Whether a load counts as new content: it is the first, it has no marker, or its marker
      differs from the last one. */
  predicate Changed(have: bool, last: Marker, marker: Marker) {
    !have || marker == NO_MARKER || marker != last
  }

  /** Everything one refresh cycle can change. swept is the marker at the last sweep. */
  datatype RefreshState<S> = RefreshState(installed: Option<Loaded<S>>, loaded: bool, have: bool, last: Marker,
                                          succeeded: nat, failed: nat, sweeps: nat, swept: Option<Marker>)

  function Unrefreshed<S>(): RefreshState<S> {
    RefreshState(None, false, false, NO_MARKER, 0, 0, 0, None)
  }

  /** One whole cycle, with a sweep callback. A failed load (None) only counts the failure. */
  function Refreshed<S>(st: RefreshState<S>, outcome: Option<Loaded<S>>): RefreshState<S> {
    match outcome
    case None => st.(failed := st.failed + 1)
    case Some(r) =>
      var sweep := Changed(st.have, st.last, r.marker);
      RefreshState(Some(r), true, true, r.marker, st.succeeded + 1, st.failed,
                   if sweep then st.sweeps + 1 else st.sweeps, if sweep then Some(r.marker) else st.swept)
  }

  /** The same state with no change callback to sweep through. */
  function Unswept<S>(st: RefreshState<S>): RefreshState<S> {
    st.(sweeps := 0, swept := None)
  }

  function Refreshes<S>(outcomes: seq<Option<Loaded<S>>>): RefreshState<S> {
    if outcomes == [] then Unrefreshed()
    else Refreshed(Refreshes(outcomes[..|outcomes| - 1]), outcomes[|outcomes| - 1])
  }

  // ----- The trace law -----

  function LastSuccess<S>(outcomes: seq<Option<Loaded<S>>>): Option<Loaded<S>> {
    if outcomes == [] then None
    else if outcomes[|outcomes| - 1].Some? then outcomes[|outcomes| - 1]
    else LastSuccess(outcomes[..|outcomes| - 1])
  }

  /** Outcome i is a success that is the first, has no marker, or differs from the success
      before it. */
  predicate NewContent<S>(outcomes: seq<Option<Loaded<S>>>, i: nat)
    requires i < |outcomes|
  {
    && outcomes[i].Some?
    && var before := LastSuccess(outcomes[..i]);
    before.None? || outcomes[i].value.marker == ("", "") || outcomes[i].value.marker != before.value.marker
  }

  function Sweeps<S(!new)>(outcomes: seq<Option<Loaded<S>>>): set<nat> {
    set i: nat | i < |outcomes| && NewContent(outcomes, i)
  }

  function Successes<S(!new)>(outcomes: seq<Option<Loaded<S>>>): set<nat> {
    set i: nat | i < |outcomes| && outcomes[i].Some?
  }

  function Failures<S(!new)>(outcomes: seq<Option<Loaded<S>>>): set<nat> {
    set i: nat | i < |outcomes| && outcomes[i].None?
  }

  lemma OutcomesCount<S(!new)>(outcomes: seq<Option<Loaded<S>>>, n: nat)
    requires |outcomes| == n + 1
    ensures |Successes(outcomes)| == |Successes(outcomes[..n])| + if outcomes[n].Some? then 1 else 0
    ensures |Failures(outcomes)| == |Failures(outcomes[..n])| + if outcomes[n].None? then 1 else 0
  {
    assert Successes(outcomes) == Successes(outcomes[..n]) + if outcomes[n].Some? then {n} else {};
    assert Failures(outcomes) == Failures(outcomes[..n]) + if outcomes[n].None? then {n} else {};
  }

  /** After any successes and failures: the installed snapshot is that of the last success, the
      sweeps are exactly the outcomes with new content, the installed marker is the one at the
      last sweep, and each outcome is counted for what it is. */
  lemma {:induction false} TraceLaw<S(!new)>(outcomes: seq<Option<Loaded<S>>>)
    ensures var st := Refreshes(outcomes);
            && st.installed == LastSuccess(outcomes)
            && st.loaded == st.have == st.installed.Some?
            && st.sweeps == |Sweeps(outcomes)|
            && (st.have ==> st.last == st.installed.value.marker && st.swept == Some(st.last))
            && st.succeeded == |Successes(outcomes)| && st.failed == |Failures(outcomes)|
  {
    if outcomes != [] {
      var n := |outcomes| - 1;
      TraceLaw(outcomes[..n]);
      SweepsGrow(outcomes, n);
      OutcomesCount(outcomes, n);
    }
  }

  lemma SweepsGrow<S(!new)>(outcomes: seq<Option<Loaded<S>>>, n: nat)
    requires |outcomes| == n + 1
    ensures |Sweeps(outcomes)| == |Sweeps(outcomes[..n])| + if NewContent(outcomes, n) then 1 else 0
  {
    var init := outcomes[..n];
    forall i: nat | i < n
      ensures NewContent(outcomes, i) <==> NewContent(init, i)
    {
      assert outcomes[..i] == init[..i];
    }
    assert Sweeps(outcomes) == Sweeps(init) + if NewContent(outcomes, n) then {n} else {};
  }

  // ----- The refresher -----

  /** Counts refresh outcomes. */
  class Sink {
    var succeeded: nat
    var failed: nat

    constructor ()
      ensures succeeded == 0 && failed == 0
    {
      succeeded, failed := 0, 0;
    }
  }

  class Refresher<S> {
    const slot: Slot<S>
    const sink: Sink
    const controller: Controller?  // whose sweep is the change callback; null for none
    var last: Marker
    var have: bool
    ghost var sweeps: nat
    ghost var swept: Option<Marker>

    ghost function State(): RefreshState<S>
      reads this, slot, sink
    {
      RefreshState(slot.pointer, slot.loaded, have, last, sink.succeeded, sink.failed, sweeps, swept)
    }

    constructor (slot: Slot<S>, sink: Sink, controller: Controller?)
      ensures this.slot == slot && this.sink == sink && this.controller == controller
      ensures State() == RefreshState(slot.pointer, slot.loaded, false, NO_MARKER, sink.succeeded, sink.failed, 0, None)
    {
      this.slot, this.sink, this.controller := slot, sink, controller;
      last, have := NO_MARKER, false;
      sweeps, swept := 0, None;
    }

    /** One refresh cycle on the outcome of a load. */
    method RefreshOnce(outcome: Option<Loaded<S>>) returns (changed: bool, failed: bool, ghost listed: seq<Key>)
      modifies this, slot, sink, if controller == null then {} else {controller.queue}
      ensures failed == outcome.None?
      ensures changed == (outcome.Some? && Changed(old(have), old(last), outcome.value.marker))
      ensures controller != null ==> State() == Refreshed(old(State()), outcome)
      ensures controller == null ==>
                State() == Refreshed(old(State()), outcome).(sweeps := old(sweeps), swept := old(swept))
      ensures controller != null && changed ==>
                && ListsKeys(listed, controller.indexer.Keys)
                && controller.queue.State() == EnqueuedAll(controller.allow, old(controller.queue.State()), listed)
      ensures controller != null && !changed ==> controller.queue.State() == old(controller.queue.State())
    {
      listed := [];
      if outcome.None? {
        sink.failed := sink.failed + 1;
        return false, true, listed;
      }
      var res := outcome.value;
      slot.Apply(res);
      sink.succeeded := sink.succeeded + 1;
      var firstLoad := !have;
      var unknownMarker := res.marker == NO_MARKER;
      changed, failed := firstLoad || unknownMarker || res.marker != last, false;
      last := res.marker;
      have := true;
      if changed && controller != null {
        sweeps, swept := sweeps + 1, Some(res.marker);
        listed := controller.EnqueueAll();
      }
    }

    /** A refresh at once and then one at every tick, until the outcomes run out. */
    method Run(outcomes: seq<Option<Loaded<S>>>)
      requires outcomes != [] && State() == Unrefreshed()
      modifies this, slot, sink, if controller == null then {} else {controller.queue}
      ensures State() == if controller == null then Unswept(Refreshes(outcomes)) else Refreshes(outcomes)
    {
      ghost var first := outcomes[..1];
      assert first == [outcomes[0]] && first[..0] == [];
      var _, _, _ := RefreshOnce(outcomes[0]);
      for i := 1 to |outcomes|
        invariant State() == if controller == null then Unswept(Refreshes(outcomes[..i])) else Refreshes(outcomes[..i])
      {
        assert outcomes[..i + 1][..i] == outcomes[..i];
        var _, _, _ := RefreshOnce(outcomes[i]);
      }
      assert outcomes[..|outcomes|] == outcomes;
    }
  }

  // ----- The same cycle in its atomic steps, for interleaving -----

  /** Where a cycle stands. Fetched: loaded, not yet installed. Stored: pointer written.
      Flagged: loaded flag set too. Listing: sweep decided. Sweeping: keys still to be added. */
  datatype Phase<S> =
    | Waiting
    | Fetched(r: Loaded<S>)
    | Stored(marker: Marker)
    | Flagged(marker: Marker)
    | Listing
    | Sweeping(keys: set<Key>)

  datatype Feed<S> = Feed(installed: Option<Loaded<S>>, loaded: bool, have: bool, last: Marker, phase: Phase<S>)

  datatype FeedStep<S> =
    | LoadFails
    | Loads(r: Loaded<S>)
    | Store
    | SetLoaded
    | Decide
    | List
    | AddKey(key: Key)
    | EndSweep

  predicate FeedEnabled<S>(f: Feed<S>, step: FeedStep<S>) {
    match step
    case LoadFails => f.phase.Waiting?
    case Loads(_) => f.phase.Waiting?
    case Store => f.phase.Fetched?
    case SetLoaded => f.phase.Stored?
    case Decide => f.phase.Flagged?
    case List => f.phase.Listing?
    case AddKey(key) => f.phase.Sweeping? && key in f.phase.keys
    case EndSweep => f.phase.Sweeping? && f.phase.keys == {}
  }

  function FeedNext<S>(f: Feed<S>, step: FeedStep<S>, cached: set<Key>): Feed<S>
    requires FeedEnabled(f, step)
  {
    match step
    case LoadFails => f
    case Loads(r) => f.(phase := Fetched(r))
    case Store => f.(installed := Some(f.phase.r), phase := Stored(f.phase.r.marker))
    case SetLoaded => f.(loaded := true, phase := Flagged(f.phase.marker))
    case Decide =>
      f.(have := true, last := f.phase.marker,
         phase := if Changed(f.have, f.last, f.phase.marker) then Listing else Waiting)
    case List => f.(phase := Sweeping(cached))
    case AddKey(key) => f.(phase := Sweeping(f.phase.keys - {key}))
    case EndSweep => f.(phase := Waiting)
  }

  function Unloaded<S>(): Feed<S> {
    Feed(None, false, false, NO_MARKER, Waiting)
  }

  /** What a step of a refresher does to the queue. */
  function AfterFeed<S>(allow: set<string>, q: QueueState, step: FeedStep<S>): QueueState {
    if step.AddKey? then Enqueued(allow, q, step.key) else q
  }

  predicate CanCycle<S>(f: Feed<S>, steps: seq<FeedStep<S>>, cached: set<Key>)
    decreases |steps|
  {
    steps == [] || (FeedEnabled(f, steps[0]) && CanCycle(FeedNext(f, steps[0], cached), steps[1..], cached))
  }

  /** The feed and the queue after some steps with no other goroutine between them. */
  function Cycled<S>(allow: set<string>, f: Feed<S>, q: QueueState, steps: seq<FeedStep<S>>, cached: set<Key>)
    : (Feed<S>, QueueState)
    requires CanCycle(f, steps, cached)
    decreases |steps|
  {
    if steps == [] then (f, q)
    else Cycled(allow, FeedNext(f, steps[0], cached), AfterFeed(allow, q, steps[0]), steps[1..], cached)
  }

  lemma {:induction false} CycleOn<S>(allow: set<string>, f: Feed<S>, q: QueueState, steps: seq<FeedStep<S>>,
                                      cached: set<Key>,
                                      step: FeedStep<S>)
    requires CanCycle(f, steps, cached) && FeedEnabled(Cycled(allow, f, q, steps, cached).0, step)
    ensures CanCycle(f, steps + [step], cached)
    ensures var (f', q') := Cycled(allow, f, q, steps, cached);
            Cycled(allow, f, q, steps + [step], cached) == (FeedNext(f', step, cached), AfterFeed(allow, q', step))
    decreases |steps|
  {
    if steps == [] {
      assert [] + [step] == [step] && [step][1..] == [];
    } else {
      assert (steps + [step])[1..] == steps[1..] + [step];
      CycleOn(allow, FeedNext(f, steps[0], cached), AfterFeed(allow, q, steps[0]), steps[1..], cached, step);
    }
  }

  /** Adding listed keys one by one takes them off the sweep and does to the queue what enqueuing
      them all does. */
  lemma {:induction false} AddSteps<S>(allow: set<string>, f: Feed<S>, q: QueueState, steps: seq<FeedStep<S>>,
                                       cached: set<Key>,
                                       listed: seq<Key>)
    returns (steps': seq<FeedStep<S>>)
    requires CanCycle(f, steps, cached)
    requires var f' := Cycled(allow, f, q, steps, cached).0;
             f'.phase.Sweeping? && ListsKeys(listed, f'.phase.keys * set k | k in listed)
    ensures CanCycle(f, steps', cached)
    ensures var (f', q') := Cycled(allow, f, q, steps, cached);
            Cycled(allow, f, q, steps', cached)
              == (f'.(phase := Sweeping(f'.phase.keys - set k | k in listed)), EnqueuedAll(allow, q', listed))
  {
    var (f', q') := Cycled(allow, f, q, steps, cached);
    if listed == [] {
      assert f'.phase.keys - (set k | k in listed) == f'.phase.keys;
      return steps;
    }
    var n := |listed| - 1;
    var init, last := listed[..n], listed[n];
    assert listed == init + [last];
    assert last in listed && last !in init;
    assert forall k | k in init :: k in listed;
    steps' := AddSteps(allow, f, q, steps, cached, init);
    CycleOn(allow, f, q, steps', cached, AddKey(last));
    steps' := steps' + [AddKey(last)];
    assert f'.phase.keys - (set k | k in init) - {last} == f'.phase.keys - (set k | k in listed);
  }

  /** Run without interruption, the atomic steps of a refresh make exactly the whole cycle, on a
      failed load and on a successful one, for every order in which the cache is listed: the
      same snapshot, flag and marker, and the same keys added to the queue in the same order. */
  lemma StepsMakeCycle<S>(allow: set<string>, f: Feed<S>, q: QueueState, cached: set<Key>, listed: seq<Key>,
                          outcome: Option<Loaded<S>>, st: RefreshState<S>)
    returns (steps: seq<FeedStep<S>>)
    requires f.phase.Waiting? && ListsKeys(listed, cached)
    requires st.installed == f.installed && st.loaded == f.loaded && st.have == f.have && st.last == f.last
    ensures CanCycle(f, steps, cached)
    ensures var st' := Refreshed(st, outcome);
            Cycled(allow, f, q, steps, cached)
              == (Feed(st'.installed, st'.loaded, st'.have, st'.last, Waiting),
                  if st'.sweeps > st.sweeps then EnqueuedAll(allow, q, listed) else q)
  {
    if outcome.None? {
      CycleOn(allow, f, q, [], cached, LoadFails);
      return [] + [LoadFails];
    }
    var r := outcome.value;
    CycleOn(allow, f, q, [], cached, Loads(r));
    steps := [] + [Loads(r)];
    CycleOn(allow, f, q, steps, cached, Store);
    steps := steps + [Store];
    CycleOn(allow, f, q, steps, cached, SetLoaded);
    steps := steps + [SetLoaded];
    CycleOn(allow, f, q, steps, cached, Decide);
    steps := steps + [Decide];
    if Changed(f.have, f.last, r.marker) {
      CycleOn(allow, f, q, steps, cached, List);
      steps := steps + [List];
      assert cached * (set k | k in listed) == cached && cached - (set k | k in listed) == {};
      steps := AddSteps(allow, f, q, steps, cached, listed);
      CycleOn(allow, f, q, steps, cached, EndSweep);
      steps := steps + [EndSweep];
    }
  }
}
