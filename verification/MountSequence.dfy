/**
 Mounting and unmounting the components of an array (src/array_components/array_mount_sequence.cpp): the calls
 made, the rollback of a partial mount and the state contexts left behind.
 */
module MountSequence {

  /** The state contexts of an array other than the default one, which is always there. */
  datatype Situation = NormalCtx | TryMount | Degraded | TryUnmount | JournalRecovery | Rebuilding | FaultCtx

  /** A component, by identity. */
  type Component = nat

  /** A call to the component at position `i`, or the detaching of the volumes. */
  datatype Call = Init(i: nat, ok: bool) | Dispose(i: nat) | Shutdown(i: nat) | Flush(i: nat) | DetachVolumes

  datatype Reply = Done | AlreadyMounted | BrokenArray | AlreadyUnmounted | StateNotReached | InitFailed

  const MOUNT_OVERHEAD: nat := 1
  const UNMOUNT_OVERHEAD: nat := 60

  // ------------------------------------------------------------------- call orders

  function Inits(k: nat): seq<Call> {
    seq(k, i requires 0 <= i < k => Init(i, true))
  }

  /** Dispose hi - 1, hi - 2, ..., lo. */
  function Disposes(lo: nat, hi: nat): seq<Call>
    requires lo <= hi
  {
    seq(hi - lo, i requires 0 <= i < hi - lo => Dispose(hi - 1 - i))
  }

  function Shutdowns(n: nat): seq<Call> {
    seq(n, i requires 0 <= i < n => Shutdown(n - 1 - i))
  }

  function Flushes(n: nat): seq<Call> {
    seq(n, i requires 0 <= i < n => Flush(n - 1 - i))
  }

  /** The first component whose Init fails, or the number of components. */
  function FirstFailure(results: seq<bool>): (k: nat)
    ensures k <= |results|
    ensures k < |results| ==> !results[k]
    ensures forall j :: 0 <= j < k ==> results[j]
  {
    if results == [] || !results[0] then 0 else 1 + FirstFailure(results[1..])
  }

  /** What an admitted mount calls: everything in order, or up to the failure k and then k, k - 1, ..., 0 disposed. */
  function MountCalls(results: seq<bool>, reached: bool): seq<Call> {
    var k := FirstFailure(results);
    if !reached then [Dispose(0)]
    else if k == |results| then Inits(k)
    else Inits(k) + [Init(k, false)] + Disposes(0, k + 1)
  }

  /** The last position at which the front component occurs. */
  function LastFront(components: seq<Component>): (j: nat)
    requires components != []
    ensures j < |components| && components[j] == components[0]
    ensures forall i :: j < i < |components| ==> components[i] != components[0]
  {
    if |components| == 1 || components[|components| - 1] == components[0] then |components| - 1
    else LastFront(components[..|components| - 1])
  }

  /** What an admitted unmount calls: the front component is flushed and disposed last. */
  function UnmountCalls(components: seq<Component>): seq<Call>
    requires components != []
  {
    [DetachVolumes] + Disposes(LastFront(components) + 1, |components|) + [Flush(0), Dispose(0)]
  }

  // ------------------------------------------------------------------- whole runs

  /** The sequence between two calls: the contexts on the state list and every call made so far. */
  datatype State = State(contexts: set<Situation>, log: seq<Call>)

  datatype Event =
    | EvMount(results: seq<bool>, reached: bool)
    | EvUnmount(reached: bool)
    | EvBreak
    | EvEnter(ctx: Situation)
    | EvLeave(ctx: Situation)

  predicate Foreign(ctx: Situation) {
    ctx.Degraded? || ctx.JournalRecovery? || ctx.Rebuilding?
  }

  /** The events that can happen: other parties only add and remove their own contexts. */
  predicate Enabled(n: nat, e: Event) {
    match e
    case EvMount(results, _) => |results| == n
    case EvEnter(ctx) => Foreign(ctx)
    case EvLeave(ctx) => Foreign(ctx)
    case _ => true
  }

  function MountStep(s: State, results: seq<bool>, reached: bool): State {
    if s.contexts != {} then s
    else
      State(if reached && FirstFailure(results) == |results| then {NormalCtx} else {}, s.log + MountCalls(results, reached))
  }

  function UnmountStep(components: seq<Component>, s: State, reached: bool): State
    requires components != []
  {
    if FaultCtx in s.contexts || s.contexts == {} then s
    else if !reached then s.(contexts := s.contexts - {TryUnmount})
    else State(s.contexts - {NormalCtx, TryUnmount}, s.log + UnmountCalls(components))
  }

  /** The array breaks: an array that was up is shut down and flushed, back to front. */
  function BreakStep(n: nat, s: State): State {
    if FaultCtx in s.contexts || s.contexts == {} then s.(contexts := s.contexts + {FaultCtx})
    else State(s.contexts + {FaultCtx}, s.log + [DetachVolumes] + Shutdowns(n) + Flushes(n))
  }

  function Step(components: seq<Component>, s: State, e: Event): State
    requires components != []
  {
    match e
    case EvMount(results, reached) => MountStep(s, results, reached)
    case EvUnmount(reached) => UnmountStep(components, s, reached)
    case EvBreak => BreakStep(|components|, s)
    case EvEnter(ctx) => s.(contexts := s.contexts + {ctx})
    case EvLeave(ctx) => s.(contexts := s.contexts - {ctx})
  }

  ghost predicate Run(n: nat, events: seq<Event>) {
    forall k :: 0 <= k < |events| ==> Enabled(n, events[k])
  }

  function Final(components: seq<Component>, s: State, events: seq<Event>): State
    requires components != []
    decreases events
  {
    if events == [] then s else Final(components, Step(components, s, events[0]), events[1..])
  }

  /** What one call does to the set of components that are up. */
  function Apply(up: set<nat>, c: Call): set<nat> {
    if c.Init? && c.ok then up + {c.i} else if c.Dispose? || c.Shutdown? then up - {c.i} else up
  }

  /** The components that are up after a sequence of calls. */
  function Live(log: seq<Call>): set<nat> {
    if log == [] then {} else Apply(Live(log[..|log| - 1]), log[|log| - 1])
  }

  /** No component is initialised while it is up. */
  ghost predicate Clean(log: seq<Call>) {
    log == [] ||
    (Clean(log[..|log| - 1]) && (log[|log| - 1].Init? ==> log[|log| - 1].i !in Live(log[..|log| - 1])))
  }

  predicate TakesDown(c: Call) {
    c.Dispose? || c.Shutdown?
  }

  /** Only components that are up are disposed or shut down. */
  ghost predicate Tidy(log: seq<Call>) {
    log == [] ||
    (Tidy(log[..|log| - 1]) && (TakesDown(log[|log| - 1]) ==> log[|log| - 1].i in Live(log[..|log| - 1])))
  }

  /** The positions from `lo` up to `hi`, `hi` excluded. */
  ghost function Range(lo: nat, hi: nat): (r: set<nat>)
    ensures forall i :: i in r <==> lo <= i < hi
  {
    if lo >= hi then {} else Range(lo, hi - 1) + {hi - 1}
  }

  lemma LivePush(log: seq<Call>, c: Call)
    ensures Live(log + [c]) == Apply(Live(log), c)
    ensures Clean(log) && (c.Init? ==> c.i !in Live(log)) ==> Clean(log + [c])
  {
    assert (log + [c])[..|log|] == log;
  }

  lemma {:induction false} LiveInits(log: seq<Call>, k: nat)
    ensures Live(log + Inits(k)) == Live(log) + Range(0, k)
    ensures Clean(log) && Live(log) == {} ==> Clean(log + Inits(k))
  {
    if k == 0 {
      assert log + Inits(0) == log;
    } else {
      assert log + Inits(k) == (log + Inits(k - 1)) + [Init(k - 1, true)];
      LivePush(log + Inits(k - 1), Init(k - 1, true));
      LiveInits(log, k - 1);
    }
  }

  lemma {:induction false} LiveDisposes(log: seq<Call>, lo: nat, hi: nat)
    requires lo <= hi
    ensures Live(log + Disposes(lo, hi)) == Live(log) - Range(lo, hi)
    ensures Clean(log) ==> Clean(log + Disposes(lo, hi))
    decreases hi - lo
  {
    if lo == hi {
      assert log + Disposes(lo, hi) == log;
    } else {
      assert log + Disposes(lo, hi) == (log + Disposes(lo + 1, hi)) + [Dispose(lo)];
      LivePush(log + Disposes(lo + 1, hi), Dispose(lo));
      LiveDisposes(log, lo + 1, hi);
    }
  }

  lemma {:induction false} LiveShutdowns(log: seq<Call>, n: nat, k: nat)
    requires k <= n
    ensures Live(log + Shutdowns(n)[..k]) == Live(log) - Range(n - k, n)
    ensures Clean(log) ==> Clean(log + Shutdowns(n)[..k])
  {
    if k == 0 {
      assert log + Shutdowns(n)[..0] == log;
    } else {
      assert log + Shutdowns(n)[..k] == (log + Shutdowns(n)[..k - 1]) + [Shutdown(n - k)];
      LivePush(log + Shutdowns(n)[..k - 1], Shutdown(n - k));
      LiveShutdowns(log, n, k - 1);
    }
  }

  lemma {:induction false} LiveFlushes(log: seq<Call>, n: nat, k: nat)
    requires k <= n
    ensures Live(log + Flushes(n)[..k]) == Live(log)
    ensures Clean(log) ==> Clean(log + Flushes(n)[..k])
  {
    if k == 0 {
      assert log + Flushes(n)[..0] == log;
    } else {
      assert log + Flushes(n)[..k] == (log + Flushes(n)[..k - 1]) + [Flush(n - k)];
      LivePush(log + Flushes(n)[..k - 1], Flush(n - k));
      LiveFlushes(log, n, k - 1);
    }
  }

  /** A failed Init at position k, rolled back. */
  lemma LiveRollback(log: seq<Call>, k: nat)
    requires Live(log) == {}
    ensures var l := log + (Inits(k) + [Init(k, false)] + Disposes(0, k + 1)); Live(l) == {} && (Clean(log) ==> Clean(l))
  {
    hide Live, Clean, Inits, Disposes;
    var l1 := log + Inits(k);
    LiveInits(log, k);
    LivePush(l1, Init(k, false));
    LiveDisposes(l1 + [Init(k, false)], 0, k + 1);
    assert log + (Inits(k) + [Init(k, false)] + Disposes(0, k + 1)) == l1 + [Init(k, false)] + Disposes(0, k + 1);
  }

  /** A mount leaves everything up or, after any failure, nothing that was not up before. */
  lemma LiveMount(log: seq<Call>, results: seq<bool>, reached: bool)
    requires Live(log) == {}
    ensures Live(log + MountCalls(results, reached)) ==
            if reached && FirstFailure(results) == |results| then Range(0, |results|) else {}
    ensures Clean(log) ==> Clean(log + MountCalls(results, reached))
  {
    hide Live, Clean, Inits, Disposes, FirstFailure;
    var k := FirstFailure(results);
    if !reached {
      LivePush(log, Dispose(0));
    } else if k < |results| {
      LiveRollback(log, k);
    } else {
      LiveInits(log, k);
    }
  }

  lemma LiveUnmount(components: seq<Component>, log: seq<Call>)
    requires components != []
    ensures Live(log + UnmountCalls(components)) ==
            Live(log) - Range(LastFront(components) + 1, |components|) - {0}
    ensures Clean(log) ==> Clean(log + UnmountCalls(components))
  {
    var l1 := log + [DetachVolumes];
    var l2 := l1 + Disposes(LastFront(components) + 1, |components|);
    LivePush(log, DetachVolumes);
    LiveDisposes(l1, LastFront(components) + 1, |components|);
    LivePush(l2, Flush(0));
    LivePush(l2 + [Flush(0)], Dispose(0));
    assert log + UnmountCalls(components) == (l2 + [Flush(0)]) + [Dispose(0)];
  }

  lemma LiveBreak(log: seq<Call>, n: nat)
    ensures Live(log + [DetachVolumes] + Shutdowns(n) + Flushes(n)) == Live(log) - Range(0, n)
    ensures Clean(log) ==> Clean(log + [DetachVolumes] + Shutdowns(n) + Flushes(n))
  {
    var l1 := log + [DetachVolumes];
    LivePush(log, DetachVolumes);
    LiveShutdowns(l1, n, n);
    LiveFlushes(l1 + Shutdowns(n), n, n);
    assert Shutdowns(n)[..n] == Shutdowns(n) && Flushes(n)[..n] == Flushes(n);
  }

  /** No component occurs twice. */
  ghost predicate Distinct(components: seq<Component>) {
    forall i, j :: 0 <= i < j < |components| ==> components[i] != components[j]
  }

  /**
   Between calls: all components are up exactly while NORMAL is on the state list without FAULT, otherwise none
   is; of its own contexts the sequence has left at most NORMAL; and no component was initialised while it was up.
   */
  ghost predicate Consistent(n: nat, s: State) {
    && Live(s.log) == (if NormalCtx in s.contexts && FaultCtx !in s.contexts then Range(0, n) else {})
    && TryMount !in s.contexts && TryUnmount !in s.contexts
    && Clean(s.log)
  }

  lemma StepConsistent(components: seq<Component>, s: State, e: Event)
    requires components != [] && Distinct(components) && Enabled(|components|, e) && Consistent(|components|, s)
    ensures Consistent(|components|, Step(components, s, e))
  {
    hide Live, MountCalls, UnmountCalls, Clean;
    match e
    case EvMount(results, reached) =>
      if s.contexts == {} {
        LiveMount(s.log, results, reached);
      }
    case EvUnmount(reached) =>
      LiveUnmount(components, s.log);
      assert LastFront(components) == 0;
    case EvBreak => LiveBreak(s.log, |components|);
    case _ =>
  }

  // ------------------------------------------------- taking down what is not up

  lemma TidyPush(log: seq<Call>, c: Call)
    ensures Tidy(log + [c]) <==> Tidy(log) && (TakesDown(c) ==> c.i in Live(log))
  {
    assert (log + [c])[..|log|] == log;
  }

  lemma {:induction false} TidyInits(log: seq<Call>, k: nat)
    ensures Tidy(log + Inits(k)) <==> Tidy(log)
  {
    hide Tidy, Live;
    if k == 0 {
      assert log + Inits(0) == log;
    } else {
      assert log + Inits(k) == (log + Inits(k - 1)) + [Init(k - 1, true)];
      TidyPush(log + Inits(k - 1), Init(k - 1, true));
      TidyInits(log, k - 1);
    }
  }

  lemma {:induction false} TidyDisposes(log: seq<Call>, lo: nat, hi: nat)
    requires lo <= hi
    ensures Tidy(log + Disposes(lo, hi)) <==> Tidy(log) && Range(lo, hi) <= Live(log)
    decreases hi - lo
  {
    hide Tidy, Live, Range;
    if lo == hi {
      assert log + Disposes(lo, hi) == log;
    } else {
      assert log + Disposes(lo, hi) == (log + Disposes(lo + 1, hi)) + [Dispose(lo)];
      TidyPush(log + Disposes(lo + 1, hi), Dispose(lo));
      LiveDisposes(log, lo + 1, hi);
      TidyDisposes(log, lo + 1, hi);
      assert forall i :: i in Range(lo, hi) <==> i == lo || i in Range(lo + 1, hi);
    }
  }

  lemma {:induction false} TidyShutdowns(log: seq<Call>, n: nat, k: nat)
    requires k <= n
    ensures Tidy(log + Shutdowns(n)[..k]) <==> Tidy(log) && Range(n - k, n) <= Live(log)
  {
    hide Tidy, Live, Range;
    if k == 0 {
      assert log + Shutdowns(n)[..0] == log;
    } else {
      assert log + Shutdowns(n)[..k] == (log + Shutdowns(n)[..k - 1]) + [Shutdown(n - k)];
      TidyPush(log + Shutdowns(n)[..k - 1], Shutdown(n - k));
      LiveShutdowns(log, n, k - 1);
      TidyShutdowns(log, n, k - 1);
      var lo := n - k;
      assert forall i :: i in Range(lo, n) <==> i == lo || i in Range(lo + 1, n);
    }
  }

  lemma {:induction false} TidyFlushes(log: seq<Call>, n: nat, k: nat)
    requires k <= n
    ensures Tidy(log + Flushes(n)[..k]) <==> Tidy(log)
  {
    hide Tidy, Live;
    if k == 0 {
      assert log + Flushes(n)[..0] == log;
    } else {
      assert log + Flushes(n)[..k] == (log + Flushes(n)[..k - 1]) + [Flush(n - k)];
      TidyPush(log + Flushes(n)[..k - 1], Flush(n - k));
      TidyFlushes(log, n, k - 1);
    }
  }

  /** A failed Init at k disposes k, which is not up. */
  lemma RollbackUntidy(log: seq<Call>, k: nat)
    requires Live(log) == {}
    ensures !Tidy(log + (Inits(k) + [Init(k, false)] + Disposes(0, k + 1)))
  {
    hide Live, Tidy, Inits, Disposes, Range;
    var l1 := log + Inits(k);
    LiveInits(log, k);
    LivePush(l1, Init(k, false));
    TidyDisposes(l1 + [Init(k, false)], 0, k + 1);
    assert k in Range(0, k + 1) && k !in Live(l1 + [Init(k, false)]);
    assert log + (Inits(k) + [Init(k, false)] + Disposes(0, k + 1)) == l1 + [Init(k, false)] + Disposes(0, k + 1);
  }

  /**
   An admitted mount only disposes components that are up exactly when it succeeds: a failed wait disposes the
   first component, which is not up, and a failed Init at k disposes k, which is not up either.
   */
  lemma MountTidyIff(log: seq<Call>, results: seq<bool>, reached: bool)
    requires Live(log) == {} && Tidy(log)
    ensures Tidy(log + MountCalls(results, reached)) <==> reached && FirstFailure(results) == |results|
  {
    hide Live, Tidy, Inits, Disposes, FirstFailure, Range;
    var k := FirstFailure(results);
    if !reached {
      TidyPush(log, Dispose(0));
    } else if k < |results| {
      RollbackUntidy(log, k);
    } else {
      TidyInits(log, k);
    }
  }

  /** A failed wait, and a second component whose Init fails. */
  lemma MountUntidyExample()
    ensures !Tidy([] + MountCalls([true, true], false)) && !Tidy([] + MountCalls([true, false], true))
  {
    hide FirstFailure, MountCalls;
    MountTidyIff([], [true, true], false);
    var results := [true, false];
    assert !results[1] && FirstFailure(results) != 2;
    MountTidyIff([], results, true);
  }

  /** An unmount of distinct components only disposes what is up exactly when all of them are up. */
  lemma UnmountTidyIff(components: seq<Component>, log: seq<Call>)
    requires components != [] && Distinct(components) && Tidy(log)
    ensures Tidy(log + UnmountCalls(components)) <==> Range(0, |components|) <= Live(log)
  {
    hide Live, Tidy, Disposes, Range;
    var n := |components|;
    assert LastFront(components) == 0;
    var l1 := log + [DetachVolumes];
    var l2 := l1 + Disposes(1, n);
    TidyPush(log, DetachVolumes);
    LivePush(log, DetachVolumes);
    TidyDisposes(l1, 1, n);
    LiveDisposes(l1, 1, n);
    TidyPush(l2, Flush(0));
    LivePush(l2, Flush(0));
    TidyPush(l2 + [Flush(0)], Dispose(0));
    assert log + UnmountCalls(components) == (l2 + [Flush(0)]) + [Dispose(0)];
    assert forall i :: i in Range(0, n) <==> i == 0 || i in Range(1, n);
  }

  lemma BreakTidyIff(log: seq<Call>, n: nat)
    requires Tidy(log)
    ensures Tidy(log + [DetachVolumes] + Shutdowns(n) + Flushes(n)) <==> Range(0, n) <= Live(log)
  {
    hide Live, Tidy, Shutdowns, Flushes, Range;
    var l1 := log + [DetachVolumes];
    TidyPush(log, DetachVolumes);
    LivePush(log, DetachVolumes);
    TidyShutdowns(l1, n, n);
    TidyFlushes(l1 + Shutdowns(n), n, n);
    WholeOrders(n);
  }

  lemma WholeOrders(n: nat)
    ensures |Shutdowns(n)| == |Flushes(n)| == n
    ensures Shutdowns(n)[..n] == Shutdowns(n) && Flushes(n)[..n] == Flushes(n)
  {
  }

  /**
   The events after which every component taken down so far was up: a mount that is refused or succeeds, and an
   unmount or break that takes nothing down or finds NORMAL on the state list.
   */
  ghost predicate TidyEvent(s: State, e: Event) {
    match e
    case EvMount(results, reached) => s.contexts == {} ==> reached && FirstFailure(results) == |results|
    case EvUnmount(reached) => FaultCtx !in s.contexts && s.contexts != {} && reached ==> NormalCtx in s.contexts
    case EvBreak => FaultCtx !in s.contexts && s.contexts != {} ==> NormalCtx in s.contexts
    case _ => true
  }

  lemma StepTidyIff(components: seq<Component>, s: State, e: Event)
    requires components != [] && Distinct(components) && Enabled(|components|, e)
    requires Consistent(|components|, s) && Tidy(s.log)
    ensures Tidy(Step(components, s, e).log) <==> TidyEvent(s, e)
  {
    hide Live, Tidy, MountCalls, UnmountCalls, Clean, Shutdowns, Flushes, FirstFailure, Distinct, Range;
    assert 0 in Range(0, |components|);
    match e
    case EvMount(results, reached) =>
      if s.contexts == {} {
        MountTidyIff(s.log, results, reached);
      }
    case EvUnmount(reached) => UnmountTidyIff(components, s.log);
    case EvBreak => BreakTidyIff(s.log, |components|);
    case _ =>
  }

  ghost predicate TidyRun(components: seq<Component>, s: State, events: seq<Event>)
    requires components != []
    decreases events
  {
    events == [] || (TidyEvent(s, events[0]) && TidyRun(components, Step(components, s, events[0]), events[1..]))
  }

  lemma {:induction false} TidyPrefix(log: seq<Call>, more: seq<Call>)
    requires Tidy(log + more)
    ensures Tidy(log)
    decreases more
  {
    if more == [] {
      assert log + more == log;
    } else {
      assert (log + more)[..|log + more| - 1] == log + more[..|more| - 1];
      TidyPrefix(log, more[..|more| - 1]);
    }
  }

  /** Calls are only added. */
  lemma {:induction false} LogGrows(components: seq<Component>, s: State, events: seq<Event>)
    requires components != []
    ensures s.log <= Final(components, s, events).log
    decreases events
  {
    hide MountCalls, UnmountCalls, Shutdowns, Flushes;
    if events != [] {
      LogGrows(components, Step(components, s, events[0]), events[1..]);
    }
  }

  /** Over every run, only components that are up are ever taken down, if and only if every event is a tidy one. */
  lemma {:induction false} RunTidyIff(components: seq<Component>, s: State, events: seq<Event>)
    requires components != [] && Distinct(components) && Run(|components|, events)
    requires Consistent(|components|, s) && Tidy(s.log)
    ensures Tidy(Final(components, s, events).log) <==> TidyRun(components, s, events)
    decreases events
  {
    hide Tidy, Step, Enabled, Consistent, Distinct, TidyEvent;
    if events != [] {
      var s1 := Step(components, s, events[0]);
      StepTidyIff(components, s, events[0]);
      StepConsistent(components, s, events[0]);
      if Tidy(s1.log) {
        RunTidyIff(components, s1, events[1..]);
      } else {
        LogGrows(components, s1, events[1..]);
        var end := Final(components, s1, events[1..]).log;
        assert end == s1.log + end[|s1.log|..];
        UntidyStays(s1.log, end[|s1.log|..]);
      }
    }
  }

  lemma UntidyStays(log: seq<Call>, more: seq<Call>)
    requires !Tidy(log)
    ensures !Tidy(log + more)
  {
    hide Tidy;
    if Tidy(log + more) {
      TidyPrefix(log, more);
    }
  }

  /** Over every run of mounts, unmounts and breaks on distinct components, all components are up or none is. */
  lemma {:induction false} RunConsistent(components: seq<Component>, s: State, events: seq<Event>)
    requires components != [] && Distinct(components) && Run(|components|, events) && Consistent(|components|, s)
    ensures Consistent(|components|, Final(components, s, events))
    ensures var up := Live(Final(components, s, events).log); up == {} || up == Range(0, |components|)
    decreases events
  {
    if events != [] {
      StepConsistent(components, s, events[0]);
      RunConsistent(components, Step(components, s, events[0]), events[1..]);
    }
  }

  /** Once FAULT is on the state list it stays, and no component is ever called again. */
  lemma {:induction false} StoppedForever(components: seq<Component>, s: State, events: seq<Event>)
    requires components != [] && Run(|components|, events) && FaultCtx in s.contexts
    ensures FaultCtx in Final(components, s, events).contexts
    ensures Final(components, s, events).log == s.log
    decreases events
  {
    if events != [] {
      assert Enabled(|components|, events[0]);
      StoppedForever(components, Step(components, s, events[0]), events[1..]);
    }
  }

  /**
   An unmount takes every component down exactly when the front component occurs only once: a second occurrence
   would end the loop early.
   */
  lemma UnmountCompleteIff(components: seq<Component>, log: seq<Call>)
    requires components != [] && Live(log) == Range(0, |components|)
    ensures Live(log + UnmountCalls(components)) == {} <==>
            forall i :: 0 < i < |components| ==> components[i] != components[0]
  {
    hide Live, UnmountCalls;
    LiveUnmount(components, log);
    var j := LastFront(components);
    if j > 0 {
      assert j in Range(0, |components|) - Range(j + 1, |components|) - {0};
    } else {
      assert Range(0, |components|) - Range(1, |components|) - {0} == {};
    }
  }

  /** A front component that occurs again at the end: the loop stops at once and two positions stay up. */
  lemma UnmountRepeatedExample(front: Component, middle: Component)
    requires front != middle
    ensures Live([] + Inits(3)) == Range(0, 3)
    ensures Live([] + Inits(3) + UnmountCalls([front, middle, front])) == {1, 2}
  {
    hide Live, Inits, UnmountCalls;
    LiveInits([], 3);
    assert Live([]) == {} by { LiveNothing(); }
    LiveUnmount([front, middle, front], [] + Inits(3));
    assert LastFront([front, middle, front]) == 2;
  }

  lemma LiveNothing()
    ensures Live([]) == {}
  {
  }

  // ---------------------------------------------------------------------- the orders

  /** An admitted mount initialises 0, 1, ... in order; after a failure at k it disposes k, k - 1, ..., 0. */
  lemma MountOrder(results: seq<bool>)
    ensures var k := FirstFailure(results);
            var calls := MountCalls(results, true);
            && |calls| == (if k == |results| then k else 2 * k + 2)
            && (forall j :: 0 <= j < k ==> calls[j] == Init(j, true))
            && (k < |results| ==>
                  && calls[k] == Init(k, false)
                  && forall j :: k < j < 2 * k + 2 ==> calls[j] == Dispose(2 * k + 1 - j))
    ensures MountCalls(results, false) == [Dispose(0)]
  {
  }

  /** An unmount of distinct components: volumes, then n - 1 down to 1, and last the front one, flushed and disposed. */
  lemma UnmountOrder(components: seq<Component>)
    requires components != [] && Distinct(components)
    ensures var n := |components|;
            var calls := UnmountCalls(components);
            && |calls| == n + 2 && calls[0] == DetachVolumes
            && (forall j :: 0 < j < n ==> calls[n - j] == Dispose(j))
            && calls[n] == Flush(0) && calls[n + 1] == Dispose(0)
  {
    var n := |components|;
    assert LastFront(components) == 0;
    var calls := UnmountCalls(components);
    assert |calls| == n + 2;
    forall j | 0 < j < n ensures calls[n - j] == Dispose(j) {
      assert calls[n - j] == Disposes(1, n)[n - j - 1];
    }
  }

  /** The events that call components: a mount of an array that is down, an unmount or a break of one that is up. */
  lemma AdmittedIff(components: seq<Component>, s: State, e: Event)
    requires components != [] && Enabled(|components|, e)
    ensures Step(components, s, e).log != s.log <==>
            match e
            case EvMount(_, _) => s.contexts == {}
            case EvUnmount(reached) => s.contexts != {} && FaultCtx !in s.contexts && reached
            case EvBreak => s.contexts != {} && FaultCtx !in s.contexts
            case _ => false
  {
    hide FirstFailure, LastFront;
    match e
    case EvMount(results, reached) => assert |MountCalls(results, reached)| > 0;
    case _ =>
  }

  /** A break of an array that is up: volumes, Shutdown from n - 1 down to 0, then Flush from n - 1 down to 0. */
  lemma BreakOrder(n: nat, s: State)
    requires s.contexts != {} && FaultCtx !in s.contexts
    ensures var log := BreakStep(n, s).log;
            && |log| == |s.log| + 2 * n + 1 && s.log <= log && log[|s.log|] == DetachVolumes
            && (forall j :: 0 <= j < n ==> log[|s.log| + n - j] == Shutdown(j) && log[|s.log| + 2 * n - j] == Flush(j))
  {
    var log, at := BreakStep(n, s).log, |s.log|;
    forall j | 0 <= j < n ensures log[at + n - j] == Shutdown(j) && log[at + 2 * n - j] == Flush(j) {
      assert log[at + n - j] == Shutdowns(n)[n - 1 - j];
      assert log[at + 2 * n - j] == Flushes(n)[n - 1 - j];
    }
  }

  /** What each event does to the state list. */
  lemma ContextsAfter(components: seq<Component>, s: State, e: Event)
    requires components != [] && Consistent(|components|, s)
    ensures var after := Step(components, s, e).contexts;
            match e
            case EvMount(results, reached) =>
              after == if s.contexts == {} && reached && FirstFailure(results) == |results| then {NormalCtx} else s.contexts
            case EvUnmount(reached) =>
              after == if FaultCtx !in s.contexts && reached then s.contexts - {NormalCtx} else s.contexts
            case EvBreak => after == s.contexts + {FaultCtx}
            case EvEnter(ctx) => after == s.contexts + {ctx}
            case EvLeave(ctx) => after == s.contexts - {ctx}
  {
    hide Live, Clean, FirstFailure, LastFront;
  }
}
