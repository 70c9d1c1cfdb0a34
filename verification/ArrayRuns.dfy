/** Whole runs of the array: the invariant, conservation of block devices, late I/O errors, aborts. */
module ArrayRuns {
  import opened Options
  import opened Raid
  import opened ArrayModel
  import opened ArrayInvariants
  import opened ArraySteps

  /** A PASS arrives before any destination of its job is unplugged. */
  ghost predicate OnTime(s: State, e: Event)
    requires Enabled(s, e)
  {
    e.EvRebuildDone? && e.result.Pass? ==> Fresh(s, e.k)
  }

  /** A run: every event can happen, is on time and does not abort the process. */
  ghost predicate Run(s: State, events: seq<Event>)
    decreases events
  {
    events == [] ||
    (Enabled(s, events[0]) && OnTime(s, events[0]) && !Step(s, events[0]).reply.Aborted?
     && Run(Step(s, events[0]).s, events[1..]))
  }

  ghost function Final(s: State, events: seq<Event>): State
    requires Run(s, events)
    decreases events
  {
    if events == [] then s else Final(Step(s, events[0]).s, events[1..])
  }

  lemma InitKeeps(s: State, env: Env)
    requires Inv(s)
    ensures Inv(Init(s, env).s)
  {
    hide Bag, JobBag, Combined;
  }

  lemma MountDoneKeeps(s: State, env: Env)
    requires Inv(s)
    ensures Inv(MountDone(s, env).s)
  {
    hide Inv;
    InvokeKeeps(s, Indices(s.data, Rebuild), true, false, env);
    InvokeKeeps(s, Indices(s.data, Fault), false, false, env);
    MarkKeeps(Requeue(s, env), env);
  }

  lemma MarkKeeps(s: State, env: Env)
    requires Inv(s)
    ensures Inv(UpdatePbr(s, env).(mountDone := true))
  {
    hide Bag, JobBag, Combined, Table, RecordDevices;
  }

  lemma UnmountKeeps(s: State, env: Env)
    requires Inv(s)
    ensures Inv(Unmount(s, env).s)
  {
    hide Bag, JobBag, Combined, Table, RecordDevices;
  }

  lemma AttachKeeps(s: State, u: Ublock)
    requires Inv(s) && u !in s.registry && u !in s.gone
    ensures Inv(s.(registry := s.registry[u := SystemClass]))
  {
    hide Shape, SlotsOk, Exclusive, Synced, SingleJob, SlotBag, JobBag;
    var s' := s.(registry := s.registry[u := SystemClass]);
    RegistryFrame(s, s'.registry, s.gone);
    assert u !in Owned(s);
  }

  /** Every step keeps the invariant. */
  lemma StepKeeps(s: State, e: Event)
    requires Enabled(s, e) && OnTime(s, e) && !Step(s, e).reply.Aborted?
    requires Inv(s)
    ensures Inv(Step(s, e).s)
  {
    hide Inv, AddSpare, RemoveSpare, ReplaceDevice, UserRebuild, IoError, DeviceDetached, Execute, RebuildDone, Init,
      MountDone, UpdatePbr, Unmount, Fresh, InRange;
    match e
    case EvAddSpare(name, env) => AddSpareKeeps(s, name, env);
    case EvRemoveSpare(name, env) => RemoveSpareKeeps(s, name, env);
    case EvReplace(name, env) => ReplaceKeeps(s, name, env);
    case EvUserRebuild(env) => UserRebuildKeeps(s, env);
    case EvIoError(i, u, busy, env) => IoErrorKeeps(s, i, u, busy, env);
    case EvDetached(u, busy, env) => DeviceDetachedKeeps(s, u, busy, env);
    case EvExecute(k, env) => ExecuteKeeps(s, k, env);
    case EvRebuildDone(k, result, env) => RebuildDoneKeepsIff(s, k, result, env);
    case EvInit(env) => InitKeeps(s, env);
    case EvMountDone(env) => MountDoneKeeps(s, env);
    case EvFlush(env) => PbrKeeps(s, env);
    case EvUnmount(env) => UnmountKeeps(s, env);
    case EvAttach(u, env) => AttachKeeps(s, u);
  }

  /** Every state of every run satisfies the invariant. */
  lemma {:induction false} RunKeeps(s: State, events: seq<Event>)
    requires Run(s, events)
    requires Inv(s)
    ensures Inv(Final(s, events))
    decreases events
  {
    hide Inv, Step, Enabled, OnTime;
    if events != [] {
      StepKeeps(s, events[0]);
      RunKeeps(Step(s, events[0]).s, events[1..]);
    }
  }

  /**
   Over every run: a data slot is without a block device exactly when it is FAULT, at most one rebuild is in
   flight, and short of RAID failure the array is in the REBUILD state exactly while one is.
   */
  lemma RunSingleRebuild(s: State, events: seq<Event>)
    requires Run(s, events)
    requires Inv(s)
    ensures var t := Final(s, events);
            && (forall i :: 0 <= i < |t.data| ==> (t.data[i].ublock.None? <==> t.data[i].state.Fault?))
            && |t.jobs| <= 1
            && (!t.status.Broken? ==> (t.status.OnlineRebuild? <==> |t.jobs| == 1))
  {
    hide Run, Final, Shape, Exclusive, Accounted, Synced;
    RunKeeps(s, events);
  }

  /**
   What a triggered rebuild of unplugged targets does: with m the smaller of the number of targets and of
   spares, the first m targets are rebuilt, target k on the block device of spare k; the other targets stay
   FAULT; and without a spare nothing changes at all.
   */
  lemma TriggerStarts(s: State, targets: seq<nat>, env: Env)
    requires targets != [] && InRange(targets, |s.data|) && Distinct(targets) && RebuildGranted(s.status, env)
    requires forall k :: 0 <= k < |targets| ==> Unplugged(s.data[targets[k]])
    requires Inv(s)
    ensures var (s', retry) := TriggerRebuild(s, targets, env);
            var m := Min(|targets|, |s.spares|);
            && !retry && s'.spares == s.spares[m..] && |s'.data| == |s.data|
            && (if m == 0 then s' == s else s'.status.OnlineRebuild? && s'.jobs == [Job(targets[..m], [], false)])
            && (forall k :: 0 <= k < m ==> s'.data[targets[k]] == Slot(s.spares[k].ublock, Rebuild))
            && (forall j :: 0 <= j < |s.data| && j !in targets[..m] ==> s'.data[j] == s.data[j])
  {
    hide Inv, Fill, Table, RecordDevices;
    var pool := Pool(s.data, s.spares);
    SparesReady(s);
    IdleJobs(s);
    FillKeeps(pool, targets);
    FillSlots(pool, targets);
    NoSpareNoFill(pool, targets);
  }

  /**
   What a replacement that is admitted and granted does: the slot is rebuilt on the block device of the first spare,
   and its old device is parked in the job.
   */
  lemma ReplaceStarts(s: State, i: nat, name: Option<Ublock>, env: Env)
    requires FindName(s.nvm + s.data + s.spares, name) == |s.nvm| + i && ReplaceAdmitted(s, i)
    requires env.stateOk && Replaceable(s, i)
    requires Inv(s)
    ensures var r := ReplaceDevice(s, name, env);
            && r.reply.Success? && r.s.status.OnlineRebuild?
            && r.s.nvm == s.nvm && r.s.meta == s.meta && r.s.user == s.user
            && r.s.data == s.data[i := Slot(s.spares[0].ublock, Rebuild)] && r.s.spares == s.spares[1..]
            && r.s.jobs == [Job([i], [Slot(s.data[i].ublock, Normal)], false)]
  {
    hide Inv, Shape, Combined, FindName, Indices, Replaceable, Table, RecordDevices;
    NormalFacts(s);
    IdleJobs(s);
    HasNormal(s.spares);
    assert s.spares[0].state.Normal?;
    FirstLossHealth(s, i);
    StatesUpdate(s.data, i, s.data[i].(state := Rebuild));
    assert Without(s.spares, 0) == s.spares[1..];
  }

  /** ReplaceDevice never gets to its rollback, because it has just seen a NORMAL spare. */
  lemma RollbackNotTaken(s: State, i: nat)
    requires i < |s.data| && Indices(s.spares, Normal) != []
    ensures SpareToData(Pool(SetSlotState(s, i, Rebuild).data, s.spares), i).Some?
  {
    hide Indices;
    HasNormal(s.spares);
  }

  /** If it did, the rollback would restore the array exactly. */
  lemma RollbackRestores(s: State, i: nat)
    requires s.status.OnlineNormal? && Health(s).RaidNormal? && i < |s.data| && s.data[i].state.Normal?
    ensures var s2 := SyncHealth(SetSlotState(s, i, Rebuild)).(status := OnlineRebuild);
            SyncHealth(SetSlotState(s2.(status := SetRebuildDone(s2.status, false)), i, Normal)) == s
  {
    hide Combined;
    var s2 := SyncHealth(SetSlotState(s, i, Rebuild)).(status := OnlineRebuild);
    assert SetSlotState(s2, i, Normal).data == s.data;
  }

  // ----------------------------------------------- conservation of block devices

  /** The block devices the system has ever known. */
  ghost function Known(s: State): set<Ublock> {
    s.registry.Keys + s.gone
  }

  lemma {:induction false} ReleaseKeys(registry: map<Ublock, DeviceClass>, srcs: seq<Slot>)
    ensures Release(registry, srcs).Keys == registry.Keys
  {
    ReleaseSpec(registry, srcs);
  }

  /** Nothing known is forgotten and nothing removed comes back. */
  ghost predicate Remembers(s: State, s': State) {
    Known(s) <= Known(s') && s.gone <= s'.gone
  }

  lemma AddSpareRemembers(s: State, name: Option<Ublock>, env: Env)
    ensures Remembers(s, AddSpare(s, name, env).s)
    ensures Remembers(s, RemoveSpare(s, name, env).s)
  {
    hide Indices, FindName, Table, RecordDevices, MinimumCapacity;
  }

  lemma ReplaceRemembers(s: State, name: Option<Ublock>, env: Env)
    ensures Remembers(s, ReplaceDevice(s, name, env).s)
  {
    hide Health, RaidStateUpdated, Indices, FindName, Table, RecordDevices, SpareToData;
  }

  lemma ExecuteRemembers(s: State, k: nat, env: Env)
    requires k < |s.queue| && InRange(s.queue[k].targets, |s.data|)
    ensures Remembers(s, Execute(s, k, env))
  {
    hide Fill, Table, RecordDevices;
  }

  lemma RebuildDoneRemembers(s: State, k: nat, result: RebuildResult, env: Env)
    requires k < |s.jobs| && InRange(s.jobs[k].dsts, |s.data|)
    ensures Remembers(s, RebuildDone(s, k, result, env))
  {
    hide Release, SetNormal, Health, RaidStateUpdated, Indices, Table, RecordDevices;
    ReleaseKeys(s.registry, s.jobs[k].srcs);
  }

  lemma QueueRemembers(s: State, env: Env)
    ensures Remembers(s, UserRebuild(s, env).s)
  {
    hide Indices;
  }

  lemma RequeueFrame(s: State, env: Env)
    ensures Requeue(s, env).data == s.data && Requeue(s, env).registry == s.registry && Requeue(s, env).gone == s.gone
  {
    hide Indices;
  }

  lemma MountDoneRemembers(s: State, env: Env)
    ensures Remembers(s, MountDone(s, env).s)
  {
    hide Requeue, NullTarget, Table, RecordDevices;
    RequeueFrame(s, env);
  }

  /** No step forgets a block device, and a removed one stays removed. */
  lemma StepRemembers(s: State, e: Event)
    requires Enabled(s, e)
    ensures Remembers(s, Step(s, e).s)
  {
    hide AddSpare, RemoveSpare, ReplaceDevice, Execute, RebuildDone, DetachData, DeviceDetached, UserRebuild, MountDone,
      Table, RecordDevices, PassHitsNull;
    match e
    case EvAddSpare(name, env) => AddSpareRemembers(s, name, env);
    case EvRemoveSpare(name, env) => AddSpareRemembers(s, name, env);
    case EvReplace(name, env) => ReplaceRemembers(s, name, env);
    case EvExecute(k, env) => ExecuteRemembers(s, k, env);
    case EvRebuildDone(k, result, env) => RebuildDoneRemembers(s, k, result, env);
    case EvDetached(u, busy, env) => DetachedRemembers(s, u, busy, env);
    case EvIoError(i, u, busy, env) => DetachRemembers(s, i, env);
    case EvUserRebuild(env) => QueueRemembers(s, env);
    case EvMountDone(env) => MountDoneRemembers(s, env);
    case _ =>
  }

  lemma DetachRemembers(s: State, i: nat, env: Env)
    requires i < |s.data|
    ensures Remembers(s, DetachData(s, i, env).s)
  {
    hide Unplug, Table, RecordDevices;
    if s.data[i].ublock.Some? {
      UnplugRemembers(s, i);
    }
  }

  lemma UnplugRemembers(s: State, i: nat)
    requires i < |s.data| && s.data[i].ublock.Some?
    ensures Remembers(s, Unplug(s, i))
  {
    hide Health, RaidStateUpdated;
  }

  lemma DetachedRemembers(s: State, u: Ublock, busy: bool, env: Env)
    ensures Remembers(s, DeviceDetached(s, u, busy, env).s)
  {
    hide Health, FindName, DetachData, Table, RecordDevices;
    var k := FindName(s.nvm + s.data + s.spares, Some(u));
    if |s.nvm| <= k < |s.nvm| + |s.data| {
      DetachRemembers(s, k - |s.nvm|, env);
    }
  }

  lemma {:induction false} RunRemembers(s: State, events: seq<Event>)
    requires Run(s, events)
    ensures Remembers(s, Final(s, events))
    decreases events
  {
    hide Step, Enabled, OnTime, Known;
    if events != [] {
      StepRemembers(s, events[0]);
      RunRemembers(Step(s, events[0]).s, events[1..]);
    }
  }

  ghost function Places(s: State, u: Ublock): nat {
    SlotBag(s)[u] + JobBag(s.jobs)[u]
    + (if u in s.registry && s.registry[u].SystemClass? then 1 else 0)
    + (if u in s.gone && u !in JobBag(s.jobs) then 1 else 0)
  }

  lemma OnePlace(s: State, u: Ublock)
    requires Inv(s) && u in Known(s)
    ensures Places(s, u) == 1
  {
    hide Shape, SlotsOk, Synced, SingleJob, SlotBag, JobBag;
    assert Owned(s)[u] == SlotBag(s)[u] + JobBag(s.jobs)[u] <= 1;
  }

  /**
   Block devices are conserved over every run: each device known at the start is, at the end, in exactly one
   slot, or parked as the source of the rebuild, or free in the system, or removed, and in one of these only.
   */
  lemma Conservation(s: State, events: seq<Event>, u: Ublock)
    requires Run(s, events) && u in Known(s)
    requires Inv(s)
    ensures u in Known(Final(s, events)) && Places(Final(s, events), u) == 1
  {
    hide Inv, Known, Places, Run, Final;
    RunKeeps(s, events);
    RunRemembers(s, events);
    OnePlace(Final(s, events), u);
  }

  // ------------------------------------------------------- late and repeated errors

  lemma DetachEffect(s: State, i: nat, env: Env)
    requires i < |s.data| && s.data[i].ublock.Some? && !s.data[i].state.Fault?
    ensures var s' := DetachData(s, i, env).s;
            s'.data == s.data[i := Slot(None, Fault)] && s.data[i].ublock.value in s'.gone && s'.spares == s.spares
  {
    hide Health, RaidStateUpdated, Table, RecordDevices;
    assert Unplug(s, i).data == s.data[i := Slot(None, Fault)];
    hide Unplug;
    assert s.data[i].ublock.value in Unplug(s, i).gone && Unplug(s, i).spares == s.spares by { UnplugEffect(s, i); }
  }

  lemma UnplugEffect(s: State, i: nat)
    requires i < |s.data| && s.data[i].ublock.Some?
    ensures s.data[i].ublock.value in Unplug(s, i).gone && Unplug(s, i).spares == s.spares
  {
    hide Health, RaidStateUpdated;
  }

  /** An I/O error changes the array exactly when it names the device that the slot holds now. */
  lemma IoErrorDetachesHolder(s: State, i: nat, u: Option<Ublock>, busy: bool, env: Env)
    requires i < |s.data|
    requires Inv(s)
    ensures var s' := IoError(s, i, u, busy, env).s;
            var hit := !busy && IsMounted(s.status) && u.Some? && s.data[i].ublock == u;
            && (s' != s <==> hit)
            && (hit ==> s'.data == s.data[i := Slot(None, Fault)] && u.value in s'.gone && s'.spares == s.spares)
  {
    hide Inv, DetachData;
    SlotHolds(s, i);
    if s.data[i].ublock.Some? {
      DetachEffect(s, i, env);
      DetachDataKeeps(s, i, env);
    }
  }

  lemma GoneUnheld(s: State, i: nat, u: Ublock)
    requires Inv(s) && u in s.gone && i < |s.data|
    ensures s.data[i].ublock != Some(u) && u !in s.registry
  {
    hide Shape, SlotsOk, Exclusive, Synced, SingleJob, JobBag, Bag;
    BagMember(s.data, u);
  }

  /**
   However device `u` left the system, after whatever events: no error that names `u` and no second removal of
   `u` changes the array, whatever the slot. The replacement spare is never detached in its place.
   */
  lemma GoneForGood(s: State, u: Ublock, events: seq<Event>, j: nat, busy: bool, env: Env)
    requires u in s.gone && Run(s, events) && j < |Final(s, events).data|
    requires Inv(s)
    ensures var late := Final(s, events);
            && IoError(late, j, Some(u), busy, env).s == late
            && DeviceDetached(late, u, busy, env) == Outcome(late, Rejected(UnknownDevice))
  {
    hide Inv, Run, Final, IoError, Known;
    RunKeeps(s, events);
    RunRemembers(s, events);
    GoneUnheld(Final(s, events), j, u);
    IoErrorDetachesHolder(Final(s, events), j, Some(u), busy, env);
  }

  /** In particular a device is detached by I/O errors at most once. */
  lemma DetachedAtMostOnce(s: State, i: nat, u: Ublock, env: Env, s1: State, events: seq<Event>,
                           j: nat, busy: bool, env': Env)
    requires i < |s.data| && s1 == IoError(s, i, Some(u), false, env).s && s1 != s
    requires Run(s1, events) && j < |Final(s1, events).data|
    requires Inv(s)
    ensures IoError(Final(s1, events), j, Some(u), busy, env').s == Final(s1, events)
  {
    hide Inv, Run, Final, IoError;
    IoErrorDetachesHolder(s, i, Some(u), false, env);
    IoErrorKeeps(s, i, Some(u), false, env);
    GoneForGood(s1, u, events, j, busy, env');
  }

  // ----------------------------------------------------------------------- aborts

  lemma DegradedHealth(s: State)
    requires Inv(s) && s.status.OnlineDegraded?
    ensures Health(s).RaidDegraded?
  {
    hide Shape, SlotsOk, Exclusive, Accounted, SingleJob, Health;
  }

  lemma DegradedHasTarget(s: State)
    requires Inv(s) && s.status.OnlineDegraded?
    ensures Indices(s.data, Rebuild) != [] || Indices(s.data, Fault) != []
  {
    hide Inv, PartitionState;
    DegradedHealth(s);
    var devs := States(s.data);
    var raid := if PartitionState(s.meta, devs).RaidNormal? then s.user else s.meta;
    PartitionNormal(raid, devs);
    var i :| 0 <= i < |s.data| && !devs[i].Normal?;
    assert i in Indices(s.data, Rebuild) || i in Indices(s.data, Fault);
  }

  /** The RAID types and the slot for which marking one NORMAL device as REBUILD degrades, but does not break, the array. */
  ghost predicate Replaceable(s: State, i: nat) {
    && (i < Span(s.meta, |s.data|) || i < Span(s.user, |s.data|))
    && (i < Span(s.meta, |s.data|) ==> Tolerant(s.meta))
    && (i < Span(s.user, |s.data|) ==> Tolerant(s.user))
  }

  lemma FirstLossHealth(s: State, i: nat)
    requires Shape(s) && Health(s).RaidNormal? && i < |s.data|
    ensures Combined(s.meta, s.user, States(s.data)[i := Rebuild]).RaidDegraded? <==> Replaceable(s, i)
  {
    FirstLoss(s.meta, States(s.data), i, Rebuild);
    FirstLoss(s.user, States(s.data), i, Rebuild);
    hide PartitionState;
  }

  /** Replacing a device gets as far as asking for the rebuild state. */
  ghost predicate ReplaceAdmitted(s: State, i: nat) {
    && s.status.OnlineNormal?
    && i < |s.data| && s.data[i].state.Normal?
    && Tolerant(s.user)
    && s.spares != []
  }

  lemma NormalFacts(s: State)
    requires Inv(s)
    ensures Shape(s) && Ready(s.spares)
    ensures s.status.OnlineNormal? ==> Health(s).RaidNormal?
  {
    hide SlotsOk, Exclusive, Accounted, SingleJob, Health;
  }

  lemma ReplaceAborts(s: State, name: Option<Ublock>, env: Env)
    requires Inv(s)
    ensures var i := FindName(s.nvm + s.data + s.spares, name) - |s.nvm|;
            ReplaceDevice(s, name, env).reply.Aborted? <==>
            0 <= i && ReplaceAdmitted(s, i) && !(env.stateOk && Replaceable(s, i))
  {
    hide Inv, Shape, Combined, FindName, Indices, Replaceable, Table, RecordDevices;
    NormalFacts(s);
    HasNormal(s.spares);
    assert s.spares != [] ==> s.spares[0].state.Normal?;
    var k := FindName(s.nvm + s.data + s.spares, name);
    if |s.nvm| <= k < |s.nvm| + |s.data| && s.status.OnlineNormal? {
      FirstLossHealth(s, k - |s.nvm|);
      StatesUpdate(s.data, k - |s.nvm|, s.data[k - |s.nvm|].(state := Rebuild));
    }
  }

  /**
   The process aborts only where the code asserts, ReplaceDevice when the rebuild state cannot be had (a late
   context, or a slot whose loss does not leave the array DEGRADED) and MountDone when the record cannot be written,
   and where the record of a PASS goes to an unplugged destination. The null dereference of a detach and the empty
   target list of a user rebuild never happen.
   */
  lemma AbortsExactly(s: State, e: Event)
    requires Enabled(s, e)
    requires Inv(s)
    ensures Step(s, e).reply.Aborted? <==>
            || (e.EvMountDone? && !e.env.pbrOk)
            || (e.EvRebuildDone? && e.result.Pass? && e.env.pbrOk && !Fresh(s, e.k))
            || (e.EvReplace?
                && var i := FindName(s.nvm + s.data + s.spares, e.name) - |s.nvm|;
                   0 <= i && ReplaceAdmitted(s, i) && !(e.env.stateOk && Replaceable(s, i)))
  {
    hide Inv, ReplaceDevice, IoError, DeviceDetached, Execute, RebuildDone, Indices, Table, FindName, MinimumCapacity,
      Replaceable, ReplaceAdmitted, PassHitsNull, Fresh, NullTarget, Requeue;
    match e
    case EvReplace(name, env) => ReplaceAborts(s, name, env);
    case EvUserRebuild(env) => if s.status.OnlineDegraded? { DegradedHasTarget(s); }
    case EvIoError(i, u, busy, env) => IoErrorKeeps(s, i, u, busy, env);
    case EvDetached(u, busy, env) => DeviceDetachedKeeps(s, u, busy, env);
    case EvRebuildDone(k, result, env) => SlotsOkOf(s); PassNullIff(s, k, result, env);
    case EvMountDone(env) => SlotsOkOf(s); RequeueFrame(s, env);
    case _ =>
  }

  /**
   A rebuild request never gets the answer that the array is offline, because the code compares an event number
   with true. An unmounted array, degraded or broken as it may be, is called normal unless an earlier check refuses.
   */
  lemma OfflineNeverAnswered(s: State, env: Env)
    ensures UserRebuild(s, env).reply != Rejected(ArrayOffline)
    ensures !IsMounted(s.status) ==>
              && UserRebuild(s, env).s == s && UserRebuild(s, env).reply.Rejected?
              && (UserRebuild(s, env).reply == Rejected(ArrayIsNormal) <==>
                  s.jobs == [] && Tolerant(s.user) && exists k :: 0 <= k < |s.spares| && s.spares[k].state.Normal?)
  {
    hide Indices;
    HasNormal(s.spares);
  }

  /**
   A RAID10 array on an odd number of devices leaves its last one out of both partitions, so replacing that
   device always runs into the assert, while every other device can be replaced.
   */
  lemma OddRaid10LastSlot(s: State, name: Option<Ublock>, env: Env)
    requires s.meta.Raid10? && s.user.Raid10? && |s.data| % 2 == 1 && env.stateOk
    requires var i := FindName(s.nvm + s.data + s.spares, name) - |s.nvm|; 0 <= i && ReplaceAdmitted(s, i)
    requires Inv(s)
    ensures ReplaceDevice(s, name, env).reply.Aborted? <==>
            FindName(s.nvm + s.data + s.spares, name) == |s.nvm| + |s.data| - 1
  {
    hide Inv, ReplaceDevice, FindName, ReplaceAdmitted;
    ReplaceAborts(s, name, env);
    assert ReplaceAdmitted(s, FindName(s.nvm + s.data + s.spares, name) - |s.nvm|);
    AdmittedInRange(s, FindName(s.nvm + s.data + s.spares, name) - |s.nvm|);
  }

  lemma AdmittedInRange(s: State, i: nat)
    requires ReplaceAdmitted(s, i)
    ensures i < |s.data|
  {
  }

  // ------------------------------------------------------------------ I/O submission

  datatype NeedRecoveryResult = Recover | Submit(u: Ublock) | AssertFails

  /** Ubio::NeedRecovery for an asynchronous I/O addressed to an array device. */
  function NeedRecovery(slot: Slot, isRead: bool): NeedRecoveryResult {
    if slot.state.Fault? || (slot.state.Rebuild? && isRead) then Recover
    else if slot.ublock.Some? then Submit(slot.ublock.value)
    else AssertFails
  }

  /** In every state of every run an I/O either goes to recovery or finds the block device of its slot. */
  lemma NeedRecoverySafe(s: State, events: seq<Event>, i: nat, isRead: bool)
    requires Run(s, events) && i < |Final(s, events).data|
    requires Inv(s)
    ensures !NeedRecovery(Final(s, events).data[i], isRead).AssertFails?
  {
    hide Inv, Run, Final;
    RunKeeps(s, events);
    SlotHolds(Final(s, events), i);
  }
}
