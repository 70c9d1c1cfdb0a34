/** Boot records, stop requests and capacities over whole runs of the array. */
module ArrayRecords {
  import opened Options
  import opened Raid
  import opened ArrayModel
  import opened ArrayInvariants
  import opened ArraySteps
  import opened ArrayRuns

  // ------------------------------------------------------------------ boot records

  /** Every data device that is not FAULT carries a boot record equal to the table in memory. */
  ghost predicate Agree(s: State) {
    forall i :: 0 <= i < |s.data| && !s.data[i].state.Fault? && s.data[i].ublock.Some? ==>
      s.data[i].ublock.value in s.pbr && s.pbr[s.data[i].ublock.value] == Table(s)
  }

  ghost predicate RecordInv(s: State) {
    s.mountDone && IsMounted(s.status) ==> Agree(s)
  }

  /** Writing the record brings disk and memory into agreement, whatever the disks held before. */
  lemma UpdateAgrees(s: State, env: Env)
    requires env.pbrOk
    ensures Agree(UpdatePbr(s, env))
  {
    TableFrame(s, UpdatePbr(s, env));
  }

  lemma TableFrame(s: State, s': State)
    requires s'.nvm == s.nvm && s'.data == s.data && s'.spares == s.spares
    ensures Table(s') == Table(s)
  {
  }

  lemma AgreeFrame(s: State, s': State)
    requires s'.nvm == s.nvm && s'.data == s.data && s'.spares == s.spares && s'.pbr == s.pbr
    ensures Agree(s') <==> Agree(s)
  {
    hide Table;
    TableFrame(s, s');
  }

  lemma RequestRecords(s: State, name: Option<Ublock>, env: Env)
    requires env.pbrOk && RecordInv(s)
    ensures RecordInv(AddSpare(s, name, env).s) && RecordInv(RemoveSpare(s, name, env).s)
  {
    hide Agree, Indices, MinimumCapacity, FindName, UpdatePbr;
    var r := AddSpare(s, name, env);
    if r.reply.Success? {
      var s1 := s.(spares := s.spares + [Slot(name, Normal)], registry := s.registry[name.value := ArrayClass]);
      UpdateAgrees(s1, env);
      AgreeFrame(UpdatePbr(s1, env), r.s);
    }
    var k := FindName(s.nvm + s.data + s.spares, name) - |s.nvm| - |s.data|;
    if 0 <= k < |s.spares| {
      UpdateAgrees(DropSpare(s, k), env);
    }
  }

  lemma ReplaceRecords(s: State, name: Option<Ublock>, env: Env)
    requires env.pbrOk && RecordInv(s) && !ReplaceDevice(s, name, env).reply.Aborted?
    requires Inv(s)
    ensures RecordInv(ReplaceDevice(s, name, env).s)
  {
    hide Inv, Agree, Health, RaidStateUpdated, FindName, Indices, UpdatePbr;
    HasNormal(s.spares);
    var r := ReplaceDevice(s, name, env);
    if r.reply.Success? {
      var i := FindName(s.nvm + s.data + s.spares, name) - |s.nvm|;
      var s2 := SyncHealth(SetSlotState(s, i, Rebuild)).(status := OnlineRebuild);
      var p := SpareToData(Pool(s2.data, s2.spares), i).value.0;
      var s3 := s2.(data := p.data, spares := p.spares);
      UpdateAgrees(s3, env);
      AgreeFrame(UpdatePbr(s3, env), r.s);
    }
  }

  lemma DetachRecords(s: State, i: nat, env: Env)
    requires i < |s.data| && env.pbrOk && RecordInv(s)
    ensures RecordInv(DetachData(s, i, env).s)
  {
    hide Agree, UpdatePbr, Unplug;
    if s.data[i].ublock.Some? && !s.data[i].state.Fault? {
      var s1, s' := Unplug(s, i), DetachData(s, i, env).s;
      UpdateAgrees(s1, env);
      UpdateStatus(s1, env);
      if IsMounted(s1.status) {
        AgreeFrame(UpdatePbr(s1, env), s');
      }
    }
  }

  lemma UpdateStatus(s: State, env: Env)
    ensures UpdatePbr(s, env).status == s.status && UpdatePbr(s, env).mountDone == s.mountDone
  {
  }

  lemma DetachedRecords(s: State, u: Ublock, busy: bool, env: Env)
    requires env.pbrOk && RecordInv(s)
    ensures RecordInv(DeviceDetached(s, u, busy, env).s)
  {
    hide Agree, UpdatePbr, DetachData, FindName;
    AgreeFrame(s, RemoveDevice(s, u));
    var k := FindName(s.nvm + s.data + s.spares, Some(u));
    if |s.nvm| <= k < |s.nvm| + |s.data| {
      DetachRecords(s, k - |s.nvm|, env);
    } else if |s.nvm| + |s.data| <= k < |s.nvm + s.data + s.spares| {
      var j := k - |s.nvm| - |s.data|;
      var s1 := RemoveDevice(DropSpare(s, j), u);
      UpdateAgrees(s1, env);
      UpdateStatus(s1, env);
    }
  }

  lemma TriggerRecords(s: State, targets: seq<nat>, env: Env)
    requires InRange(targets, |s.data|) && Distinct(targets) && env.pbrOk && RecordInv(s)
    requires Inv(s)
    ensures RecordInv(TriggerRebuild(s, targets, env).0)
  {
    hide Inv, Agree, Fill, Ready, UpdatePbr;
    var pool := Pool(s.data, s.spares);
    SparesReady(s);
    if targets != [] && Fillable(pool, targets) && RebuildGranted(s.status, env) {
      NoSpareNoFill(pool, targets);
      var (p, kept) := Fill(pool, targets);
      var s1 := s.(status := OnlineRebuild, data := p.data, spares := p.spares);
      if s.spares != [] {
        UpdateAgrees(s1, env);
        AgreeFrame(UpdatePbr(s1, env), TriggerRebuild(s, targets, env).0);
      } else {
        assert TriggerRebuild(s, targets, env).0 == s;
      }
    }
  }

  lemma ExecuteRecords(s: State, k: nat, env: Env)
    requires k < |s.queue| && InRange(s.queue[k].targets, |s.data|) && env.pbrOk && RecordInv(s)
    requires Inv(s)
    ensures RecordInv(Execute(s, k, env))
  {
    hide Inv, Agree, TriggerRebuild;
    DequeueKeeps(s, k);
    var s0, targets := s.(queue := Without(s.queue, k)), s.queue[k].targets;
    AgreeFrame(s, s0);
    AgreeFrame(s0, ResumeRebuild(s0, targets, env));
    TriggerRecords(s0, targets, env);
  }

  lemma RebuildDoneRecords(s: State, k: nat, result: RebuildResult, env: Env)
    requires k < |s.jobs| && InRange(s.jobs[k].dsts, |s.data|) && env.pbrOk && RecordInv(s)
    ensures RecordInv(RebuildDone(s, k, result, env))
  {
    hide Agree, Release, SetNormal, Health, UpdatePbr, Indices;
    var s1 := s.(jobs := Without(s.jobs, k), registry := Release(s.registry, s.jobs[k].srcs));
    var s' := RebuildDone(s, k, result, env);
    if result.Pass? {
      var s2 := s1.(data := SetNormal(s1.data, s.jobs[k].dsts));
      UpdateAgrees(s2, env);
      AgreeFrame(UpdatePbr(s2, env), s');
    } else {
      AgreeFrame(s, s');
      MountedDone(s, Health(s1));
    }
  }

  lemma MountedDone(s: State, rs: RaidState)
    ensures IsMounted(RaidStateUpdated(s.status, rs)) ==> IsMounted(s.status)
  {
  }

  lemma StepRecords(s: State, e: Event)
    requires Enabled(s, e) && e.env.pbrOk && !Step(s, e).reply.Aborted? && RecordInv(s)
    requires Inv(s)
    ensures RecordInv(Step(s, e).s)
  {
    hide Inv, Agree, AddSpare, RemoveSpare, ReplaceDevice, DetachData, DeviceDetached, Execute, RebuildDone, UpdatePbr,
      Indices;
    match e
    case EvAddSpare(name, env) => RequestRecords(s, name, env);
    case EvRemoveSpare(name, env) => RequestRecords(s, name, env);
    case EvReplace(name, env) => ReplaceRecords(s, name, env);
    case EvUserRebuild(env) => AgreeFrame(s, UserRebuild(s, env).s);
    case EvIoError(i, u, busy, env) => DetachRecords(s, i, env);
    case EvDetached(u, busy, env) => DetachedRecords(s, u, busy, env);
    case EvExecute(k, env) => ExecuteRecords(s, k, env);
    case EvRebuildDone(k, result, env) => RebuildDoneRecords(s, k, result, env);
    case EvMountDone(env) => MountDoneRecords(s, env);
    case EvFlush(env) => UpdateAgrees(s, env);
    case EvAttach(u, env) => AgreeFrame(s, Step(s, e).s);
    case _ =>
  }

  lemma MountDoneRecords(s: State, env: Env)
    requires env.pbrOk && !MountDone(s, env).reply.Aborted?
    ensures Agree(MountDone(s, env).s)
  {
    hide Agree, Requeue;
    UpdateAgrees(Requeue(s, env), env);
    AgreeFrame(UpdatePbr(Requeue(s, env), env), MountDone(s, env).s);
  }

  ghost predicate RecordsWritten(events: seq<Event>) {
    forall k :: 0 <= k < |events| ==> events[k].env.pbrOk
  }

  /**
   Over every run in which records can be written, from MountDone for as long as the array stays mounted, every
   data device that is not FAULT carries a boot record equal to the table in memory.
   */
  lemma {:induction false} RunRecords(s: State, events: seq<Event>)
    requires Run(s, events) && RecordsWritten(events) && RecordInv(s)
    requires Inv(s)
    ensures RecordInv(Final(s, events))
    decreases events
  {
    hide Inv, Step, Enabled, OnTime, RecordInv;
    if events != [] {
      StepRecords(s, events[0]);
      StepKeeps(s, events[0]);
      RunRecords(Step(s, events[0]).s, events[1..]);
    }
  }

  lemma TableStates(s: State, s': State, i: nat)
    requires s'.nvm == s.nvm && |s'.data| == |s.data| && i < |s.data| && s'.data[i] != s.data[i]
    ensures Table(s') != Table(s)
  {
    var k := |s.nvm| + i;
    assert Table(s)[k] == Entries(s.data, DataKind)[i] && Table(s')[k] == Entries(s'.data, DataKind)[i];
  }

  lemma DetachAgreesMounted(s: State, i: nat, env: Env)
    requires i < |s.data| && !s.data[i].state.Fault? && IsMounted(s.status) && Agree(s)
    requires Inv(s)
    ensures var s' := DetachData(s, i, env).s;
            Agree(s') <==>
            (env.pbrOk && IsMounted(s'.status)) || forall j :: 0 <= j < |s'.data| ==> s'.data[j].state.Fault?
  {
    hide Inv, Agree, UpdatePbr, Unplug;
    SlotHolds(s, i);
    var s1, s' := Unplug(s, i), DetachData(s, i, env).s;
    UpdateStatus(s1, env);
    if env.pbrOk && IsMounted(s1.status) {
      UpdateAgrees(s1, env);
      AgreeFrame(UpdatePbr(s1, env), s');
    } else {
      AgreeFrame(s1, s');
      StaleRecord(s, i);
    }
  }

  lemma UnplugMounted(s: State, i: nat)
    requires i < |s.data| && s.data[i].ublock.Some? && IsMounted(s.status)
    ensures IsMounted(Unplug(s, i).status) <==> !Combined(s.meta, s.user, States(s.data)[i := Fault]).RaidFailure?
  {
    hide Combined;
    StatesUpdate(s.data, i, s.data[i].(state := Fault));
  }

  lemma DetachStatus(s: State, i: nat, env: Env)
    requires i < |s.data| && s.data[i].ublock.Some? && !s.data[i].state.Fault?
    ensures DetachData(s, i, env).s.status == Unplug(s, i).status
  {
    hide Unplug, Table, RecordDevices;
  }

  /**
   A detach that breaks the array writes no record: afterwards disk and memory agree exactly when the record can be
   written and the array can bear the loss of this device, or no other data device is left to carry a record.
   */
  lemma DetachAgreesIff(s: State, i: nat, env: Env)
    requires i < |s.data| && !s.data[i].state.Fault? && IsMounted(s.status) && Agree(s)
    requires Inv(s)
    ensures Agree(DetachData(s, i, env).s) <==>
            || (env.pbrOk && !Combined(s.meta, s.user, States(s.data)[i := Fault]).RaidFailure?)
            || forall j :: 0 <= j < |s.data| && j != i ==> s.data[j].state.Fault?
  {
    hide Inv, Agree, DetachData, Unplug, Combined;
    SlotHolds(s, i);
    DetachAgreesMounted(s, i, env);
    DetachEffect(s, i, env);
    DetachStatus(s, i, env);
    UnplugMounted(s, i);
    var s' := DetachData(s, i, env).s;
    if j :| 0 <= j < |s.data| && j != i && !s.data[j].state.Fault? {
      assert s'.data[j] == s.data[j];
    } else {
      assert forall j :: 0 <= j < |s'.data| ==> s'.data[j].state.Fault?;
    }
  }

  lemma UnplugFrame(s: State, i: nat)
    requires i < |s.data| && s.data[i].ublock.Some?
    ensures var s1 := Unplug(s, i); s1.data == s.data[i := Slot(None, Fault)] && s1.pbr == s.pbr && s1.nvm == s.nvm
  {
    hide Health, RaidStateUpdated;
  }

  /** Without a new record, the survivors still describe the detached device as present. */
  lemma StaleRecord(s: State, i: nat)
    requires i < |s.data| && s.data[i].ublock.Some? && Agree(s)
    requires Inv(s)
    ensures var s1 := Unplug(s, i); Agree(s1) <==> forall j :: 0 <= j < |s1.data| ==> s1.data[j].state.Fault?
  {
    hide Inv, Table, Unplug;
    var s1 := Unplug(s, i);
    UnplugFrame(s, i);
    SlotHolds(s, i);
    TableStates(s, s1, i);
    if j :| 0 <= j < |s1.data| && !s1.data[j].state.Fault? {
      SlotHolds(s, j);
      assert s1.data[j] == s.data[j] && s.data[j].ublock.Some?;
      assert s1.pbr[s1.data[j].ublock.value] == Table(s) != Table(s1);
    }
  }

  // ----------------------------------------------------------------- stop requests

  /** While the array is in REBUILD, a job that has not been asked to stop still rebuilds all its destinations. */
  ghost predicate StopInv(s: State) {
    s.status.OnlineRebuild? ==>
      forall k, d :: 0 <= k < |s.jobs| && !s.jobs[k].stopping && 0 <= d < |s.jobs[k].dsts|
                     && s.jobs[k].dsts[d] < |s.data| ==>
                     s.data[s.jobs[k].dsts[d]].state.Rebuild?
  }

  lemma UnplugJobs(s: State, i: nat)
    requires i < |s.data| && s.data[i].ublock.Some?
    ensures var s1 := Unplug(s, i);
            && s1.jobs == s.jobs && s1.data == s.data[i := Slot(None, Fault)]
            && (s1.status.OnlineRebuild? ==> s.status.OnlineRebuild?)
  {
    hide Health;
  }

  /** Slot `i` is a destination of a job that was not told to stop. */
  ghost predicate Dst(s: State, i: nat) {
    exists k, d :: 0 <= k < |s.jobs| && !s.jobs[k].stopping && 0 <= d < |s.jobs[k].dsts| && s.jobs[k].dsts[d] == i
  }

  lemma DetachStops(s: State, i: nat, env: Env)
    requires i < |s.data| && StopInv(s) && (env.pbrOk || !s.status.OnlineRebuild? || !Dst(s, i))
    ensures StopInv(DetachData(s, i, env).s)
  {
    hide Unplug, Table, RecordDevices;
    if s.data[i].ublock.Some? && !s.data[i].state.Fault? {
      UnplugJobs(s, i);
      assert forall k, d :: (0 <= k < |s.jobs| && !s.jobs[k].stopping && 0 <= d < |s.jobs[k].dsts|
                             && s.jobs[k].dsts[d] == i) ==> Dst(s, i);
    }
  }

  /** Losing a slot that is in REBUILD leaves a rebuilding array rebuilding. */
  lemma UnplugRebuilding(s: State, i: nat)
    requires i < |s.data| && s.data[i].state.Rebuild? && s.data[i].ublock.Some? && s.status.OnlineRebuild?
    requires Inv(s)
    ensures Unplug(s, i).status.OnlineRebuild?
  {
    hide Inv, Combined;
    RebuildingHealth(s);
    StatesUpdate(s.data, i, s.data[i].(state := Fault));
    CombinedPattern(s.meta, s.user, States(s.data), States(s.data)[i := Fault]);
  }

  lemma RebuildingHealth(s: State)
    requires Inv(s) && s.status.OnlineRebuild?
    ensures Health(s).RaidDegraded?
  {
    hide Shape, SlotsOk, Exclusive, Accounted, SingleJob, Health;
  }

  /** When the record is not written, the detach of a destination returns before it stops the rebuild. */
  lemma DetachUnstopped(s: State, i: nat, env: Env)
    requires i < |s.data| && s.status.OnlineRebuild? && Dst(s, i) && StopInv(s) && !env.pbrOk
    requires Inv(s)
    ensures var s' := DetachData(s, i, env).s;
            s'.status.OnlineRebuild? && s'.jobs == s.jobs && s'.data == s.data[i := Slot(None, Fault)] && !StopInv(s')
  {
    hide Inv, Unplug;
    var k, d :| 0 <= k < |s.jobs| && !s.jobs[k].stopping && 0 <= d < |s.jobs[k].dsts| && s.jobs[k].dsts[d] == i;
    SlotHolds(s, i);
    UnplugRebuilding(s, i);
    UnplugJobs(s, i);
    var s' := DetachData(s, i, env).s;
    assert s'.data[s'.jobs[k].dsts[d]].state.Fault?;
  }

  /**
   A detach keeps the property exactly when its record can be written, or the array is not rebuilding, or the slot
   is no destination of a job that still runs.
   */
  lemma DetachStopsIff(s: State, i: nat, env: Env)
    requires i < |s.data| && !s.data[i].state.Fault? && StopInv(s)
    requires Inv(s)
    ensures StopInv(DetachData(s, i, env).s) <==> env.pbrOk || !s.status.OnlineRebuild? || !Dst(s, i)
  {
    hide Inv, StopInv, Dst, DetachData;
    if env.pbrOk || !s.status.OnlineRebuild? || !Dst(s, i) {
      DetachStops(s, i, env);
    } else {
      DetachUnstopped(s, i, env);
    }
  }

  /** The event takes device `u` of a running rebuild's destination while no record can be written. */
  ghost predicate TakesUnstopped(s: State, u: Ublock, busy: bool, env: Env) {
    && !busy && !env.pbrOk && s.status.OnlineRebuild?
    && exists i :: 0 <= i < |s.data| && s.data[i].ublock == Some(u) && Dst(s, i)
  }

  lemma IoErrorStopsIff(s: State, i: nat, u: Option<Ublock>, busy: bool, env: Env)
    requires i < |s.data| && StopInv(s)
    requires Inv(s)
    ensures StopInv(IoError(s, i, u, busy, env).s) <==>
            u.None? || s.data[i].ublock != u || !TakesUnstopped(s, u.value, busy, env)
  {
    hide Inv, StopInv, Dst, DetachData;
    SlotHolds(s, i);
    if u.Some? && s.data[i].ublock == u {
      DetachStopsIff(s, i, env);
      OnlyHolder(s, i, u.value);
    }
  }

  /** No two data slots hold the same device. */
  lemma OnlyHolder(s: State, i: nat, u: Ublock)
    requires i < |s.data| && s.data[i].ublock == Some(u)
    requires Inv(s)
    ensures forall j :: 0 <= j < |s.data| && s.data[j].ublock == Some(u) ==> j == i
    ensures u in s.registry && s.registry[u].ArrayClass? && FindName(s.nvm + s.data + s.spares, Some(u)) == |s.nvm| + i
  {
    hide Inv, SlotBag, FindName;
    var all, k := s.nvm + s.data + s.spares, FindName(s.nvm + s.data + s.spares, Some(u));
    assert all[|s.nvm| + i].ublock == Some(u);
    forall j | 0 <= j < |all| && all[j].ublock == Some(u) ensures j == |s.nvm| + i {
      SamePosition(s, j, |s.nvm| + i, u);
    }
    forall j | 0 <= j < |s.data| && s.data[j].ublock == Some(u) ensures j == i {
      assert all[|s.nvm| + j] == s.data[j];
    }
    FindHolder(s, u);
    HeldClass(s, u);
  }

  lemma HeldClass(s: State, u: Ublock)
    requires u in SlotBag(s)
    requires Inv(s)
    ensures u in s.registry && s.registry[u].ArrayClass?
  {
    hide Shape, SlotsOk, Exclusive, Synced, SingleJob, SlotBag, JobBag;
  }

  lemma SamePosition(s: State, j: nat, k: nat, u: Ublock)
    requires j < |s.nvm + s.data + s.spares| && k < |s.nvm + s.data + s.spares|
    requires (s.nvm + s.data + s.spares)[j].ublock == Some(u) == (s.nvm + s.data + s.spares)[k].ublock
    requires Inv(s)
    ensures j == k
  {
    hide Shape, SlotsOk, Accounted, Synced, SingleJob, JobBag, Bag;
    var all := s.nvm + s.data + s.spares;
    BagAppend(s.nvm + s.data, s.spares);
    BagAppend(s.nvm, s.data);
    assert Bag(all) == SlotBag(s) && SlotBag(s)[u] <= Owned(s)[u] <= 1;
    if j < k {
      TwiceInBag(all, j, k, u);
    } else if k < j {
      TwiceInBag(all, k, j, u);
    }
  }

  lemma TwiceInBag(slots: seq<Slot>, j: nat, k: nat, u: Ublock)
    requires j < k < |slots| && slots[j].ublock == Some(u) == slots[k].ublock
    ensures Bag(slots)[u] >= 2
  {
    hide Bag;
    BagSplit(slots, j);
    var rest := slots[j + 1..];
    assert rest[k - j - 1].ublock == Some(u);
    BagMember(rest, u);
  }

  lemma DetachedStopsIff(s: State, u: Ublock, busy: bool, env: Env)
    requires StopInv(s)
    requires Inv(s)
    ensures StopInv(DeviceDetached(s, u, busy, env).s) <==> !TakesUnstopped(s, u, busy, env)
  {
    hide Inv, StopInv, Dst, DetachData, DetachSpare, FindName;
    var all, k := s.nvm + s.data + s.spares, FindName(s.nvm + s.data + s.spares, Some(u));
    if i :| 0 <= i < |s.data| && s.data[i].ublock == Some(u) {
      OnlyHolder(s, i, u);
      SlotHolds(s, i);
      DetachStopsIff(s, i, env);
    } else {
      assert k < |all| ==> all[k].ublock == Some(u);
      OtherDetachStops(s, u, busy, env);
    }
  }

  lemma OtherDetachStops(s: State, u: Ublock, busy: bool, env: Env)
    requires StopInv(s) && forall i :: 0 <= i < |s.data| ==> s.data[i].ublock != Some(u)
    ensures StopInv(DeviceDetached(s, u, busy, env).s)
  {
    hide DetachData, FindName, Table, RecordDevices;
  }

  lemma TriggerStops(s: State, targets: seq<nat>, env: Env)
    requires InRange(targets, |s.data|) && Distinct(targets) && StopInv(s)
    requires Inv(s)
    ensures StopInv(TriggerRebuild(s, targets, env).0)
  {
    hide Inv, Fill, Table, RecordDevices;
    var pool := Pool(s.data, s.spares);
    SparesReady(s);
    if targets != [] && Fillable(pool, targets) && RebuildGranted(s.status, env) {
      IdleJobs(s);
      NoSpareNoFill(pool, targets);
      FillKeeps(pool, targets);
      FillSlots(pool, targets);
      var (p, kept) := Fill(pool, targets);
      assert forall d :: 0 <= d < |kept| ==> kept[d] == targets[d] && p.data[kept[d]].state.Rebuild?;
    }
  }

  lemma ReplaceStops(s: State, name: Option<Ublock>, env: Env)
    requires !ReplaceDevice(s, name, env).reply.Aborted? && StopInv(s)
    requires Inv(s)
    ensures StopInv(ReplaceDevice(s, name, env).s)
  {
    hide Inv, FindName, Indices, Table, RecordDevices, Health;
    HasNormal(s.spares);
    if s.status.OnlineNormal? {
      IdleJobs(s);
    }
  }

  ghost predicate AllInRebuild(data: seq<Slot>, targets: seq<nat>)
    requires InRange(targets, |data|)
  {
    forall d :: 0 <= d < |targets| ==> data[targets[d]].state.Rebuild?
  }

  /** Resuming does not look at its targets: the job is sound exactly when it is refused or all are still in REBUILD. */
  lemma ResumeStopsIff(s: State, targets: seq<nat>, env: Env)
    requires InRange(targets, |s.data|) && StopInv(s)
    requires Inv(s)
    ensures StopInv(ResumeRebuild(s, targets, env)) <==> !RebuildGranted(s.status, env) || AllInRebuild(s.data, targets)
  {
    hide Inv;
    if RebuildGranted(s.status, env) {
      IdleJobs(s);
      var s' := ResumeRebuild(s, targets, env);
      assert s'.jobs == [Job(targets, [], false)];
      if d :| 0 <= d < |targets| && !s.data[targets[d]].state.Rebuild? {
        assert !s'.jobs[0].stopping && s'.jobs[0].dsts[d] < |s'.data|;
      }
    }
  }

  /** The event does not resume a rebuild on a slot that has left REBUILD since the event was queued. */
  ghost predicate ResumesLive(s: State, e: Event)
    requires Enabled(s, e)
  {
    e.EvExecute? && s.queue[e.k].isResume && RebuildGranted(s.status, e.env) ==> AllInRebuild(s.data, s.queue[e.k].targets)
  }

  lemma ExecuteStopsIff(s: State, k: nat, env: Env)
    requires k < |s.queue| && InRange(s.queue[k].targets, |s.data|) && StopInv(s)
    requires Inv(s)
    ensures StopInv(Execute(s, k, env)) <==> ResumesLive(s, EvExecute(k, env))
  {
    hide Inv, TriggerRebuild, ResumeRebuild;
    DequeueKeeps(s, k);
    var s0 := s.(queue := Without(s.queue, k));
    ResumeStopsIff(s0, s.queue[k].targets, env);
    TriggerStops(s0, s.queue[k].targets, env);
  }

  lemma RebuildDoneStops(s: State, k: nat, result: RebuildResult, env: Env)
    requires k < |s.jobs| && InRange(s.jobs[k].dsts, |s.data|)
    ensures StopInv(RebuildDone(s, k, result, env))
  {
    hide Release, SetNormal, Health, Indices, Table, RecordDevices;
  }

  /** The event does not take a destination away without stopping its rebuild. */
  ghost predicate StopsReach(s: State, e: Event)
    requires Enabled(s, e)
  {
    match e
    case EvIoError(i, u, busy, env) => u.None? || s.data[i].ublock != u || !TakesUnstopped(s, u.value, busy, env)
    case EvDetached(u, busy, env) => !TakesUnstopped(s, u, busy, env)
    case _ => true
  }

  /**
   Exactly two kinds of steps leave a rebuild that nobody stops on a slot that is not in REBUILD: the resumption of
   such a slot, and the loss of a destination while no record can be written.
   */
  lemma StepStopsIff(s: State, e: Event)
    requires Enabled(s, e) && !Step(s, e).reply.Aborted? && StopInv(s)
    requires Inv(s)
    ensures StopInv(Step(s, e).s) <==> ResumesLive(s, e) && StopsReach(s, e)
  {
    hide Inv, ReplaceDevice, IoError, DeviceDetached, Execute, RebuildDone, Indices, Table, RecordDevices, FindName,
      MinimumCapacity, TakesUnstopped;
    match e
    case EvReplace(name, env) => ReplaceStops(s, name, env);
    case EvIoError(i, u, busy, env) => IoErrorStopsIff(s, i, u, busy, env);
    case EvDetached(u, busy, env) => DetachedStopsIff(s, u, busy, env);
    case EvExecute(k, env) => ExecuteStopsIff(s, k, env);
    case EvRebuildDone(k, result, env) => RebuildDoneStops(s, k, result, env);
    case _ =>
  }

  /** No step of the run is of these two kinds. */
  ghost predicate StopsStayLive(s: State, events: seq<Event>)
    requires Run(s, events)
    decreases events
  {
    events == [] ||
    (ResumesLive(s, events[0]) && StopsReach(s, events[0]) && StopsStayLive(Step(s, events[0]).s, events[1..]))
  }

  /** Every state of the run satisfies StopInv. */
  ghost predicate AlwaysStops(s: State, events: seq<Event>)
    requires Run(s, events)
    decreases events
  {
    StopInv(s) && (events == [] || AlwaysStops(Step(s, events[0]).s, events[1..]))
  }

  /**
   Over every run: in all its states every rebuild that was not told to stop has all its destinations in REBUILD, if
   and only if no step resumes a slot that has left REBUILD or loses a destination while no record can be written.
   */
  lemma {:induction false} RunStopsIff(s: State, events: seq<Event>)
    requires Run(s, events) && StopInv(s)
    requires Inv(s)
    ensures AlwaysStops(s, events) <==> StopsStayLive(s, events)
    decreases events
  {
    hide Inv, Step, Enabled, OnTime, StopInv, ResumesLive, StopsReach;
    if events != [] {
      var s1 := Step(s, events[0]).s;
      StepStopsIff(s, events[0]);
      StepKeeps(s, events[0]);
      if StopInv(s1) {
        RunStopsIff(s1, events[1..]);
      }
    }
  }

  /** A rebuild passes only while the array is rebuilding and nobody has told it to stop. */
  ghost predicate Obedient(s: State, e: Event)
    requires Enabled(s, e)
  {
    e.EvRebuildDone? && e.result.Pass? ==> s.status.OnlineRebuild? && !s.jobs[e.k].stopping
  }

  /** A run in which rebuilds obey and no step is of the two kinds; nothing is said of the slots when one passes. */
  ghost predicate ObedientRun(s: State, events: seq<Event>)
    decreases events
  {
    events == [] ||
    (Enabled(s, events[0]) && Obedient(s, events[0]) && ResumesLive(s, events[0]) && StopsReach(s, events[0])
     && !Step(s, events[0]).reply.Aborted? && ObedientRun(Step(s, events[0]).s, events[1..]))
  }

  /** A rebuild that runs on has no unplugged destination. */
  lemma RunningIsFresh(s: State, k: nat)
    requires StopInv(s) && s.status.OnlineRebuild? && k < |s.jobs| && !s.jobs[k].stopping
    requires Inv(s)
    ensures InRange(s.jobs[k].dsts, |s.data|) && Fresh(s, k)
  {
    hide Inv;
    JobsInRange(s, k);
  }

  /**
   That a PASS finds no destination unplugged need not be assumed: it is enough that a rebuild that was told to stop
   does not pass. Such runs are runs, and keep both invariants.
   */
  lemma {:induction false} ObedientRunKeeps(s: State, events: seq<Event>)
    requires ObedientRun(s, events) && StopInv(s)
    requires Inv(s)
    ensures Run(s, events) && Inv(Final(s, events)) && StopInv(Final(s, events))
    decreases events
  {
    hide Inv, Step, Enabled, StopInv, ResumesLive, StopsReach, Fresh, InRange;
    if events != [] {
      var e := events[0];
      if e.EvRebuildDone? && e.result.Pass? {
        JobAt(s, e);
        RunningIsFresh(s, e.k);
      }
      StepStopsIff(s, e);
      StepKeeps(s, e);
      ObedientRunKeeps(Step(s, e).s, events[1..]);
    }
  }

  lemma JobAt(s: State, e: Event)
    requires Enabled(s, e) && e.EvRebuildDone?
    ensures e.k < |s.jobs|
  {
  }

  /**
   The failing family: whenever a resumption of slot `i` is queued and an I/O error takes the slot's device first,
   running the resumption starts a rebuild of the empty slot that nobody stops.
   */
  lemma ResumeUnplugged(s: State, i: nat, k: nat, env: Env, env': Env)
    requires i < |s.data| && s.status.OnlineDegraded? && s.data[i].state.Rebuild? && env'.stateOk
    requires k < |s.queue| && s.queue[k] == Handler([i], true)
    requires Inv(s)
    ensures var s1 := IoError(s, i, s.data[i].ublock, false, env).s;
            && k < |s1.queue| && s1.queue[k] == Handler([i], true) && |s1.data| == |s.data|
            && var t := Execute(s1, k, env');
               && t.status.OnlineRebuild? && t.jobs == [Job([i], [], false)]
               && |t.data| == |s.data| && t.data[i] == Slot(None, Fault) && !StopInv(t)
  {
    hide Inv, Combined, Table, RecordDevices, DetachData, Indices;
    SlotHolds(s, i);
    IdleJobs(s);
    DetachEffect(s, i, env);
    DetachQueue(s, i, env);
    var s1 := IoError(s, i, s.data[i].ublock, false, env).s;
    var t := Execute(s1, k, env');
    assert t.jobs[0].dsts[0] == i;
  }

  /** Losing a slot that is in REBUILD does not change the health of the array, and only adds to the queue. */
  lemma DetachQueue(s: State, i: nat, env: Env)
    requires i < |s.data| && s.status.OnlineDegraded? && s.data[i].state.Rebuild? && s.jobs == []
    requires Inv(s)
    ensures var s' := DetachData(s, i, env).s;
            s'.status.OnlineDegraded? && s'.jobs == [] && s.queue <= s'.queue
  {
    hide Inv, Combined, Table, RecordDevices;
    SlotHolds(s, i);
    DegradedHealth(s);
    StatesUpdate(s.data, i, s.data[i].(state := Fault));
    CombinedPattern(s.meta, s.user, States(s.data), States(s.data)[i := Fault]);
  }

  lemma DetachJobs(s: State, i: nat, env: Env)
    requires i < |s.data|
    ensures var s' := DetachData(s, i, env).s;
            |s'.jobs| == |s.jobs| && forall k :: 0 <= k < |s.jobs| ==> s'.jobs[k].dsts == s.jobs[k].dsts
  {
    hide Unplug, Table, RecordDevices;
    if s.data[i].ublock.Some? {
      UnplugJobs(s, i);
    }
  }

  /**
   A late PASS in general: an I/O error takes destination `d` of job `k`, then the job reports success. The slot is
   NORMAL without a block device, and the process dies on the null device if the record can be written.
   */
  lemma LatePass(s: State, k: nat, d: nat, i: nat, env: Env, env': Env) returns (s1: State, done: Outcome)
    requires IsMounted(s.status) && k < |s.jobs| && d < |s.jobs[k].dsts| && s.jobs[k].dsts[d] == i
    requires i < |s.data| && !s.data[i].state.Fault?
    requires Inv(s)
    ensures s1 == IoError(s, i, s.data[i].ublock, false, env).s
    ensures Enabled(s1, EvRebuildDone(k, Pass, env')) && done == Step(s1, EvRebuildDone(k, Pass, env'))
    ensures |done.s.data| == |s.data| && done.s.data[i] == Slot(None, Normal)
    ensures done.reply.Aborted? <==> env'.pbrOk
  {
    hide Inv, DetachData, PassHitsNull, RebuildDone, SetNormal, Fresh;
    SlotHolds(s, i);
    JobsInRange(s, k);
    DetachEffect(s, i, env);
    DetachJobs(s, i, env);
    IoErrorKeeps(s, i, s.data[i].ublock, false, env);
    s1 := IoError(s, i, s.data[i].ublock, false, env).s;
    done := Step(s1, EvRebuildDone(k, Pass, env'));
    PassData(s1, k, env');
    SetNormalSpec(s1.data, s1.jobs[k].dsts);
    SlotsOkOf(s1);
    PassNullIff(s1, k, Pass, env');
    NotFresh(s1, k, d);
    assert i in s1.jobs[k].dsts;
  }

  lemma NotFresh(s: State, k: nat, d: nat)
    requires k < |s.jobs| && InRange(s.jobs[k].dsts, |s.data|) && d < |s.jobs[k].dsts|
    requires s.data[s.jobs[k].dsts[d]].state.Fault?
    ensures !Fresh(s, k)
  {
  }

  lemma PassData(s: State, k: nat, env: Env)
    requires k < |s.jobs| && InRange(s.jobs[k].dsts, |s.data|)
    ensures var s' := RebuildDone(s, k, Pass, env);
            && s'.data == SetNormal(s.data, s.jobs[k].dsts) && s'.spares == s.spares && s'.nvm == s.nvm
            && s'.meta == s.meta && s'.user == s.user
  {
    hide Health, RaidStateUpdated, Table, RecordDevices, Indices, Release, SetNormal;
  }

  lemma JobsInRange(s: State, k: nat)
    requires k < |s.jobs|
    requires Inv(s)
    ensures InRange(s.jobs[k].dsts, |s.data|)
  {
    hide SlotsOk, Exclusive, Accounted, Synced, SingleJob;
  }

  // -------------------------------------------------------------------- capacities

  /** Every block device on a data slot or in a spare has at least `base` bytes. */
  ghost predicate Roomy(s: State, base: nat) {
    forall u :: u in PoolBag(Pool(s.data, s.spares)) ==> u.size >= base
  }

  lemma RoomySubset(s: State, s': State, base: nat)
    requires Roomy(s, base) && PoolBag(Pool(s'.data, s'.spares)) <= PoolBag(Pool(s.data, s.spares))
    ensures Roomy(s', base)
  {
    hide PoolBag;
    forall u | u in PoolBag(Pool(s'.data, s'.spares)) ensures u.size >= base {
      assert PoolBag(Pool(s'.data, s'.spares))[u] <= PoolBag(Pool(s.data, s.spares))[u];
    }
  }

  /** A mounted array has a NORMAL data device, so a new spare is compared with a real capacity. */
  lemma MinimumCapacityBound(s: State, base: nat)
    requires Roomy(s, base) && IsMounted(s.status)
    requires Inv(s)
    ensures MinimumCapacity(s.data) >= base
  {
    hide Exclusive, Accounted, SingleJob, Bag;
    SurvivorExists(s.user, States(s.data));
    hide PartitionState;
    var i :| 0 <= i < |s.data| && States(s.data)[i].Normal?;
    assert s.data[i].state.Normal?;
    var m := SmallestNormal(s.data);
    var j :| 0 <= j < |s.data| && s.data[j].state.Normal? && SizeOf(s.data[j]) == m.value;
    BagMember(s.data, s.data[j].ublock.value);
    assert s.data[j].ublock.value in PoolBag(Pool(s.data, s.spares));
  }

  lemma PoolPush(s: State, u: Ublock)
    ensures PoolBag(Pool(s.data, s.spares + [Slot(Some(u), Normal)])) == PoolBag(Pool(s.data, s.spares)) + multiset{u}
  {
    BagPush(s.spares, Slot(Some(u), Normal));
  }

  lemma AddSpareRoomy(s: State, name: Option<Ublock>, env: Env, base: nat)
    requires Roomy(s, base)
    requires Inv(s)
    ensures Roomy(AddSpare(s, name, env).s, base)
  {
    hide Inv, PoolBag, MinimumCapacity, FindName, Indices, Table, RecordDevices;
    if AddSpare(s, name, env).s != s {
      MinimumCapacityBound(s, base);
      PoolPush(s, name.value);
    }
  }

  lemma DropRoomy(s: State, k: nat)
    requires k < |s.spares|
    ensures PoolBag(Pool(s.data, Without(s.spares, k))) <= PoolBag(Pool(s.data, s.spares))
  {
    BagWithout(s.spares, k);
  }

  lemma RemoveSpareRoomy(s: State, name: Option<Ublock>, env: Env, base: nat)
    requires Roomy(s, base)
    ensures Roomy(RemoveSpare(s, name, env).s, base)
  {
    hide PoolBag, FindName, Table, RecordDevices, Roomy;
    var k := FindName(s.nvm + s.data + s.spares, name) - |s.nvm| - |s.data|;
    RoomySubset(s, s, base);
    if RemoveSpare(s, name, env).s != s && 0 <= k < |s.spares| {
      DropRoomy(s, k);
      RoomySubset(s, RemoveSpare(s, name, env).s, base);
    }
  }

  lemma ReplaceRoomy(s: State, name: Option<Ublock>, env: Env, base: nat)
    requires Roomy(s, base) && !ReplaceDevice(s, name, env).reply.Aborted?
    ensures Roomy(ReplaceDevice(s, name, env).s, base)
  {
    hide Bag, FindName, Indices, Table, RecordDevices, Roomy, Health;
    HasNormal(s.spares);
    var r := ReplaceDevice(s, name, env);
    if r.reply.Success? {
      var i := FindName(s.nvm + s.data + s.spares, name) - |s.nvm|;
      var d := SetSlotState(s, i, Rebuild).data;
      SameContentBag(s.data, d);
      SwapConserves(Pool(d, s.spares), i);
      RoomySubset(s, r.s, base);
    }
  }

  lemma DetachRoomy(s: State, i: nat, env: Env, base: nat)
    requires i < |s.data| && Roomy(s, base)
    ensures Roomy(DetachData(s, i, env).s, base)
  {
    hide Bag, Roomy, Table, RecordDevices, Unplug;
    if s.data[i].ublock.Some? && !s.data[i].state.Fault? {
      DetachEffect(s, i, env);
      BagUpdate(s.data, i, Slot(None, Fault));
      var d' := Bag(s.data[i := Slot(None, Fault)]);
      assert d' <= d' + Content(s.data[i]) == Bag(s.data) + multiset{} == Bag(s.data);
      RoomySubset(s, DetachData(s, i, env).s, base);
    }
  }

  lemma DetachedRoomy(s: State, u: Ublock, busy: bool, env: Env, base: nat)
    requires Roomy(s, base)
    ensures Roomy(DeviceDetached(s, u, busy, env).s, base)
  {
    hide PoolBag, DetachData, FindName, Table, RecordDevices;
    var k := FindName(s.nvm + s.data + s.spares, Some(u));
    if |s.nvm| <= k < |s.nvm| + |s.data| {
      DetachRoomy(s, k - |s.nvm|, env, base);
    } else if |s.nvm| + |s.data| <= k < |s.nvm + s.data + s.spares| {
      DropRoomy(s, k - |s.nvm| - |s.data|);
      RoomySubset(s, s.(spares := Without(s.spares, k - |s.nvm| - |s.data|)), base);
    }
  }

  lemma ExecuteRoomy(s: State, k: nat, env: Env, base: nat)
    requires k < |s.queue| && InRange(s.queue[k].targets, |s.data|) && Roomy(s, base)
    requires Inv(s)
    ensures Roomy(Execute(s, k, env), base)
  {
    hide Inv, Fill, PoolBag, Table, RecordDevices;
    DequeueKeeps(s, k);
    SparesReady(s);
    var pool, targets := Pool(s.data, s.spares), s.queue[k].targets;
    if Fillable(pool, targets) {
      FillConserves(pool, targets);
    }
  }

  lemma RebuildDoneRoomy(s: State, k: nat, result: RebuildResult, env: Env, base: nat)
    requires k < |s.jobs| && InRange(s.jobs[k].dsts, |s.data|) && Roomy(s, base)
    ensures Roomy(RebuildDone(s, k, result, env), base)
  {
    hide Bag, Release, SetNormal, Health, Indices, Table, RecordDevices;
    SetNormalSpec(s.data, s.jobs[k].dsts);
    SameContentBag(s.data, SetNormal(s.data, s.jobs[k].dsts));
  }

  lemma StepRoomy(s: State, e: Event, base: nat)
    requires Enabled(s, e) && !Step(s, e).reply.Aborted? && Roomy(s, base)
    requires Inv(s)
    ensures Roomy(Step(s, e).s, base)
  {
    hide Inv, AddSpare, RemoveSpare, ReplaceDevice, DetachData, DeviceDetached, Execute, RebuildDone, Indices, Table,
      RecordDevices, PoolBag;
    match e
    case EvAddSpare(name, env) => AddSpareRoomy(s, name, env, base);
    case EvRemoveSpare(name, env) => RemoveSpareRoomy(s, name, env, base);
    case EvReplace(name, env) => ReplaceRoomy(s, name, env, base);
    case EvIoError(i, u, busy, env) => DetachRoomy(s, i, env, base);
    case EvDetached(u, busy, env) => DetachedRoomy(s, u, busy, env, base);
    case EvExecute(k, env) => ExecuteRoomy(s, k, env, base);
    case EvRebuildDone(k, result, env) => RebuildDoneRoomy(s, k, result, env, base);
    case _ =>
  }

  /** Over every run no data slot or spare ever gets a device smaller than the smallest one at the start. */
  lemma {:induction false} RunRoomy(s: State, events: seq<Event>, base: nat)
    requires Run(s, events) && Roomy(s, base)
    requires Inv(s)
    ensures Roomy(Final(s, events), base)
    decreases events
  {
    hide Inv, Step, Enabled, OnTime, Roomy;
    if events != [] {
      StepRoomy(s, events[0], base);
      StepKeeps(s, events[0]);
      RunRoomy(Step(s, events[0]).s, events[1..], base);
    }
  }
}
