/** Concrete arrays on which a property that one expects of the code fails. */
module ArrayExamples {
  import opened Options
  import opened Raid
  import opened ArrayModel
  import opened ArrayInvariants
  import opened ArraySteps
  import opened ArrayRuns
  import opened ArrayRecords
  import opened ArrayRestart

  const NVRAM: Ublock := Ublock(0, 8)
  const SSD_A: Ublock := Ublock(1, MINIMUM_SSD_SIZE)
  const SSD_B: Ublock := Ublock(2, 2 * MINIMUM_SSD_SIZE)
  const SSD_C: Ublock := Ublock(3, 2 * MINIMUM_SSD_SIZE)
  const SSD_D: Ublock := Ublock(4, 2 * MINIMUM_SSD_SIZE)
  const SSD_E: Ublock := Ublock(5, MINIMUM_SSD_SIZE)

  /** An array with nothing queued and no record written yet, which holds exactly the devices of its slots. */
  ghost function Example(raid: RaidType, data: seq<Slot>, spares: seq<Slot>, status: ArrayState, jobs: seq<Job>): State {
    State(raid, raid, [Slot(Some(NVRAM), Normal)], data, spares, status, jobs, [],
          map u | u in multiset{NVRAM} + Bag(data) + Bag(spares) :: ArrayClass, {}, map[], false)
  }

  lemma ExampleOwns(raid: RaidType, data: seq<Slot>, spares: seq<Slot>, status: ArrayState, jobs: seq<Job>)
    requires Exclusive(multiset{NVRAM} + Bag(data) + Bag(spares)) && JobBag(jobs) == multiset{}
    ensures var s := Example(raid, data, spares, status, jobs); Exclusive(Owned(s)) && Accounted(s)
  {
    hide Bag, JobBag;
    BagOne(Slot(Some(NVRAM), Normal));
    var s := Example(raid, data, spares, status, jobs);
    assert Owned(s) == SlotBag(s) == multiset{NVRAM} + Bag(data) + Bag(spares);
  }

  lemma ThreeSlots(a: Slot, b: Slot, c: Slot)
    ensures Bag([a, b, c]) == Content(a) + Content(b) + Content(c)
  {
    hide Bag;
    BagOne(a);
    BagPush([a], b);
    BagPush([a, b], c);
    assert [a, b, c] == [a, b] + [c] && [a, b] == [a] + [b];
  }

  lemma NoSlots()
    ensures Bag([]) == multiset{}
  {
  }

  /** The parts of the invariant put together. */
  lemma ExampleInv(s: State)
    requires Shape(s) && SlotsOk(s.data) && Exclusive(Owned(s)) && Accounted(s) && Synced(s) && SingleJob(s)
    ensures Inv(s)
  {
    hide Shape, SlotsOk, Exclusive, Accounted, Synced, SingleJob;
  }

  lemma Raid5Health(devs: seq<DeviceState>)
    ensures Combined(Raid5, Raid5, devs) ==
            if Abnormal(devs) == 0 then RaidNormal else if Abnormal(devs) == 1 then RaidDegraded else RaidFailure
  {
    hide Abnormal;
    assert devs[..|devs|] == devs;
  }

  /** RAID5 on three devices of which the first is not NORMAL is degraded, and failed if the second is not either. */
  lemma Raid5OnThree(first: DeviceState)
    requires !first.Normal?
    ensures Combined(Raid5, Raid5, [first, Normal, Normal]).RaidDegraded?
    ensures Combined(Raid5, Raid5, [first, Fault, Normal]).RaidFailure?
  {
    hide Abnormal, Combined;
    var all, one, two := [Normal, Normal, Normal], [first, Normal, Normal], [first, Fault, Normal];
    assert one == all[0 := first] && two == one[1 := Fault];
    AbnormalBounds(all);
    AbnormalUpdate(all, 0, first);
    AbnormalUpdate(one, 1, Fault);
    Raid5Health(one);
    Raid5Health(two);
  }

  // ------------------------------------------------------------------ rebuilding

  /** A RAID5 array whose first slot is in REBUILD: unmounted, or with the rebuild in flight. */
  ghost function Rebuilding(mounted: bool): State {
    Example(Raid5, [Slot(Some(SSD_A), Rebuild), Slot(Some(SSD_B), Normal), Slot(Some(SSD_C), Normal)], [],
            if mounted then OnlineRebuild else ExistDegraded, if mounted then [Job([0], [], false)] else [])
  }

  lemma RebuildingOwns(mounted: bool)
    ensures Exclusive(Owned(Rebuilding(mounted))) && Accounted(Rebuilding(mounted))
  {
    hide Bag, JobBag, Accounted, Owned, Example;
    var data := [Slot(Some(SSD_A), Rebuild), Slot(Some(SSD_B), Normal), Slot(Some(SSD_C), Normal)];
    ThreeSlots(data[0], data[1], data[2]);
    NoSlots();
    NoJobs();
    OneJobBag(Job([0], [], false));
    ExampleOwns(Raid5, data, [], if mounted then OnlineRebuild else ExistDegraded,
                if mounted then [Job([0], [], false)] else []);
  }

  lemma RebuildingInv(mounted: bool)
    ensures Inv(Rebuilding(mounted))
  {
    hide Inv, Combined, Bag, JobBag, Accounted, Exclusive, Owned;
    var s := Rebuilding(mounted);
    assert States(s.data) == [Rebuild, Normal, Normal];
    Raid5OnThree(Rebuild);
    RebuildingOwns(mounted);
    ExampleInv(s);
  }

  /**
   Why a PASS must be on time: slot 0 fails while its rebuild has already succeeded. The completion makes it NORMAL
   without a block device, and the process dies on the null device if the record can be written.
   */
  lemma LatePassExample(env: Env) returns (s: State, s1: State, done: Outcome)
    ensures s.user.Raid5? && |s.data| == 3 && s.status.OnlineRebuild? && Inv(s)
    ensures s1 == IoError(s, 0, s.data[0].ublock, false, env).s
    ensures Enabled(s1, EvRebuildDone(0, Pass, env)) && done == Step(s1, EvRebuildDone(0, Pass, env))
    ensures |done.s.data| == 3 && done.s.data[0] == Slot(None, Normal)
    ensures done.reply.Aborted? <==> env.pbrOk
  {
    hide Inv, Bag, IoError, RebuildDone, PassHitsNull, InRange;
    RebuildingInv(true);
    s := Rebuilding(true);
    s1, done := LatePass(s, 0, 0, 0, env, env);
  }

  /**
   A run from an unmounted array: the mount queues the resumption of slot 0, an I/O error takes the slot's device,
   and the resumption starts a rebuild of the empty slot that nobody stops.
   */
  lemma ResumeUnpluggedExample(env: Env) returns (s: State)
    requires env == Env(true, true, true)
    ensures s.user.Raid5? && |s.data| == 3 && s.data[0].ublock == Some(SSD_A) && s.status.ExistDegraded? && Inv(s)
    ensures Run(s, [EvInit(env), EvMountDone(env), EvIoError(0, Some(SSD_A), false, env), EvExecute(0, env)])
    ensures var t := Final(s, [EvInit(env), EvMountDone(env), EvIoError(0, Some(SSD_A), false, env), EvExecute(0, env)]);
            t.status.OnlineRebuild? && t.jobs == [Job([0], [], false)] && |t.data| == 3 && t.data[0] == Slot(None, Fault)
  {
    hide Inv, Bag, Run, Final, Execute, IoError, MountDone, Init, Indices, Table, RecordDevices;
    RebuildingInv(false);
    s := Rebuilding(false);
    InitKeeps(s, env);
    InitResult(s, env);
    var s1 := Init(s, env).s;
    SlotsOkOf(s1);
    SuspendedQueued(s1, 0, env);
    MountDoneKeeps(s1, env);
    var s2 := MountDone(s1, env).s;
    ResumeUnplugged(s2, 0, 0, env, env);
    IoErrorKeeps(s2, 0, Some(SSD_A), false, env);
    var s3 := IoError(s2, 0, Some(SSD_A), false, env).s;
    FourSteps(s, EvInit(env), EvMountDone(env), EvIoError(0, Some(SSD_A), false, env), EvExecute(0, env), s1, s2, s3);
  }

  lemma InitResult(s: State, env: Env)
    requires s.status.ExistDegraded? && env.stateOk
    ensures Init(s, env) == Outcome(s.(status := OnlineDegraded, mountDone := false), Success)
  {
  }

  lemma SuspendedQueued(s: State, i: nat, env: Env)
    requires s.status.OnlineDegraded? && s.queue == [] && env == Env(true, true, true) && i < |s.data|
    requires forall j :: 0 <= j < |s.data| ==> (s.data[j].state.Rebuild? <==> j == i)
    requires !NullTarget(s.data)
    ensures var s' := MountDone(s, env).s;
            && MountDone(s, env).reply.Success?
            && s'.queue == [Handler([i], true)] && s'.status == s.status && s'.data == s.data
  {
    hide Indices, Table, RecordDevices;
    OneIndex(s.data, i, Rebuild);
  }

  lemma {:induction false} NoIndex(slots: seq<Slot>, st: DeviceState)
    requires forall j :: 0 <= j < |slots| ==> slots[j].state != st
    ensures Indices(slots, st) == []
  {
    if slots != [] {
      NoIndex(slots[..|slots| - 1], st);
    }
  }

  lemma {:induction false} OneIndex(slots: seq<Slot>, i: nat, st: DeviceState)
    requires i < |slots| && forall j :: 0 <= j < |slots| ==> (slots[j].state == st <==> j == i)
    ensures Indices(slots, st) == [i]
  {
    var front := slots[..|slots| - 1];
    if i < |front| {
      OneIndex(front, i, st);
    } else {
      NoIndex(front, st);
    }
  }

  lemma FourSteps(s: State, e0: Event, e1: Event, e2: Event, e3: Event, s1: State, s2: State, s3: State)
    requires Enabled(s, e0) && Step(s, e0).s == s1 && !Step(s, e0).reply.Aborted? && OnTime(s, e0)
    requires Enabled(s1, e1) && Step(s1, e1).s == s2 && !Step(s1, e1).reply.Aborted? && OnTime(s1, e1)
    requires Enabled(s2, e2) && Step(s2, e2).s == s3 && !Step(s2, e2).reply.Aborted? && OnTime(s2, e2)
    requires Enabled(s3, e3) && !Step(s3, e3).reply.Aborted? && OnTime(s3, e3)
    ensures Run(s, [e0, e1, e2, e3]) && Final(s, [e0, e1, e2, e3]) == Step(s3, e3).s
  {
    hide Step, Enabled, OnTime;
    var s4 := Step(s3, e3).s;
    assert Run(s4, []) && Final(s4, []) == s4;
    RunCons(s3, e3, []);
    RunCons(s2, e2, [e3]);
    RunCons(s1, e1, [e2, e3]);
    RunCons(s, e0, [e1, e2, e3]);
    assert [e2] + [e3] == [e2, e3] && [e1] + [e2, e3] == [e1, e2, e3] && [e0] + [e1, e2, e3] == [e0, e1, e2, e3];
    assert [e3] + [] == [e3];
  }

  lemma RunCons(s: State, e: Event, rest: seq<Event>)
    requires Enabled(s, e) && OnTime(s, e) && !Step(s, e).reply.Aborted? && Run(Step(s, e).s, rest)
    ensures Run(s, [e] + rest) && Final(s, [e] + rest) == Final(Step(s, e).s, rest)
  {
    hide Step, Enabled, OnTime;
    assert ([e] + rest)[1..] == rest;
  }

  /** The first slot fails while its rebuild runs and no record can be written: nobody stops the rebuild. */
  lemma UnstoppedExample(env: Env) returns (s: State, s1: State)
    requires !env.pbrOk
    ensures s.user.Raid5? && |s.data| == 3 && s.status.OnlineRebuild? && Inv(s) && StopInv(s)
    ensures s1 == IoError(s, 0, s.data[0].ublock, false, env).s
    ensures s1.status.OnlineRebuild? && s1.jobs == [Job([0], [], false)] && |s1.data| == 3 && s1.data[0] == Slot(None, Fault)
    ensures !StopInv(s1)
  {
    hide Inv, Bag, DetachData;
    RebuildingInv(true);
    s := Rebuilding(true);
    assert !s.jobs[0].stopping && s.jobs[0].dsts[0] == 0;
    assert Dst(s, 0);
    DetachUnstopped(s, 0, env);
    s1 := IoError(s, 0, s.data[0].ublock, false, env).s;
  }

  // --------------------------------------------------------------- a stale record

  /** A RAID5 array that has lost its first device. */
  ghost function Degraded(): State {
    Example(Raid5, [Slot(None, Fault), Slot(Some(SSD_B), Normal), Slot(Some(SSD_C), Normal)], [], OnlineDegraded, [])
  }

  lemma DegradedOwns()
    ensures Exclusive(Owned(Degraded())) && Accounted(Degraded())
  {
    hide Bag, JobBag, Accounted, Owned, Example;
    var data := [Slot(None, Fault), Slot(Some(SSD_B), Normal), Slot(Some(SSD_C), Normal)];
    ThreeSlots(data[0], data[1], data[2]);
    NoSlots();
    NoJobs();
    ExampleOwns(Raid5, data, [], OnlineDegraded, []);
  }

  lemma DegradedInv()
    ensures Inv(Degraded())
  {
    hide Inv, Combined, Bag, JobBag, Accounted, Exclusive, Owned;
    var s := Degraded();
    assert States(s.data) == [Fault, Normal, Normal];
    Raid5OnThree(Fault);
    DegradedOwns();
    ExampleInv(s);
  }

  /**
   With all records written, the loss of a second device breaks the array, and the record of the survivor still
   lists that device as present.
   */
  lemma StaleRecordExample(env: Env) returns (s: State, s1: State)
    requires env.pbrOk
    ensures s.user.Raid5? && |s.data| == 3 && s.status.OnlineDegraded? && Inv(s) && Agree(s)
    ensures s1 == IoError(s, 1, s.data[1].ublock, false, env).s
    ensures s1.status.Broken? && |s1.data| == 3 && s1.data[2] == Slot(Some(SSD_C), Normal) && !Agree(s1)
  {
    hide Inv, Agree, Bag, Combined, Table, RecordDevices, DetachData, UpdatePbr;
    DegradedInv();
    s := UpdatePbr(Degraded(), env);
    PbrKeeps(Degraded(), env);
    UpdateAgrees(Degraded(), env);
    UpdateFrame(Degraded(), env);
    s1 := IoError(s, 1, s.data[1].ublock, false, env).s;
    Raid5OnThree(Fault);
    assert States(s.data)[1 := Fault] == [Fault, Fault, Normal];
    DetachAgreesIff(s, 1, env);
    DetachEffect(s, 1, env);
    DetachStatus(s, 1, env);
    UnplugBreaks(s, 1);
  }

  lemma UpdateFrame(s: State, env: Env)
    ensures var s' := UpdatePbr(s, env);
            s'.data == s.data && s'.status == s.status && s'.meta == s.meta && s'.user == s.user
  {
  }

  lemma UnplugBreaks(s: State, i: nat)
    requires i < |s.data| && s.data[i].ublock.Some?
    requires Combined(s.meta, s.user, States(s.data)[i := Fault]).RaidFailure?
    ensures Unplug(s, i).status.Broken?
  {
    hide Combined;
    StatesUpdate(s.data, i, s.data[i].(state := Fault));
  }

  // ------------------------------------------------------------------- a restart

  /**
   The device that was being rebuilt is missing at the start: the table passes the inspection, the array can be
   mounted, and the mount dies on the null device.
   */
  lemma MissingRebuildExample(env: Env) returns (t: State, registry: map<Ublock, DeviceClass>, s: State)
    requires env.stateOk
    ensures t.user.Raid5? && Inv(t) && (forall u :: u in registry ==> registry[u].SystemClass?)
    ensures InspectRecord(Table(t), registry).Accepted? && s == Imported(t.meta, t.user, Table(t), registry, map[])
    ensures |s.data| == 3 && s.data[0] == Slot(None, Rebuild)
    ensures Init(s, env).reply.Success? && MountDone(Init(s, env).s, env).reply.Aborted?
  {
    hide Inv, Bag, Table, InspectRecord, Imported, Combined, Init, MountDone;
    RebuildingInv(false);
    t := Rebuilding(false);
    registry := map[NVRAM := SystemClass, SSD_B := SystemClass, SSD_C := SystemClass];
    MissingAccepted(t, registry);
    s := Imported(t.meta, t.user, Table(t), registry, map[]);
    assert States(t.data) == [Rebuild, Normal, Normal];
    Raid5OnThree(Rebuild);
    MissingRebuildCrashes(t, registry, map[], 0, env);
  }

  lemma MissingAccepted(t: State, registry: map<Ublock, DeviceClass>)
    requires t.nvm == [Slot(Some(NVRAM), Normal)] && t.spares == []
    requires t.data == [Slot(Some(SSD_A), Rebuild), Slot(Some(SSD_B), Normal), Slot(Some(SSD_C), Normal)]
    requires registry == map[NVRAM := SystemClass, SSD_B := SystemClass, SSD_C := SystemClass]
    ensures InspectRecord(Table(t), registry).Accepted?
  {
    hide Inspect, OfKind, Table;
    OfKindTable(t);
    var nvm := Load(Entries(t.nvm, NvmKind), registry);
    var data := Load(Entries(t.data, DataKind), registry);
    var spares := Load(Entries(t.spares, SpareKind), registry);
    assert nvm[0].ublock.Some? && data[1].state.Normal? && spares == [];
    InspectIff(nvm, data, spares);
  }

  /** A healthy RAID5 array on a small and two large devices, with a large and a small spare. */
  ghost function Mixed(): State {
    Example(Raid5, [Slot(Some(SSD_A), Normal), Slot(Some(SSD_B), Normal), Slot(Some(SSD_C), Normal)],
            [Slot(Some(SSD_D), Normal), Slot(Some(SSD_E), Normal)], OnlineNormal, [])
  }

  lemma MixedOwns()
    ensures Exclusive(Owned(Mixed())) && Accounted(Mixed())
  {
    hide Bag, JobBag, Accounted, Owned, Example;
    var data := [Slot(Some(SSD_A), Normal), Slot(Some(SSD_B), Normal), Slot(Some(SSD_C), Normal)];
    var spares := [Slot(Some(SSD_D), Normal), Slot(Some(SSD_E), Normal)];
    ThreeSlots(data[0], data[1], data[2]);
    BagOne(spares[0]);
    BagPush([spares[0]], spares[1]);
    assert spares == [spares[0]] + [spares[1]];
    NoJobs();
    ExampleOwns(Raid5, data, spares, OnlineNormal, []);
  }

  lemma MixedInv()
    ensures Inv(Mixed())
  {
    hide Inv, PartitionState, Bag, JobBag, Accounted, Exclusive, Owned;
    var s := Mixed();
    PartitionNormal(Raid5, States(s.data));
    MixedOwns();
    NoJobs();
    ExampleInv(s);
  }

  /**
   A run after which a healthy array does not survive a restart, although all its devices are there: its small data
   device is replaced by the large spare, and the small spare is now smaller than every data device.
   */
  lemma RestartRefusedExample(env: Env) returns (s: State, t: State)
    requires env.stateOk && env.pbrOk
    ensures s.user.Raid5? && s.status.OnlineNormal? && Inv(s)
    ensures Run(s, [EvReplace(Some(SSD_A), env), EvRebuildDone(0, Pass, env)])
    ensures t == Final(s, [EvReplace(Some(SSD_A), env), EvRebuildDone(0, Pass, env)])
    ensures Inv(t) && Health(t).RaidNormal?
    ensures Inspect(s.nvm, s.data, s.spares).Accepted? && InspectRecord(Table(t), t.registry).SpareTooSmall?
  {
    hide Inv, Bag, Run, Final, ReplaceDevice, RebuildDone, FindName, Table, InspectRecord, Inspect, Health, PassHitsNull;
    MixedInv();
    s := Mixed();
    FoundAt(s.nvm + s.data + s.spares, Some(SSD_A), 1);
    ReplaceStarts(s, 0, Some(SSD_A), env);
    ReplaceKeeps(s, Some(SSD_A), env);
    var s1 := ReplaceDevice(s, Some(SSD_A), env).s;
    SlotsOkOf(s1);
    PassNullIff(s1, 0, Pass, env);
    RebuildDoneKeepsIff(s1, 0, Pass, env);
    PassData(s1, 0, env);
    SetNormalSpec(s1.data, [0]);
    t := RebuildDone(s1, 0, Pass, env);
    TwoSteps(s, EvReplace(Some(SSD_A), env), EvRebuildDone(0, Pass, env), s1);
    RestartAcceptedIff(t);
    MixedSizes(s, t);
    HealthyMixed(t);
  }

  lemma HealthyMixed(t: State)
    requires t.user.Raid5? && t.meta.Raid5? && forall i :: 0 <= i < |t.data| ==> t.data[i].state.Normal?
    ensures Health(t).RaidNormal?
  {
    hide PartitionState;
    PartitionNormal(Raid5, States(t.data));
  }

  lemma MixedSizes(s: State, t: State)
    requires s.nvm == t.nvm == [Slot(Some(NVRAM), Normal)]
    requires s.data == [Slot(Some(SSD_A), Normal), Slot(Some(SSD_B), Normal), Slot(Some(SSD_C), Normal)]
    requires s.spares == [Slot(Some(SSD_D), Normal), Slot(Some(SSD_E), Normal)]
    requires t.data == [Slot(Some(SSD_D), Normal), Slot(Some(SSD_B), Normal), Slot(Some(SSD_C), Normal)]
    requires t.spares == [Slot(Some(SSD_E), Normal)]
    ensures Inspect(s.nvm, s.data, s.spares).Accepted? && Inspect(t.nvm, t.data, t.spares).SpareTooSmall?
  {
    hide Indices, MinimumCapacity;
    HasNormal(s.data);
    HasNormal(s.spares);
    HasNormal(t.data);
    HasNormal(t.spares);
    assert s.data[0].state.Normal? && s.spares[1].state.Normal? && t.data[0].state.Normal? && t.spares[0].state.Normal?;
    MinimumIff(s.data, MINIMUM_SSD_SIZE);
    MinimumIff(s.spares, MINIMUM_SSD_SIZE);
    MinimumIff(t.data, 2 * MINIMUM_SSD_SIZE);
    MinimumIff(t.spares, MINIMUM_SSD_SIZE);
  }

  lemma TwoSteps(s: State, e0: Event, e1: Event, s1: State)
    requires Enabled(s, e0) && Step(s, e0).s == s1 && !Step(s, e0).reply.Aborted? && OnTime(s, e0)
    requires Enabled(s1, e1) && !Step(s1, e1).reply.Aborted? && OnTime(s1, e1)
    ensures Run(s, [e0, e1]) && Final(s, [e0, e1]) == Step(s1, e1).s
  {
    hide Step, Enabled, OnTime;
    var s2 := Step(s1, e1).s;
    assert Run(s2, []) && Final(s2, []) == s2;
    RunCons(s1, e1, []);
    RunCons(s, e0, [e1]);
    assert [e1] + [] == [e1] && [e0] + [e1] == [e0, e1];
  }

  // ------------------------------------------------------------------- odd RAID10

  /** A healthy RAID10 array on three devices, with a spare. */
  ghost function OddRaid10(): State {
    Example(Raid10, [Slot(Some(SSD_A), Normal), Slot(Some(SSD_B), Normal), Slot(Some(SSD_C), Normal)],
            [Slot(Some(SSD_D), Normal)], OnlineNormal, [])
  }

  lemma OddRaid10Owns()
    ensures Exclusive(Owned(OddRaid10())) && Accounted(OddRaid10())
  {
    hide Bag, JobBag, Accounted, Owned, Example;
    var data := [Slot(Some(SSD_A), Normal), Slot(Some(SSD_B), Normal), Slot(Some(SSD_C), Normal)];
    ThreeSlots(data[0], data[1], data[2]);
    BagOne(Slot(Some(SSD_D), Normal));
    NoJobs();
    ExampleOwns(Raid10, data, [Slot(Some(SSD_D), Normal)], OnlineNormal, []);
  }

  lemma OddRaid10Inv()
    ensures Inv(OddRaid10())
  {
    hide Inv, PartitionState, Bag, JobBag, Accounted, Exclusive, Owned;
    var s := OddRaid10();
    PartitionNormal(Raid10, States(s.data));
    OddRaid10Owns();
    NoJobs();
    ExampleInv(s);
  }

  lemma FoundAt(slots: seq<Slot>, name: Option<Ublock>, k: nat)
    requires k < |slots| && slots[k].ublock == name && forall j :: 0 <= j < k ==> slots[j].ublock != name
    ensures FindName(slots, name) == k
  {
    hide FindName;
    var found := FindName(slots, name);
    assert slots[k].ublock == name;
  }

  /** Replacing the last device hits the assert although a spare is there; replacing the first one does not. */
  lemma OddRaid10Example(env: Env) returns (s: State)
    requires env.stateOk
    ensures s.meta.Raid10? && s.user.Raid10? && |s.data| == 3 && s.spares != [] && Inv(s)
    ensures ReplaceDevice(s, s.data[2].ublock, env).reply.Aborted?
    ensures !ReplaceDevice(s, s.data[0].ublock, env).reply.Aborted?
  {
    hide Inv, Bag, ReplaceDevice, FindName;
    OddRaid10Inv();
    s := OddRaid10();
    FoundAt(s.nvm + s.data + s.spares, s.data[2].ublock, 3);
    FoundAt(s.nvm + s.data + s.spares, s.data[0].ublock, 1);
    OddRaid10LastSlot(s, s.data[2].ublock, env);
    OddRaid10LastSlot(s, s.data[0].ublock, env);
  }
}
