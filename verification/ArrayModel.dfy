/**
 The device and rebuild state machine of one array (src/array), as values and total step functions.
 Every locked method of the array is one step. What the code takes from its surroundings (does a record
 serialise, did the state context arrive in time, is automatic rebuild on) arrives in an `Env`.
 */
module ArrayModel {
  import opened Options
  import opened Raid

  /** A block device. Its name and serial number identify it, so the value is the identity. */
  datatype Ublock = Ublock(serial: nat, size: nat)

  datatype DeviceClass = SystemClass | ArrayClass

  datatype DeviceKind = NvmKind | DataKind | SpareKind

  /** An array device: the block device it holds, if any, and its state. */
  datatype Slot = Slot(ublock: Option<Ublock>, state: DeviceState)

  datatype ArrayState =
    | ExistNormal
    | ExistDegraded
    | Broken
    | OnlineNormal
    | OnlineDegraded
    | OnlineRebuild

  /** One device entry of a boot record (PBR). */
  datatype Ade = Ade(index: nat, serial: Option<Ublock>, state: DeviceState, kind: DeviceKind)

  type Record = seq<Ade>

  /** A rebuild in flight: its destinations (data slots) and the devices a quick rebuild swapped out. */
  datatype Job = Job(dsts: seq<nat>, srcs: seq<Slot>, stopping: bool)

  /** A queued rebuild event. */
  datatype Handler = Handler(targets: seq<nat>, isResume: bool)

  /**
   The device vector is `nvm + data + spares`, so a data device keeps its position and is named by its index.
   `registry` is the device manager, `gone` the devices it has removed, `pbr` the record on each device.
   */
  datatype State = State(
    meta: RaidType,
    user: RaidType,
    nvm: seq<Slot>,
    data: seq<Slot>,
    spares: seq<Slot>,
    status: ArrayState,
    jobs: seq<Job>,
    queue: seq<Handler>,
    registry: map<Ublock, DeviceClass>,
    gone: set<Ublock>,
    pbr: map<Ublock, Record>,
    mountDone: bool)

  datatype Env = Env(pbrOk: bool, stateOk: bool, autoStart: bool)

  datatype Reason =
    | RaidDoesNotSupportSpare
    | OnlyWhileOnline
    | OnlyInNormalState
    | OnlyNormalDevice
    | NameNotFound
    | AlreadyOccupied
    | CapacityTooSmall
    | NoAvailableSpare
    | RebuildInProgress
    | ArrayIsNormal
    | ArrayOffline
    | NotMountable
    | NotUnmountable
    | ServiceNotRegistered
    | RecordNotWritten
    | NvmDetached
    | UnknownDevice

  datatype Reply = Success | Rejected(reason: Reason) | Retry | IoFail | LockFailed | Aborted

  datatype Outcome = Outcome(s: State, reply: Reply)

  datatype RebuildResult = Pass | NotPass

  // ---------------------------------------------------------------- devices

  function States(slots: seq<Slot>): seq<DeviceState> {
    seq(|slots|, i requires 0 <= i < |slots| => slots[i].state)
  }

  function Health(s: State): RaidState {
    Combined(s.meta, s.user, States(s.data))
  }

  predicate IsMounted(a: ArrayState) {
    a.OnlineNormal? || a.OnlineDegraded? || a.OnlineRebuild?
  }

  ghost function Content(slot: Slot): multiset<Ublock> {
    if slot.ublock.Some? then multiset{slot.ublock.value} else multiset{}
  }

  /** The block devices held by a list of slots, with multiplicity. */
  ghost function Bag(slots: seq<Slot>): multiset<Ublock> {
    if slots == [] then multiset{} else Content(slots[0]) + Bag(slots[1..])
  }

  /** The position of the first slot whose device has this name; an absent device has the empty name. */
  function FindName(slots: seq<Slot>, name: Option<Ublock>): (k: nat)
    ensures k <= |slots|
    ensures k < |slots| ==> slots[k].ublock == name
    ensures forall j :: 0 <= j < k ==> slots[j].ublock != name
  {
    if slots == [] || slots[0].ublock == name then 0 else 1 + FindName(slots[1..], name)
  }

  function FirstNormal(slots: seq<Slot>): (k: nat)
    ensures k <= |slots|
    ensures k < |slots| ==> slots[k].state.Normal?
    ensures forall j :: 0 <= j < k ==> !slots[j].state.Normal?
  {
    if slots == [] || slots[0].state.Normal? then 0 else 1 + FirstNormal(slots[1..])
  }

  /** The indices of the slots in state `st`, in order. */
  function Indices(slots: seq<Slot>, st: DeviceState): (r: seq<nat>)
    ensures InRange(r, |slots|)
    ensures forall j :: 0 <= j < |slots| ==> (j in r <==> slots[j].state == st)
    ensures forall a, b :: 0 <= a < b < |r| ==> r[a] < r[b]
  {
    if slots == [] then []
    else
      var n := |slots| - 1;
      Indices(slots[..n], st) + (if slots[n].state == st then [n] else [])
  }

  function SizeOf(slot: Slot): nat {
    if slot.ublock.Some? then slot.ublock.value.size else 0
  }

  function SmallestNormal(slots: seq<Slot>): (m: Option<nat>)
    ensures m.None? <==> forall i :: 0 <= i < |slots| ==> !slots[i].state.Normal?
    ensures m.Some? ==> exists i :: 0 <= i < |slots| && slots[i].state.Normal? && SizeOf(slots[i]) == m.value
    ensures m.Some? ==> forall i :: 0 <= i < |slots| && slots[i].state.Normal? ==> m.value <= SizeOf(slots[i])
  {
    if slots == [] then None
    else
      var rest := SmallestNormal(slots[1..]);
      if !slots[0].state.Normal? then rest
      else if rest.None? || SizeOf(slots[0]) < rest.value then Some(SizeOf(slots[0]))
      else rest
  }

  /** The capacity a new spare must reach: 0 when no slot is NORMAL. */
  function MinimumCapacity(slots: seq<Slot>): nat {
    var m := SmallestNormal(slots);
    if m.Some? then m.value else 0
  }

  function Without<T>(xs: seq<T>, k: nat): seq<T>
    requires k < |xs|
  {
    xs[..k] + xs[k + 1..]
  }

  predicate InRange(indices: seq<nat>, n: nat) {
    forall k :: 0 <= k < |indices| ==> indices[k] < n
  }

  // ------------------------------------------------------------ boot record

  function Entries(slots: seq<Slot>, kind: DeviceKind): Record {
    seq(|slots|, i requires 0 <= i < |slots| =>
      Ade(if kind.DataKind? then i else 0, slots[i].ublock, slots[i].state, kind))
  }

  /** The device table of memory, as a boot record lists it. */
  function Table(s: State): Record {
    Entries(s.nvm, NvmKind) + Entries(s.data, DataKind) + Entries(s.spares, SpareKind)
  }

  /** The block devices a record is written to: those of the data slots that are not FAULT. */
  function RecordDevices(slots: seq<Slot>): set<Ublock> {
    set i | 0 <= i < |slots| && !slots[i].state.Fault? && slots[i].ublock.Some? :: slots[i].ublock.value
  }

  function UpdatePbr(s: State, env: Env): State {
    if env.pbrOk then s.(pbr := s.pbr + map u | u in RecordDevices(s.data) :: Table(s)) else s
  }

  /** Some slot that gets a record has no block device: writing the record dereferences null. */
  predicate NullTarget(slots: seq<Slot>) {
    exists i :: 0 <= i < |slots| && !slots[i].state.Fault? && slots[i].ublock.None?
  }

  // ------------------------------------------------------------ array state

  function RaidStateUpdated(a: ArrayState, rs: RaidState): ArrayState {
    if rs.RaidFailure? then Broken
    else if IsMounted(a) then (if rs.RaidNormal? then OnlineNormal else OnlineDegraded)
    else (if rs.RaidNormal? then ExistNormal else ExistDegraded)
  }

  function SyncHealth(s: State): State {
    s.(status := RaidStateUpdated(s.status, Health(s)))
  }

  /** SetRebuild succeeds from DEGRADED when the rebuilding context arrives in time, else changes nothing. */
  predicate RebuildGranted(a: ArrayState, env: Env) {
    a.OnlineDegraded? && env.stateOk
  }

  function SetRebuildDone(a: ArrayState, success: bool): ArrayState {
    if !a.OnlineRebuild? then a else if success then OnlineNormal else OnlineDegraded
  }

  const MOUNT_ARRAY_ALREADY_MOUNTED: nat := 2528
  const MOUNT_ARRAY_BROKEN_ARRAY_CANNOT_BE_MOUNTED: nat := 2530

  /** IsMountable answers with an event number, 0 for an array that can be mounted. */
  function IsMountable(a: ArrayState): nat {
    if a.Broken? then MOUNT_ARRAY_BROKEN_ARRAY_CANNOT_BE_MOUNTED
    else if a.ExistNormal? || a.ExistDegraded? then 0
    else MOUNT_ARRAY_ALREADY_MOUNTED
  }

  predicate Recoverable(a: ArrayState) {
    a.ExistDegraded? || a.OnlineDegraded? || a.OnlineRebuild?
  }

  function InvokeRebuild(s: State, targets: seq<nat>, isResume: bool, force: bool, env: Env): State {
    if !force && !env.autoStart then s else s.(queue := s.queue + [Handler(targets, isResume)])
  }

  // ------------------------------------------------------- spare management

  /** The data slots and the spares, between which block devices move. */
  datatype Pool = Pool(data: seq<Slot>, spares: seq<Slot>)

  /** Hands the first NORMAL spare's block device to data slot `i`; the spare leaves with what the slot held. */
  function SpareToData(p: Pool, i: nat): (r: Option<(Pool, Slot)>)
    requires i < |p.data|
    ensures r.None? <==> forall k :: 0 <= k < |p.spares| ==> !p.spares[k].state.Normal?
    ensures r.Some? ==>
              var (p', out) := r.value;
              var k := FirstNormal(p.spares);
              && |p'.data| == |p.data| && p'.spares == Without(p.spares, k)
              && p'.data[i].ublock == p.spares[k].ublock && p'.data[i].state == p.data[i].state
              && out.ublock == p.data[i].ublock
              && forall j :: 0 <= j < |p.data| && j != i ==> p'.data[j] == p.data[j]
  {
    var k := FirstNormal(p.spares);
    if k == |p.spares| then None
    else Some((Pool(p.data[i := p.data[i].(ublock := p.spares[k].ublock)], Without(p.spares, k)),
               p.spares[k].(ublock := p.data[i].ublock)))
  }

  function RemoveDevice(s: State, u: Ublock): State {
    s.(registry := s.registry - {u}, gone := s.gone + {u})
  }

  function SetClass(registry: map<Ublock, DeviceClass>, u: Option<Ublock>, c: DeviceClass): map<Ublock, DeviceClass> {
    if u.Some? && u.value in registry then registry[u.value := c] else registry
  }

  function AddSpare(s: State, name: Option<Ublock>, env: Env): Outcome {
    if !Tolerant(s.user) then Outcome(s, Rejected(RaidDoesNotSupportSpare))
    else if !IsMounted(s.status) then Outcome(s, Rejected(OnlyWhileOnline))
    else if name.None? || name.value !in s.registry then Outcome(s, Rejected(NameNotFound))
    else if s.registry[name.value] != SystemClass then Outcome(s, Rejected(AlreadyOccupied))
    else if MinimumCapacity(s.data) > name.value.size then Outcome(s, Rejected(CapacityTooSmall))
    else if FindName(s.nvm + s.data + s.spares, name) < |s.nvm + s.data + s.spares| then
      Outcome(s, Rejected(AlreadyOccupied))
    else
      var s1 := s.(spares := s.spares + [Slot(name, Normal)], registry := s.registry[name.value := ArrayClass]);
      if !env.pbrOk then Outcome(s1, Rejected(RecordNotWritten))
      else
        var s2 := UpdatePbr(s1, env);
        var targets := Indices(s2.data, Fault);
        Outcome(if targets != [] && s2.status.OnlineDegraded? then InvokeRebuild(s2, targets, false, false, env) else s2,
                Success)
  }

  /** Erases spare `k` and gives its block device back to the system. */
  function DropSpare(s: State, k: nat): State
    requires k < |s.spares|
  {
    s.(spares := Without(s.spares, k), registry := SetClass(s.registry, s.spares[k].ublock, SystemClass))
  }

  function RemoveSpare(s: State, name: Option<Ublock>, env: Env): Outcome {
    if !IsMounted(s.status) then Outcome(s, Rejected(OnlyWhileOnline))
    else
      var k := FindName(s.nvm + s.data + s.spares, name);
      if k < |s.nvm| + |s.data| || k == |s.nvm + s.data + s.spares| then Outcome(s, Rejected(NameNotFound))
      else
        var s1 := DropSpare(s, k - |s.nvm| - |s.data|);
        Outcome(UpdatePbr(s1, env), if env.pbrOk then Success else Rejected(RecordNotWritten))
  }

  // ---------------------------------------------------------------- replace

  function SetSlotState(s: State, i: nat, st: DeviceState): State
    requires i < |s.data|
  {
    s.(data := s.data[i := s.data[i].(state := st)])
  }

  function ReplaceDevice(s: State, name: Option<Ublock>, env: Env): Outcome {
    var k := FindName(s.nvm + s.data + s.spares, name);
    if k < |s.nvm| || k >= |s.nvm| + |s.data| then Outcome(s, Rejected(NameNotFound))
    else
      var i := k - |s.nvm|;
      if !s.status.OnlineNormal? then Outcome(s, Rejected(OnlyInNormalState))
      else if !s.data[i].state.Normal? then Outcome(s, Rejected(OnlyNormalDevice))
      else if !Tolerant(s.user) then Outcome(s, Rejected(RaidDoesNotSupportSpare))
      else if Indices(s.spares, Normal) == [] then Outcome(s, Rejected(NoAvailableSpare))
      else
        var s1 := SyncHealth(SetSlotState(s, i, Rebuild));
        if !RebuildGranted(s1.status, env) then Outcome(s1, Aborted)
        else
          var s2 := s1.(status := OnlineRebuild);
          match SpareToData(Pool(s2.data, s2.spares), i)
          case None =>
            Outcome(SyncHealth(SetSlotState(s2.(status := SetRebuildDone(s2.status, false)), i, Normal)),
                    Rejected(NoAvailableSpare))
          case Some((p, swapOut)) =>
            var s3 := UpdatePbr(s2.(data := p.data, spares := p.spares), env);
            Outcome(s3.(jobs := s3.jobs + [Job([i], [swapOut], false)]), Success)
  }

  /** The number that a comparison with `true` compares with. */
  const TRUE: nat := 1

  function UserRebuild(s: State, env: Env): Outcome {
    if Indices(s.spares, Normal) == [] then Outcome(s, Rejected(NoAvailableSpare))
    else if !Tolerant(s.user) then Outcome(s, Rejected(RaidDoesNotSupportSpare))
    else if s.jobs != [] then Outcome(s, Rejected(RebuildInProgress))
    else if IsMountable(s.status) == TRUE then Outcome(s, Rejected(ArrayOffline))
    else if !s.status.OnlineDegraded? then Outcome(s, Rejected(ArrayIsNormal))
    else
      var suspended := Indices(s.data, Rebuild);
      var faulty := Indices(s.data, Fault);
      if suspended != [] then Outcome(InvokeRebuild(s, suspended, true, true, env), Success)
      else if faulty != [] then Outcome(InvokeRebuild(s, faulty, false, true, env), Success)
      else Outcome(s, Aborted)
  }

  // ----------------------------------------------------------------- detach

  function StopJobs(jobs: seq<Job>): seq<Job> {
    seq(|jobs|, k requires 0 <= k < |jobs| => jobs[k].(stopping := true))
  }

  /** The memory part of a data detach: state, array state and registry, before any record is written. */
  function Unplug(s: State, i: nat): State
    requires i < |s.data| && s.data[i].ublock.Some?
  {
    var s1 := SetSlotState(s, i, Fault);
    var s2 := if Health(s1).RaidFailure? || !s1.status.OnlineRebuild? then SyncHealth(s1) else s1;
    var s3 := RemoveDevice(s2, s.data[i].ublock.value);
    s3.(data := s3.data[i := Slot(None, Fault)])
  }

  function AfterDetach(s: State, i: nat, needStop: bool, env: Env): State {
    if needStop then s.(jobs := StopJobs(s.jobs))
    else if s.status.OnlineDegraded? then InvokeRebuild(s, [i], false, false, env)
    else s
  }

  function DetachData(s: State, i: nat, env: Env): Outcome
    requires i < |s.data|
  {
    if s.data[i].ublock.None? then Outcome(s, Aborted)
    else if s.data[i].state.Fault? then Outcome(s, Success)
    else
      var needStop := s.data[i].state.Rebuild? && s.status.OnlineRebuild?;
      var s1 := Unplug(s, i);
      if IsMounted(s1.status) && !env.pbrOk then Outcome(s1, Success)
      else
        var s2 := if IsMounted(s1.status) then UpdatePbr(s1, env) else s1;
        Outcome(AfterDetach(s2, i, needStop, env), Success)
  }

  /** An I/O to data slot `i` failed on block device `u`; `busy` means that the lock was taken. */
  function IoError(s: State, i: nat, u: Option<Ublock>, busy: bool, env: Env): Outcome
    requires i < |s.data|
  {
    if busy then Outcome(s, Retry)
    else if !IsMounted(s.status) then Outcome(s, IoFail)
    else if u.None? || s.data[i].ublock != u then Outcome(s, Success)
    else
      var r := DetachData(s, i, env);
      if r.reply.Aborted? then r else Outcome(r.s, if Recoverable(r.s.status) then Success else IoFail)
  }

  function DetachSpare(s: State, k: nat, env: Env): State
    requires k < |s.spares|
  {
    if s.spares[k].ublock.None? then s
    else
      var s1 := RemoveDevice(DropSpare(s, k), s.spares[k].ublock.value);
      if IsMounted(s1.status) then UpdatePbr(s1, env) else s1
  }

  /** Block device `u` disappeared from the system. */
  function DeviceDetached(s: State, u: Ublock, busy: bool, env: Env): Outcome {
    if u !in s.registry then Outcome(s, Rejected(UnknownDevice))
    else
      var all := s.nvm + s.data + s.spares;
      var k := FindName(all, Some(u));
      if s.registry[u].SystemClass? || k == |all| then Outcome(RemoveDevice(s, u), Success)
      else if k < |s.nvm| then Outcome(s, Rejected(NvmDetached))
      else if busy then Outcome(s, LockFailed)
      else if k < |s.nvm| + |s.data| then
        var i := k - |s.nvm|;
        if s.data[i].state.Fault? then Outcome(s, Success) else DetachData(s, i, env)
      else Outcome(DetachSpare(s, k - |s.nvm| - |s.data|, env), Success)
  }

  // ---------------------------------------------------------------- rebuild

  /** The erase-in-place loop of TriggerRebuild: the new slots and the targets that got a spare. */
  function Fill(p: Pool, targets: seq<nat>): (r: (Pool, seq<nat>))
    requires InRange(targets, |p.data|)
    ensures |r.0.data| == |p.data|
    decreases targets
  {
    if targets == [] then (p, [])
    else
      match SpareToData(p, targets[0])
      case None => Fill(p, targets[1..])
      case Some((p1, _)) =>
        var t := targets[0];
        var (p2, kept) := Fill(p1.(data := p1.data[t := p1.data[t].(state := Rebuild)]), targets[1..]);
        (p2, [t] + kept)
  }

  predicate Unplugged(slot: Slot) {
    slot.state.Fault? && slot.ublock.None?
  }

  /** TriggerRebuild; the flag asks the scheduler to run the event again. */
  function TriggerRebuild(s: State, targets: seq<nat>, env: Env): (r: (State, bool))
    requires InRange(targets, |s.data|)
  {
    if targets == [] then (s, false)
    else if exists k :: 0 <= k < |targets| && !Unplugged(s.data[targets[k]]) then (s, true)
    else if !RebuildGranted(s.status, env) then (s, false)
    else
      var (p, kept) := Fill(Pool(s.data, s.spares), targets);
      var s1 := s.(status := OnlineRebuild, data := p.data, spares := p.spares);
      if kept == [] then (s1.(status := SetRebuildDone(s1.status, false)), false)
      else
        var s2 := UpdatePbr(s1, env);
        (s2.(jobs := s2.jobs + [Job(kept, [], false)]), false)
  }

  function ResumeRebuild(s: State, targets: seq<nat>, env: Env): State {
    if !RebuildGranted(s.status, env) then s
    else s.(status := OnlineRebuild, jobs := s.jobs + [Job(targets, [], false)])
  }

  /** Runs queued event `k`; it stays queued exactly when it asks for a retry. */
  function Execute(s: State, k: nat, env: Env): State
    requires k < |s.queue|
    requires InRange(s.queue[k].targets, |s.data|)
  {
    var h := s.queue[k];
    var dequeued := s.(queue := Without(s.queue, k));
    if h.isResume then ResumeRebuild(dequeued, h.targets, env)
    else
      var (s1, retry) := TriggerRebuild(dequeued, h.targets, env);
      if retry then s else s1
  }

  function Release(registry: map<Ublock, DeviceClass>, srcs: seq<Slot>): map<Ublock, DeviceClass> {
    if srcs == [] then registry else Release(SetClass(registry, srcs[0].ublock, SystemClass), srcs[1..])
  }

  function SetNormal(data: seq<Slot>, dsts: seq<nat>): (r: seq<Slot>)
    requires InRange(dsts, |data|)
    ensures |r| == |data|
    decreases dsts
  {
    if dsts == [] then data else SetNormal(data[dsts[0] := data[dsts[0]].(state := Normal)], dsts[1..])
  }

  /** Recomputes the array state and asks for a rebuild of what is still FAULT. */
  function Recheck(s: State, env: Env): State {
    var s1 := SyncHealth(s);
    var targets := Indices(s1.data, Fault);
    if targets != [] && s1.status.OnlineDegraded? then InvokeRebuild(s1, targets, false, false, env) else s1
  }

  /** The completion callback of job `k`. */
  function RebuildDone(s: State, k: nat, result: RebuildResult, env: Env): State
    requires k < |s.jobs|
    requires InRange(s.jobs[k].dsts, |s.data|)
  {
    var job := s.jobs[k];
    var s1 := s.(jobs := Without(s.jobs, k), registry := Release(s.registry, job.srcs));
    Recheck(if result.Pass? then UpdatePbr(s1.(data := SetNormal(s1.data, job.dsts)), env) else s1, env)
  }

  /** The completion callback writes a record to a slot that it made NORMAL without a block device. */
  predicate PassHitsNull(s: State, k: nat, result: RebuildResult, env: Env)
    requires k < |s.jobs|
    requires InRange(s.jobs[k].dsts, |s.data|)
  {
    result.Pass? && env.pbrOk && NullTarget(SetNormal(s.data, s.jobs[k].dsts))
  }

  // ------------------------------------------------------------------ mount

  /** Array::Init: `env.stateOk` tells whether the services could be registered. */
  function Init(s: State, env: Env): Outcome {
    if IsMountable(s.status) != 0 then Outcome(s, Rejected(NotMountable))
    else if !env.stateOk then Outcome(s, Rejected(ServiceNotRegistered))
    else Outcome(s.(status := if s.status.ExistNormal? then OnlineNormal else OnlineDegraded, mountDone := false), Success)
  }

  /** Asks for the rebuild of what was suspended or is FAULT when the array comes up. */
  function Requeue(s: State, env: Env): State {
    var suspended := Indices(s.data, Rebuild);
    var faulty := Indices(s.data, Fault);
    if suspended != [] && s.status.OnlineDegraded? then InvokeRebuild(s, suspended, true, false, env)
    else if faulty != [] && s.status.OnlineDegraded? then InvokeRebuild(s, faulty, false, false, env)
    else s
  }

  function MountDone(s: State, env: Env): Outcome {
    var s1 := Requeue(s, env);
    if env.pbrOk && !NullTarget(s1.data) then Outcome(UpdatePbr(s1, env).(mountDone := true), Success)
    else Outcome(s1, Aborted)
  }

  /** Unmount as the array sees it: the unmountable check, Flush, Dispose. */
  function Unmount(s: State, env: Env): Outcome {
    if !IsMounted(s.status) || s.status.OnlineRebuild? then Outcome(s, Rejected(NotUnmountable))
    else
      Outcome(UpdatePbr(s, env).(status := if s.status.OnlineNormal? then ExistNormal else ExistDegraded, mountDone := false),
              Success)
  }

  // ------------------------------------------------------------------- runs

  datatype Event =
    | EvAddSpare(name: Option<Ublock>, env: Env)
    | EvRemoveSpare(name: Option<Ublock>, env: Env)
    | EvReplace(name: Option<Ublock>, env: Env)
    | EvUserRebuild(env: Env)
    | EvIoError(slot: nat, u: Option<Ublock>, busy: bool, env: Env)
    | EvDetached(dev: Ublock, busy: bool, env: Env)
    | EvExecute(k: nat, env: Env)
    | EvRebuildDone(k: nat, result: RebuildResult, env: Env)
    | EvInit(env: Env)
    | EvMountDone(env: Env)
    | EvFlush(env: Env)
    | EvUnmount(env: Env)
    | EvAttach(dev: Ublock, env: Env)

  /** What the surroundings can deliver in state `s`; an attached device is one never seen before. */
  ghost predicate Enabled(s: State, e: Event) {
    match e
    case EvIoError(i, _, _, _) => i < |s.data|
    case EvExecute(k, _) => k < |s.queue| && InRange(s.queue[k].targets, |s.data|)
    case EvRebuildDone(k, _, _) => k < |s.jobs| && InRange(s.jobs[k].dsts, |s.data|)
    case EvAttach(u, _) => u !in s.registry && u !in s.gone
    case _ => true
  }

  function Step(s: State, e: Event): Outcome
    requires Enabled(s, e)
  {
    match e
    case EvAddSpare(name, env) => AddSpare(s, name, env)
    case EvRemoveSpare(name, env) => RemoveSpare(s, name, env)
    case EvReplace(name, env) => ReplaceDevice(s, name, env)
    case EvUserRebuild(env) => UserRebuild(s, env)
    case EvIoError(i, u, busy, env) => IoError(s, i, u, busy, env)
    case EvDetached(u, busy, env) => DeviceDetached(s, u, busy, env)
    case EvExecute(k, env) => Outcome(Execute(s, k, env), Success)
    case EvRebuildDone(k, result, env) =>
      Outcome(RebuildDone(s, k, result, env), if PassHitsNull(s, k, result, env) then Aborted else Success)
    case EvInit(env) => Init(s, env)
    case EvMountDone(env) => MountDone(s, env)
    case EvFlush(env) => Outcome(UpdatePbr(s, env), Success)
    case EvUnmount(env) => Unmount(s, env)
    case EvAttach(u, env) => Outcome(s.(registry := s.registry[u := SystemClass]), Success)
  }
}
