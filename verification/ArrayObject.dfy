/**
 The array as the object the source has: fields updated in place, loops over the device vector, an erase in the
 middle of an iteration. Every method is proved to do what its step function says and to keep the invariant.
 */
module ArrayObject {
  import opened Options
  import opened Raid
  import opened ArrayModel
  import opened ArrayInvariants
  import opened ArraySteps
  import opened ArrayRuns
  import opened ArrayRestart

  /** ArrayDeviceApi::ExtractDevicesByState. */
  method ExtractByState(slots: seq<Slot>, st: DeviceState) returns (r: seq<nat>)
    ensures r == Indices(slots, st)
  {
    r := [];
    for i := 0 to |slots|
      invariant r == Indices(slots[..i], st)
    {
      assert slots[..i + 1][..i] == slots[..i];
      if slots[i].state == st {
        r := r + [i];
      }
    }
    assert slots[..|slots|] == slots;
  }

  /** ArrayDeviceApi::FindDevByName. */
  method FindDevByName(slots: seq<Slot>, name: Option<Ublock>) returns (k: nat)
    ensures k == FindName(slots, name)
  {
    k := 0;
    while k < |slots|
      invariant k <= |slots|
      invariant forall j :: 0 <= j < k ==> slots[j].ublock != name
    {
      if slots[k].ublock == name {
        return;
      }
      k := k + 1;
    }
  }

  /** ArrayDeviceApi::GetMinimumCapacity. */
  method GetMinimumCapacity(slots: seq<Slot>) returns (m: nat)
    ensures m == MinimumCapacity(slots)
  {
    var best: Option<nat> := None;
    for i := 0 to |slots|
      invariant best.None? <==> forall j :: 0 <= j < i ==> !slots[j].state.Normal?
      invariant best.Some? ==> exists j :: 0 <= j < i && slots[j].state.Normal? && SizeOf(slots[j]) == best.value
      invariant best.Some? ==> forall j :: 0 <= j < i && slots[j].state.Normal? ==> best.value <= SizeOf(slots[j])
    {
      if slots[i].state.Normal? && (best.None? || best.value > SizeOf(slots[i])) {
        best := Some(SizeOf(slots[i]));
      }
    }
    m := if best.Some? then best.value else 0;
  }

  /** DeviceBuilder::Load, for the devices of one kind. */
  method LoadDevices(record: Record, kind: DeviceKind, registry: map<Ublock, DeviceClass>) returns (slots: seq<Slot>)
    ensures slots == LoadKind(record, kind, registry)
  {
    slots := [];
    for i := 0 to |record|
      invariant slots == LoadKind(record[..i], kind, registry)
    {
      assert record[..i + 1] == record[..i] + [record[i]];
      OfKindAppend(record[..i], [record[i]], kind);
      LoadAppend(OfKind(record[..i], kind), OfKind([record[i]], kind), registry);
      if record[i].kind == kind {
        var ade := record[i];
        var ublock: Option<Ublock> := None;
        if !ade.state.Fault? && ade.serial.Some? && ade.serial.value in registry {
          ublock := ade.serial;
        }
        slots := slots + [Slot(ublock, ade.state)];
      }
    }
    assert record[..|record|] == record;
  }

  /** ArrayDeviceList::Import. */
  method ClaimDevices(registry: map<Ublock, DeviceClass>, slots: seq<Slot>) returns (r: map<Ublock, DeviceClass>)
    ensures r == Claim(registry, slots)
  {
    r := registry;
    for i := 0 to |slots|
      invariant Claim(registry, slots) == Claim(r, slots[i..])
    {
      assert slots[i..][1..] == slots[i + 1..];
      if slots[i].ublock.Some? && slots[i].ublock.value in r {
        r := r[slots[i].ublock.value := ArrayClass];
      }
    }
  }

  /** ArrayDeviceApi::ImportInspection. */
  method ImportInspection(nvm: seq<Slot>, data: seq<Slot>, spares: seq<Slot>) returns (r: Inspection)
    ensures r == Inspect(nvm, data, spares)
  {
    hide Indices, MinimumCapacity;
    if |nvm| == 0 || nvm[0].ublock.None? {
      return NvmMissing;
    }
    var activeData := ExtractByState(data, Normal);
    if |activeData| == 0 {
      return NoDataDevice;
    }
    var minData := GetMinimumCapacity(data);
    if minData < MINIMUM_SSD_SIZE {
      return DataTooSmall;
    }
    var activeSpares := ExtractByState(spares, Normal);
    if |activeSpares| > 0 {
      var minSpare := GetMinimumCapacity(spares);
      if minSpare < minData {
        return SpareTooSmall;
      }
    }
    return Accepted;
  }

  /** PbrUpdater::Update: the same record goes to every device in turn, up to a null one, which crashes the process. */
  method WriteRecords(pbr: map<Ublock, Record>, devs: seq<Option<Ublock>>, table: Record)
    returns (r: map<Ublock, Record>, n: nat)
    ensures n <= |devs| && None !in devs[..n] && (n < |devs| ==> devs[n].None?)
    ensures forall u :: u in r <==> u in pbr || Some(u) in devs[..n]
    ensures forall u :: u in r ==> r[u] == if Some(u) in devs[..n] then table else pbr[u]
  {
    r, n := pbr, 0;
    while n < |devs|
      invariant n <= |devs| && None !in devs[..n]
      invariant forall u :: u in r <==> u in pbr || Some(u) in devs[..n]
      invariant forall u :: u in r ==> r[u] == if Some(u) in devs[..n] then table else pbr[u]
    {
      assert devs[..n + 1] == devs[..n] + [devs[n]];
      if devs[n].None? {
        return;
      }
      r := r[devs[n].value := table];
      n := n + 1;
    }
  }

  lemma InconsistentSlots(s: State)
    requires !SlotsOk(s.data)
    ensures !Inv(s)
  {
  }

  /** What one turn of the loop of TriggerRebuild leaves for the next ones. */
  lemma FillTurn(p: Pool, rest: seq<nat>)
    requires rest != [] && InRange(rest, |p.data|)
    ensures match ArrayModel.SpareToData(p, rest[0])
            case None => Fill(p, rest) == Fill(p, rest[1..])
            case Some((p1, _)) =>
              var p2 := p1.(data := p1.data[rest[0] := p1.data[rest[0]].(state := Rebuild)]);
              Fill(p, rest).0 == Fill(p2, rest[1..]).0 && Fill(p, rest).1 == [rest[0]] + Fill(p2, rest[1..]).1
  {
  }

  class Array {
    const meta: RaidType
    const user: RaidType
    const nvm: seq<Slot>
    var data: seq<Slot>
    var spares: seq<Slot>
    var status: ArrayState
    var jobs: seq<Job>
    var queue: seq<Handler>
    var registry: map<Ublock, DeviceClass>
    var gone: set<Ublock>
    var pbr: map<Ublock, Record>
    var mountDone: bool

    ghost function Model(): State
      reads this
    {
      State(meta, user, nvm, data, spares, status, jobs, queue, registry, gone, pbr, mountDone)
    }

    ghost predicate Valid()
      reads this
    {
      Inv(Model())
    }

    /** Array::Import of a loaded table. */
    constructor Import(meta: RaidType, user: RaidType, record: Record, registry: map<Ublock, DeviceClass>,
                       pbr: map<Ublock, Record>)
      ensures Model() == Imported(meta, user, record, registry, pbr)
    {
      hide LoadKind, Claim, Combined;
      var nvm := LoadDevices(record, NvmKind, registry);
      var data := LoadDevices(record, DataKind, registry);
      var spares := LoadDevices(record, SpareKind, registry);
      var claimed := ClaimDevices(registry, nvm + data + spares);
      this.meta, this.user, this.nvm, this.data, this.spares := meta, user, nvm, data, spares;
      status, jobs, queue := SetLoad(Combined(meta, user, States(data))), [], [];
      this.registry, gone, this.pbr, mountDone := claimed, {}, pbr, false;
    }

    // ---------------------------------------------------------------- internals

    /** _GetPbrDevs: while the slots are consistent no entry is null. */
    method GetPbrDevs() returns (devs: seq<Option<Ublock>>)
      ensures forall u :: u in RecordDevices(data) <==> Some(u) in devs
      ensures None in devs <==> NullTarget(data)
    {
      devs := [];
      for i := 0 to |data|
        invariant forall u :: u in devs <==> exists j :: 0 <= j < i && !data[j].state.Fault? && data[j].ublock == u
      {
        if !data[i].state.Fault? {
          devs := devs + [data[i].ublock];
        }
      }
    }

    /** _BuildAteData. */
    method BuildAteData() returns (table: Record)
      ensures table == Table(Model())
    {
      table := [];
      for i := 0 to |nvm|
        invariant table == Entries(nvm[..i], NvmKind)
      {
        table := table + [Ade(0, nvm[i].ublock, nvm[i].state, NvmKind)];
      }
      ghost var head := table;
      for i := 0 to |data|
        invariant table == head + Entries(data[..i], DataKind)
      {
        table := table + [Ade(i, data[i].ublock, data[i].state, DataKind)];
      }
      ghost var front := table;
      for i := 0 to |spares|
        invariant table == front + Entries(spares[..i], SpareKind)
      {
        table := table + [Ade(0, spares[i].ublock, spares[i].state, SpareKind)];
      }
      assert nvm[..|nvm|] == nvm && data[..|data|] == data && spares[..|spares|] == spares;
    }

    method UpdatePbr(env: Env) returns (crashed: bool)
      modifies this`pbr
      ensures crashed <==> env.pbrOk && NullTarget(data)
      ensures !crashed ==> Model() == ArrayModel.UpdatePbr(old(Model()), env)
    {
      hide Table, RecordDevices;
      crashed := false;
      if env.pbrOk {
        var devs := GetPbrDevs();
        var table := BuildAteData();
        var n: nat;
        pbr, n := WriteRecords(pbr, devs, table);
        crashed := n < |devs|;
        assert !crashed ==> devs[..n] == devs;
      }
    }

    method InvokeRebuild(targets: seq<nat>, isResume: bool, force: bool, env: Env)
      modifies this`queue
      ensures Model() == ArrayModel.InvokeRebuild(old(Model()), targets, isResume, force, env)
    {
      if !force && !env.autoStart {
        return;
      }
      queue := queue + [Handler(targets, isResume)];
    }

    /** ArrayState::RaidStateUpdated with the health the partitions report now. */
    method UpdateRaidState()
      modifies this`status
      ensures Model() == SyncHealth(old(Model()))
    {
      var rs := Combined(meta, user, States(data));
      if rs.RaidFailure? {
        status := Broken;
      } else if !IsMounted(status) {
        status := if rs.RaidNormal? then ExistNormal else ExistDegraded;
      } else {
        status := if rs.RaidNormal? then OnlineNormal else OnlineDegraded;
      }
    }

    method SetRebuild(env: Env) returns (granted: bool)
      modifies this`status
      ensures granted == RebuildGranted(old(status), env)
      ensures status == if granted then OnlineRebuild else old(status)
    {
      if !status.OnlineDegraded? {
        return false;
      }
      status := OnlineRebuild;
      if !env.stateOk {
        status := OnlineDegraded;
        return false;
      }
      return true;
    }

    method SetRebuildDone(success: bool)
      modifies this`status
      ensures status == ArrayModel.SetRebuildDone(old(status), success)
    {
      if status.OnlineRebuild? {
        status := if success then OnlineNormal else OnlineDegraded;
      }
    }

    /** ArrayDeviceList::SpareToData. */
    method SpareToData(i: nat) returns (swapOut: Option<Slot>)
      requires i < |data|
      modifies this`data, this`spares
      ensures var r := ArrayModel.SpareToData(Pool(old(data), old(spares)), i);
              if r.None? then swapOut.None? && data == old(data) && spares == old(spares)
              else swapOut == Some(r.value.1) && Pool(data, spares) == r.value.0
    {
      var it := 0;
      while it < |spares|
        invariant it <= |spares| && data == old(data) && spares == old(spares)
        invariant forall j :: 0 <= j < it ==> !spares[j].state.Normal?
      {
        if spares[it].state.Normal? {
          var newUblock, oldUblock := spares[it].ublock, data[i].ublock;
          swapOut := Some(spares[it].(ublock := oldUblock));
          spares := spares[..it] + spares[it + 1..];
          data := data[i := data[i].(ublock := newUblock)];
          return;
        }
        it := it + 1;
      }
      swapOut := None;
    }

    method RemoveDevice(u: Ublock)
      modifies this`registry, this`gone
      ensures Model() == ArrayModel.RemoveDevice(old(Model()), u)
    {
      registry := registry - {u};
      gone := gone + {u};
    }

    // ----------------------------------------------------------- spare requests

    method AddSpare(name: Option<Ublock>, env: Env) returns (reply: Reply)
      requires Valid()
      modifies this
      ensures Valid()
      ensures Outcome(Model(), reply) == ArrayModel.AddSpare(old(Model()), name, env)
    {
      hide Inv, Indices, FindName, MinimumCapacity, Table, RecordDevices;
      AddSpareKeeps(Model(), name, env);
      SlotsOkOf(Model());
      if !Tolerant(user) {
        return Rejected(RaidDoesNotSupportSpare);
      }
      if !IsMounted(status) {
        return Rejected(OnlyWhileOnline);
      }
      if name.None? || name.value !in registry {
        return Rejected(NameNotFound);
      }
      if registry[name.value] != SystemClass {
        return Rejected(AlreadyOccupied);
      }
      var baseCapa := GetMinimumCapacity(data);
      if baseCapa > name.value.size {
        return Rejected(CapacityTooSmall);
      }
      var k := FindDevByName(nvm + data + spares, name);
      if k < |nvm + data + spares| {
        return Rejected(AlreadyOccupied);
      }
      registry := registry[name.value := ArrayClass];
      spares := spares + [Slot(name, Normal)];
      if !env.pbrOk {
        return Rejected(RecordNotWritten);
      }
      var crashed := UpdatePbr(env);
      assert !crashed;
      var targets := ExtractByState(data, Fault);
      if |targets| > 0 && status.OnlineDegraded? {
        InvokeRebuild(targets, false, false, env);
      }
      return Success;
    }

    method RemoveSpare(name: Option<Ublock>, env: Env) returns (reply: Reply)
      requires Valid()
      modifies this
      ensures Valid()
      ensures Outcome(Model(), reply) == ArrayModel.RemoveSpare(old(Model()), name, env)
    {
      hide Inv, FindName, Table, RecordDevices;
      RemoveSpareKeeps(Model(), name, env);
      SlotsOkOf(Model());
      if !IsMounted(status) {
        return Rejected(OnlyWhileOnline);
      }
      var k := FindDevByName(nvm + data + spares, name);
      if k < |nvm| + |data| || k == |nvm + data + spares| {
        return Rejected(NameNotFound);
      }
      var j := k - |nvm| - |data|;
      if spares[j].ublock.Some? && spares[j].ublock.value in registry {
        registry := registry[spares[j].ublock.value := SystemClass];
      }
      spares := spares[..j] + spares[j + 1..];
      var crashed := UpdatePbr(env);
      assert !crashed;
      reply := if env.pbrOk then Success else Rejected(RecordNotWritten);
    }

    // ------------------------------------------------------------------ replace

    method ReplaceDevice(name: Option<Ublock>, env: Env) returns (reply: Reply)
      requires Valid()
      modifies this
      ensures !reply.Aborted? ==> Valid()
      ensures Outcome(Model(), reply) == ArrayModel.ReplaceDevice(old(Model()), name, env)
    {
      hide Inv, FindName, Indices, Table, RecordDevices, Combined;
      ghost var s := Model();
      ReplaceKeeps(s, name, env);
      HasNormal(spares);
      SparesReady(s);
      SlotsOkOf(s);
      var k := FindDevByName(nvm + data + spares, name);
      if k < |nvm| || k >= |nvm| + |data| {
        return Rejected(NameNotFound);
      }
      var i := k - |nvm|;
      if !status.OnlineNormal? {
        return Rejected(OnlyInNormalState);
      }
      if !data[i].state.Normal? {
        return Rejected(OnlyNormalDevice);
      }
      if !Tolerant(user) {
        return Rejected(RaidDoesNotSupportSpare);
      }
      var ready := ExtractByState(spares, Normal);
      if |ready| == 0 {
        return Rejected(NoAvailableSpare);
      }
      reply := StartQuickRebuild(i, env);
    }

    /** The part of ReplaceDevice that follows its checks. */
    method StartQuickRebuild(i: nat, env: Env) returns (reply: Reply)
      requires i < |data| && data[i].state.Normal? && SlotsOk(data)
      requires status.OnlineNormal? && Ready(spares) && spares != []
      modifies this
      ensures var s1 := SyncHealth(SetSlotState(old(Model()), i, Rebuild));
              if !RebuildGranted(s1.status, env) then reply.Aborted? && Model() == s1
              else
                var r := ArrayModel.SpareToData(Pool(s1.data, s1.spares), i);
                && r.Some? && reply.Success?
                && var s2 := ArrayModel.UpdatePbr(s1.(status := OnlineRebuild, data := r.value.0.data,
                                                      spares := r.value.0.spares), env);
                   Model() == s2.(jobs := s2.jobs + [Job([i], [r.value.1], false)])
    {
      hide Table, RecordDevices, Combined;
      data := data[i := data[i].(state := Rebuild)];
      UpdateRaidState();
      var granted := SetRebuild(env);
      if !granted {
        return Aborted;
      }
      assert spares[0].state.Normal?;
      var swapOut := SpareToData(i);
      var crashed := UpdatePbr(env);
      assert !crashed;
      jobs := jobs + [Job([i], [swapOut.value], false)];
      return Success;
    }

    // ------------------------------------------------------------------- detach

    /** The memory part of _DetachData. */
    method Unplug(i: nat)
      requires i < |data| && data[i].ublock.Some?
      modifies this
      ensures Model() == ArrayModel.Unplug(old(Model()), i)
    {
      hide Combined;
      data := data[i := data[i].(state := Fault)];
      var rs := Combined(meta, user, States(data));
      if rs.RaidFailure? || !status.OnlineRebuild? {
        UpdateRaidState();
      }
      RemoveDevice(data[i].ublock.value);
      data := data[i := Slot(None, Fault)];
    }

    method DetachData(i: nat, env: Env)
      requires Valid() && i < |data| && !data[i].state.Fault?
      modifies this
      ensures Valid()
      ensures Outcome(Model(), Success) == ArrayModel.DetachData(old(Model()), i, env)
    {
      hide Inv, Table, RecordDevices, ArrayModel.Unplug, SlotsOk;
      SlotHolds(Model(), i);
      UnplugKeeps(Model(), i);
      SlotsOkOf(ArrayModel.Unplug(Model(), i));
      DetachDataKeeps(Model(), i, env);
      var needStopRebuild := data[i].state.Rebuild? && status.OnlineRebuild?;
      Unplug(i);
      if IsMounted(status) {
        if !env.pbrOk {
          return;
        }
        var crashed := UpdatePbr(env);
        assert !crashed;
      }
      if needStopRebuild {
        jobs := StopJobs(jobs);
      } else if status.OnlineDegraded? {
        InvokeRebuild([i], false, false, env);
      }
    }

    /** IsRecoverable: `busy` means that the lock is taken. */
    method IsRecoverable(i: nat, u: Option<Ublock>, busy: bool, env: Env) returns (reply: Reply)
      requires Valid() && i < |data|
      modifies this
      ensures Valid()
      ensures Outcome(Model(), reply) == IoError(old(Model()), i, u, busy, env)
    {
      hide Inv, ArrayModel.DetachData;
      SlotHolds(Model(), i);
      if busy {
        return Retry;
      }
      if !IsMounted(status) {
        return IoFail;
      }
      if u.None? || data[i].ublock != u {
        return Success;
      }
      DetachData(i, env);
      reply := if Recoverable(status) then Success else IoFail;
    }

    /** DetachDevice of the device manager's removal event. */
    method DetachDevice(u: Ublock, busy: bool, env: Env) returns (reply: Reply)
      requires Valid()
      modifies this
      ensures Valid()
      ensures Outcome(Model(), reply) == DeviceDetached(old(Model()), u, busy, env)
    {
      hide Inv, FindName, ArrayModel.DetachData, Table, RecordDevices;
      ghost var s := Model();
      DeviceDetachedKeeps(s, u, busy, env);
      SlotsOkOf(s);
      if u !in registry {
        return Rejected(UnknownDevice);
      }
      var k := FindDevByName(nvm + data + spares, Some(u));
      if registry[u].SystemClass? || k == |nvm + data + spares| {
        RemoveDevice(u);
        return Success;
      }
      if k < |nvm| {
        return Rejected(NvmDetached);
      }
      if busy {
        return LockFailed;
      }
      if k < |nvm| + |data| {
        var i := k - |nvm|;
        if !data[i].state.Fault? {
          DetachData(i, env);
        }
        return Success;
      }
      RemoveSpareDevice(k - |nvm| - |data|, env);
      return Success;
    }

    /** _DetachSpare. */
    method RemoveSpareDevice(j: nat, env: Env)
      requires j < |spares| && !NullTarget(data)
      modifies this
      ensures Model() == DetachSpare(old(Model()), j, env)
    {
      hide Table, RecordDevices;
      if spares[j].ublock.None? {
        return;
      }
      var u := spares[j].ublock.value;
      if u in registry {
        registry := registry[u := SystemClass];
      }
      spares := spares[..j] + spares[j + 1..];
      RemoveDevice(u);
      if IsMounted(status) {
        var crashed := UpdatePbr(env);
        assert !crashed;
      }
    }

    // ------------------------------------------------------------------ rebuild

    /** Array::Rebuild, on request of the user: suspended targets come first. */
    method RequestRebuild(env: Env) returns (reply: Reply)
      requires Valid()
      modifies this
      ensures Valid() && !reply.Aborted?
      ensures Outcome(Model(), reply) == UserRebuild(old(Model()), env)
    {
      hide Inv, Indices;
      UserRebuildKeeps(Model(), env);
      var ready := ExtractByState(spares, Normal);
      if |ready| == 0 {
        return Rejected(NoAvailableSpare);
      }
      if !Tolerant(user) {
        return Rejected(RaidDoesNotSupportSpare);
      }
      if jobs != [] {
        return Rejected(RebuildInProgress);
      }
      if IsMountable(status) == TRUE {
        return Rejected(ArrayOffline);
      }
      if !status.OnlineDegraded? {
        return Rejected(ArrayIsNormal);
      }
      DegradedHasTarget(Model());
      var targets := ExtractByState(data, Rebuild);
      var isResume := true;
      if |targets| == 0 {
        targets := ExtractByState(data, Fault);
        isResume := false;
      }
      assert |targets| != 0;
      InvokeRebuild(targets, isResume, true, env);
      return Success;
    }

    /** TriggerRebuild: the targets that get no spare are erased while the loop runs. */
    method TriggerRebuild(requested: seq<nat>, env: Env) returns (retry: bool)
      requires Valid() && InRange(requested, |data|) && Distinct(requested)
      modifies this
      ensures Valid()
      ensures (Model(), retry) == ArrayModel.TriggerRebuild(old(Model()), requested, env)
    {
      hide Inv, Table, RecordDevices, Ready;
      ghost var s := Model();
      SparesReady(s);
      SlotsOkOf(s);
      TriggerKeeps(s, requested, env);
      var targets := requested;
      if |targets| == 0 {
        return false;
      }
      for k := 0 to |targets|
        invariant Model() == s && forall j :: 0 <= j < k ==> Unplugged(data[targets[j]])
      {
        if !data[targets[k]].state.Fault? || data[targets[k]].ublock.Some? {
          assert !Unplugged(s.data[targets[k]]);
          return true;
        }
      }
      var granted := SetRebuild(env);
      if !granted {
        return false;
      }
      FillKeepsSlots(Pool(data, spares), targets);
      targets := FillLoop(targets);
      hide Fill;
      if |targets| == 0 {
        SetRebuildDone(false);
        return false;
      }
      var crashed := UpdatePbr(env);
      assert !crashed;
      jobs := jobs + [Job(targets, [], false)];
      return false;
    }

    method FillLoop(requested: seq<nat>) returns (targets: seq<nat>)
      requires InRange(requested, |data|)
      modifies this`data, this`spares
      ensures (Pool(data, spares), targets) == Fill(Pool(old(data), old(spares)), requested)
    {
      hide Fill;
      targets := requested;
      var it := 0;
      assert requested[0..] == requested;
      while it < |targets|
        invariant it <= |targets| && |data| == |old(data)| && InRange(targets, |data|)
        invariant Fill(Pool(old(data), old(spares)), requested).0 == Fill(Pool(data, spares), targets[it..]).0
        invariant Fill(Pool(old(data), old(spares)), requested).1 == targets[..it] + Fill(Pool(data, spares), targets[it..]).1
        decreases |targets| - it
      {
        ghost var rest, head := targets[it..], targets[..it];
        FillTurn(Pool(data, spares), rest);
        var t := targets[it];
        var swapOut := SpareToData(t);
        if swapOut.Some? {
          data := data[t := data[t].(state := Rebuild)];
          it := it + 1;
          assert targets[it..] == rest[1..] && targets[..it] == head + [t];
        } else {
          targets := targets[..it] + targets[it + 1..];
          assert targets[it..] == rest[1..] && targets[..it] == head;
        }
      }
      assert targets[it..] == [] && targets[..it] == targets;
      FillNone(Pool(data, spares), targets[it..]);
      assert targets + [] == targets;
      assert Fill(Pool(old(data), old(spares)), requested).1 == targets;
    }

    method ResumeRebuild(targets: seq<nat>, env: Env)
      requires Valid() && InRange(targets, |data|)
      modifies this
      ensures Valid()
      ensures Model() == ArrayModel.ResumeRebuild(old(Model()), targets, env)
    {
      hide Inv;
      ResumeKeeps(Model(), targets, env);
      var granted := SetRebuild(env);
      if granted {
        jobs := jobs + [Job(targets, [], false)];
      }
    }

    /** _RebuildDone of job `k`; writing the record of a PASS crashes when a destination is unplugged. */
    method RebuildDone(k: nat, result: RebuildResult, env: Env) returns (reply: Reply)
      requires k < |jobs| && InRange(jobs[k].dsts, |data|)
      requires Valid()
      modifies this
      ensures reply == if result.Pass? && env.pbrOk && !old(Fresh(Model(), k)) then Aborted else Success
      ensures !reply.Aborted? ==> Model() == ArrayModel.RebuildDone(old(Model()), k, result, env)
      ensures Valid() <==> result.NotPass? || old(Fresh(Model(), k))
    {
      hide Inv, Table, RecordDevices, ArrayModel.Recheck, Fresh, Release, SetNormal, NullTarget;
      ghost var s := Model();
      RebuildDoneKeepsIff(s, k, result, env);
      SlotsOkOf(s);
      PassNullIff(s, k, result, env);
      PassSlots(s, k);
      var job := jobs[k];
      jobs := jobs[..k] + jobs[k + 1..];
      ReleaseSources(job.srcs);
      if result.Pass? {
        SetAllNormal(job.dsts);
        var crashed := UpdatePbr(env);
        if crashed {
          InconsistentSlots(Model());
          return Aborted;
        }
      }
      Recheck(env);
      return Success;
    }

    /** The end of _RebuildDone. */
    method Recheck(env: Env)
      modifies this`status, this`queue
      ensures Model() == ArrayModel.Recheck(old(Model()), env)
    {
      hide Combined, Indices;
      UpdateRaidState();
      var targets := ExtractByState(data, Fault);
      if |targets| > 0 && status.OnlineDegraded? {
        InvokeRebuild(targets, false, false, env);
      }
    }

    /** Gives the block devices a quick rebuild swapped out back to the system. */
    method ReleaseSources(srcs: seq<Slot>)
      modifies this`registry
      ensures registry == Release(old(registry), srcs)
    {
      for j := 0 to |srcs|
        invariant Release(old(registry), srcs) == Release(registry, srcs[j..])
      {
        assert srcs[j..][1..] == srcs[j + 1..];
        if srcs[j].ublock.Some? && srcs[j].ublock.value in registry {
          registry := registry[srcs[j].ublock.value := SystemClass];
        }
      }
    }

    method SetAllNormal(dsts: seq<nat>)
      requires InRange(dsts, |data|)
      modifies this`data
      ensures data == SetNormal(old(data), dsts)
    {
      for j := 0 to |dsts|
        invariant |data| == |old(data)| && SetNormal(old(data), dsts) == SetNormal(data, dsts[j..])
      {
        assert dsts[j..][1..] == dsts[j + 1..];
        data := data[dsts[j] := data[dsts[j]].(state := Normal)];
      }
    }

    /** The first part of MountDone: suspended rebuilds come before new ones. */
    method Requeue(env: Env)
      modifies this`queue
      ensures Model() == ArrayModel.Requeue(old(Model()), env)
    {
      hide Indices;
      var suspended := ExtractByState(data, Rebuild);
      if |suspended| > 0 && status.OnlineDegraded? {
        InvokeRebuild(suspended, true, false, env);
      } else {
        var targets := ExtractByState(data, Fault);
        if |targets| > 0 && status.OnlineDegraded? {
          InvokeRebuild(targets, false, false, env);
        }
      }
    }

    method MountDone(env: Env) returns (reply: Reply)
      requires Valid()
      modifies this
      ensures Valid()
      ensures Outcome(Model(), reply) == ArrayModel.MountDone(old(Model()), env)
    {
      hide Inv, Table, RecordDevices, ArrayModel.Requeue, NullTarget;
      MountDoneKeeps(Model(), env);
      SlotsOkOf(Model());
      Requeue(env);
      var crashed := UpdatePbr(env);
      assert !crashed;
      if !env.pbrOk {
        return Aborted;
      }
      mountDone := true;
      return Success;
    }
  }
}
