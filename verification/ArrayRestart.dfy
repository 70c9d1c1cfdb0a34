/** Loading an array from a boot record, and what the records promise about a restart. */
module ArrayRestart {
  import opened Options
  import opened Raid
  import opened ArrayModel
  import opened ArrayInvariants
  import opened ArraySteps
  import opened ArrayRuns
  import opened ArrayRecords

  const MINIMUM_SSD_SIZE: nat := 20 * 1024 * 1024 * 1024

  // ------------------------------------------------------------------------- loading

  /** DeviceBuilder::Load for one entry: a FAULT device gets no block device, any other the one with its serial. */
  function LoadEntry(ade: Ade, registry: map<Ublock, DeviceClass>): Slot {
    Slot(if !ade.state.Fault? && ade.serial.Some? && ade.serial.value in registry then ade.serial else None, ade.state)
  }

  function Load(record: Record, registry: map<Ublock, DeviceClass>): seq<Slot> {
    seq(|record|, k requires 0 <= k < |record| => LoadEntry(record[k], registry))
  }

  /** The entries of one kind, in order. */
  function OfKind(record: Record, kind: DeviceKind): Record {
    if record == [] then []
    else (if record[0].kind == kind then [record[0]] else []) + OfKind(record[1..], kind)
  }

  function LoadKind(record: Record, kind: DeviceKind, registry: map<Ublock, DeviceClass>): seq<Slot> {
    Load(OfKind(record, kind), registry)
  }

  /** The device of the entry is present in the system. */
  predicate Present(ade: Ade, registry: map<Ublock, DeviceClass>) {
    ade.serial.Some? && ade.serial.value in registry
  }

  // ---------------------------------------------------------------------- inspection

  datatype Inspection = Accepted | NvmMissing | NoDataDevice | DataTooSmall | SpareTooSmall

  /** ArrayDeviceApi::ImportInspection. */
  function Inspect(nvm: seq<Slot>, data: seq<Slot>, spares: seq<Slot>): Inspection {
    if nvm == [] || nvm[0].ublock.None? then NvmMissing
    else if Indices(data, Normal) == [] then NoDataDevice
    else if MinimumCapacity(data) < MINIMUM_SSD_SIZE then DataTooSmall
    else if Indices(spares, Normal) != [] && MinimumCapacity(spares) < MinimumCapacity(data) then SpareTooSmall
    else Accepted
  }

  function InspectRecord(record: Record, registry: map<Ublock, DeviceClass>): Inspection {
    Inspect(LoadKind(record, NvmKind, registry), LoadKind(record, DataKind, registry),
            LoadKind(record, SpareKind, registry))
  }

  ghost predicate SomeNormal(slots: seq<Slot>) {
    exists i :: 0 <= i < |slots| && slots[i].state.Normal?
  }

  /** Every NORMAL device has at least `size` bytes; a missing one has none. */
  ghost predicate AtLeast(slots: seq<Slot>, size: nat) {
    forall i :: 0 <= i < |slots| && slots[i].state.Normal? ==> SizeOf(slots[i]) >= size
  }

  /** A NORMAL data device is no larger than `size`. */
  ghost predicate Fits(data: seq<Slot>, size: nat) {
    exists i :: 0 <= i < |data| && data[i].state.Normal? && SizeOf(data[i]) <= size
  }

  lemma MinimumIff(slots: seq<Slot>, size: nat)
    requires SomeNormal(slots)
    ensures MinimumCapacity(slots) >= size <==> AtLeast(slots, size)
    ensures MinimumCapacity(slots) <= size <==> Fits(slots, size)
  {
    hide SmallestNormal;
    var m := SmallestNormal(slots).value;
    var i :| 0 <= i < |slots| && slots[i].state.Normal? && SizeOf(slots[i]) == m;
  }

  lemma SparesFitIff(data: seq<Slot>, spares: seq<Slot>)
    requires SomeNormal(data) && SomeNormal(spares)
    ensures MinimumCapacity(spares) >= MinimumCapacity(data) <==>
            forall k :: 0 <= k < |spares| && spares[k].state.Normal? ==> Fits(data, SizeOf(spares[k]))
  {
    hide MinimumCapacity, Fits, SomeNormal;
    MinimumIff(spares, MinimumCapacity(data));
    forall k | 0 <= k < |spares| && spares[k].state.Normal?
      ensures SizeOf(spares[k]) >= MinimumCapacity(data) <==> Fits(data, SizeOf(spares[k]))
    {
      MinimumIff(data, SizeOf(spares[k]));
    }
  }

  /**
   A table is accepted exactly when its first NVM is there, some data device is NORMAL, no NORMAL data device is
   smaller than the minimum, and every NORMAL spare is at least as large as some NORMAL data device.
   */
  lemma InspectIff(nvm: seq<Slot>, data: seq<Slot>, spares: seq<Slot>)
    ensures Inspect(nvm, data, spares).Accepted? <==>
            && nvm != [] && nvm[0].ublock.Some?
            && SomeNormal(data) && AtLeast(data, MINIMUM_SSD_SIZE)
            && (forall k :: 0 <= k < |spares| && spares[k].state.Normal? ==> Fits(data, SizeOf(spares[k])))
  {
    hide Indices, MinimumCapacity, Fits, AtLeast;
    HasNormal(data);
    HasNormal(spares);
    if SomeNormal(data) {
      MinimumIff(data, MINIMUM_SSD_SIZE);
      if SomeNormal(spares) {
        SparesFitIff(data, spares);
      }
    }
  }

  /** A missing device has size 0, so the inspection sees every missing device that should be NORMAL. */
  lemma AcceptedPresent(nvm: seq<Slot>, data: seq<Slot>, spares: seq<Slot>)
    requires Inspect(nvm, data, spares).Accepted?
    ensures forall i :: 0 <= i < |data| && data[i].state.Normal? ==> data[i].ublock.Some?
    ensures forall k :: 0 <= k < |spares| && spares[k].state.Normal? ==> spares[k].ublock.Some?
  {
    hide Inspect;
    InspectIff(nvm, data, spares);
  }

  /**
   In an accepted table a data slot is without a block device exactly when it is FAULT, if and only if every device
   that was in REBUILD is present: the inspection does not look at those.
   */
  lemma AcceptedSlotsIff(record: Record, registry: map<Ublock, DeviceClass>)
    requires InspectRecord(record, registry).Accepted?
    ensures var entries := OfKind(record, DataKind);
            && (SlotsOk(Load(entries, registry)) <==>
                forall k :: 0 <= k < |entries| && entries[k].state.Rebuild? ==> Present(entries[k], registry))
            && (NullTarget(Load(entries, registry)) <==> !SlotsOk(Load(entries, registry)))
  {
    hide Inspect, OfKind;
    var entries := OfKind(record, DataKind);
    var data := Load(entries, registry);
    AcceptedPresent(LoadKind(record, NvmKind, registry), data, LoadKind(record, SpareKind, registry));
    assert forall k :: 0 <= k < |entries| ==> data[k] == LoadEntry(entries[k], registry);
    if k :| 0 <= k < |entries| && entries[k].state.Rebuild? && !Present(entries[k], registry) {
      assert data[k].ublock.None?;
    }
  }

  // ------------------------------------------------------------------------- import

  function SetLoad(rs: RaidState): ArrayState {
    if rs.RaidNormal? then ExistNormal else if rs.RaidDegraded? then ExistDegraded else Broken
  }

  /** ArrayDeviceList::Import: the devices of the slots become devices of an array. */
  function Claim(registry: map<Ublock, DeviceClass>, slots: seq<Slot>): map<Ublock, DeviceClass> {
    if slots == [] then registry else Claim(SetClass(registry, slots[0].ublock, ArrayClass), slots[1..])
  }

  lemma {:induction false} ClaimSpec(registry: map<Ublock, DeviceClass>, slots: seq<Slot>)
    ensures Claim(registry, slots).Keys == registry.Keys
    ensures forall u :: u in registry ==> Claim(registry, slots)[u] == if u in Bag(slots) then ArrayClass else registry[u]
  {
    if slots != [] {
      ClaimSpec(SetClass(registry, slots[0].ublock, ArrayClass), slots[1..]);
    }
  }

  /** Array::Import of a loaded table after a start of the system: `pbr` is what the disks hold. */
  function Imported(meta: RaidType, user: RaidType, record: Record, registry: map<Ublock, DeviceClass>,
                    pbr: map<Ublock, Record>): State
  {
    var nvm := LoadKind(record, NvmKind, registry);
    var data := LoadKind(record, DataKind, registry);
    var spares := LoadKind(record, SpareKind, registry);
    State(meta, user, nvm, data, spares, SetLoad(Combined(meta, user, States(data))), [], [],
          Claim(registry, nvm + data + spares), {}, pbr, false)
  }

  /** The entry alone, if it is of the kind. */
  ghost function OneOfKind(ade: Ade, kind: DeviceKind): Record {
    if ade.kind == kind then [ade] else []
  }

  lemma OfKindCons(record: Record, kind: DeviceKind)
    requires record != []
    ensures OfKind(record, kind) == OneOfKind(record[0], kind) + OfKind(record[1..], kind)
  {
  }

  lemma {:induction false} OfKindAppend(a: Record, b: Record, kind: DeviceKind)
    ensures OfKind(a + b, kind) == OfKind(a, kind) + OfKind(b, kind)
    decreases a, 1
  {
    if a == [] {
      assert a + b == b;
    } else {
      OfKindAppendBy(a, b, kind);
    }
  }

  lemma {:induction false} OfKindAppendBy(a: Record, b: Record, kind: DeviceKind)
    requires a != []
    ensures OfKind(a + b, kind) == OfKind(a, kind) + OfKind(b, kind)
    decreases a, 0
  {
    hide OfKind, OneOfKind;
    OfKindAppend(a[1..], b, kind);
    assert (a + b)[1..] == a[1..] + b && (a + b)[0] == a[0];
    OfKindCons(a + b, kind);
    OfKindCons(a, kind);
    var h, x, y := OneOfKind(a[0], kind), OfKind(a[1..], kind), OfKind(b, kind);
    assert h + (x + y) == (h + x) + y;
  }

  lemma {:induction false} OfKindAll(record: Record, kind: DeviceKind)
    requires forall k :: 0 <= k < |record| ==> record[k].kind == kind
    ensures OfKind(record, kind) == record
  {
    if record != [] {
      OfKindAll(record[1..], kind);
    }
  }

  lemma {:induction false} OfKindNone(record: Record, kind: DeviceKind)
    requires forall k :: 0 <= k < |record| ==> record[k].kind != kind
    ensures OfKind(record, kind) == []
  {
    if record != [] {
      OfKindNone(record[1..], kind);
    }
  }

  /** The entries of a table written by an array. */
  lemma OfKindTable(s: State)
    ensures OfKind(Table(s), NvmKind) == Entries(s.nvm, NvmKind)
    ensures OfKind(Table(s), DataKind) == Entries(s.data, DataKind)
    ensures OfKind(Table(s), SpareKind) == Entries(s.spares, SpareKind)
  {
    hide OfKind;
    var n, d, p := Entries(s.nvm, NvmKind), Entries(s.data, DataKind), Entries(s.spares, SpareKind);
    OfKindAppend(n + d, p, NvmKind);
    OfKindAppend(n + d, p, DataKind);
    OfKindAppend(n + d, p, SpareKind);
    OfKindAppend(n, d, NvmKind);
    OfKindAppend(n, d, DataKind);
    OfKindAppend(n, d, SpareKind);
    OfKindAll(n, NvmKind);
    OfKindAll(d, DataKind);
    OfKindAll(p, SpareKind);
    OfKindNone(n, DataKind);
    OfKindNone(n, SpareKind);
    OfKindNone(d, NvmKind);
    OfKindNone(d, SpareKind);
    OfKindNone(p, NvmKind);
    OfKindNone(p, DataKind);
  }

  /** The device of the slot is present in the system. */
  predicate Held(slot: Slot, registry: map<Ublock, DeviceClass>) {
    slot.ublock.Some? && slot.ublock.value in registry
  }

  lemma LoadPush(slots: seq<Slot>, kind: DeviceKind, registry: map<Ublock, DeviceClass>)
    requires slots != []
    ensures var n := |slots| - 1;
            var last := LoadEntry(Ade(0, slots[n].ublock, slots[n].state, kind), registry);
            && Load(Entries(slots, kind), registry) == Load(Entries(slots[..n], kind), registry) + [last]
            && Content(last) <= Content(slots[n]) && forall u :: u in Content(last) ==> u in registry
  {
  }

  lemma AddLeq(a: multiset<Ublock>, b: multiset<Ublock>, c: multiset<Ublock>, d: multiset<Ublock>)
    requires a <= b && c <= d
    ensures a + c <= b + d
  {
  }

  /** Loading the entries of some slots takes devices away, and brings none in. */
  lemma {:induction false} LoadShrinks(slots: seq<Slot>, kind: DeviceKind, registry: map<Ublock, DeviceClass>)
    ensures Bag(Load(Entries(slots, kind), registry)) <= Bag(slots)
    ensures forall u :: u in Bag(Load(Entries(slots, kind), registry)) ==> u in registry
    decreases slots, 1
  {
    if slots == [] {
      assert Load(Entries(slots, kind), registry) == [];
    } else {
      LoadShrinksBy(slots, kind, registry);
    }
  }

  lemma {:induction false} LoadShrinksBy(slots: seq<Slot>, kind: DeviceKind, registry: map<Ublock, DeviceClass>)
    requires slots != []
    ensures Bag(Load(Entries(slots, kind), registry)) <= Bag(slots)
    ensures forall u :: u in Bag(Load(Entries(slots, kind), registry)) ==> u in registry
    decreases slots, 0
  {
    hide Bag, Load, Entries, LoadEntry;
    var n := |slots| - 1;
    var last := LoadEntry(Ade(0, slots[n].ublock, slots[n].state, kind), registry);
    var front := Load(Entries(slots[..n], kind), registry);
    LoadShrinks(slots[..n], kind, registry);
    LoadPush(slots, kind, registry);
    assert slots == slots[..n] + [slots[n]];
    BagPush(slots[..n], slots[n]);
    BagPush(front, last);
    AddLeq(Bag(front), Bag(slots[..n]), Content(last), Content(slots[n]));
  }

  /** The slots of an array that is imported from the table of `t`. */
  lemma ImportedSlots(t: State, registry: map<Ublock, DeviceClass>, pbr: map<Ublock, Record>)
    ensures var s := Imported(t.meta, t.user, Table(t), registry, pbr);
            && s.nvm == Load(Entries(t.nvm, NvmKind), registry)
            && s.data == Load(Entries(t.data, DataKind), registry)
            && s.spares == Load(Entries(t.spares, SpareKind), registry)
  {
    hide Table, Load, Claim, OfKind;
    OfKindTable(t);
  }

  lemma ImportedOwns(t: State, registry: map<Ublock, DeviceClass>, pbr: map<Ublock, Record>)
    requires forall u :: u in registry ==> registry[u].SystemClass?
    requires Inv(t)
    ensures var s := Imported(t.meta, t.user, Table(t), registry, pbr); Exclusive(Owned(s)) && Accounted(s)
  {
    hide Inv, Table, Load, Claim, Bag, OfKind;
    var s := Imported(t.meta, t.user, Table(t), registry, pbr);
    ImportedSlots(t, registry, pbr);
    LoadShrinks(t.nvm, NvmKind, registry);
    LoadShrinks(t.data, DataKind, registry);
    LoadShrinks(t.spares, SpareKind, registry);
    ClaimSpec(registry, s.nvm + s.data + s.spares);
    BagAppend(s.nvm + s.data, s.spares);
    BagAppend(s.nvm, s.data);
    OwnedOnce(t);
    assert Owned(s) == SlotBag(s);
    forall u: Ublock ensures Owned(s)[u] <= 1 {
      assert Bag(s.nvm)[u] <= Bag(t.nvm)[u] && Bag(s.data)[u] <= Bag(t.data)[u] && Bag(s.spares)[u] <= Bag(t.spares)[u];
      assert SlotBag(t)[u] <= 1;
    }
  }

  lemma OwnedOnce(t: State)
    requires Inv(t)
    ensures forall u :: SlotBag(t)[u] <= 1
  {
    hide Shape, SlotsOk, Accounted, Synced, SingleJob, Bag, JobBag, SlotBag;
    forall u: Ublock ensures SlotBag(t)[u] <= 1 {
      assert SlotBag(t)[u] <= Owned(t)[u];
    }
  }

  lemma LoadStates(slots: seq<Slot>, kind: DeviceKind, registry: map<Ublock, DeviceClass>)
    ensures States(Load(Entries(slots, kind), registry)) == States(slots)
  {
  }

  lemma LoadReadyIff(slots: seq<Slot>, kind: DeviceKind, registry: map<Ublock, DeviceClass>)
    requires Ready(slots)
    ensures Ready(Load(Entries(slots, kind), registry)) <==> forall i :: 0 <= i < |slots| ==> Held(slots[i], registry)
  {
    var loaded := Load(Entries(slots, kind), registry);
    assert forall i :: 0 <= i < |slots| ==> loaded[i].state.Normal? && (loaded[i].ublock.Some? <==> Held(slots[i], registry));
  }

  lemma ImportedShapeIff(t: State, registry: map<Ublock, DeviceClass>, pbr: map<Ublock, Record>)
    requires InspectRecord(Table(t), registry).Accepted? && Shape(t)
    ensures Shape(Imported(t.meta, t.user, Table(t), registry, pbr)) <==>
            forall i :: 0 <= i < |t.nvm| ==> Held(t.nvm[i], registry)
  {
    hide Table, Claim, Inspect, OfKind;
    var s := Imported(t.meta, t.user, Table(t), registry, pbr);
    ImportedSlots(t, registry, pbr);
    LoadReadyIff(t.nvm, NvmKind, registry);
    AcceptedPresent(s.nvm, s.data, s.spares);
  }

  lemma ImportedSlotsIff(t: State, registry: map<Ublock, DeviceClass>, pbr: map<Ublock, Record>)
    requires InspectRecord(Table(t), registry).Accepted?
    ensures var s := Imported(t.meta, t.user, Table(t), registry, pbr);
            && (SlotsOk(s.data) <==> forall i :: 0 <= i < |t.data| && t.data[i].state.Rebuild? ==> Held(t.data[i], registry))
            && (NullTarget(s.data) <==> !SlotsOk(s.data))
  {
    hide Table, Load, Claim, Inspect, OfKind, SlotsOk, NullTarget;
    OfKindTable(t);
    AcceptedSlotsIff(Table(t), registry);
    var entries := Entries(t.data, DataKind);
    assert forall k :: 0 <= k < |entries| ==> (Present(entries[k], registry) <==> Held(t.data[k], registry))
                                              && entries[k].state == t.data[k].state;
  }

  lemma ImportedStatus(meta: RaidType, user: RaidType, record: Record, registry: map<Ublock, DeviceClass>,
                       pbr: map<Ublock, Record>)
    ensures var s := Imported(meta, user, record, registry, pbr); Synced(s) && SingleJob(s)
  {
    hide Load, Claim, OfKind, Combined;
  }

  /**
   Starting again from the table of any array state: with whatever devices are there, an array that passes the
   inspection is consistent if and only if every NVM and every device that was being rebuilt is there.
   */
  lemma RestartInvIff(t: State, registry: map<Ublock, DeviceClass>, pbr: map<Ublock, Record>)
    requires InspectRecord(Table(t), registry).Accepted?
    requires forall u :: u in registry ==> registry[u].SystemClass?
    requires Inv(t)
    ensures Inv(Imported(t.meta, t.user, Table(t), registry, pbr)) <==>
            && (forall i :: 0 <= i < |t.nvm| ==> Held(t.nvm[i], registry))
            && (forall i :: 0 <= i < |t.data| && t.data[i].state.Rebuild? ==> Held(t.data[i], registry))
  {
    hide Shape, SlotsOk, Exclusive, Accounted, Synced, SingleJob, Owned, Imported, Table, InspectRecord, Held;
    ImportedShapeIff(t, registry, pbr);
    ImportedSlotsIff(t, registry, pbr);
    ImportedOwns(t, registry, pbr);
    ImportedStatus(t.meta, t.user, Table(t), registry, pbr);
  }

  /**
   The failing family: a device that was being rebuilt is missing at the start. The inspection lets the array pass,
   it can be mounted, and the mount ends in a null dereference when it writes the record.
   */
  lemma MissingRebuildCrashes(t: State, registry: map<Ublock, DeviceClass>, pbr: map<Ublock, Record>, i: nat, env: Env)
    requires InspectRecord(Table(t), registry).Accepted? && env.stateOk
    requires i < |t.data| && t.data[i].state.Rebuild? && !Held(t.data[i], registry) && !Health(t).RaidFailure?
    ensures var s := Imported(t.meta, t.user, Table(t), registry, pbr);
            && |s.data| == |t.data| && s.data[i] == Slot(None, Rebuild)
            && Init(s, env).reply.Success? && MountDone(Init(s, env).s, env).reply.Aborted?
  {
    hide Combined, Table, Claim, Inspect, OfKind, Held, SlotsOk, NullTarget, Indices;
    var s := Imported(t.meta, t.user, Table(t), registry, pbr);
    ImportedSlots(t, registry, pbr);
    LoadStates(t.data, DataKind, registry);
    ImportedSlotsIff(t, registry, pbr);
    assert s.data[i] == LoadEntry(Entries(t.data, DataKind)[i], registry);
    MissingEntry(t.data, i, registry);
  }

  lemma MissingEntry(slots: seq<Slot>, i: nat, registry: map<Ublock, DeviceClass>)
    requires i < |slots| && slots[i].state.Rebuild? && !Held(slots[i], registry)
    ensures LoadEntry(Entries(slots, DataKind)[i], registry) == Slot(None, Rebuild)
  {
  }

  // --------------------------------------------------------------- records and restart

  lemma LoadEntries(slots: seq<Slot>, kind: DeviceKind, registry: map<Ublock, DeviceClass>)
    requires SlotsOk(slots)
    requires forall i :: 0 <= i < |slots| && slots[i].ublock.Some? ==> slots[i].ublock.value in registry
    ensures Load(Entries(slots, kind), registry) == slots
  {
  }

  lemma LoadAppend(a: Record, b: Record, registry: map<Ublock, DeviceClass>)
    ensures Load(a + b, registry) == Load(a, registry) + Load(b, registry)
  {
  }

  lemma HeldRegistered(s: State, slots: seq<Slot>, i: nat)
    requires slots == s.nvm || slots == s.data || slots == s.spares
    requires i < |slots| && slots[i].ublock.Some?
    requires Inv(s)
    ensures slots[i].ublock.value in s.registry
  {
    hide Shape, SlotsOk, Exclusive, Synced, SingleJob, JobBag, Bag;
    BagMember(slots, slots[i].ublock.value);
  }

  /** Loading the table of memory gives the devices of memory back. */
  lemma LoadTable(s: State)
    requires Inv(s)
    ensures Load(Table(s), s.registry) == s.nvm + s.data + s.spares
  {
    hide Exclusive, Accounted, Synced, SingleJob, Load;
    forall i | 0 <= i < |s.nvm| && s.nvm[i].ublock.Some? ensures s.nvm[i].ublock.value in s.registry {
      HeldRegistered(s, s.nvm, i);
    }
    forall i | 0 <= i < |s.data| && s.data[i].ublock.Some? ensures s.data[i].ublock.value in s.registry {
      HeldRegistered(s, s.data, i);
    }
    forall i | 0 <= i < |s.spares| && s.spares[i].ublock.Some? ensures s.spares[i].ublock.value in s.registry {
      HeldRegistered(s, s.spares, i);
    }
    LoadEntries(s.nvm, NvmKind, s.registry);
    LoadEntries(s.data, DataKind, s.registry);
    LoadEntries(s.spares, SpareKind, s.registry);
    LoadAppend(Entries(s.nvm, NvmKind) + Entries(s.data, DataKind), Entries(s.spares, SpareKind), s.registry);
    LoadAppend(Entries(s.nvm, NvmKind), Entries(s.data, DataKind), s.registry);
  }

  /**
   Restart: at any point of any run in which records can be written, while the array is mounted, loading the boot
   record of any data device that is not FAULT rebuilds the device table of memory, device by device.
   */
  lemma Restart(s: State, events: seq<Event>, i: nat)
    requires Run(s, events) && RecordsWritten(events) && RecordInv(s)
    requires var t := Final(s, events);
             t.mountDone && IsMounted(t.status) && i < |t.data| && !t.data[i].state.Fault?
    requires Inv(s)
    ensures var t := Final(s, events);
            && t.data[i].ublock.Some? && t.data[i].ublock.value in t.pbr
            && Load(t.pbr[t.data[i].ublock.value], t.registry) == t.nvm + t.data + t.spares
  {
    hide Inv, Run, Final, Table, Load;
    RunKeeps(s, events);
    RunRecords(s, events);
    SlotHolds(Final(s, events), i);
    LoadTable(Final(s, events));
  }

  /**
   Restart and import: at any point of any run in which records can be written, while the array is mounted, importing
   the boot record of any live data device after a start of the system gives a consistent array if and only if every
   NVM and every device that was being rebuilt is there, provided that the table passes the inspection.
   */
  lemma RestartImportIff(s: State, events: seq<Event>, i: nat, registry: map<Ublock, DeviceClass>)
    requires Run(s, events) && RecordsWritten(events) && RecordInv(s)
    requires var t := Final(s, events);
             && t.mountDone && IsMounted(t.status) && i < |t.data| && !t.data[i].state.Fault?
             && InspectRecord(Table(t), registry).Accepted?
    requires forall u :: u in registry ==> registry[u].SystemClass?
    requires Inv(s)
    ensures var t := Final(s, events);
            && t.data[i].ublock.Some? && t.data[i].ublock.value in t.pbr
            && (Inv(Imported(t.meta, t.user, t.pbr[t.data[i].ublock.value], registry, t.pbr)) <==>
                && (forall k :: 0 <= k < |t.nvm| ==> Held(t.nvm[k], registry))
                && (forall k :: 0 <= k < |t.data| && t.data[k].state.Rebuild? ==> Held(t.data[k], registry)))
  {
    hide Inv, Run, Final, Table, InspectRecord, Imported, Held;
    RunKeeps(s, events);
    RunRecords(s, events);
    var t := Final(s, events);
    SlotHolds(t, i);
    RestartInvIff(t, registry, t.pbr);
  }

  /** With all its devices there, an array passes the inspection exactly when its own sizes do. */
  lemma RestartAcceptedIff(t: State)
    requires Inv(t)
    ensures InspectRecord(Table(t), t.registry) == Inspect(t.nvm, t.data, t.spares)
  {
    hide Inv, Table, Inspect, OfKind;
    OfKindTable(t);
    SlotsOkOf(t);
    forall i | 0 <= i < |t.nvm| && t.nvm[i].ublock.Some? ensures t.nvm[i].ublock.value in t.registry {
      HeldRegistered(t, t.nvm, i);
    }
    forall i | 0 <= i < |t.data| && t.data[i].ublock.Some? ensures t.data[i].ublock.value in t.registry {
      HeldRegistered(t, t.data, i);
    }
    forall i | 0 <= i < |t.spares| && t.spares[i].ublock.Some? ensures t.spares[i].ublock.value in t.registry {
      HeldRegistered(t, t.spares, i);
    }
    ReadySlots(t);
    LoadEntries(t.nvm, NvmKind, t.registry);
    LoadEntries(t.data, DataKind, t.registry);
    LoadEntries(t.spares, SpareKind, t.registry);
  }

  lemma ReadySlots(t: State)
    requires Inv(t)
    ensures SlotsOk(t.nvm) && SlotsOk(t.spares)
  {
    hide Exclusive, Accounted, Synced, SingleJob;
  }

  /** A loaded device keeps its state; one that was FAULT gets no block device even if it is there again. */
  lemma LoadAt(record: Record, registry: map<Ublock, DeviceClass>, k: nat)
    requires k < |record|
    ensures var slot := Load(record, registry)[k];
            && slot.state == record[k].state
            && (slot.ublock.Some? <==> !record[k].state.Fault? && Present(record[k], registry))
            && (slot.ublock.Some? ==> slot.ublock == record[k].serial)
  {
  }
}
