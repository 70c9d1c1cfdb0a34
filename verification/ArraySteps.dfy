/** Every step of the array keeps the invariant. */
module ArraySteps {
  import opened Options
  import opened Raid
  import opened ArrayModel
  import opened ArrayInvariants

  // ------------------------------------------------------ ownership arithmetic

  /** The array takes a free device. */
  lemma Acquire(s: State, s': State, u: Ublock)
    requires Exclusive(Owned(s)) && Accounted(s)
    requires u in s.registry && s.registry[u].SystemClass?
    requires SlotBag(s') == SlotBag(s) + multiset{u} && s'.jobs == s.jobs
    requires s'.registry == s.registry[u := ArrayClass] && s'.gone == s.gone
    ensures Exclusive(Owned(s')) && Accounted(s')
  {
    hide SlotBag, JobBag;
    assert Owned(s)[u] == 0;
    assert Owned(s') == Owned(s) + multiset{u};
  }

  /** A slot gives its device back to the system. */
  lemma GiveBack(s: State, s': State, u: Ublock)
    requires Exclusive(Owned(s)) && Accounted(s)
    requires SlotBag(s') + multiset{u} == SlotBag(s) && s'.jobs == s.jobs
    requires s'.registry == s.registry[u := SystemClass] && s'.gone == s.gone
    ensures Exclusive(Owned(s')) && Accounted(s')
  {
    hide SlotBag, JobBag;
    assert u in SlotBag(s);
    assert Owned(s') + multiset{u} == Owned(s);
    forall v: Ublock ensures Owned(s')[v] == if v == u then 0 else Owned(s)[v] {
      assert (Owned(s') + multiset{u})[v] == Owned(s)[v];
    }
    forall v | v in SlotBag(s') ensures v in s.registry {
      assert (SlotBag(s') + multiset{u})[v] == SlotBag(s)[v];
    }
  }

  /** The device of a slot is removed from the system. */
  lemma Lose(s: State, s': State, u: Ublock)
    requires Exclusive(Owned(s)) && Accounted(s)
    requires SlotBag(s') + multiset{u} == SlotBag(s) && s'.jobs == s.jobs
    requires s'.registry == s.registry - {u} && s'.gone == s.gone + {u}
    ensures Exclusive(Owned(s')) && Accounted(s')
  {
    hide SlotBag, JobBag;
    assert u in SlotBag(s);
    assert Owned(s') + multiset{u} == Owned(s);
    forall v: Ublock ensures Owned(s')[v] == if v == u then 0 else Owned(s)[v] {
      assert (Owned(s') + multiset{u})[v] == Owned(s)[v];
    }
    forall v | v in SlotBag(s') ensures v in s.registry && v != u {
      assert (SlotBag(s') + multiset{u})[v] == SlotBag(s)[v];
    }
  }

  /** The registry matters to the accounting only. */
  lemma RegistryFrame(s: State, registry: map<Ublock, DeviceClass>, gone: set<Ublock>)
    ensures var s' := s.(registry := registry, gone := gone);
            && SlotBag(s') == SlotBag(s)
            && Owned(s') == Owned(s)
            && (Inv(s) && Accounted(s') ==> Inv(s'))
  {
    hide Accounted, Health;
    assert Health(s) == Health(s.(registry := registry, gone := gone)) by { HealthFrame(s, registry, gone); }
  }

  lemma HealthFrame(s: State, registry: map<Ublock, DeviceClass>, gone: set<Ublock>)
    ensures Health(s) == Health(s.(registry := registry, gone := gone))
  {
    hide Combined;
  }

  /** A device no slot holds is removed from the system. */
  lemma Vanish(s: State, u: Ublock)
    requires Inv(s) && u !in SlotBag(s)
    ensures Inv(RemoveDevice(s, u))
  {
    hide Shape, SlotsOk, Exclusive, Synced, SingleJob, SlotBag, Owned, JobBag;
    RegistryFrame(s, s.registry - {u}, s.gone + {u});
  }

  lemma ReadyWithout(slots: seq<Slot>, k: nat)
    requires Ready(slots) && k < |slots|
    ensures Ready(Without(slots, k))
  {
  }

  // ---------------------------------------------------------- spare requests

  /** A free device joins the spares. */
  ghost function Join(s: State, u: Ublock): State {
    s.(spares := s.spares + [Slot(Some(u), Normal)], registry := s.registry[u := ArrayClass])
  }

  lemma JoinShape(s: State, u: Ublock)
    requires Shape(s) && Synced(s) && SingleJob(s)
    ensures Shape(Join(s, u)) && Synced(Join(s, u)) && SingleJob(Join(s, u))
  {
  }

  lemma JoinKeeps(s: State, u: Ublock)
    requires Inv(s) && u in s.registry && s.registry[u].SystemClass?
    ensures Inv(Join(s, u))
  {
    hide Shape, SlotsOk, Exclusive, Accounted, Synced, SingleJob;
    BagPush(s.spares, Slot(Some(u), Normal));
    assert SlotBag(Join(s, u)) == SlotBag(s) + multiset{u};
    Acquire(s, Join(s, u), u);
    JoinShape(s, u);
  }

  lemma AddSpareKeeps(s: State, name: Option<Ublock>, env: Env)
    requires Inv(s)
    ensures Inv(AddSpare(s, name, env).s)
  {
    hide Inv;
    if AddSpare(s, name, env).s != s {
      var u := name.value;
      JoinKeeps(s, u);
      var s1 := s.(spares := s.spares + [Slot(name, Normal)], registry := s.registry[u := ArrayClass]);
      PbrKeeps(s1, env);
      InvokeKeeps(UpdatePbr(s1, env), Indices(s.data, Fault), false, false, env);
    }
  }

  lemma DropSpareSplit(s: State, k: nat)
    requires k < |s.spares|
    ensures SlotBag(DropSpare(s, k)) + Content(s.spares[k]) == SlotBag(s)
  {
    BagWithout(s.spares, k);
  }

  lemma DropSpareKeeps(s: State, k: nat)
    requires Inv(s) && k < |s.spares|
    ensures Inv(DropSpare(s, k))
  {
    var s', u := DropSpare(s, k), s.spares[k].ublock.value;
    DropSpareSplit(s, k);
    assert u in SlotBag(s);
    GiveBack(s, s', u);
    ReadyWithout(s.spares, k);
  }

  lemma RemoveSpareKeeps(s: State, name: Option<Ublock>, env: Env)
    requires Inv(s)
    ensures Inv(RemoveSpare(s, name, env).s)
  {
    hide Inv;
    if RemoveSpare(s, name, env).s != s {
      var k := FindName(s.nvm + s.data + s.spares, name) - |s.nvm| - |s.data|;
      DropSpareKeeps(s, k);
      PbrKeeps(DropSpare(s, k), env);
    }
  }

  // ------------------------------------------------------------------ detach

  /** Unplugging a slot keeps the array state in step with the health of the slots and the single rebuild. */
  lemma UnplugStatus(s: State, i: nat)
    requires Inv(s) && i < |s.data| && s.data[i].ublock.Some?
    ensures Synced(Unplug(s, i)) && SingleJob(Unplug(s, i))
  {
    hide Bag, JobBag, Combined, Exclusive, Accounted, Shape;
    var s1, s' := SetSlotState(s, i, Fault), Unplug(s, i);
    StatesUpdate(s.data, i, s1.data[i]);
    StatesUpdate(s1.data, i, Slot(None, Fault));
    assert States(s'.data) == States(s1.data) == States(s.data)[i := Fault];
    CombinedMonotone(s.meta, s.user, States(s.data), i, Fault);
    SyncHealthSyncs(s1);
  }

  lemma TakeSum(n: multiset<Ublock>, d: multiset<Ublock>, d': multiset<Ublock>, p: multiset<Ublock>, c: multiset<Ublock>)
    requires d' + c == d + multiset{}
    ensures n + d' + p + c == n + d + p
  {
    forall u: Ublock ensures (n + d' + p + c)[u] == (n + d + p)[u] {
      assert (d' + c)[u] == (d + multiset{})[u];
    }
  }

  /** Unplugging takes exactly one block device out of the slots. */
  lemma UnplugTakes(s: State, i: nat)
    requires i < |s.data| && s.data[i].ublock.Some?
    ensures SlotBag(Unplug(s, i)) + multiset{s.data[i].ublock.value} == SlotBag(s)
  {
    hide Health, RaidStateUpdated;
    var d' := s.data[i := Slot(None, Fault)];
    assert Unplug(s, i).data == d';
    BagUpdate(s.data, i, Slot(None, Fault));
    TakeSum(Bag(s.nvm), Bag(s.data), Bag(d'), Bag(s.spares), multiset{s.data[i].ublock.value});
  }

  lemma UnplugShape(s: State, i: nat)
    requires Shape(s) && SlotsOk(s.data) && i < |s.data| && s.data[i].ublock.Some?
    ensures Shape(Unplug(s, i)) && SlotsOk(Unplug(s, i).data)
  {
    hide Health;
  }

  lemma UnplugKeeps(s: State, i: nat)
    requires Inv(s) && i < |s.data| && s.data[i].ublock.Some?
    ensures Inv(Unplug(s, i)) && |Unplug(s, i).data| == |s.data|
  {
    hide Shape, SlotsOk, Exclusive, Accounted, Synced, SingleJob;
    hide SlotBag, Owned;
    UnplugStatus(s, i);
    UnplugShape(s, i);
    UnplugTakes(s, i);
    Lose(s, Unplug(s, i), s.data[i].ublock.value);
  }

  lemma StopKeeps(s: State)
    requires Inv(s)
    ensures Inv(s.(jobs := StopJobs(s.jobs)))
  {
    hide Bag, JobBag, Combined, Distinct;
    JobBagStop(s.jobs);
  }

  lemma AfterDetachKeeps(s: State, i: nat, needStop: bool, env: Env)
    requires Inv(s) && i < |s.data|
    ensures Inv(AfterDetach(s, i, needStop, env))
  {
    hide Inv;
    StopKeeps(s);
    InvokeKeeps(s, [i], false, false, env);
  }

  lemma SlotHolds(s: State, i: nat)
    requires Inv(s) && i < |s.data|
    ensures s.data[i].ublock.None? <==> s.data[i].state.Fault?
  {
    hide Shape, Exclusive, Accounted, Synced, SingleJob;
  }

  lemma DetachDataKeeps(s: State, i: nat, env: Env)
    requires Inv(s) && i < |s.data| && !s.data[i].state.Fault?
    ensures !DetachData(s, i, env).reply.Aborted?
    ensures Inv(DetachData(s, i, env).s)
  {
    hide Inv, Unplug, AfterDetach;
    SlotHolds(s, i);
    UnplugKeeps(s, i);
    var s1 := Unplug(s, i);
    var needStop := s.data[i].state.Rebuild? && s.status.OnlineRebuild?;
    PbrKeeps(s1, env);
    AfterDetachKeeps(s1, i, needStop, env);
    AfterDetachKeeps(UpdatePbr(s1, env), i, needStop, env);
  }

  lemma IoErrorKeeps(s: State, i: nat, u: Option<Ublock>, busy: bool, env: Env)
    requires Inv(s) && i < |s.data|
    ensures !IoError(s, i, u, busy, env).reply.Aborted?
    ensures Inv(IoError(s, i, u, busy, env).s)
  {
    hide Inv;
    SlotHolds(s, i);
    if s.data[i].ublock.Some? {
      DetachDataKeeps(s, i, env);
    }
  }

  /** A spare that is dropped takes the only copy of its block device out of the slots. */
  lemma DroppedUnheld(s: State, k: nat)
    requires Inv(s) && k < |s.spares| && s.spares[k].ublock.Some?
    ensures s.spares[k].ublock.value !in SlotBag(DropSpare(s, k))
  {
    hide Shape, SlotsOk, Accounted, Synced, SingleJob, SlotBag, JobBag, DropSpare;
    var u := s.spares[k].ublock.value;
    DropSpareSplit(s, k);
    assert (SlotBag(DropSpare(s, k)) + multiset{u})[u] == SlotBag(s)[u] <= Owned(s)[u];
  }

  lemma DetachSpareKeeps(s: State, k: nat, env: Env)
    requires Inv(s) && k < |s.spares|
    ensures Inv(DetachSpare(s, k, env))
  {
    hide Inv, SlotBag, DropSpare, Table, RecordDevices;
    if s.spares[k].ublock.Some? {
      var u := s.spares[k].ublock.value;
      DropSpareKeeps(s, k);
      DroppedUnheld(s, k);
      Vanish(DropSpare(s, k), u);
      PbrKeeps(RemoveDevice(DropSpare(s, k), u), env);
    }
  }

  lemma FreeIsUnheld(s: State, u: Ublock)
    requires Inv(s)
    ensures u in s.registry && s.registry[u].SystemClass? ==> u !in SlotBag(s)
  {
    hide Shape, SlotsOk, Exclusive, Synced, SingleJob;
  }

  lemma DeviceDetachedKeeps(s: State, u: Ublock, busy: bool, env: Env)
    requires Inv(s)
    ensures !DeviceDetached(s, u, busy, env).reply.Aborted?
    ensures Inv(DeviceDetached(s, u, busy, env).s)
  {
    hide Inv, SlotBag;
    FreeIsUnheld(s, u);
    FindHolder(s, u);
    var k := FindName(s.nvm + s.data + s.spares, Some(u));
    if u in s.registry {
      if s.registry[u].SystemClass? || k == |s.nvm + s.data + s.spares| {
        Vanish(s, u);
      } else if |s.nvm| <= k < |s.nvm| + |s.data| {
        var i := k - |s.nvm|;
        if !s.data[i].state.Fault? {
          DetachDataKeeps(s, i, env);
        }
      } else if k >= |s.nvm| + |s.data| {
        DetachSpareKeeps(s, k - |s.nvm| - |s.data|, env);
      }
    }
  }

  // ----------------------------------------------------------------- rebuild

  /** Block devices move between slots and rebuild sources; the array owns the same ones. */
  lemma Shift(s: State, s': State)
    requires Exclusive(Owned(s)) && Accounted(s)
    requires Owned(s') == Owned(s) && s'.registry == s.registry && s'.gone == s.gone
    requires SlotBag(s') <= SlotBag(s)
    requires forall u :: u in JobBag(s'.jobs) ==> u in JobBag(s.jobs) || u in SlotBag(s)
    ensures Exclusive(Owned(s')) && Accounted(s')
  {
    forall u | u in SlotBag(s') ensures u in SlotBag(s) {
      assert SlotBag(s')[u] <= SlotBag(s)[u];
    }
  }

  /** The slots and jobs after a quick rebuild of slot `i` has been started. */
  ghost function Replaced(s: State, i: nat): State
    requires i < |s.data| && SpareToData(Pool(s.data, s.spares), i).Some?
  {
    var (p, out) := SpareToData(Pool(SetSlotState(s, i, Rebuild).data, s.spares), i).value;
    s.(data := p.data, spares := p.spares, status := OnlineRebuild, jobs := s.jobs + [Job([i], [out], false)])
  }

  lemma ReplacedShape(s: State, i: nat)
    requires Shape(s) && SlotsOk(s.data) && s.jobs == [] && i < |s.data| && SpareToData(Pool(s.data, s.spares), i).Some?
    ensures Shape(Replaced(s, i)) && SlotsOk(Replaced(s, i).data) && SingleJob(Replaced(s, i))
    ensures Health(Replaced(s, i)) == Combined(s.meta, s.user, States(s.data)[i := Rebuild])
    ensures Replaced(s, i).status.OnlineRebuild?
  {
    hide Combined;
    assert States(Replaced(s, i).data) == States(s.data)[i := Rebuild];
    ReadyWithout(s.spares, FirstNormal(s.spares));
  }

  lemma SubSum(n: multiset<Ublock>, d: multiset<Ublock>, c: multiset<Ublock>)
    ensures n + d <= n + (d + c)
    ensures n + d + c == n + (d + c)
    ensures c <= n + (d + c)
  {
  }

  lemma NoJobs()
    ensures JobBag([]) == multiset{}
  {
  }

  lemma ReplacedOwns(s: State, i: nat)
    requires s.jobs == [] && i < |s.data| && SpareToData(Pool(s.data, s.spares), i).Some?
    requires Exclusive(Owned(s)) && Accounted(s)
    ensures Exclusive(Owned(Replaced(s, i))) && Accounted(Replaced(s, i))
  {
    hide Exclusive, Accounted, Bag, JobBag;
    var s1, s' := SetSlotState(s, i, Rebuild), Replaced(s, i);
    var pool := Pool(s1.data, s.spares);
    var (p, out) := SpareToData(pool, i).value;
    BagUpdate(s.data, i, s1.data[i]);
    Cancel(Bag(s1.data), Bag(s.data), Content(s.data[i]));
    SwapConserves(pool, i);
    assert s'.jobs == [Job([i], [out], false)];
    OneJobBag(s'.jobs[0]);
    BagOne(out);
    NoJobs();
    var n := Bag(s.nvm);
    assert SlotBag(s') == n + PoolBag(p);
    assert SlotBag(s) == n + PoolBag(pool);
    SubSum(n, PoolBag(p), Content(out));
    assert Owned(s) == SlotBag(s) && Owned(s') == Owned(s);
    forall u | u in JobBag(s'.jobs) ensures u in SlotBag(s) {
      assert Content(out)[u] <= SlotBag(s)[u];
    }
    Shift(s, s');
  }

  lemma IdleJobs(s: State)
    requires Inv(s) && !s.status.OnlineRebuild? && !s.status.Broken?
    ensures s.jobs == []
  {
    hide Shape, SlotsOk, Exclusive, Accounted, Synced;
  }

  lemma ReplacedKeeps(s: State, i: nat)
    requires s.status.OnlineNormal? && i < |s.data| && SpareToData(Pool(s.data, s.spares), i).Some?
    requires Combined(s.meta, s.user, States(s.data)[i := Rebuild]).RaidDegraded?
    requires Inv(s)
    ensures Inv(Replaced(s, i))
  {
    hide Shape, SlotsOk, Exclusive, Accounted, SingleJob, Replaced, Owned, Health, Combined;
    IdleJobs(s);
    ReplacedShape(s, i);
    ReplacedOwns(s, i);
  }

  lemma HasNormal(slots: seq<Slot>)
    ensures Indices(slots, Normal) == [] <==> forall k :: 0 <= k < |slots| ==> !slots[k].state.Normal?
  {
    var r := Indices(slots, Normal);
    if r != [] {
      assert r[0] in r;
    }
  }

  lemma ReplaceKeeps(s: State, name: Option<Ublock>, env: Env)
    requires Inv(s)
    ensures ReplaceDevice(s, name, env).reply.Aborted? || Inv(ReplaceDevice(s, name, env).s)
  {
    hide Inv, Combined, FindName, Indices;
    HasNormal(s.spares);
    var r := ReplaceDevice(s, name, env);
    if r.reply.Success? {
      var i := FindName(s.nvm + s.data + s.spares, name) - |s.nvm|;
      var s1 := SetSlotState(s, i, Rebuild);
      StatesUpdate(s.data, i, s1.data[i]);
      ReplacedKeeps(s, i);
      var s' := Replaced(s, i);
      PbrKeeps(s', env);
      assert r.s == UpdatePbr(s', env);
    }
  }

  lemma UserRebuildKeeps(s: State, env: Env)
    requires Inv(s)
    ensures Inv(UserRebuild(s, env).s)
  {
    hide Inv;
    InvokeKeeps(s, Indices(s.data, Rebuild), true, true, env);
    InvokeKeeps(s, Indices(s.data, Fault), false, true, env);
  }

  // ---------------------------------------------------------- queued events

  /** The queue matters to the shape only. */
  lemma QueueFrame(s: State, queue: seq<Handler>)
    requires Inv(s) && Shape(s.(queue := queue))
    ensures Inv(s.(queue := queue))
  {
    hide Shape, Combined, Bag, JobBag, Exclusive, SlotsOk;
  }

  lemma DequeueShape(s: State, k: nat)
    requires Shape(s) && k < |s.queue|
    ensures Shape(s.(queue := Without(s.queue, k)))
    ensures InRange(s.queue[k].targets, |s.data|) && Distinct(s.queue[k].targets)
  {
    hide InRange, Distinct, Ready;
  }

  lemma DequeueKeeps(s: State, k: nat)
    requires Inv(s) && k < |s.queue|
    ensures Inv(s.(queue := Without(s.queue, k)))
    ensures InRange(s.queue[k].targets, |s.data|) && Distinct(s.queue[k].targets)
  {
    hide Shape, SlotsOk, Exclusive, Accounted, Synced, SingleJob;
    DequeueShape(s, k);
    QueueFrame(s, Without(s.queue, k));
  }

  lemma ResumeKeeps(s: State, targets: seq<nat>, env: Env)
    requires Inv(s) && InRange(targets, |s.data|)
    ensures Inv(ResumeRebuild(s, targets, env))
  {
    if RebuildGranted(s.status, env) {
      IdleJobs(s);
      var s' := ResumeRebuild(s, targets, env);
      OneJobBag(Job(targets, [], false));
      assert s'.jobs == [Job(targets, [], false)];
      assert Owned(s') == Owned(s);
      ResumeShape(s, targets);
      hide Shape, SlotsOk, Synced, SingleJob;
      Shift(s, s');
    }
  }

  lemma ResumeShape(s: State, targets: seq<nat>)
    requires Shape(s) && Synced(s) && s.status.OnlineDegraded? && s.jobs == [] && InRange(targets, |s.data|)
    ensures var s' := s.(status := OnlineRebuild, jobs := s.jobs + [Job(targets, [], false)]);
            Shape(s') && Synced(s') && SingleJob(s')
  {
  }

  /** The slots, status and jobs after a basic rebuild of `targets` has been started. */
  ghost function Triggered(s: State, targets: seq<nat>): State
    requires InRange(targets, |s.data|)
  {
    var (p, kept) := Fill(Pool(s.data, s.spares), targets);
    s.(data := p.data, spares := p.spares, status := OnlineRebuild, jobs := s.jobs + [Job(kept, [], false)])
  }

  /** After the fill the same slots are not NORMAL, and a slot still has no device exactly when it is FAULT. */
  lemma FillKeepsSlots(p: Pool, targets: seq<nat>)
    requires Fillable(p, targets) && SlotsOk(p.data)
    ensures var after := Fill(p, targets).0.data;
            && SlotsOk(after)
            && forall j :: 0 <= j < |p.data| ==> (after[j].state.Normal? <==> p.data[j].state.Normal?)
  {
    hide Fill;
    FillSlots(p, targets);
    var after, m := Fill(p, targets).0.data, Min(|targets|, |p.spares|);
    forall j | 0 <= j < |p.data|
      ensures after[j].ublock.None? <==> after[j].state.Fault?
      ensures after[j].state.Normal? <==> p.data[j].state.Normal?
    {
      if j in targets[..m] {
        var k :| 0 <= k < m && targets[k] == j;
        assert p.spares[k].ublock.Some? && Unplugged(p.data[targets[k]]);
      }
    }
  }

  lemma TriggeredStatus(s: State, targets: seq<nat>)
    requires Fillable(Pool(s.data, s.spares), targets) && SlotsOk(s.data)
    requires s.status.OnlineDegraded? && s.jobs == [] && Synced(s)
    ensures Synced(Triggered(s, targets)) && SingleJob(Triggered(s, targets)) && SlotsOk(Triggered(s, targets).data)
  {
    hide Fill, Combined;
    FillKeepsSlots(Pool(s.data, s.spares), targets);
    CombinedPattern(s.meta, s.user, States(s.data), States(Triggered(s, targets).data));
  }

  lemma TriggeredShape(s: State, targets: seq<nat>)
    requires Fillable(Pool(s.data, s.spares), targets) && s.jobs == [] && Shape(s)
    ensures Shape(Triggered(s, targets))
  {
    hide Fill;
    FillKeeps(Pool(s.data, s.spares), targets);
  }

  lemma TriggeredOwns(s: State, targets: seq<nat>)
    requires Fillable(Pool(s.data, s.spares), targets) && s.jobs == [] && Exclusive(Owned(s)) && Accounted(s)
    ensures Exclusive(Owned(Triggered(s, targets))) && Accounted(Triggered(s, targets))
  {
    hide Fill, Exclusive, Accounted;
    var pool, s' := Pool(s.data, s.spares), Triggered(s, targets);
    FillConserves(pool, targets);
    assert s'.jobs == [Job(Fill(pool, targets).1, [], false)];
    OneJobBag(s'.jobs[0]);
    assert SlotBag(s) == Bag(s.nvm) + PoolBag(pool);
    assert SlotBag(s') == Bag(s.nvm) + PoolBag(Fill(pool, targets).0);
    assert Owned(s') == Owned(s);
    Shift(s, s');
  }

  lemma TriggeredKeeps(s: State, targets: seq<nat>)
    requires s.status.OnlineDegraded? && Fillable(Pool(s.data, s.spares), targets)
    requires Inv(s)
    ensures Inv(Triggered(s, targets))
  {
    hide Shape, SlotsOk, Exclusive, Accounted, Synced, SingleJob, Triggered, Owned, Fillable;
    IdleJobs(s);
    TriggeredStatus(s, targets);
    TriggeredShape(s, targets);
    TriggeredOwns(s, targets);
  }

  lemma NoSpareNoFill(p: Pool, targets: seq<nat>)
    requires Fillable(p, targets) && targets != []
    ensures Fill(p, targets).1 == [] <==> p.spares == []
    ensures p.spares == [] ==> Fill(p, targets).0 == p
  {
    hide Fill;
    FillKeeps(p, targets);
    if p.spares == [] {
      FillSlots(p, targets);
      assert Fill(p, targets).0.data == p.data;
    }
  }

  lemma SparesReady(s: State)
    requires Inv(s)
    ensures Ready(s.spares)
  {
    hide SlotsOk, Exclusive, Accounted, Synced, SingleJob;
  }

  lemma TriggerKeeps(s: State, targets: seq<nat>, env: Env)
    requires Inv(s) && InRange(targets, |s.data|) && Distinct(targets)
    ensures Inv(TriggerRebuild(s, targets, env).0)
  {
    hide Inv, Fill, Ready;
    var pool := Pool(s.data, s.spares);
    SparesReady(s);
    if targets != [] && Fillable(pool, targets) && RebuildGranted(s.status, env) {
      NoSpareNoFill(pool, targets);
      if s.spares == [] {
        assert TriggerRebuild(s, targets, env).0 == s;
      } else {
        TriggeredKeeps(s, targets);
        PbrKeeps(Triggered(s, targets), env);
        assert TriggerRebuild(s, targets, env).0 == UpdatePbr(Triggered(s, targets), env);
      }
    }
  }

  lemma ExecuteKeeps(s: State, k: nat, env: Env)
    requires Inv(s) && k < |s.queue| && InRange(s.queue[k].targets, |s.data|)
    ensures Inv(Execute(s, k, env))
  {
    hide Inv, TriggerRebuild, ResumeRebuild;
    DequeueKeeps(s, k);
    var s0, targets := s.(queue := Without(s.queue, k)), s.queue[k].targets;
    ResumeKeeps(s0, targets, env);
    TriggerKeeps(s0, targets, env);
  }

  // ---------------------------------------------------------------- completion

  lemma {:induction false} ReleaseSpec(registry: map<Ublock, DeviceClass>, srcs: seq<Slot>)
    ensures Release(registry, srcs).Keys == registry.Keys
    ensures forall u :: u in registry ==>
              Release(registry, srcs)[u] == if u in Bag(srcs) then SystemClass else registry[u]
  {
    if srcs != [] {
      ReleaseSpec(SetClass(registry, srcs[0].ublock, SystemClass), srcs[1..]);
    }
  }

  lemma {:induction false} SetNormalSpec(data: seq<Slot>, dsts: seq<nat>)
    requires InRange(dsts, |data|)
    ensures forall i :: 0 <= i < |data| ==>
              SetNormal(data, dsts)[i] == if i in dsts then data[i].(state := Normal) else data[i]
    decreases dsts
  {
    if dsts != [] {
      SetNormalSpec(data[dsts[0] := data[dsts[0]].(state := Normal)], dsts[1..]);
    }
  }

  lemma {:induction false} SameContentBag(a: seq<Slot>, b: seq<Slot>)
    requires |a| == |b| && forall i :: 0 <= i < |a| ==> a[i].ublock == b[i].ublock
    ensures Bag(a) == Bag(b)
  {
    if a != [] {
      SameContentBag(a[1..], b[1..]);
    }
  }

  /** No destination of the job is unplugged, be it before or after the job was started. */
  ghost predicate Fresh(s: State, k: nat)
    requires k < |s.jobs| && InRange(s.jobs[k].dsts, |s.data|)
  {
    forall d :: 0 <= d < |s.jobs[k].dsts| ==> !s.data[s.jobs[k].dsts[d]].state.Fault?
  }

  /** A PASS leaves the slots consistent exactly when no destination was unplugged in the meantime. */
  lemma PassSlots(s: State, k: nat)
    requires k < |s.jobs| && InRange(s.jobs[k].dsts, |s.data|) && SlotsOk(s.data)
    ensures SlotsOk(SetNormal(s.data, s.jobs[k].dsts)) <==> Fresh(s, k)
  {
    var dsts := s.jobs[k].dsts;
    SetNormalSpec(s.data, dsts);
    var after := SetNormal(s.data, dsts);
    if !Fresh(s, k) {
      var d :| 0 <= d < |dsts| && s.data[dsts[d]].state.Fault?;
      assert dsts[d] in dsts;
      assert after[dsts[d]] == s.data[dsts[d]].(state := Normal);
    }
  }

  /** A PASS ends in a null dereference exactly when its record can be written and a destination is unplugged. */
  lemma PassNullIff(s: State, k: nat, result: RebuildResult, env: Env)
    requires k < |s.jobs| && InRange(s.jobs[k].dsts, |s.data|) && SlotsOk(s.data)
    ensures PassHitsNull(s, k, result, env) <==> result.Pass? && env.pbrOk && !Fresh(s, k)
  {
    var dsts := s.jobs[k].dsts;
    SetNormalSpec(s.data, dsts);
    if !Fresh(s, k) {
      var d :| 0 <= d < |dsts| && s.data[dsts[d]].state.Fault?;
      assert dsts[d] in dsts;
      assert SetNormal(s.data, dsts)[dsts[d]].ublock.None?;
    }
  }

  /** What the completion callback does to jobs, registry and slots before the array state is recomputed. */
  ghost function Settled(s: State, k: nat, result: RebuildResult, env: Env): State
    requires k < |s.jobs| && InRange(s.jobs[k].dsts, |s.data|)
  {
    var s1 := s.(jobs := Without(s.jobs, k), registry := Release(s.registry, s.jobs[k].srcs));
    if result.Pass? then UpdatePbr(s1.(data := SetNormal(s1.data, s.jobs[k].dsts)), env) else s1
  }

  lemma SettledBag(s: State, k: nat, result: RebuildResult, env: Env)
    requires k < |s.jobs| && InRange(s.jobs[k].dsts, |s.data|)
    ensures SlotBag(SyncHealth(Settled(s, k, result, env))) == SlotBag(s)
  {
    hide SetNormal, Release, Health;
    SetNormalSpec(s.data, s.jobs[k].dsts);
    SameContentBag(s.data, SetNormal(s.data, s.jobs[k].dsts));
  }

  lemma SettledFields(s: State, k: nat, result: RebuildResult, env: Env)
    requires k < |s.jobs| && InRange(s.jobs[k].dsts, |s.data|)
    ensures var s' := SyncHealth(Settled(s, k, result, env));
            && s'.jobs == Without(s.jobs, k)
            && s'.registry == Release(s.registry, s.jobs[k].srcs)
            && s'.gone == s.gone
  {
    hide SetNormal, Release, Health;
  }

  /** The sources of a finished rebuild go back to the system. */
  lemma Return(s: State, s': State, k: nat)
    requires k < |s.jobs| && Exclusive(Owned(s)) && Accounted(s)
    requires SlotBag(s') == SlotBag(s)
    requires s'.jobs == Without(s.jobs, k) && s'.registry == Release(s.registry, s.jobs[k].srcs) && s'.gone == s.gone
    ensures Exclusive(Owned(s')) && Accounted(s')
  {
    hide SlotBag, JobBag, Bag, Release;
    var back := Bag(s.jobs[k].srcs);
    ReleaseSpec(s.registry, s.jobs[k].srcs);
    JobBagWithout(s.jobs, k);
    assert Owned(s') + back == SlotBag(s) + (JobBag(s'.jobs) + back) == Owned(s);
    forall u: Ublock
      ensures Owned(s')[u] <= 1 && (u in Owned(s') <==> u in Owned(s) && u !in back)
    {
      assert (Owned(s') + back)[u] == Owned(s)[u] <= 1;
    }
    forall u | u in JobBag(s'.jobs) ensures u in JobBag(s.jobs) {
      assert (JobBag(s'.jobs) + back)[u] == JobBag(s.jobs)[u];
    }
  }

  lemma SettledShape(s: State, k: nat, result: RebuildResult, env: Env)
    requires Shape(s) && k < |s.jobs| && InRange(s.jobs[k].dsts, |s.data|)
    ensures Shape(SyncHealth(Settled(s, k, result, env)))
  {
    hide SetNormal, Release, Health;
  }

  lemma SettledStatus(s: State, k: nat, result: RebuildResult, env: Env)
    requires SingleJob(s) && k < |s.jobs| && InRange(s.jobs[k].dsts, |s.data|)
    ensures Synced(SyncHealth(Settled(s, k, result, env))) && SingleJob(SyncHealth(Settled(s, k, result, env)))
  {
    SyncHealthSyncs(Settled(s, k, result, env));
    hide SetNormal, Release, Synced, Health;
  }

  lemma SettledOwns(s: State, k: nat, result: RebuildResult, env: Env)
    requires k < |s.jobs| && InRange(s.jobs[k].dsts, |s.data|) && Exclusive(Owned(s)) && Accounted(s)
    ensures var s' := SyncHealth(Settled(s, k, result, env)); Exclusive(Owned(s')) && Accounted(s')
  {
    hide SetNormal, Release, Health, Exclusive, Accounted, Settled, SyncHealth, SlotBag, Owned;
    SettledBag(s, k, result, env);
    SettledFields(s, k, result, env);
    Return(s, SyncHealth(Settled(s, k, result, env)), k);
  }

  lemma SettledKeeps(s: State, k: nat, result: RebuildResult, env: Env)
    requires k < |s.jobs| && InRange(s.jobs[k].dsts, |s.data|)
    requires Inv(s)
    ensures Inv(SyncHealth(Settled(s, k, result, env))) <==> SlotsOk(Settled(s, k, result, env).data)
  {
    hide Shape, SlotsOk, Exclusive, Accounted, Synced, SingleJob, Settled, Health, Owned;
    SettledShape(s, k, result, env);
    SettledStatus(s, k, result, env);
    SettledOwns(s, k, result, env);
  }

  lemma SettledSlots(s: State, k: nat, result: RebuildResult, env: Env)
    requires k < |s.jobs| && InRange(s.jobs[k].dsts, |s.data|)
    requires SlotsOk(s.data)
    ensures SlotsOk(Settled(s, k, result, env).data) <==> result.NotPass? || Fresh(s, k)
  {
    hide SlotsOk, SetNormal, Release;
    PassSlots(s, k);
  }

  lemma SettledDone(s: State, k: nat, result: RebuildResult, env: Env)
    requires k < |s.jobs| && InRange(s.jobs[k].dsts, |s.data|)
    ensures var s3 := SyncHealth(Settled(s, k, result, env));
            var targets := Indices(s3.data, Fault);
            RebuildDone(s, k, result, env) ==
            if targets != [] && s3.status.OnlineDegraded? then InvokeRebuild(s3, targets, false, false, env) else s3
  {
    hide SetNormal, Release, Health, Indices;
  }

  lemma SlotsOkOf(s: State)
    requires Inv(s)
    ensures SlotsOk(s.data) && !NullTarget(s.data)
  {
    hide Shape, Exclusive, Accounted, Synced, SingleJob;
  }

  /**
   The completion of a rebuild keeps the invariant exactly when it is not a PASS or no destination of the job
   has been unplugged: a late PASS marks an empty slot NORMAL.
   */
  lemma RebuildDoneKeepsIff(s: State, k: nat, result: RebuildResult, env: Env)
    requires k < |s.jobs| && InRange(s.jobs[k].dsts, |s.data|)
    requires Inv(s)
    ensures Inv(RebuildDone(s, k, result, env)) <==> result.NotPass? || Fresh(s, k)
  {
    hide Inv, RebuildDone, Settled, SlotsOk, Fresh, Health, RaidStateUpdated;
    SlotsOkOf(s);
    SettledKeeps(s, k, result, env);
    SettledSlots(s, k, result, env);
    SettledDone(s, k, result, env);
    var s3 := SyncHealth(Settled(s, k, result, env));
    if Inv(s3) {
      InvokeKeeps(s3, Indices(s3.data, Fault), false, false, env);
    } else {
      InvokeSlots(s3, Indices(s3.data, Fault), env);
    }
  }

  lemma InvokeSlots(s: State, targets: seq<nat>, env: Env)
    requires !SlotsOk(s.data)
    ensures !Inv(s) && !Inv(InvokeRebuild(s, targets, false, false, env))
  {
    hide SlotsOk;
  }
}
