/**
 What the operations of the array answer and what they change, in terms of who holds what: every answer with the
 exact condition under which it is given, and every changed field.
 */
module ArrayEffects {
  import opened Options
  import opened Raid
  import opened ArrayModel
  import opened ArrayInvariants
  import opened ArraySteps
  import opened ArrayRuns
  import opened ArrayRecords
  import opened ArrayRestart

  // ----------------------------------------------------------------------- who holds what

  ghost predicate InSlots(slots: seq<Slot>, u: Ublock) {
    exists k :: 0 <= k < |slots| && slots[k].ublock == Some(u)
  }

  ghost predicate HasFault(s: State) {
    exists i :: 0 <= i < |s.data| && s.data[i].state.Fault?
  }

  ghost predicate HasRebuild(s: State) {
    exists i :: 0 <= i < |s.data| && s.data[i].state.Rebuild?
  }

  lemma IndicesEmpty(s: State)
    ensures Indices(s.data, Fault) != [] <==> HasFault(s)
    ensures Indices(s.data, Rebuild) != [] <==> HasRebuild(s)
  {
    hide Indices;
    NoneInState(s.data, Fault);
    NoneInState(s.data, Rebuild);
  }

  lemma NoneInState(slots: seq<Slot>, st: DeviceState)
    ensures Indices(slots, st) == [] <==> forall i :: 0 <= i < |slots| ==> slots[i].state != st
  {
    hide Indices;
    var r := Indices(slots, st);
    if r != [] {
      assert r[0] in r;
    }
  }

  /** The first position of a device is in the list that holds it. */
  lemma FoundIn(s: State, u: Ublock)
    requires Inv(s)
    ensures var k := FindName(s.nvm + s.data + s.spares, Some(u));
            && (k < |s.nvm| <==> InSlots(s.nvm, u))
            && (|s.nvm| <= k < |s.nvm| + |s.data| <==> InSlots(s.data, u))
            && (|s.nvm| + |s.data| <= k < |s.nvm + s.data + s.spares| <==> InSlots(s.spares, u))
  {
    hide Inv, FindName;
    var all, k := s.nvm + s.data + s.spares, FindName(s.nvm + s.data + s.spares, Some(u));
    forall j | 0 <= j < |all| && all[j].ublock == Some(u) ensures j == k {
      assert k < |all| && all[k].ublock == Some(u);
      SamePosition(s, j, k, u);
    }
    if j :| 0 <= j < |s.nvm| && s.nvm[j].ublock == Some(u) {
      assert all[j] == s.nvm[j];
    }
    if j :| 0 <= j < |s.data| && s.data[j].ublock == Some(u) {
      assert all[|s.nvm| + j] == s.data[j];
    }
    if j :| 0 <= j < |s.spares| && s.spares[j].ublock == Some(u) {
      assert all[|s.nvm| + |s.data| + j] == s.spares[j];
    }
  }

  lemma FreeIsInNoSlot(s: State, u: Ublock)
    requires u in s.registry && s.registry[u].SystemClass?
    requires Inv(s)
    ensures FindName(s.nvm + s.data + s.spares, Some(u)) == |s.nvm + s.data + s.spares|
  {
    hide Inv, FindName, SlotBag;
    FreeIsUnheld(s, u);
    FindHolder(s, u);
  }

  // ---------------------------------------------------------------------------- health

  /** A RAID state update never mounts or unmounts an array; a failure breaks it. */
  lemma SyncHealthMounted(s: State)
    ensures SyncHealth(s).status.Broken? <==> Health(s).RaidFailure?
    ensures !Health(s).RaidFailure? ==> (IsMounted(SyncHealth(s).status) <==> IsMounted(s.status))
    ensures SyncHealth(s).(status := s.status) == s
  {
    hide Health;
  }

  lemma MountedHealth(s: State)
    requires IsMounted(s.status)
    requires Inv(s)
    ensures !Health(s).RaidFailure?
    ensures s.status.OnlineNormal? ==> Health(s).RaidNormal?
    ensures !s.status.OnlineNormal? ==> Health(s).RaidDegraded?
  {
    hide Shape, SlotsOk, Exclusive, Accounted, SingleJob, Health;
  }

  /** The states called recoverable are those of a degraded array. */
  lemma RecoverableMeans(s: State)
    requires Inv(s)
    ensures Recoverable(s.status) <==> Health(s).RaidDegraded?
  {
    hide Shape, SlotsOk, Exclusive, Accounted, SingleJob, Health;
  }

  // --------------------------------------------------------------------------- I/O error

  lemma UnplugStates(s: State, i: nat)
    requires i < |s.data| && s.data[i].ublock.Some?
    ensures var h := Combined(s.meta, s.user, States(s.data)[i := Fault]);
            Unplug(s, i).status ==
            if h.RaidFailure? then Broken
            else if s.status.OnlineRebuild? then OnlineRebuild
            else if IsMounted(s.status) then (if h.RaidNormal? then OnlineNormal else OnlineDegraded)
            else (if h.RaidNormal? then ExistNormal else ExistDegraded)
  {
    hide Combined;
    StatesUpdate(s.data, i, s.data[i].(state := Fault));
  }

  /** The loss of a live slot of a rebuilding array leaves it degraded or failed. */
  lemma LossHealth(s: State, i: nat)
    requires i < |s.data| && s.status.OnlineRebuild?
    requires Inv(s)
    ensures !Combined(s.meta, s.user, States(s.data)[i := Fault]).RaidNormal?
  {
    hide Inv, Combined;
    MountedHealth(s);
    CombinedMonotone(s.meta, s.user, States(s.data), i, Fault);
  }

  /**
   What an I/O error is answered: a retry while the lock is taken, a failure on an array that is not mounted, success
   for a device that has been replaced, and for the device of the slot success exactly when the array is degraded,
   neither failed nor untouched, without it.
   */
  lemma IoErrorReply(s: State, i: nat, u: Option<Ublock>, busy: bool, env: Env)
    requires i < |s.data|
    requires Inv(s)
    ensures IoError(s, i, u, busy, env).reply ==
            if busy then Retry
            else if !IsMounted(s.status) then IoFail
            else if u.None? || s.data[i].ublock != u then Success
            else if Combined(s.meta, s.user, States(s.data)[i := Fault]).RaidDegraded? then Success
            else IoFail
  {
    hide Inv, DetachData, Combined;
    SlotHolds(s, i);
    if s.data[i].ublock.Some? {
      DetachDataKeeps(s, i, env);
      DetachStatus(s, i, env);
      UnplugStates(s, i);
      if s.status.OnlineRebuild? {
        LossHealth(s, i);
      }
    }
  }

  /** The same jobs, all told to stop if `stop` holds. */
  ghost predicate StoppedIf(jobs: seq<Job>, jobs': seq<Job>, stop: bool) {
    && |jobs'| == |jobs|
    && forall k :: 0 <= k < |jobs| ==> jobs'[k] == Job(jobs[k].dsts, jobs[k].srcs, jobs[k].stopping || stop)
  }

  /** Everything a detach changes. */
  lemma DetachOutcome(s: State, i: nat, env: Env)
    requires i < |s.data| && !s.data[i].state.Fault?
    requires Inv(s)
    ensures var s' := DetachData(s, i, env).s;
            var u := s.data[i].ublock;
            var stop := s.data[i].state.Rebuild? && s.status.OnlineRebuild? && (env.pbrOk || !IsMounted(s'.status));
            var ask := !(s.data[i].state.Rebuild? && s.status.OnlineRebuild?) && s'.status.OnlineDegraded? && env.pbrOk
                       && env.autoStart;
            && DetachData(s, i, env).reply.Success? && u.Some?
            && s'.data == s.data[i := Slot(None, Fault)] && s'.spares == s.spares && s'.nvm == s.nvm
            && s'.registry == s.registry - {u.value} && s'.gone == s.gone + {u.value}
            && StoppedIf(s.jobs, s'.jobs, stop)
            && s'.queue == s.queue + (if ask then [Handler([i], false)] else [])
  {
    hide Inv, Unplug, Table, RecordDevices;
    SlotHolds(s, i);
    UnplugFields(s, i);
  }

  lemma UnplugFields(s: State, i: nat)
    requires i < |s.data| && s.data[i].ublock.Some?
    ensures var s1 := Unplug(s, i);
            s1 == s.(data := s.data[i := Slot(None, Fault)], status := s1.status,
                     registry := s.registry - {s.data[i].ublock.value}, gone := s.gone + {s.data[i].ublock.value})
  {
    hide Health, RaidStateUpdated;
  }

  // ---------------------------------------------------------------------- device removal

  /** What the removal of a device is answered and which list it leaves. */
  lemma DeviceDetachedEffect(s: State, u: Ublock, busy: bool, env: Env)
    requires Inv(s)
    ensures var r := DeviceDetached(s, u, busy, env);
            var held := InSlots(s.data, u) || InSlots(s.spares, u);
            && (r.reply == Rejected(UnknownDevice) <==> u !in s.registry)
            && (r.reply == Rejected(NvmDetached) <==> InSlots(s.nvm, u))
            && (r.reply == LockFailed <==> held && busy)
            && (r.reply == Success <==> u in s.registry && !InSlots(s.nvm, u) && !(held && busy))
            && (r.reply != Success ==> r.s == s)
            && (r.reply == Success ==> u !in r.s.registry && u in r.s.gone)
            && |r.s.data| == |s.data|
            && (forall i :: 0 <= i < |s.data| && s.data[i].ublock != Some(u) ==> r.s.data[i] == s.data[i])
            && (r.reply == Success ==> forall i :: 0 <= i < |s.data| && s.data[i].ublock == Some(u) ==>
                                         r.s.data[i] == Slot(None, Fault))
            && (!InSlots(s.spares, u) ==> r.s.spares == s.spares)
            && (r.reply == Success ==> forall k :: 0 <= k < |s.spares| && s.spares[k].ublock == Some(u) ==>
                                         r.s.spares == Without(s.spares, k))
  {
    hide Inv, FindName, DetachData, Table, RecordDevices;
    FoundIn(s, u);
    SlotClasses(s, u);
    var k := FindName(s.nvm + s.data + s.spares, Some(u));
    if |s.nvm| <= k < |s.nvm| + |s.data| {
      var i := k - |s.nvm|;
      OnlyHolder(s, i, u);
      SlotHolds(s, i);
      DetachOutcome(s, i, env);
    } else if |s.nvm| + |s.data| <= k < |s.nvm + s.data + s.spares| {
      OnlySpare(s, k - |s.nvm| - |s.data|, u);
    }
  }

  lemma SlotClasses(s: State, u: Ublock)
    requires Inv(s)
    ensures InSlots(s.nvm, u) || InSlots(s.data, u) || InSlots(s.spares, u) ==>
              u in s.registry && s.registry[u].ArrayClass?
  {
    hide Inv, Bag;
    BagMember(s.nvm, u);
    BagMember(s.data, u);
    BagMember(s.spares, u);
    if u in SlotBag(s) {
      HeldClass(s, u);
    }
  }

  lemma OnlySpare(s: State, k: nat, u: Ublock)
    requires k < |s.spares| && s.spares[k].ublock == Some(u)
    requires Inv(s)
    ensures forall j :: 0 <= j < |s.spares| && s.spares[j].ublock == Some(u) ==> j == k
  {
    hide Inv;
    var all, at := s.nvm + s.data + s.spares, |s.nvm| + |s.data|;
    forall j | 0 <= j < |s.spares| && s.spares[j].ublock == Some(u) ensures j == k {
      assert all[at + j] == s.spares[j] && all[at + k] == s.spares[k];
      SamePosition(s, at + j, at + k, u);
    }
  }

  // ------------------------------------------------------------------------------ spares

  /** Device `u` can become a spare: it is free, and no smaller than some NORMAL data device. */
  ghost predicate Addable(s: State, u: Ublock) {
    && Tolerant(s.user) && IsMounted(s.status)
    && u in s.registry && s.registry[u].SystemClass?
    && Fits(s.data, u.size)
  }

  lemma MountedHasNormal(s: State)
    requires IsMounted(s.status)
    requires Inv(s)
    ensures SomeNormal(s.data)
  {
    hide Inv, Combined;
    MountedHealth(s);
    NormalShape(s);
    CombinedIff(s.meta, s.user, States(s.data));
    SurvivorExists(s.user, States(s.data));
    var i :| 0 <= i < |s.data| && States(s.data)[i].Normal?;
    assert s.data[i].state.Normal?;
  }

  lemma NormalShape(s: State)
    requires Inv(s)
    ensures AcceptsCount(s.user, Span(s.user, |s.data|))
  {
    hide SlotsOk, Exclusive, Accounted, Synced, SingleJob;
  }

  /** AddSpare succeeds exactly for a device that can become a spare and while the record can be written. */
  lemma AddSpareReply(s: State, name: Option<Ublock>, env: Env)
    requires Inv(s)
    ensures var r := AddSpare(s, name, env);
            && (r.reply.Success? <==> name.Some? && Addable(s, name.value) && env.pbrOk)
            && (r.reply == Rejected(RecordNotWritten) <==> name.Some? && Addable(s, name.value) && !env.pbrOk)
            && (!(name.Some? && Addable(s, name.value)) ==> r.s == s)
            && (r.reply == Rejected(RaidDoesNotSupportSpare) <==> !Tolerant(s.user))
            && (r.reply == Rejected(OnlyWhileOnline) <==> Tolerant(s.user) && !IsMounted(s.status))
            && (r.reply == Rejected(NameNotFound) <==>
                Tolerant(s.user) && IsMounted(s.status) && (name.None? || name.value !in s.registry))
            && (r.reply == Rejected(AlreadyOccupied) <==>
                Tolerant(s.user) && IsMounted(s.status) && name.Some? && name.value in s.registry
                && s.registry[name.value].ArrayClass?)
  {
    hide Inv, FindName, MinimumCapacity, Indices, Table, RecordDevices, Fits;
    if name.Some? && IsMounted(s.status) {
      MountedHasNormal(s);
      MinimumIff(s.data, name.value.size);
      if name.value in s.registry && s.registry[name.value].SystemClass? {
        FreeIsInNoSlot(s, name.value);
      }
    }
  }

  /**
   What AddSpare adds: the device as the last spare, in class ARRAY; and, on a degraded array with a lost device, the
   request to rebuild exactly the lost ones, if automatic rebuild is on.
   */
  lemma AddSpareAdds(s: State, u: Ublock, env: Env)
    requires Addable(s, u)
    requires Inv(s)
    ensures var s' := AddSpare(s, Some(u), env).s;
            && s'.spares == s.spares + [Slot(Some(u), Normal)] && s'.registry == s.registry[u := ArrayClass]
            && s'.data == s.data && s'.nvm == s.nvm && s'.status == s.status && s'.jobs == s.jobs && s'.gone == s.gone
            && (env.pbrOk ==> Agree(s'))
            && s'.queue == s.queue + (if env.pbrOk && s.status.OnlineDegraded? && HasFault(s) && env.autoStart
                                      then [Handler(Indices(s.data, Fault), false)] else [])
  {
    hide Inv, FindName, MinimumCapacity, Indices, Table, RecordDevices, Fits, Agree;
    MountedHasNormal(s);
    MinimumIff(s.data, u.size);
    FreeIsInNoSlot(s, u);
    IndicesEmpty(s);
    var s1 := s.(spares := s.spares + [Slot(Some(u), Normal)], registry := s.registry[u := ArrayClass]);
    if env.pbrOk {
      UpdateAgrees(s1, env);
      AgreeFrame(UpdatePbr(s1, env), AddSpare(s, Some(u), env).s);
    }
  }

  /** RemoveSpare takes exactly the named spare away and frees its device; it is refused for anything else. */
  lemma RemoveSpareEffect(s: State, name: Option<Ublock>, env: Env)
    requires Inv(s)
    ensures var r := RemoveSpare(s, name, env);
            var held := name.Some? && InSlots(s.spares, name.value);
            && (r.reply == Rejected(OnlyWhileOnline) <==> !IsMounted(s.status))
            && (r.reply == Rejected(NameNotFound) <==> IsMounted(s.status) && !held)
            && (r.reply == Rejected(RecordNotWritten) <==> IsMounted(s.status) && held && !env.pbrOk)
            && (r.reply.Success? <==> IsMounted(s.status) && held && env.pbrOk)
            && (!(IsMounted(s.status) && held) ==> r.s == s)
            && (IsMounted(s.status) ==> forall k :: 0 <= k < |s.spares| && s.spares[k].ublock == name ==>
                  && r.s.spares == s.spares[..k] + s.spares[k + 1..]
                  && name.Some? && r.s.registry == s.registry[name.value := SystemClass]
                  && r.s.data == s.data && r.s.status == s.status && r.s.jobs == s.jobs && r.s.queue == s.queue)
            && (r.reply.Success? ==> Agree(r.s))
  {
    hide Inv, FindName, Table, RecordDevices, Agree;
    SparesReady(s);
    var all, k := s.nvm + s.data + s.spares, FindName(s.nvm + s.data + s.spares, name);
    assert k < |all| ==> all[k].ublock == name;
    if name.Some? {
      FoundIn(s, name.value);
      SlotClasses(s, name.value);
      if |s.nvm| + |s.data| <= k < |all| {
        OnlySpare(s, k - |s.nvm| - |s.data|, name.value);
        UpdateAgreesIf(DropSpare(s, k - |s.nvm| - |s.data|), env);
      }
    }
  }

  lemma UpdateAgreesIf(s: State, env: Env)
    ensures env.pbrOk ==> Agree(UpdatePbr(s, env))
  {
    if env.pbrOk {
      UpdateAgrees(s, env);
    }
  }

  // ------------------------------------------------------------------------- replacement

  /**
   What ReplaceDevice answers for a device that some data slot holds: the checks in the order of the code. In all
   cases but the last two nothing changes; `ReplaceStarts` and `ReplaceAborts` tell those.
   */
  lemma ReplaceReply(s: State, i: nat, u: Ublock, env: Env)
    requires i < |s.data| && s.data[i].ublock == Some(u)
    requires Inv(s)
    ensures var r := ReplaceDevice(s, Some(u), env);
            && r.reply ==
               (if !s.status.OnlineNormal? then Rejected(OnlyInNormalState)
                else if s.data[i].state.Rebuild? then Rejected(OnlyNormalDevice)
                else if !Tolerant(s.user) then Rejected(RaidDoesNotSupportSpare)
                else if s.spares == [] then Rejected(NoAvailableSpare)
                else if env.stateOk && Replaceable(s, i) then Success
                else Aborted)
            && (r.reply.Rejected? ==> r.s == s)
  {
    hide Inv, FindName, Indices, Combined, Replaceable, Table, RecordDevices;
    OnlyHolder(s, i, u);
    SlotHolds(s, i);
    SparesReady(s);
    HasNormal(s.spares);
    assert s.spares != [] ==> s.spares[0].state.Normal?;
    if ReplaceAdmitted(s, i) {
      ReplaceAborts(s, Some(u), env);
      RollbackNotTaken(s, i);
    }
  }

  /** A name that no data slot holds is not found; the empty name is that of a lost data device. */
  lemma ReplaceUnknown(s: State, name: Option<Ublock>, env: Env)
    requires name.Some? ==> !InSlots(s.data, name.value)
    requires Inv(s)
    ensures var r := ReplaceDevice(s, name, env);
            && r.s == s
            && r.reply ==
               (if name.Some? || !HasFault(s) then Rejected(NameNotFound)
                else if !s.status.OnlineNormal? then Rejected(OnlyInNormalState)
                else Rejected(OnlyNormalDevice))
  {
    hide Inv, FindName, Indices, Combined, Table, RecordDevices;
    SlotsOkOf(s);
    ReadySlots(s);
    SparesReady(s);
    var all, k := s.nvm + s.data + s.spares, FindName(s.nvm + s.data + s.spares, name);
    if name.Some? {
      FoundIn(s, name.value);
    } else {
      EmptyName(s);
    }
  }

  lemma EmptyName(s: State)
    requires Inv(s)
    ensures var k := FindName(s.nvm + s.data + s.spares, None);
            && (|s.nvm| <= k < |s.nvm| + |s.data| <==> HasFault(s))
            && (HasFault(s) ==> s.data[k - |s.nvm|].state.Fault?)
            && (!HasFault(s) ==> k == |s.nvm + s.data + s.spares|)
  {
    hide Exclusive, Accounted, Synced, SingleJob, FindName;
    var all, k := s.nvm + s.data + s.spares, FindName(s.nvm + s.data + s.spares, None);
    assert forall j :: 0 <= j < |s.nvm| ==> all[j] == s.nvm[j];
    assert forall j :: 0 <= j < |s.data| ==> all[|s.nvm| + j] == s.data[j];
    assert forall j :: 0 <= j < |s.spares| ==> all[|s.nvm| + |s.data| + j] == s.spares[j];
    if HasFault(s) {
      var i :| 0 <= i < |s.data| && s.data[i].state.Fault?;
      assert all[|s.nvm| + i].ublock.None?;
    }
  }

  // ------------------------------------------------------------------------- user rebuild

  /**
   A user rebuild is accepted exactly on a degraded array with a spare, a RAID type that bears losses and no rebuild in
   flight. It asks for the suspended slots, to be resumed, or if there are none for the lost ones, whether or not
   automatic rebuild is on.
   */
  lemma UserRebuildEffect(s: State, env: Env)
    requires Inv(s)
    ensures var r := UserRebuild(s, env);
            && (r.reply.Success? <==> s.spares != [] && Tolerant(s.user) && s.status.OnlineDegraded?)
            && (r.reply == Rejected(NoAvailableSpare) <==> s.spares == [])
            && (r.reply == Rejected(RaidDoesNotSupportSpare) <==> s.spares != [] && !Tolerant(s.user))
            && (r.reply == Rejected(RebuildInProgress) <==> s.spares != [] && Tolerant(s.user) && s.jobs != [])
            && (r.reply == Rejected(ArrayIsNormal) <==>
                s.spares != [] && Tolerant(s.user) && s.jobs == [] && !s.status.OnlineDegraded?)
            && r.s.(queue := s.queue) == s
            && r.s.queue == s.queue + (if !r.reply.Success? then []
                                       else if HasRebuild(s) then [Handler(Indices(s.data, Rebuild), true)]
                                       else [Handler(Indices(s.data, Fault), false)])
  {
    hide Inv, Indices;
    SparesReady(s);
    HasNormal(s.spares);
    assert s.spares != [] ==> s.spares[0].state.Normal?;
    IndicesEmpty(s);
    if s.status.OnlineDegraded? {
      IdleJobs(s);
      DegradedHasTarget(s);
    }
  }

  // ------------------------------------------------------------------------- rebuild events

  /**
   A triggered rebuild is retried exactly while one of its targets still has its device, and otherwise refused unless
   the array is degraded and the rebuilding context arrives; in both cases nothing changes.
   */
  lemma TriggerRefused(s: State, targets: seq<nat>, env: Env)
    requires InRange(targets, |s.data|)
    requires Inv(s)
    ensures var (s', retry) := TriggerRebuild(s, targets, env);
            && (retry <==> exists k :: 0 <= k < |targets| && s.data[targets[k]].ublock.Some?)
            && (retry || targets == [] || !s.status.OnlineDegraded? || !env.stateOk ==> s' == s)
  {
    hide Inv, Fill, Table, RecordDevices;
    SlotsOkOf(s);
  }

  /** A resumed rebuild starts, on exactly the requested slots, when the array is degraded and the context arrives. */
  lemma ResumeEffect(s: State, targets: seq<nat>, env: Env)
    requires Inv(s)
    ensures ResumeRebuild(s, targets, env) ==
            if s.status.OnlineDegraded? && env.stateOk then s.(status := OnlineRebuild, jobs := [Job(targets, [], false)])
            else s
  {
    hide Inv;
    if s.status.OnlineDegraded? {
      IdleJobs(s);
    }
  }

  /** A queued event leaves the queue, and no other does, unless it is to be retried, when nothing changes. */
  lemma ExecuteQueue(s: State, k: nat, env: Env)
    requires k < |s.queue| && InRange(s.queue[k].targets, |s.data|)
    requires Inv(s)
    ensures var h := s.queue[k];
            var retry := !h.isResume && exists d :: 0 <= d < |h.targets| && s.data[h.targets[d]].ublock.Some?;
            && (retry ==> Execute(s, k, env) == s)
            && (!retry ==> Execute(s, k, env).queue == s.queue[..k] + s.queue[k + 1..])
  {
    hide Inv, Fill, Table, RecordDevices;
    SlotsOkOf(s);
  }

  // ------------------------------------------------------------------------- completion

  /** Everything a completed rebuild changes. */
  lemma RebuildDoneEffect(s: State, k: nat, result: RebuildResult, env: Env)
    requires k < |s.jobs| && InRange(s.jobs[k].dsts, |s.data|)
    requires Inv(s)
    ensures var s' := RebuildDone(s, k, result, env);
            && s'.jobs == [] && s'.spares == s.spares && s'.nvm == s.nvm && s'.gone == s.gone
            && |s'.data| == |s.data|
            && (forall i :: 0 <= i < |s.data| ==>
                  s'.data[i] == if result.Pass? && i in s.jobs[k].dsts then Slot(s.data[i].ublock, Normal) else s.data[i])
            && s'.registry.Keys == s.registry.Keys
            && (forall u :: u in s.registry ==>
                  s'.registry[u] == if InSlots(s.jobs[k].srcs, u) then SystemClass else s.registry[u])
            && (s'.status.Broken? <==> Health(s').RaidFailure?)
            && (s'.status.OnlineNormal? <==> IsMounted(s.status) && Health(s').RaidNormal?)
            && (s'.status.OnlineDegraded? <==> IsMounted(s.status) && Health(s').RaidDegraded?)
            && s'.queue == s.queue + (if s'.status.OnlineDegraded? && HasFault(s') && env.autoStart
                                      then [Handler(Indices(s'.data, Fault), false)] else [])
  {
    hide Inv, Release, SetNormal, Combined, Indices, Table, RecordDevices, Bag;
    OneJob(s, k);
    SetNormalSpec(s.data, s.jobs[k].dsts);
    ReleaseSpec(s.registry, s.jobs[k].srcs);
    forall u: Ublock ensures u in Bag(s.jobs[k].srcs) <==> InSlots(s.jobs[k].srcs, u) {
      BagMember(s.jobs[k].srcs, u);
    }
    IndicesEmpty(RebuildDone(s, k, result, env));
  }

  lemma OneJob(s: State, k: nat)
    requires k < |s.jobs|
    requires Inv(s)
    ensures Without(s.jobs, k) == []
  {
    hide Shape, SlotsOk, Exclusive, Accounted, Synced;
  }

  // ------------------------------------------------------------------- mount and unmount

  /** The answers of IsMountable, by number. */
  lemma MountableCodes(s: State)
    requires Inv(s)
    ensures IsMountable(s.status) ==
            if IsMounted(s.status) then 2528 else if Health(s).RaidFailure? then 2530 else 0
  {
    hide Shape, SlotsOk, Exclusive, Accounted, SingleJob, Health;
  }

  /** A mount is refused on a failed or mounted array; otherwise it leaves the array as healthy as it was. */
  lemma InitEffect(s: State, env: Env)
    requires Inv(s)
    ensures var r := Init(s, env);
            && (r.reply.Success? <==> !IsMounted(s.status) && !Health(s).RaidFailure? && env.stateOk)
            && (r.reply == Rejected(NotMountable) <==> IsMounted(s.status) || Health(s).RaidFailure?)
            && (!r.reply.Success? ==> r.s == s && r.reply.Rejected?)
            && (r.reply.Success? ==>
                  && r.s == s.(status := r.s.status, mountDone := false)
                  && r.s.status == if Health(s).RaidNormal? then OnlineNormal else OnlineDegraded)
  {
    hide Shape, SlotsOk, Exclusive, Accounted, SingleJob, Health;
  }

  /** An unmount is refused on an array that is not mounted or rebuilds; otherwise it writes the record. */
  lemma UnmountEffect(s: State, env: Env)
    requires Inv(s)
    ensures var r := Unmount(s, env);
            && (r.reply.Success? <==> IsMounted(s.status) && s.jobs == [])
            && (!r.reply.Success? ==> r.s == s && r.reply == Rejected(NotUnmountable))
            && (r.reply.Success? ==>
                  && r.s == s.(status := r.s.status, pbr := r.s.pbr, mountDone := false)
                  && r.s.status == (if Health(s).RaidNormal? then ExistNormal else ExistDegraded)
                  && (env.pbrOk ==> Agree(r.s)))
  {
    hide Shape, SlotsOk, Exclusive, Accounted, Health, Agree, UpdatePbr;
    UpdateAgreesIf(s, env);
    UpdateOnlyRecords(s, env);
    AgreeFrame(UpdatePbr(s, env), UpdatePbr(s, env).(status := Unmount(s, env).s.status, mountDone := false));
  }

  lemma UpdateOnlyRecords(s: State, env: Env)
    ensures UpdatePbr(s, env).(pbr := s.pbr) == s
  {
    hide Table, RecordDevices;
  }

  /** A mount that ends well asks for the suspended slots, to be resumed, or if there are none for the lost ones. */
  lemma MountDoneEffect(s: State, env: Env)
    requires Inv(s)
    ensures var r := MountDone(s, env);
            && (r.reply.Success? <==> env.pbrOk)
            && r.s.(queue := s.queue, pbr := s.pbr, mountDone := s.mountDone) == s
            && (env.pbrOk ==> r.s.mountDone && Agree(r.s))
            && r.s.queue == s.queue + (if !s.status.OnlineDegraded? || !env.autoStart then []
                                       else if HasRebuild(s) then [Handler(Indices(s.data, Rebuild), true)]
                                       else [Handler(Indices(s.data, Fault), false)])
  {
    hide Inv, Indices, Agree, Table, RecordDevices, NullTarget;
    SlotsOkOf(s);
    IndicesEmpty(s);
    if s.status.OnlineDegraded? {
      DegradedHasTarget(s);
    }
    if env.pbrOk {
      MountDoneAgrees(s, env);
    }
  }

  lemma MountDoneAgrees(s: State, env: Env)
    requires env.pbrOk && !NullTarget(s.data)
    ensures Agree(MountDone(s, env).s)
  {
    hide Requeue, NullTarget, Agree, Table, RecordDevices;
    RequeueFrame(s, env);
    MountDoneRecords(s, env);
  }

  /** A flush writes the record; an attached device is free; an event or a completion that does not abort succeeds. */
  lemma InternalEffect(s: State, e: Event)
    requires Enabled(s, e) && (e.EvFlush? || e.EvAttach? || e.EvExecute? || e.EvRebuildDone?)
    ensures !Step(s, e).reply.Aborted? ==> Step(s, e).reply.Success?
    ensures e.EvFlush? ==> Step(s, e).s.(pbr := s.pbr) == s && (e.env.pbrOk ==> Agree(Step(s, e).s))
    ensures e.EvAttach? ==> Step(s, e).s == s.(registry := s.registry[e.dev := SystemClass])
  {
    hide Agree, Execute, RebuildDone, PassHitsNull, UpdatePbr;
    UpdateAgreesIf(s, e.env);
    UpdateOnlyRecords(s, e.env);
  }

  // ------------------------------------------------------------------------------ records

  /** Exactly the data devices that are not FAULT get the record; every other device keeps what it has. */
  lemma UpdateExactly(s: State, env: Env, u: Ublock)
    ensures var live := exists i :: 0 <= i < |s.data| && !s.data[i].state.Fault? && s.data[i].ublock == Some(u);
            var pbr := UpdatePbr(s, env).pbr;
            && (u in pbr <==> u in s.pbr || (env.pbrOk && live))
            && (u in pbr ==> pbr[u] == if env.pbrOk && live then Table(s) else s.pbr[u])
  {
    hide Table;
  }

  /** The table has one entry for each device: NVM, then data with their positions, then spares. */
  lemma TableAt(s: State, k: nat)
    requires k < |s.nvm + s.data + s.spares|
    ensures |Table(s)| == |s.nvm + s.data + s.spares|
    ensures var slot := (s.nvm + s.data + s.spares)[k];
            && Table(s)[k].serial == slot.ublock && Table(s)[k].state == slot.state
            && (Table(s)[k].kind.NvmKind? <==> k < |s.nvm|)
            && (Table(s)[k].kind.SpareKind? <==> k >= |s.nvm| + |s.data|)
            && (Table(s)[k].kind.DataKind? ==> Table(s)[k].index == k - |s.nvm|)
  {
    var n, d, p := Entries(s.nvm, NvmKind), Entries(s.data, DataKind), Entries(s.spares, SpareKind);
    assert |n| == |s.nvm| && |d| == |s.data| && |p| == |s.spares|;
  }

  // ---------------------------------------------------------------------------------- I/O

  /** Reads of a slot in REBUILD are recovered and writes go to its device; a lost slot is always recovered. */
  lemma NeedRecoveryIff(s: State, i: nat, isRead: bool)
    requires i < |s.data|
    requires Inv(s)
    ensures var r := NeedRecovery(s.data[i], isRead);
            if s.data[i].ublock.None? || (s.data[i].state.Rebuild? && isRead) then r.Recover?
            else r == Submit(s.data[i].ublock.value)
  {
    hide Inv;
    SlotHolds(s, i);
  }

  // -------------------------------------------------------------------------------- import

  /** An imported array is not mounted, has nothing queued and no rebuild in flight. */
  lemma ImportedIdle(meta: RaidType, user: RaidType, record: Record, registry: map<Ublock, DeviceClass>,
                     pbr: map<Ublock, Record>)
    ensures var s := Imported(meta, user, record, registry, pbr);
            && !IsMounted(s.status) && s.queue == [] && s.jobs == [] && !s.mountDone && s.pbr == pbr
            && s.meta == meta && s.user == user && (s.status.Broken? <==> Health(s).RaidFailure?)
  {
    hide Load, Claim, OfKind, Combined;
  }

  /** Which table is refused for what. */
  lemma InspectCodes(nvm: seq<Slot>, data: seq<Slot>, spares: seq<Slot>)
    ensures var r := Inspect(nvm, data, spares);
            && (r.NvmMissing? <==> nvm == [] || nvm[0].ublock.None?)
            && (r.NoDataDevice? <==> !(nvm == [] || nvm[0].ublock.None?) && !SomeNormal(data))
            && (r.DataTooSmall? <==>
                !(nvm == [] || nvm[0].ublock.None?) && SomeNormal(data) && !AtLeast(data, MINIMUM_SSD_SIZE))
  {
    hide Indices, MinimumCapacity, AtLeast;
    HasNormal(data);
    if SomeNormal(data) {
      MinimumIff(data, MINIMUM_SSD_SIZE);
    }
  }
}
