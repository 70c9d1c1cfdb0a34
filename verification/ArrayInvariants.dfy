/** What every step of the array keeps. */
module ArrayInvariants {
  import opened Options
  import opened Raid
  import opened ArrayModel

  // ------------------------------------------------------------- invariants

  /** The block devices that the slots hold, with multiplicity. */
  ghost function SlotBag(s: State): multiset<Ublock> {
    Bag(s.nvm) + Bag(s.data) + Bag(s.spares)
  }

  /** The block devices parked as sources of quick rebuilds. */
  ghost function JobBag(jobs: seq<Job>): multiset<Ublock> {
    if jobs == [] then multiset{} else Bag(jobs[0].srcs) + JobBag(jobs[1..])
  }

  ghost function Owned(s: State): multiset<Ublock> {
    SlotBag(s) + JobBag(s.jobs)
  }

  ghost predicate Distinct(xs: seq<nat>) {
    forall a, b :: 0 <= a < b < |xs| ==> xs[a] != xs[b]
  }

  ghost predicate Ready(slots: seq<Slot>) {
    forall k :: 0 <= k < |slots| ==> slots[k].state.Normal? && slots[k].ublock.Some?
  }

  /** The table is well formed and no queued or running rebuild points outside the data slots. */
  ghost predicate Shape(s: State) {
    && AcceptsCount(s.meta, Span(s.meta, |s.data|))
    && AcceptsCount(s.user, Span(s.user, |s.data|))
    && Ready(s.nvm)
    && Ready(s.spares)
    && (forall k :: 0 <= k < |s.queue| ==> InRange(s.queue[k].targets, |s.data|) && Distinct(s.queue[k].targets))
    && (forall k :: 0 <= k < |s.jobs| ==> InRange(s.jobs[k].dsts, |s.data|))
  }

  /** A data slot has no block device exactly when it is FAULT. */
  ghost predicate SlotsOk(data: seq<Slot>) {
    forall i :: 0 <= i < |data| ==> (data[i].ublock.None? <==> data[i].state.Fault?)
  }

  /** No block device is held twice. */
  ghost predicate Exclusive(owned: multiset<Ublock>) {
    forall u :: owned[u] <= 1
  }

  /** A device the system knows is of class ARRAY exactly while the array holds it; slots hold known devices. */
  ghost predicate Accounted(s: State) {
    && (forall u :: u in s.registry ==> (s.registry[u].ArrayClass? <==> u in Owned(s)))
    && (forall u :: u in SlotBag(s) ==> u in s.registry)
    && (forall u :: u in JobBag(s.jobs) ==> u in s.registry || u in s.gone)
    && (forall u :: u in s.gone ==> u !in s.registry)
  }

  /** The array state reports the health of the data slots. */
  ghost predicate Synced(s: State) {
    match s.status
    case ExistNormal | OnlineNormal => Health(s).RaidNormal?
    case ExistDegraded | OnlineDegraded | OnlineRebuild => Health(s).RaidDegraded?
    case Broken => Health(s).RaidFailure?
  }

  /** At most one rebuild is in flight, and short of RAID failure exactly while the array is in REBUILD. */
  ghost predicate SingleJob(s: State) {
    && |s.jobs| <= 1
    && (s.status.OnlineRebuild? ==> |s.jobs| == 1)
    && (|s.jobs| == 1 ==> s.status.OnlineRebuild? || s.status.Broken?)
  }

  ghost predicate Inv(s: State) {
    && Shape(s)
    && SlotsOk(s.data)
    && Exclusive(Owned(s))
    && Accounted(s)
    && Synced(s)
    && SingleJob(s)
  }

  // ------------------------------------------------------ bags of block devices

  lemma {:induction false} BagAppend(a: seq<Slot>, b: seq<Slot>)
    ensures Bag(a + b) == Bag(a) + Bag(b)
  {
    if a == [] {
      assert a + b == b;
    } else {
      assert (a + b)[1..] == a[1..] + b;
      BagAppend(a[1..], b);
    }
  }

  lemma BagOne(x: Slot)
    ensures Bag([x]) == Content(x)
  {
    assert [x][1..] == [];
    assert Bag([x]) == Content(x) + multiset{};
  }

  lemma BagSplit(slots: seq<Slot>, k: nat)
    requires k < |slots|
    ensures Bag(slots) == Bag(slots[..k]) + Content(slots[k]) + Bag(slots[k + 1..])
  {
    hide Bag, Content;
    var front, one, back := slots[..k], [slots[k]], slots[k + 1..];
    assert slots == front + (one + back);
    BagAppend(front, one + back);
    BagAppend(one, back);
    BagOne(slots[k]);
    assert Bag(front) + (Content(slots[k]) + Bag(back)) == Bag(front) + Content(slots[k]) + Bag(back);
  }

  lemma BagUpdate(slots: seq<Slot>, k: nat, x: Slot)
    requires k < |slots|
    ensures Bag(slots[k := x]) + Content(slots[k]) == Bag(slots) + Content(x)
  {
    BagSplit(slots, k);
    BagSplit(slots[k := x], k);
    assert slots[k := x][..k] == slots[..k] && slots[k := x][k + 1..] == slots[k + 1..];
  }

  lemma BagWithout(slots: seq<Slot>, k: nat)
    requires k < |slots|
    ensures Bag(Without(slots, k)) + Content(slots[k]) == Bag(slots)
  {
    BagSplit(slots, k);
    BagAppend(slots[..k], slots[k + 1..]);
  }

  lemma BagPush(slots: seq<Slot>, x: Slot)
    ensures Bag(slots + [x]) == Bag(slots) + Content(x)
  {
    BagAppend(slots, [x]);
  }

  lemma {:induction false} BagMember(slots: seq<Slot>, u: Ublock)
    ensures u in Bag(slots) <==> exists k :: 0 <= k < |slots| && slots[k].ublock == Some(u)
  {
    if k :| 0 <= k < |slots| && slots[k].ublock == Some(u) {
      BagSplit(slots, k);
    } else if slots != [] {
      BagMember(slots[1..], u);
    }
  }

  lemma {:induction false} JobBagWithout(jobs: seq<Job>, k: nat)
    requires k < |jobs|
    ensures JobBag(Without(jobs, k)) + Bag(jobs[k].srcs) == JobBag(jobs)
  {
    if k == 0 {
      assert Without(jobs, 0) == jobs[1..];
    } else {
      assert Without(jobs, k)[1..] == Without(jobs[1..], k - 1);
      JobBagWithout(jobs[1..], k - 1);
    }
  }

  lemma {:induction false} JobBagStop(jobs: seq<Job>)
    ensures JobBag(StopJobs(jobs)) == JobBag(jobs)
  {
    if jobs != [] {
      assert StopJobs(jobs)[1..] == StopJobs(jobs[1..]);
      JobBagStop(jobs[1..]);
    }
  }

  lemma OneJobBag(job: Job)
    ensures JobBag([job]) == Bag(job.srcs)
  {
    assert [job][1..] == [];
  }

  /** Looking a name up in the whole vector finds the unique slot that holds it. */
  lemma FindHolder(s: State, u: Ublock)
    ensures FindName(s.nvm + s.data + s.spares, Some(u)) < |s.nvm + s.data + s.spares| <==> u in SlotBag(s)
  {
    var all := s.nvm + s.data + s.spares;
    BagMember(all, u);
    BagAppend(s.nvm + s.data, s.spares);
    BagAppend(s.nvm, s.data);
  }

  // ------------------------------------------------------------ small frames

  lemma StatesUpdate(data: seq<Slot>, i: nat, x: Slot)
    requires i < |data|
    ensures States(data[i := x]) == States(data)[i := x.state]
  {
  }

  /** Recomputing the array state from the health of the slots always leaves the two in agreement. */
  lemma SyncHealthSyncs(s: State)
    ensures Synced(SyncHealth(s))
    ensures !SyncHealth(s).status.OnlineRebuild?
  {
  }

  lemma PbrKeeps(s: State, env: Env)
    requires Inv(s)
    ensures Inv(UpdatePbr(s, env))
  {
    hide Bag, JobBag, Combined, Table, RecordDevices;
  }

  lemma InvokeKeeps(s: State, targets: seq<nat>, isResume: bool, force: bool, env: Env)
    requires Inv(s) && InRange(targets, |s.data|) && Distinct(targets)
    ensures Inv(InvokeRebuild(s, targets, isResume, force, env))
  {
    hide Bag, JobBag, Combined, InRange, Distinct;
  }

  // --------------------------------------------------------- spare swap laws

  ghost function PoolBag(p: Pool): multiset<Ublock> {
    Bag(p.data) + Bag(p.spares)
  }

  lemma Cancel(a: multiset<Ublock>, b: multiset<Ublock>, c: multiset<Ublock>)
    requires a + c == b + c
    ensures a == b
  {
    forall u: Ublock ensures a[u] == b[u] {
      assert (a + c)[u] == (b + c)[u];
    }
  }

  lemma SwapSum(d: multiset<Ublock>, d': multiset<Ublock>, p: multiset<Ublock>, p': multiset<Ublock>,
                c: multiset<Ublock>, x: multiset<Ublock>)
    requires d' + c == d + x && p' + x == p
    ensures d' + p' + c == d + p
  {
    forall u: Ublock ensures (d' + p' + c)[u] == (d + p)[u] {
      assert (d' + c)[u] == (d + x)[u] && (p' + x)[u] == p[u];
    }
  }

  /** The swap moves block devices around and loses none: what leaves the slots is what the spare walks out with. */
  lemma SwapConserves(p: Pool, i: nat)
    requires i < |p.data| && SpareToData(p, i).Some?
    ensures PoolBag(SpareToData(p, i).value.0) + Content(SpareToData(p, i).value.1) == PoolBag(p)
  {
    var k := FirstNormal(p.spares);
    var x := p.data[i].(ublock := p.spares[k].ublock);
    BagUpdate(p.data, i, x);
    BagWithout(p.spares, k);
    SwapSum(Bag(p.data), Bag(p.data[i := x]), Bag(p.spares), Bag(Without(p.spares, k)), Content(p.data[i]), Content(x));
  }

  /** What one turn of the loop of TriggerRebuild leaves, on an unplugged target while spares remain. */
  ghost function Filled(p: Pool, t: nat): Pool
    requires t < |p.data| && p.spares != []
  {
    Pool(p.data[t := Slot(p.spares[0].ublock, Rebuild)], p.spares[1..])
  }

  lemma FillOne(p: Pool, targets: seq<nat>)
    requires targets != [] && InRange(targets, |p.data|) && Unplugged(p.data[targets[0]])
    requires Ready(p.spares) && p.spares != []
    ensures Fill(p, targets) ==
            var (p2, kept) := Fill(Filled(p, targets[0]), targets[1..]); (p2, [targets[0]] + kept)
  {
    var t := targets[0];
    assert FirstNormal(p.spares) == 0;
    assert Without(p.spares, 0) == p.spares[1..];
    var p1 := SpareToData(p, t).value.0;
    assert p1.data[t := p1.data[t].(state := Rebuild)] == Filled(p, t).data;
  }

  lemma FilledConserves(p: Pool, t: nat)
    requires t < |p.data| && Unplugged(p.data[t]) && p.spares != []
    ensures PoolBag(Filled(p, t)) == PoolBag(p)
  {
    var x := Slot(p.spares[0].ublock, Rebuild);
    BagUpdate(p.data, t, x);
    assert Content(p.data[t]) == multiset{};
    assert Content(x) == Content(p.spares[0]);
    var d, d', rest := Bag(p.data), Bag(p.data[t := x]), Bag(p.spares[1..]);
    assert d' == d' + Content(p.data[t]) == d + Content(x);
    assert d' + rest == d + (Content(x) + rest);
  }

  lemma TakeCons<T>(xs: seq<T>, m: nat)
    requires 0 < m <= |xs|
    ensures xs[..m] == [xs[0]] + xs[1..][..m - 1]
    ensures xs[1..][m - 1..] == xs[m..]
  {
  }

  /** The smaller of two counts. */
  function Min(a: nat, b: nat): nat {
    if a < b then a else b
  }

  ghost predicate Fillable(p: Pool, targets: seq<nat>) {
    && InRange(targets, |p.data|)
    && Distinct(targets)
    && Ready(p.spares)
    && forall k :: 0 <= k < |targets| ==> Unplugged(p.data[targets[k]])
  }

  lemma FillableRest(p: Pool, targets: seq<nat>)
    requires Fillable(p, targets) && targets != [] && p.spares != []
    ensures Fillable(Filled(p, targets[0]), targets[1..])
  {
    var rest := targets[1..];
    assert forall k :: 0 <= k < |rest| ==> rest[k] == targets[k + 1] && rest[k] != targets[0];
  }

  lemma {:induction false} FillNone(p: Pool, targets: seq<nat>)
    requires InRange(targets, |p.data|) && (targets == [] || p.spares == [])
    ensures Fill(p, targets) == (p, [])
    decreases targets
  {
    if targets != [] {
      FillNone(p, targets[1..]);
    }
  }

  /** The loop keeps exactly the first targets, as many as there are spares, and uses up that many spares. */
  lemma {:induction false} FillKeeps(p: Pool, targets: seq<nat>)
    requires Fillable(p, targets)
    ensures Fill(p, targets).1 == targets[..Min(|targets|, |p.spares|)]
    ensures Fill(p, targets).0.spares == p.spares[Min(|targets|, |p.spares|)..]
    decreases targets
  {
    hide Fill;
    if targets == [] || p.spares == [] {
      FillNone(p, targets);
    } else {
      FillOne(p, targets);
      FillableRest(p, targets);
      FillKeeps(Filled(p, targets[0]), targets[1..]);
      TakeCons(targets, Min(|targets|, |p.spares|));
      TakeCons(p.spares, Min(|targets|, |p.spares|));
    }
  }

  /** The loop loses no block device: the spares it deletes walk out empty. */
  lemma {:induction false} FillConserves(p: Pool, targets: seq<nat>)
    requires Fillable(p, targets)
    ensures PoolBag(Fill(p, targets).0) == PoolBag(p)
    decreases targets
  {
    hide Fill, PoolBag;
    if targets == [] || p.spares == [] {
      FillNone(p, targets);
    } else {
      FillOne(p, targets);
      FillableRest(p, targets);
      FilledConserves(p, targets[0]);
      FillConserves(Filled(p, targets[0]), targets[1..]);
    }
  }

  /**
   Target k goes to REBUILD on the block device of spare k, for as many k as there are spares; no other
   slot changes.
   */
  lemma {:induction false} FillSlots(p: Pool, targets: seq<nat>)
    requires Fillable(p, targets)
    ensures var m := Min(|targets|, |p.spares|);
            var after := Fill(p, targets).0.data;
            && (forall j :: 0 <= j < |p.data| && j !in targets[..m] ==> after[j] == p.data[j])
            && (forall k :: 0 <= k < m ==> after[targets[k]] == Slot(p.spares[k].ublock, Rebuild))
    decreases targets
  {
    hide Fill;
    if targets == [] || p.spares == [] {
      FillNone(p, targets);
    } else {
      FillOne(p, targets);
      FillableRest(p, targets);
      var rest, m := targets[1..], Min(|targets|, |p.spares|);
      FillSlots(Filled(p, targets[0]), rest);
      TakeCons(targets, m);
      assert targets[0] !in rest;
      assert forall k :: 0 < k < m ==> targets[k] == rest[k - 1];
    }
  }
}
