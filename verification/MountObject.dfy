/** The mount sequence as an object: iterator loops, the rollback loop, two progress objects. */
module MountObject {
  import opened Int32
  import opened MountProgress
  import opened MountSequence

  /** The estimates of the components n - 1, n - 2, ..., lo. */
  function BackToFront(est: seq<nat>, lo: nat): seq<nat>
    requires lo <= |est|
  {
    seq(|est| - lo, i requires 0 <= i < |est| - lo => est[|est| - 1 - i])
  }

  lemma {:induction false} SumBackToFront(est: seq<nat>, lo: nat)
    requires lo <= |est|
    ensures Sum(BackToFront(est, lo)) == Sum(est[lo..])
    decreases |est| - lo
  {
    if lo < |est| {
      SumBackToFront(est, lo + 1);
      assert BackToFront(est, lo)[..|est| - lo - 1] == BackToFront(est, lo + 1);
      assert est[lo..] == [est[lo]] + est[lo + 1..];
      SumAppend([est[lo]], est[lo + 1..]);
      assert Sum([est[lo]]) == est[lo] by { assert [est[lo]][..0] == []; }
    }
  }

  /** The updates a mount makes when `tried` components have been initialised. */
  function MountUpdates(est: seq<nat>, tried: nat): seq<nat>
    requires tried <= |est|
  {
    [MOUNT_OVERHEAD] + est[..tried]
  }

  /** The updates an unmount makes when the front component occurs last at position `front`. */
  function UnmountUpdates(est: seq<nat>, front: nat): seq<nat>
    requires front < |est|
  {
    [UNMOUNT_OVERHEAD] + BackToFront(est, front + 1) + [est[0]]
  }

  /** What the constructor computes for a progress object. */
  function Total(overhead: nat, est: seq<nat>): nat {
    overhead + Sum(est)
  }

  lemma SumOne(x: nat, xs: seq<nat>)
    ensures Sum([x] + xs) == x + Sum(xs)
  {
    SumAppend([x], xs);
    assert [x][..0] == [];
  }

  /** A successful mount of components with constant estimates reports a rising percentage that ends at 100. */
  lemma MountReports(est: seq<nat>)
    requires Total(MOUNT_OVERHEAD, est) * 100 <= INT32_MAX
    ensures var total := Total(MOUNT_OVERHEAD, est);
            var r := Reports(Wrap32(total), MountUpdates(est, |est|));
            && r[|r| - 1] == 100
            && (forall k :: 0 <= k < |r| ==> 0 <= r[k] <= 100)
            && (forall a, b :: 0 <= a <= b < |r| ==> r[a] <= r[b])
  {
    hide Wrap32, Percent;
    var total, updates := Total(MOUNT_OVERHEAD, est), MountUpdates(est, |est|);
    assert est[..|est|] == est && updates[..|updates|] == updates;
    SumOne(MOUNT_OVERHEAD, est);
    WrapFacts(total);
    ReportsMonotone(total, updates);
    CompleteIs100Iff(total);
  }

  /** The same for a successful unmount of distinct components. */
  lemma UnmountReports(est: seq<nat>)
    requires est != [] && Total(UNMOUNT_OVERHEAD, est) * 100 <= INT32_MAX
    ensures var total := Total(UNMOUNT_OVERHEAD, est);
            var r := Reports(Wrap32(total), UnmountUpdates(est, 0));
            && r[|r| - 1] == 100
            && (forall k :: 0 <= k < |r| ==> 0 <= r[k] <= 100)
            && (forall a, b :: 0 <= a <= b < |r| ==> r[a] <= r[b])
  {
    hide Wrap32, Percent;
    var total, updates := Total(UNMOUNT_OVERHEAD, est), UnmountUpdates(est, 0);
    SumBackToFront(est, 1);
    SumOne(UNMOUNT_OVERHEAD, BackToFront(est, 1));
    SumOne(est[0], est[1..]);
    assert est == [est[0]] + est[1..];
    assert updates[..|updates| - 1] == [UNMOUNT_OVERHEAD] + BackToFront(est, 1) && updates[..|updates|] == updates;
    assert Sum(updates) == total;
    WrapFacts(total);
    ReportsMonotone(total, updates);
    CompleteIs100Iff(total);
  }

  class ArrayMountSequence {
    const components: seq<Component>
    const estMount: seq<nat>
    const estUnmount: seq<nat>
    const mountProgress: ArrayMountProgress
    const unmountProgress: ArrayMountProgress
    var contexts: set<Situation>
    /** Every call made to a component so far. */
    ghost var log: seq<Call>

    ghost predicate Valid() {
      && components != [] && |estMount| == |estUnmount| == |components|
      && mountProgress != unmountProgress
      && mountProgress.total == Wrap32(Total(MOUNT_OVERHEAD, estMount))
      && unmountProgress.total == Wrap32(Total(UNMOUNT_OVERHEAD, estUnmount))
    }

    ghost function Model(): State
      reads this
    {
      State(contexts, log)
    }

    constructor (components: seq<Component>, estMount: seq<nat>, estUnmount: seq<nat>)
      requires components != [] && |estMount| == |estUnmount| == |components|
      ensures Valid() && Model() == State({}, []) && this.components == components
      ensures this.estMount == estMount && this.estUnmount == estUnmount
    {
      var mountTotal, unmountTotal := MOUNT_OVERHEAD, UNMOUNT_OVERHEAD;
      for i := 0 to |components|
        invariant mountTotal == Total(MOUNT_OVERHEAD, estMount[..i])
        invariant unmountTotal == Total(UNMOUNT_OVERHEAD, estUnmount[..i])
      {
        assert estMount[..i + 1][..i] == estMount[..i] && estUnmount[..i + 1][..i] == estUnmount[..i];
        mountTotal, unmountTotal := mountTotal + estMount[i], unmountTotal + estUnmount[i];
      }
      assert estMount[..|components|] == estMount && estUnmount[..|components|] == estUnmount;
      this.components, this.estMount, this.estUnmount := components, estMount, estUnmount;
      mountProgress := new ArrayMountProgress(Wrap32(mountTotal));
      unmountProgress := new ArrayMountProgress(Wrap32(unmountTotal));
      contexts, log := {}, [];
    }

    /** Initialises component `it` and reports its estimate. */
    method InitOne(it: nat, ok: bool, ghost done: seq<nat>)
      requires Valid() && it < |components| && mountProgress.progress == Wrap32(Sum(done))
      modifies this`log, mountProgress
      ensures log == old(log) + [Init(it, ok)]
      ensures mountProgress.progress == Wrap32(Sum(done + [estMount[it]]))
      ensures mountProgress.reports == old(mountProgress.reports) + [Percent(mountProgress.progress, mountProgress.total)]
    {
      hide Wrap32, Percent;
      log := log + [Init(it, ok)];
      mountProgress.Update(estMount[it]);
      assert (done + [estMount[it]])[..|done|] == done;
      WrapAdd(Sum(done), estMount[it]);
    }

    /** The error exit of Mount: from the failing component back to the first. */
    method Rollback(failed: nat)
      requires failed < |components|
      modifies this`log
      ensures log == old(log) + Disposes(0, failed + 1)
    {
      var it: nat := failed;
      while true
        invariant it <= failed
        invariant log == old(log) + Disposes(it + 1, failed + 1)
        decreases it
      {
        log := log + [Dispose(it)];
        assert Disposes(it, failed + 1) == Disposes(it + 1, failed + 1) + [Dispose(it)];
        if it == 0 {
          break;
        }
        it := it - 1;
      }
    }

    /** The loop of Mount over the components: `tried` is how many were initialised, the last one with result `ok`. */
    method InitAll(results: seq<bool>) returns (tried: nat, ok: bool)
      requires Valid() && |results| == |components|
      modifies this`log, mountProgress
      ensures tried <= |components| && ok == (FirstFailure(results) == |components|)
      ensures tried == if ok then |components| else FirstFailure(results) + 1
      ensures log == old(log) + if ok then Inits(tried) else Inits(tried - 1) + [Init(tried - 1, false)]
      ensures mountProgress.reports == old(mountProgress.reports) + Reports(mountProgress.total, MountUpdates(estMount, tried))
    {
      hide Wrap32, Percent, FirstFailure, Valid, Reports, Inits, MountUpdates, Sum;
      ValidLengths();
      ghost var total := mountProgress.total;
      NoUpdates(total);
      mountProgress.Set();
      mountProgress.Update(MOUNT_OVERHEAD);
      FirstUpdate(total);
      tried, ok := 0, true;
      UpdatesPush(estMount, 0);
      InitsPush(0);
      while tried < |components| && ok
        invariant 0 <= tried <= |components| && |results| == |components| == |estMount|
        invariant ok ==> forall j :: 0 <= j < tried ==> results[j]
        invariant !ok ==> 0 < tried && FirstFailure(results) == tried - 1
        invariant log == old(log) + if ok then Inits(tried) else Inits(tried - 1) + [Init(tried - 1, false)]
        invariant mountProgress.progress == Wrap32(Sum(MountUpdates(estMount, tried)))
        invariant mountProgress.reports == old(mountProgress.reports) + Reports(total, MountUpdates(estMount, tried))
        decreases |components| - tried, ok
      {
        ghost var done := MountUpdates(estMount, tried);
        ok := results[tried];
        InitOne(tried, ok, done);
        ReportsPush(total, done, estMount[tried]);
        SumPush(done, estMount[tried]);
        UpdatesPush(estMount, tried);
        InitsPush(tried);
        FirstFailureIs(results, tried);
        tried := tried + 1;
      }
      if ok {
        FirstFailureIs(results, |results|);
      }
    }

    method Mount(results: seq<bool>, reached: bool) returns (reply: Reply)
      requires Valid() && |results| == |components|
      modifies this, mountProgress
      ensures Valid()
      ensures Model() == MountStep(old(Model()), results, reached)
      ensures reply ==
              if FaultCtx in old(contexts) then BrokenArray
              else if old(contexts) != {} then AlreadyMounted
              else if !reached then StateNotReached
              else if FirstFailure(results) == |results| then Done
              else InitFailed
      ensures mountProgress.reports == old(mountProgress.reports) +
              if old(contexts) != {} || !reached then []
              else Reports(mountProgress.total,
                           MountUpdates(estMount, if reply.Done? then |components| else FirstFailure(results) + 1))
    {
      hide Wrap32, Percent, Reports, FirstFailure, Inits, Disposes, MountUpdates;
      if FaultCtx in contexts {
        return BrokenArray;
      }
      if contexts != {} {
        return AlreadyMounted;
      }
      contexts := contexts + {TryMount};
      if !reached {
        Rollback(0);
        DisposesPush(0, 1);
        contexts := contexts - {TryMount};
        mountProgress.Reset();
        return StateNotReached;
      }
      var tried, ok := InitAll(results);
      if ok {
        contexts := contexts + {NormalCtx};
        contexts := contexts - {TryMount};
        mountProgress.Reset();
        return Done;
      }
      Rollback(tried - 1);
      contexts := contexts - {TryMount};
      mountProgress.Reset();
      return InitFailed;
    }

    method Unmount(reached: bool) returns (reply: Reply)
      requires Valid()
      modifies this, unmountProgress
      ensures Valid()
      ensures Model() == UnmountStep(components, old(Model()), reached)
      ensures reply ==
              if FaultCtx in old(contexts) then BrokenArray
              else if old(contexts) == {} then AlreadyUnmounted
              else if !reached then StateNotReached
              else Done
      ensures unmountProgress.reports == old(unmountProgress.reports) +
              if reply.Done? then Reports(unmountProgress.total, UnmountUpdates(estUnmount, LastFront(components))) else []
    {
      hide Wrap32, Percent, Reports, LastFront;
      if FaultCtx in contexts {
        return BrokenArray;
      }
      if contexts == {} {
        return AlreadyUnmounted;
      }
      contexts := contexts + {TryUnmount};
      if !reached {
        contexts := contexts - {TryUnmount};
        return StateNotReached;
      }
      DisposeAll();
      contexts := contexts - {NormalCtx};
      contexts := contexts - {TryUnmount};
      unmountProgress.Reset();
      return Done;
    }

    /** The reverse loop of Unmount, which stops at the front component, and the front component after it. */
    method DisposeAll()
      requires Valid()
      modifies this`log, unmountProgress
      ensures log == old(log) + UnmountCalls(components)
      ensures unmountProgress.reports == old(unmountProgress.reports) +
              Reports(unmountProgress.total, UnmountUpdates(estUnmount, LastFront(components)))
    {
      hide Wrap32, Percent, Reports, LastFront, Valid, Disposes, BackToFront, Sum;
      ValidLengths();
      DisposesPush(0, |components|);
      BackPush(estUnmount, 0);
      ghost var total, front := unmountProgress.total, LastFront(components);
      NoUpdates(total);
      unmountProgress.Set();
      log := log + [DetachVolumes];
      unmountProgress.Update(UNMOUNT_OVERHEAD);
      FirstUpdate(total);
      var it := |components|;
      ghost var done := [UNMOUNT_OVERHEAD];
      while it > 0 && components[it - 1] != components[0]
        invariant front < it <= |components| == |estUnmount|
        invariant log == old(log) + [DetachVolumes] + Disposes(it, |components|)
        invariant done == [UNMOUNT_OVERHEAD] + BackToFront(estUnmount, it)
        invariant unmountProgress.progress == Wrap32(Sum(done))
        invariant unmountProgress.reports == old(unmountProgress.reports) + Reports(total, done)
        decreases it
      {
        it := it - 1;
        log := log + [Dispose(it)];
        unmountProgress.Update(estUnmount[it]);
        WrapAdd(Sum(done), estUnmount[it]);
        SumPush(done, estUnmount[it]);
        ReportsPush(total, done, estUnmount[it]);
        DisposesPush(it, |components|);
        BackPush(estUnmount, it);
        done := done + [estUnmount[it]];
      }
      assert it == front + 1;
      log := log + [Flush(0)];
      log := log + [Dispose(0)];
      unmountProgress.Update(estUnmount[0]);
      WrapAdd(Sum(done), estUnmount[0]);
      ReportsPush(total, done, estUnmount[0]);
    }

    lemma ValidLengths()
      requires Valid()
      ensures components != [] && |estMount| == |estUnmount| == |components|
    {
    }

    /** The array broke: Shutdown and _FlushMountSequence run if it was up. */
    method Break()
      requires Valid()
      modifies this
      ensures Valid()
      ensures Model() == BreakStep(|components|, old(Model()))
    {
      var wasUp := contexts != {} && FaultCtx !in contexts;
      contexts := contexts + {FaultCtx};
      if wasUp {
        log := log + [DetachVolumes];
        ShutdownAll();
        FlushAll();
      }
    }

    method ShutdownAll()
      modifies this`log
      ensures log == old(log) + Shutdowns(|components|)
    {
      var n := |components|;
      for cnt := 0 to n
        invariant log == old(log) + Shutdowns(n)[..cnt]
      {
        log := log + [Shutdown(n - 1 - cnt)];
        assert Shutdowns(n)[..cnt + 1] == Shutdowns(n)[..cnt] + [Shutdown(n - 1 - cnt)];
      }
    }

    method FlushAll()
      modifies this`log
      ensures log == old(log) + Flushes(|components|)
    {
      var n := |components|;
      for cnt := 0 to n
        invariant log == old(log) + Flushes(n)[..cnt]
      {
        log := log + [Flush(n - 1 - cnt)];
        assert Flushes(n)[..cnt + 1] == Flushes(n)[..cnt] + [Flush(n - 1 - cnt)];
      }
    }
  }

  lemma FirstFailureIs(results: seq<bool>, k: nat)
    requires k <= |results| && forall j :: 0 <= j < k ==> results[j]
    ensures (k == |results| || !results[k]) ==> FirstFailure(results) == k
  {
  }

  lemma InitsPush(k: nat)
    ensures Inits(0) == [] && Inits(k + 1) == Inits(k) + [Init(k, true)]
  {
  }

  lemma UpdatesPush(est: seq<nat>, k: nat)
    requires k <= |est|
    ensures MountUpdates(est, 0) == [MOUNT_OVERHEAD]
    ensures k < |est| ==> MountUpdates(est, k + 1) == MountUpdates(est, k) + [est[k]]
  {
  }

  lemma DisposesPush(lo: nat, hi: nat)
    requires lo < hi
    ensures Disposes(hi, hi) == [] && Disposes(lo, hi) == Disposes(lo + 1, hi) + [Dispose(lo)]
  {
  }

  lemma BackPush(est: seq<nat>, lo: nat)
    requires lo < |est|
    ensures BackToFront(est, |est|) == [] && BackToFront(est, lo) == BackToFront(est, lo + 1) + [est[lo]]
  {
  }

  lemma SumPush(xs: seq<nat>, x: nat)
    ensures Sum(xs + [x]) == Sum(xs) + x
  {
    assert (xs + [x])[..|xs|] == xs;
  }

  lemma NoUpdates(total: int)
    ensures Reports(total, []) == [Percent(0, total)]
  {
  }

  lemma FirstUpdate(total: int)
    ensures Reports(total, [MOUNT_OVERHEAD]) == [Percent(0, total), Percent(Wrap32(MOUNT_OVERHEAD), total)]
    ensures Reports(total, [UNMOUNT_OVERHEAD]) == [Percent(0, total), Percent(Wrap32(UNMOUNT_OVERHEAD), total)]
    ensures Sum([MOUNT_OVERHEAD]) == MOUNT_OVERHEAD && Sum([UNMOUNT_OVERHEAD]) == UNMOUNT_OVERHEAD
  {
    NoUpdates(total);
    ReportsPush(total, [], MOUNT_OVERHEAD);
    ReportsPush(total, [], UNMOUNT_OVERHEAD);
    assert [] + [MOUNT_OVERHEAD] == [MOUNT_OVERHEAD] && [] + [UNMOUNT_OVERHEAD] == [UNMOUNT_OVERHEAD];
    assert [MOUNT_OVERHEAD][..0] == [] && [UNMOUNT_OVERHEAD][..0] == [];
  }

  /** The share of `x` in the total, in percent. */
  ghost function Share(x: nat, total: nat): int
    requires total > 0
  {
    x * 100 / total
  }

  lemma ReportAt(total: nat, updates: seq<nat>, k: nat, x: nat)
    requires 0 < total && total * 100 <= INT32_MAX && k <= |updates| && Sum(updates[..k]) == x <= total
    ensures |Reports(Wrap32(total), updates)| == |updates| + 1 && Reports(Wrap32(total), updates)[k] == Share(x, total)
  {
    hide Wrap32, Percent, Sum;
    WrapFacts(total);
    WrapFacts(x);
    PercentExact(x, total);
  }

  lemma NoShare(total: nat)
    requires total > 0
    ensures Share(0, total) == 0
  {
    DivUnique(0, total, 0);
  }

  lemma MountSumAt(est: seq<nat>, j: nat)
    requires j <= |est|
    ensures Sum(MountUpdates(est, |est|)[..j + 1]) == 1 + Sum(est[..j]) <= 1 + Sum(est)
  {
    assert est[..|est|] == est && MountUpdates(est, |est|)[..j + 1] == [MOUNT_OVERHEAD] + est[..j];
    SumOne(MOUNT_OVERHEAD, est[..j]);
    SumMonotone(est, j, |est|);
  }

  /** After the j-th Init the report is the share of the overhead and the first j estimates. */
  lemma MountReportAt(est: seq<nat>, j: nat)
    requires Total(MOUNT_OVERHEAD, est) * 100 <= INT32_MAX && j <= |est|
    ensures var r := Reports(Wrap32(Total(MOUNT_OVERHEAD, est)), MountUpdates(est, |est|));
            |r| == |est| + 2 && r[0] == 0 && r[j + 1] == Share(1 + Sum(est[..j]), 1 + Sum(est))
  {
    hide Wrap32, Percent, Share, Reports;
    var updates := MountUpdates(est, |est|);
    MountSumAt(est, j);
    ReportAt(1 + Sum(est), updates, j + 1, 1 + Sum(est[..j]));
    assert updates[..0] == [];
    ReportAt(1 + Sum(est), updates, 0, 0);
    NoShare(1 + Sum(est));
  }

  lemma UnmountSumAt(est: seq<nat>, j: nat)
    requires j < |est|
    ensures Sum(UnmountUpdates(est, 0)[..j + 1]) == 60 + Sum(est[|est| - j..]) <= 60 + Sum(est)
  {
    hide Sum;
    var n := |est|;
    assert BackToFront(est, 1)[..j] == BackToFront(est, n - j);
    assert UnmountUpdates(est, 0)[..j + 1] == [UNMOUNT_OVERHEAD] + BackToFront(est, n - j);
    SumOne(UNMOUNT_OVERHEAD, BackToFront(est, n - j));
    SumBackToFront(est, n - j);
    SumAppend(est[..n - j], est[n - j..]);
    assert est == est[..n - j] + est[n - j..];
  }

  /** After the j-th component from the back the report is the share of the overhead and the last j estimates. */
  lemma UnmountReportAt(est: seq<nat>, j: nat)
    requires est != [] && Total(UNMOUNT_OVERHEAD, est) * 100 <= INT32_MAX && j < |est|
    ensures var r := Reports(Wrap32(Total(UNMOUNT_OVERHEAD, est)), UnmountUpdates(est, 0));
            |r| == |est| + 2 && r[0] == 0 && r[j + 1] == Share(60 + Sum(est[|est| - j..]), 60 + Sum(est))
  {
    hide Wrap32, Percent, Share, Reports;
    var updates := UnmountUpdates(est, 0);
    UnmountSumAt(est, j);
    ReportAt(60 + Sum(est), updates, j + 1, 60 + Sum(est[|est| - j..]));
    assert updates[..0] == [];
    ReportAt(60 + Sum(est), updates, 0, 0);
    NoShare(60 + Sum(est));
  }
}
