/** The RAID health rules of src/array/ft and the partition manager that combines them. */
module Raid {

  datatype DeviceState = Normal | Fault | Rebuild

  datatype RaidState = RaidNormal | RaidDegraded | RaidFailure

  datatype RaidType = RaidNone | Raid0 | Raid5 | Raid10 | Raid6

  /** The number of devices that are not NORMAL. */
  function Abnormal(devs: seq<DeviceState>): nat {
    if devs == [] then 0 else (if devs[0].Normal? then 0 else 1) + Abnormal(devs[1..])
  }

  function Mirror(devs: nat, i: nat): nat
    requires i < devs && devs % 2 == 0
  {
    if i >= devs / 2 then i - devs / 2 else i + devs / 2
  }

  /** What one RAID method reports for the states of the devices it covers. */
  function MethodState(raid: RaidType, devs: seq<DeviceState>): RaidState
    requires raid.Raid10? ==> |devs| % 2 == 0
  {
    match raid
    case RaidNone | Raid0 => if Abnormal(devs) == 0 then RaidNormal else RaidFailure
    case Raid5 => if Abnormal(devs) == 0 then RaidNormal else if Abnormal(devs) == 1 then RaidDegraded else RaidFailure
    case Raid6 => if Abnormal(devs) == 0 then RaidNormal else if Abnormal(devs) <= 2 then RaidDegraded else RaidFailure
    case Raid10 =>
      if exists i :: 0 <= i < |devs| && !devs[i].Normal? && !devs[Mirror(|devs|, i)].Normal? then RaidFailure
      else if exists i :: 0 <= i < |devs| && !devs[i].Normal? then RaidDegraded
      else RaidNormal
  }

  /** The number of leading devices a partition uses: RAID10 drops the last one of an odd set. */
  function Span(raid: RaidType, n: nat): nat {
    if raid.Raid10? && n % 2 == 1 then n - 1 else n
  }

  /** The device counts a RAID method accepts once the partition has dropped its odd device. */
  predicate AcceptsCount(raid: RaidType, n: nat) {
    match raid
    case RaidNone => n == 1
    case Raid0 | Raid10 => n >= 2
    case Raid5 => n >= 3
    case Raid6 => n >= 4
  }

  function PartitionState(raid: RaidType, devs: seq<DeviceState>): RaidState {
    MethodState(raid, devs[..Span(raid, |devs|)])
  }

  function Rank(rs: RaidState): nat {
    match rs case RaidNormal => 0 case RaidDegraded => 1 case RaidFailure => 2
  }

  /** The state of the array: the worse of its metadata and its user-data partition. */
  function Combined(meta: RaidType, data: RaidType, devs: seq<DeviceState>): RaidState {
    var m, d := PartitionState(meta, devs), PartitionState(data, devs);
    if Rank(m) > Rank(d) then m else d
  }

  /** A RAID type that survives the loss of one of its devices. */
  predicate Tolerant(raid: RaidType) {
    !raid.RaidNone? && !raid.Raid0?
  }

  lemma {:induction false} AbnormalUpdate(devs: seq<DeviceState>, i: nat, st: DeviceState)
    requires i < |devs|
    ensures Abnormal(devs[i := st]) + (if devs[i].Normal? then 0 else 1) == Abnormal(devs) + (if st.Normal? then 0 else 1)
  {
    if i == 0 {
      assert devs[0 := st][1..] == devs[1..];
    } else {
      assert devs[i := st][1..] == devs[1..][i - 1 := st];
      AbnormalUpdate(devs[1..], i - 1, st);
    }
  }

  lemma {:induction false} AbnormalBounds(devs: seq<DeviceState>)
    ensures Abnormal(devs) <= |devs|
    ensures Abnormal(devs) < |devs| ==> exists i :: 0 <= i < |devs| && devs[i].Normal?
    ensures Abnormal(devs) == 0 <==> forall i :: 0 <= i < |devs| ==> devs[i].Normal?
  {
    if devs != [] {
      AbnormalBounds(devs[1..]);
      assert forall i :: 0 < i < |devs| ==> devs[i] == devs[1..][i - 1];
      if Abnormal(devs[1..]) < |devs| - 1 {
        var i :| 0 <= i < |devs| - 1 && devs[1..][i].Normal?;
        assert devs[i + 1].Normal?;
      }
    }
  }

  /** RAID_NORMAL means that every device the partition uses is NORMAL. */
  lemma PartitionNormal(raid: RaidType, devs: seq<DeviceState>)
    ensures PartitionState(raid, devs).RaidNormal? <==> forall i :: 0 <= i < Span(raid, |devs|) ==> devs[i].Normal?
  {
    var used := devs[..Span(raid, |devs|)];
    AbnormalBounds(used);
    assert forall i :: 0 <= i < |used| ==> used[i] == devs[i];
  }

  /** Losing one more device never improves what a partition reports. */
  lemma PartitionMonotone(raid: RaidType, devs: seq<DeviceState>, i: nat, st: DeviceState)
    requires i < |devs| && !st.Normal?
    ensures Rank(PartitionState(raid, devs[i := st])) >= Rank(PartitionState(raid, devs))
  {
    var n := Span(raid, |devs|);
    var used, used' := devs[..n], devs[i := st][..n];
    if i < n {
      assert used' == used[i := st];
      AbnormalUpdate(used, i, st);
      assert forall k :: 0 <= k < n && !used[k].Normal? ==> !used'[k].Normal?;
      if raid.Raid10? && MethodState(raid, used).RaidFailure? {
        var k :| 0 <= k < n && !used[k].Normal? && !used[Mirror(n, k)].Normal?;
        assert !used'[k].Normal? && !used'[Mirror(n, k)].Normal?;
      }
    } else {
      assert used' == used;
    }
  }

  lemma CombinedMonotone(meta: RaidType, data: RaidType, devs: seq<DeviceState>, i: nat, st: DeviceState)
    requires i < |devs| && !st.Normal?
    ensures Rank(Combined(meta, data, devs[i := st])) >= Rank(Combined(meta, data, devs))
  {
    PartitionMonotone(meta, devs, i, st);
    PartitionMonotone(data, devs, i, st);
  }

  /** What a healthy partition reports after the loss of exactly one device. */
  lemma FirstLoss(raid: RaidType, devs: seq<DeviceState>, i: nat, st: DeviceState)
    requires i < |devs| && !st.Normal?
    requires AcceptsCount(raid, Span(raid, |devs|))
    requires PartitionState(raid, devs).RaidNormal?
    ensures PartitionState(raid, devs[i := st]) ==
            if i >= Span(raid, |devs|) then RaidNormal else if Tolerant(raid) then RaidDegraded else RaidFailure
  {
    PartitionNormal(raid, devs);
    var n := Span(raid, |devs|);
    var used, used' := devs[..n], devs[i := st][..n];
    if i < n {
      assert used' == used[i := st];
      AbnormalUpdate(used, i, st);
      AbnormalBounds(used);
      assert used'[i] == st;
    } else {
      assert used' == used;
    }
  }

  /** A partition short of failure still has a NORMAL device. */
  lemma SurvivorExists(raid: RaidType, devs: seq<DeviceState>)
    requires AcceptsCount(raid, Span(raid, |devs|))
    requires !PartitionState(raid, devs).RaidFailure?
    ensures exists i :: 0 <= i < |devs| && devs[i].Normal?
  {
    var used := devs[..Span(raid, |devs|)];
    AbnormalBounds(used);
    var i :| 0 <= i < |used| && used[i].Normal? by {
      if raid.Raid10? {
        assert used[0].Normal? || used[Mirror(|used|, 0)].Normal?;
      }
    }
    assert devs[i].Normal?;
  }

  lemma {:induction false} SameAbnormal(devs: seq<DeviceState>, devs': seq<DeviceState>)
    requires |devs| == |devs'|
    requires forall i :: 0 <= i < |devs| ==> (devs[i].Normal? <==> devs'[i].Normal?)
    ensures Abnormal(devs) == Abnormal(devs')
  {
    if devs != [] {
      SameAbnormal(devs[1..], devs'[1..]);
    }
  }

  lemma PartitionPattern(raid: RaidType, devs: seq<DeviceState>, devs': seq<DeviceState>)
    requires |devs| == |devs'|
    requires forall i :: 0 <= i < |devs| ==> (devs[i].Normal? <==> devs'[i].Normal?)
    ensures PartitionState(raid, devs) == PartitionState(raid, devs')
  {
    var n := Span(raid, |devs|);
    var used, used' := devs[..n], devs'[..n];
    SameAbnormal(used, used');
    assert forall i :: 0 <= i < n ==> (used[i].Normal? <==> used'[i].Normal?);
    if raid.Raid10? {
      assert forall i :: 0 <= i < n ==> (used[Mirror(n, i)].Normal? <==> used'[Mirror(n, i)].Normal?);
    }
  }

  /** Only which devices are NORMAL matters: FAULT and REBUILD count the same. */
  lemma CombinedPattern(meta: RaidType, data: RaidType, devs: seq<DeviceState>, devs': seq<DeviceState>)
    requires |devs| == |devs'|
    requires forall i :: 0 <= i < |devs| ==> (devs[i].Normal? <==> devs'[i].Normal?)
    ensures Combined(meta, data, devs) == Combined(meta, data, devs')
  {
    PartitionPattern(meta, devs, devs');
    PartitionPattern(data, devs, devs');
  }

  // ------------------------------------------------------------- when an array has failed

  ghost predicate OneLost(devs: seq<DeviceState>, n: nat)
    requires n <= |devs|
  {
    exists i :: 0 <= i < n && !devs[i].Normal?
  }

  ghost predicate TwoLost(devs: seq<DeviceState>, n: nat)
    requires n <= |devs|
  {
    exists i, j :: 0 <= i < j < n && !devs[i].Normal? && !devs[j].Normal?
  }

  ghost predicate ThreeLost(devs: seq<DeviceState>, n: nat)
    requires n <= |devs|
  {
    exists i, j, k :: 0 <= i < j < k < n && !devs[i].Normal? && !devs[j].Normal? && !devs[k].Normal?
  }

  /** Device i of the first half and device i of the second half. */
  ghost predicate PairLost(devs: seq<DeviceState>, n: nat)
    requires n <= |devs|
  {
    exists i :: 0 <= i < n / 2 && !devs[i].Normal? && !devs[i + n / 2].Normal?
  }

  lemma CountOne(devs: seq<DeviceState>)
    ensures Abnormal(devs) >= 1 <==> OneLost(devs, |devs|)
  {
    hide Abnormal;
    AbnormalBounds(devs);
  }

  lemma CountTwo(devs: seq<DeviceState>)
    ensures Abnormal(devs) >= 2 <==> TwoLost(devs, |devs|)
  {
    hide Abnormal;
    CountOne(devs);
    if TwoLost(devs, |devs|) {
      var i, j :| 0 <= i < j < |devs| && !devs[i].Normal? && !devs[j].Normal?;
      AbnormalUpdate(devs, i, Normal);
      CountOne(devs[i := Normal]);
      assert !devs[i := Normal][j].Normal?;
    }
    if Abnormal(devs) >= 2 {
      var i :| 0 <= i < |devs| && !devs[i].Normal?;
      AbnormalUpdate(devs, i, Normal);
      CountOne(devs[i := Normal]);
      var j :| 0 <= j < |devs| && !devs[i := Normal][j].Normal?;
      assert 0 <= (if i < j then i else j) < (if i < j then j else i) < |devs|;
    }
  }

  lemma CountThree(devs: seq<DeviceState>)
    ensures Abnormal(devs) >= 3 <==> ThreeLost(devs, |devs|)
  {
    hide Abnormal;
    CountTwo(devs);
    if ThreeLost(devs, |devs|) {
      var i, j, k :| 0 <= i < j < k < |devs| && !devs[i].Normal? && !devs[j].Normal? && !devs[k].Normal?;
      AbnormalUpdate(devs, i, Normal);
      CountTwo(devs[i := Normal]);
      assert !devs[i := Normal][j].Normal? && !devs[i := Normal][k].Normal?;
    }
    if Abnormal(devs) >= 3 {
      CountOne(devs);
      var i :| 0 <= i < |devs| && !devs[i].Normal?;
      AbnormalUpdate(devs, i, Normal);
      CountTwo(devs[i := Normal]);
      var j, k :| 0 <= j < k < |devs| && !devs[i := Normal][j].Normal? && !devs[i := Normal][k].Normal?;
      SortedThree(devs, i, j, k);
    }
  }

  lemma SortedThree(devs: seq<DeviceState>, i: nat, j: nat, k: nat)
    requires i < |devs| && j < k < |devs| && i != j && i != k
    requires !devs[i].Normal? && !devs[j].Normal? && !devs[k].Normal?
    ensures ThreeLost(devs, |devs|)
  {
    if i < j {
      assert 0 <= i < j < k < |devs|;
    } else if i < k {
      assert 0 <= j < i < k < |devs|;
    } else {
      assert 0 <= j < k < i < |devs|;
    }
  }

  /**
   Exactly when a partition has failed: RAID5 at the second loss, RAID6 at the third, RAID10 when both devices of a
   mirrored pair are lost, and without redundancy at the first; the odd device of RAID10 does not count.
   */
  lemma FailureIff(raid: RaidType, devs: seq<DeviceState>)
    ensures var n := Span(raid, |devs|);
            PartitionState(raid, devs).RaidFailure? <==>
            match raid
            case RaidNone | Raid0 => OneLost(devs, n)
            case Raid5 => TwoLost(devs, n)
            case Raid6 => ThreeLost(devs, n)
            case Raid10 => PairLost(devs, n)
  {
    hide Abnormal;
    var n := Span(raid, |devs|);
    match raid
    case RaidNone | Raid0 => assert devs[..n] == devs; CountOne(devs);
    case Raid5 => assert devs[..n] == devs; CountTwo(devs); AbnormalBounds(devs);
    case Raid6 => assert devs[..n] == devs; CountThree(devs); AbnormalBounds(devs);
    case Raid10 => MirrorFailureIff(devs, n);
  }

  lemma MirrorFailureIff(devs: seq<DeviceState>, n: nat)
    requires n <= |devs| && n % 2 == 0
    ensures MethodState(Raid10, devs[..n]).RaidFailure? <==> PairLost(devs, n)
  {
    var used := devs[..n];
    if PairLost(devs, n) {
      var i :| 0 <= i < n / 2 && !devs[i].Normal? && !devs[i + n / 2].Normal?;
      assert !used[i].Normal? && !used[Mirror(n, i)].Normal?;
    }
    if i :| 0 <= i < n && !used[i].Normal? && !used[Mirror(n, i)].Normal? {
      var low := if i < n / 2 then i else Mirror(n, i);
      assert !devs[low].Normal? && !devs[low + n / 2].Normal?;
    }
  }

  /** The array has failed when one of its partitions has, and is healthy when both are. */
  lemma CombinedIff(meta: RaidType, data: RaidType, devs: seq<DeviceState>)
    ensures Combined(meta, data, devs).RaidFailure? <==>
            PartitionState(meta, devs).RaidFailure? || PartitionState(data, devs).RaidFailure?
    ensures Combined(meta, data, devs).RaidNormal? <==>
            PartitionState(meta, devs).RaidNormal? && PartitionState(data, devs).RaidNormal?
  {
    hide PartitionState;
  }

  /** NORMAL and not NORMAL exchanged. */
  ghost function Flip(devs: seq<DeviceState>): seq<DeviceState> {
    seq(|devs|, i requires 0 <= i < |devs| => if devs[i].Normal? then Fault else Normal)
  }

  lemma {:induction false} FlipCount(devs: seq<DeviceState>)
    ensures Abnormal(Flip(devs)) + Abnormal(devs) == |devs|
  {
    if devs != [] {
      assert Flip(devs)[1..] == Flip(devs[1..]);
      FlipCount(devs[1..]);
    }
  }

  ghost predicate TwoLeft(devs: seq<DeviceState>) {
    exists i, j :: 0 <= i < j < |devs| && devs[i].Normal? && devs[j].Normal?
  }

  /** The counts a parity type accepts leave two devices whatever tolerated losses there are. */
  lemma AcceptedLeavesTwo(raid: RaidType, devs: seq<DeviceState>)
    requires (raid.Raid5? || raid.Raid6?) && AcceptsCount(raid, |devs|) && !PartitionState(raid, devs).RaidFailure?
    ensures TwoLeft(devs)
  {
    hide Abnormal;
    assert devs[..|devs|] == devs;
    FlipCount(devs);
    CountTwo(Flip(devs));
    var i, j :| 0 <= i < j < |devs| && !Flip(devs)[i].Normal? && !Flip(devs)[j].Normal?;
    assert devs[i].Normal? && devs[j].Normal?;
  }

  /** A count that it does not accept need not. */
  lemma RefusedCanLeaveFewer(raid: RaidType, n: nat) returns (devs: seq<DeviceState>)
    requires (raid.Raid5? || raid.Raid6?) && !AcceptsCount(raid, n)
    ensures |devs| == n && !PartitionState(raid, devs).RaidFailure? && !TwoLeft(devs)
  {
    devs := if n == 0 then [] else if n == 1 then [Fault] else if n == 2 then [Normal, Fault] else [Normal, Fault, Fault];
    assert devs[..|devs|] == devs;
    if n == 1 {
      assert Abnormal(devs) == 1;
    } else if n == 2 {
      assert devs[1..] == [Fault] && Abnormal([Fault]) == 1;
      assert Abnormal(devs) == 1;
    } else if n == 3 {
      assert [Fault, Fault][1..] == [Fault] && Abnormal([Fault]) == 1;
      assert devs[1..] == [Fault, Fault] && Abnormal([Fault, Fault]) == 2;
      assert Abnormal(devs) == 2;
    }
  }
}
