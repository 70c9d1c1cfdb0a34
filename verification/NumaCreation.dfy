/** NUMA-aware choice of the devices of a new array (src/array_mgmt/numa_awared_array_creation.cpp). */
module NumaCreation {
  import opened Int32
  import opened Options

  const TWO64: nat := 0x1_0000_0000_0000_0000

  datatype Device = Device(name: string, isFree: bool, isSsd: bool, numa: int, size: nat)

  /** A proposal: the names of the data and the spare devices, all of one size. */
  datatype Choice = Choice(numa: int, size: nat, data: seq<string>, spares: seq<string>, nvm: string, capacity: nat)

  datatype Code = Success | NvmNotFound | TooFewSameCapacity | TooFewSameNuma

  datatype Result = Result(code: Code, options: seq<Choice>)

  type Groups = map<nat, seq<Device>>

  predicate Candidate(d: Device, numa: int) {
    d.isFree && d.isSsd && d.numa == numa
  }

  /** The free SSDs of a NUMA node, in order. */
  function Candidates(devs: seq<Device>, numa: int): (r: seq<Device>)
    ensures forall d :: d in r <==> d in devs && d.isFree && d.isSsd && d.numa == numa
  {
    if devs == [] then []
    else
      var n := |devs| - 1;
      Candidates(devs[..n], numa) + (if Candidate(devs[n], numa) then [devs[n]] else [])
  }

  /** The devices of one size, in order. */
  function OfSize(devs: seq<Device>, size: nat): (r: seq<Device>)
    ensures forall d :: d in r <==> d in devs && d.size == size
    ensures |r| <= |devs|
  {
    if devs == [] then []
    else
      var n := |devs| - 1;
      OfSize(devs[..n], size) + (if devs[n].size == size then [devs[n]] else [])
  }

  function Names(devs: seq<Device>): seq<string> {
    seq(|devs|, i requires 0 <= i < |devs| => devs[i].name)
  }

  lemma OfSizePush(devs: seq<Device>, d: Device, size: nat)
    ensures OfSize(devs + [d], size) == if d.size == size then OfSize(devs, size) + [d] else OfSize(devs, size)
  {
    assert (devs + [d])[..|devs|] == devs;
  }

  /** Enumerable::GroupBy by size: exactly the sizes that occur, each with its devices in order. */
  method GroupBySize(devs: seq<Device>) returns (groups: Groups)
    ensures forall size :: size in groups <==> OfSize(devs, size) != []
    ensures forall size :: size in groups ==> groups[size] == OfSize(devs, size)
  {
    groups := map[];
    for i := 0 to |devs|
      invariant forall size :: size in groups <==> OfSize(devs[..i], size) != []
      invariant forall size :: size in groups ==> groups[size] == OfSize(devs[..i], size)
    {
      var d := devs[i];
      assert devs[..i + 1] == devs[..i] + [d];
      forall size: nat ensures OfSize(devs[..i + 1], size) ==
                               if d.size == size then OfSize(devs[..i], size) + [d] else OfSize(devs[..i], size) {
        OfSizePush(devs[..i], d, size);
      }
      groups := groups[d.size := (if d.size in groups then groups[d.size] else []) + [d]];
    }
    assert devs[..|devs|] == devs;
  }

  lemma {:induction false} Least(keys: set<nat>) returns (k: nat)
    requires keys != {}
    ensures k in keys && forall j :: j in keys ==> k <= j
  {
    k :| k in keys;
    var rest := keys - {k};
    assert keys == rest + {k};
    if rest != {} {
      var other := Least(rest);
      if other < k {
        k := other;
      }
    }
  }

  /** How many of `n` devices a count takes; a negative count takes none. */
  function Clip(count: int, n: nat): nat {
    if count < 0 then 0 else if count < n then count else n
  }

  /** Deals the devices of a group out: first to the data list, then to the spares. */
  method Deal(group: seq<Device>, dataCnt: int, spareCnt: int) returns (data: seq<string>, spares: seq<string>)
    ensures var d := Clip(dataCnt, |group|);
            var s := Clip(spareCnt, |group| - d);
            data == Names(group[..d]) && spares == Names(group[d..d + s])
  {
    data, spares := [], [];
    var dCnt, sCnt := dataCnt, spareCnt;
    for i := 0 to |group|
      invariant var d := Clip(dataCnt, i);
                var s := Clip(spareCnt, i - d);
                dCnt == dataCnt - d && sCnt == spareCnt - s && data == Names(group[..d]) && spares == Names(group[d..d + s])
      invariant dCnt > 0 ==> sCnt == spareCnt
    {
      if dCnt > 0 {
        data := data + [group[i].name];
        dCnt := dCnt - 1;
      } else if sCnt > 0 {
        spares := spares + [group[i].name];
        sCnt := sCnt - 1;
      }
    }
  }

  /** The proposal takes the first devices of the smallest size that occurs often enough. */
  ghost predicate TakesSmallest(o: Choice, local: seq<Device>, dataCnt: int, spareCnt: int) {
    var group := OfSize(local, o.size);
    var d := Clip(dataCnt, |group|);
    var required := Wrap32(dataCnt + spareCnt);
    && group != [] && |group| >= required
    && (forall size :: 0 <= size < o.size && OfSize(local, size) != [] ==> |OfSize(local, size)| < required)
    && o.data == Names(group[..d])
    && o.spares == Names(group[d..d + Clip(spareCnt, |group| - d)])
    && o.capacity == o.size * dataCnt % TWO64
  }

  /** Some size occurs on the node, and at least `required` times. */
  ghost predicate Feasible(local: seq<Device>, required: int) {
    exists size: nat :: OfSize(local, size) != [] && |OfSize(local, size)| >= required
  }

  /**
   The selection, for all counts. It proposes devices exactly when some size has enough free SSDs on the buffer's
   node, and then the smallest such size. It reports success without a proposal exactly when nothing is required
   and the node has no free SSD.
   */
  method Select(buffer: Option<Device>, bufferName: string, devs: seq<Device>, dataCnt: int, spareCnt: int)
    returns (r: Result)
    ensures buffer.None? ==> r == Result(NvmNotFound, [])
    ensures buffer.Some? ==>
              var local := Candidates(devs, buffer.value.numa);
              var required := Wrap32(dataCnt + spareCnt);
              && (r.options != [] <==> Feasible(local, required))
              && (r.code.Success? <==> Feasible(local, required) || (local == [] && required <= 0))
              && (r.options != [] ==>
                    && |r.options| == 1 && r.options[0].numa == buffer.value.numa && r.options[0].nvm == bufferName
                    && TakesSmallest(r.options[0], local, dataCnt, spareCnt))
              && (!r.code.Success? ==> r.code == if |local| < required then TooFewSameNuma else TooFewSameCapacity)
  {
    hide Candidates, OfSize, Names, Clip, Wrap32;
    if buffer.None? {
      return Result(NvmNotFound, []);
    }
    var required, numa := Wrap32(dataCnt + spareCnt), buffer.value.numa;
    var local := Candidates(devs, numa);
    if |local| < required {
      return Result(TooFewSameNuma, []);
    }
    var groups := GroupBySize(local);
    var fit := FirstFit(groups, required);
    NonEmptyHasGroup(local);
    if fit.Some? {
      var data, spares := Deal(groups[fit.value], dataCnt, spareCnt);
      forall size | 0 <= size < fit.value && OfSize(local, size) != [] ensures |OfSize(local, size)| < required {
        assert size in groups;
      }
      return Result(Success, [Choice(numa, fit.value, data, spares, bufferName, fit.value * dataCnt % TWO64)]);
    }
    forall size: nat | OfSize(local, size) != [] ensures |OfSize(local, size)| < required {
      assert size in groups;
    }
    return Result(if groups == map[] then Success else TooFewSameCapacity, []);
  }

  /** The loop over the groups by rising size: the first one that is large enough. */
  method FirstFit(groups: Groups, required: int) returns (fit: Option<nat>)
    ensures fit.Some? ==> fit.value in groups && |groups[fit.value]| >= required
    ensures forall size :: size in groups && (fit.None? || size < fit.value) ==> |groups[size]| < required
  {
    var sizes := groups.Keys;
    while sizes != {}
      invariant sizes <= groups.Keys
      invariant forall size :: size in groups && size !in sizes ==> |groups[size]| < required
      decreases |sizes|
    {
      ghost var least := Least(sizes);
      var size :| size in sizes && forall other :: other in sizes ==> size <= other;
      if |groups[size]| >= required {
        return Some(size);
      }
      sizes := sizes - {size};
    }
    return None;
  }

  lemma NonEmptyHasGroup(local: seq<Device>)
    ensures local != [] ==> OfSize(local, local[0].size) != []
  {
    if local != [] {
      assert local[0] in local;
      assert local[0] in OfSize(local, local[0].size);
    }
  }

  ghost predicate DistinctNames(devs: seq<Device>) {
    forall i, j :: 0 <= i < j < |devs| ==> devs[i].name != devs[j].name
  }

  lemma DistinctPush(devs: seq<Device>, kept: seq<Device>)
    requires devs != [] && DistinctNames(devs) && DistinctNames(kept)
    requires forall d :: d in kept ==> d in devs[..|devs| - 1]
    ensures DistinctNames(kept + [devs[|devs| - 1]])
  {
    var n := |devs| - 1;
    forall k | 0 <= k < |kept| ensures kept[k].name != devs[n].name {
      assert kept[k] in kept;
      var i :| 0 <= i < n && devs[..n][i] == kept[k];
    }
  }

  /** A filtered list keeps distinct names distinct. */
  lemma {:induction false} FilterDistinct(devs: seq<Device>, numa: int, size: nat)
    requires DistinctNames(devs)
    ensures DistinctNames(Candidates(devs, numa)) && DistinctNames(OfSize(devs, size))
    decreases devs
  {
    if devs != [] {
      var front := devs[..|devs| - 1];
      FilterDistinct(front, numa, size);
      DistinctPush(devs, Candidates(front, numa));
      DistinctPush(devs, OfSize(front, size));
      hide DistinctNames;
    }
  }

  lemma ChoiceCounts(o: Choice, local: seq<Device>, dataCnt: nat, spareCnt: nat)
    requires TakesSmallest(o, local, dataCnt, spareCnt)
    ensures |o.data| == dataCnt && |o.spares| == spareCnt <==> |OfSize(local, o.size)| >= dataCnt + spareCnt
    ensures dataCnt + spareCnt <= INT32_MAX ==> |OfSize(local, o.size)| >= dataCnt + spareCnt
    ensures |o.data| + |o.spares| <= |OfSize(local, o.size)|
  {
    hide OfSize;
  }

  lemma ChoiceNames(o: Choice, local: seq<Device>, dataCnt: nat, spareCnt: nat, k: nat)
    requires TakesSmallest(o, local, dataCnt, spareCnt) && k < |o.data + o.spares|
    ensures k < |OfSize(local, o.size)| && (o.data + o.spares)[k] == OfSize(local, o.size)[k].name
  {
    hide OfSize, Wrap32;
  }

  /**
   A proposal is sound: every device is a free SSD of the node and of the proposed size, no device is in both lists
   or twice in one, and there are exactly the requested numbers of devices if and only if the group has them, which
   it always has when the sum of the two counts is an int.
   */
  lemma ChoiceSound(o: Choice, devs: seq<Device>, numa: int, dataCnt: nat, spareCnt: nat)
    requires TakesSmallest(o, Candidates(devs, numa), dataCnt, spareCnt) && DistinctNames(devs)
    ensures |o.data| == dataCnt && |o.spares| == spareCnt <==>
            |OfSize(Candidates(devs, numa), o.size)| >= dataCnt + spareCnt
    ensures dataCnt + spareCnt <= INT32_MAX ==> |o.data| == dataCnt && |o.spares| == spareCnt
    ensures forall name :: name in o.data + o.spares ==>
              exists d :: d in devs && d.name == name && d.isFree && d.isSsd && d.numa == numa && d.size == o.size
    ensures forall i, j :: 0 <= i < j < |o.data + o.spares| ==> (o.data + o.spares)[i] != (o.data + o.spares)[j]
  {
    hide Candidates, OfSize, TakesSmallest, DistinctNames;
    var local := Candidates(devs, numa);
    var group := OfSize(local, o.size);
    ChoiceCounts(o, local, dataCnt, spareCnt);
    FilterDistinct(devs, numa, o.size);
    FilterDistinct(local, numa, o.size);
    var all := o.data + o.spares;
    forall k | 0 <= k < |all| ensures k < |group| && all[k] == group[k].name {
      ChoiceNames(o, local, dataCnt, spareCnt, k);
    }
    forall name | name in all
      ensures exists d :: d in devs && d.name == name && d.isFree && d.isSsd && d.numa == numa && d.size == o.size
    {
      var k :| 0 <= k < |all| && all[k] == name;
      assert group[k] in group && group[k] in devs;
    }
    forall i, j | 0 <= i < j < |all| ensures all[i] != all[j] {
      DifferentNames(group, i, j);
    }
  }

  lemma DifferentNames(devs: seq<Device>, i: nat, j: nat)
    requires DistinctNames(devs) && i < j < |devs|
    ensures devs[i].name != devs[j].name
  {
  }
}
