/**
 The registry of allocators (src/allocator_service/allocator_service.cpp) and the registration steps of the
 allocators that use it (src/allocator/allocator.cpp).
 */
module AllocatorService {
  import opened Options
  import ArrayManager

  /** The five interfaces of an allocator, as opaque pointers. */
  datatype Row = Row(block: Option<nat>, stripe: Option<nat>, wbt: Option<nat>, context: Option<nat>, replayer: Option<nat>)

  const NULL_ROW := Row(None, None, None, None, None)

  /** The name map and the five parallel tables, one row per array index. */
  datatype Service = Service(ids: map<string, nat>, rows: seq<Row>)

  function Register(v: Service, name: string, id: nat, row: Row): Service
    requires id < |v.rows|
  {
    if name in v.ids then v else Service(v.ids[name := id], v.rows[id := row])
  }

  function Unregister(v: Service, name: string): Service
    requires name in v.ids ==> v.ids[name] < |v.rows|
  {
    if name !in v.ids then v else Service(v.ids - {name}, v.rows[v.ids[name] := NULL_ROW])
  }

  function ByName(v: Service, name: string): Row
    requires name in v.ids ==> v.ids[name] < |v.rows|
  {
    if name in v.ids then v.rows[v.ids[name]] else NULL_ROW
  }

  /** Two arrays can be looked up side by side exactly when their indices differ or their interfaces coincide. */
  lemma SideBySideIff(v: Service, a: string, i: nat, ra: Row, b: string, j: nat, rb: Row)
    requires i < |v.rows| && j < |v.rows| && a != b && a !in v.ids && b !in v.ids
    ensures var v2 := Register(Register(v, a, i, ra), b, j, rb);
            (ByName(v2, a) == ra && ByName(v2, b) == rb) <==> (i != j || ra == rb)
    ensures var v3 := Unregister(Register(Register(v, a, i, ra), b, j, rb), b);
            ByName(v3, a) == ra <==> (i != j || ra == NULL_ROW)
  {
  }

  // ------------------------------------------------------------------------- runs

  /** An allocator of a live array: its array index, its interfaces and whether it is initialised. */
  datatype Allocator = Allocator(index: nat, row: Row, isInitialized: bool)

  datatype State = State(service: Service, allocators: map<string, Allocator>)

  datatype Event =
    | EvInit(name: string, contextOk: bool)
    | EvDispose(name: string)
    | EvShutdown(name: string)
    | EvNew(name: string, index: nat, row: Row)
    | EvDelete(name: string)

  /** Every index in use addresses a row. */
  predicate WellIndexed(s: State) {
    && (forall name :: name in s.allocators ==> s.allocators[name].index < |s.service.rows|)
    && (forall name :: name in s.service.ids ==> s.service.ids[name] < |s.service.rows|)
  }

  /** Arrays come with an index no live array has, and go when their allocator is down. */
  ghost predicate Enabled(s: State, e: Event) {
    WellIndexed(s) &&
    match e
    case EvNew(name, index, _) =>
      && name !in s.allocators && index < |s.service.rows|
      && forall other :: other in s.allocators ==> s.allocators[other].index != index
    case EvDelete(name) => name in s.allocators && !s.allocators[name].isInitialized
    case _ => e.name in s.allocators
  }

  /** Dispose and Shutdown leave the service when the allocator is initialised. */
  function Leave(s: State, name: string): State
    requires WellIndexed(s) && name in s.allocators
  {
    var a := s.allocators[name];
    if !a.isInitialized then s
    else State(Unregister(s.service, name), s.allocators[name := a.(isInitialized := false)])
  }

  function Enter(s: State, name: string, contextOk: bool): State
    requires WellIndexed(s) && name in s.allocators
  {
    var a := s.allocators[name];
    if a.isInitialized || !contextOk then s
    else State(Register(s.service, name, a.index, a.row), s.allocators[name := a.(isInitialized := true)])
  }

  function Step(s: State, e: Event): State
    requires Enabled(s, e)
  {
    match e
    case EvInit(name, contextOk) => Enter(s, name, contextOk)
    case EvDispose(name) => Leave(s, name)
    case EvShutdown(name) => Leave(s, name)
    case EvNew(name, index, row) => s.(allocators := s.allocators[name := Allocator(index, row, false)])
    case EvDelete(name) => s.(allocators := s.allocators - {name})
  }

  ghost predicate Owned(ids: map<string, nat>, i: nat) {
    exists name :: name in ids && ids[name] == i
  }

  ghost predicate DistinctIndices(allocators: map<string, Allocator>) {
    forall a, b :: a in allocators && b in allocators && a != b ==> allocators[a].index != allocators[b].index
  }

  /**
   An allocator is registered, under its own index and with its own interfaces, exactly while it is initialised;
   live arrays have distinct indices; a row no registered array owns is null.
   */
  ghost predicate Inv(s: State) {
    && |s.service.rows| == ArrayManager.MAX_ARRAY_CNT
    && WellIndexed(s)
    && DistinctIndices(s.allocators)
    && (forall name :: name in s.service.ids <==> name in s.allocators && s.allocators[name].isInitialized)
    && (forall name :: name in s.service.ids ==>
          && s.service.ids[name] == s.allocators[name].index
          && s.service.rows[s.service.ids[name]] == s.allocators[name].row)
    && (forall i :: 0 <= i < |s.service.rows| && s.service.rows[i] != NULL_ROW ==> Owned(s.service.ids, i))
  }

  lemma EnterKeeps(s: State, name: string)
    requires Inv(s) && name in s.allocators && !s.allocators[name].isInitialized
    ensures Inv(Enter(s, name, true))
  {
    var s', a := Enter(s, name, true), s.allocators[name];
    assert s'.service.ids[name] == a.index;
    forall i | 0 <= i < |s'.service.rows| && s'.service.rows[i] != NULL_ROW ensures Owned(s'.service.ids, i) {
      if i != a.index {
        var other :| other in s.service.ids && s.service.ids[other] == i;
        assert s'.service.ids[other] == i;
      }
    }
  }

  lemma LeaveKeeps(s: State, name: string)
    requires Inv(s) && name in s.allocators && s.allocators[name].isInitialized
    ensures Inv(Leave(s, name))
  {
    var s' := Leave(s, name);
    forall other | other in s'.service.ids ensures s'.service.rows[s'.service.ids[other]] == s'.allocators[other].row {
      assert s.allocators[other].index != s.allocators[name].index;
    }
    forall i | 0 <= i < |s'.service.rows| && s'.service.rows[i] != NULL_ROW ensures Owned(s'.service.ids, i) {
      var other :| other in s.service.ids && s.service.ids[other] == i;
      assert other in s'.service.ids && s'.service.ids[other] == i;
    }
  }

  lemma StepKeeps(s: State, e: Event)
    requires Inv(s) && Enabled(s, e)
    ensures Inv(Step(s, e))
  {
    match e
    case EvInit(name, contextOk) =>
      if !s.allocators[name].isInitialized && contextOk {
        EnterKeeps(s, name);
      }
    case EvNew(name, index, row) => ArrivalKeeps(s, name, index, row);
    case EvDelete(name) => DepartureKeeps(s, name);
    case _ =>
      if s.allocators[e.name].isInitialized {
        LeaveKeeps(s, e.name);
      }
  }

  lemma ArrivalKeeps(s: State, name: string, index: nat, row: Row)
    requires Inv(s) && Enabled(s, EvNew(name, index, row))
    ensures Inv(Step(s, EvNew(name, index, row)))
  {
  }

  lemma DepartureKeeps(s: State, name: string)
    requires Inv(s) && Enabled(s, EvDelete(name))
    ensures Inv(Step(s, EvDelete(name)))
  {
  }

  ghost predicate Run(s: State, events: seq<Event>)
    decreases events
  {
    events == [] || (Enabled(s, events[0]) && Run(Step(s, events[0]), events[1..]))
  }

  ghost function Final(s: State, events: seq<Event>): State
    requires Run(s, events)
    decreases events
  {
    if events == [] then s else Final(Step(s, events[0]), events[1..])
  }

  lemma {:induction false} RunKeeps(s: State, events: seq<Event>)
    requires Inv(s) && Run(s, events)
    ensures Inv(Final(s, events))
    decreases events
  {
    hide Inv, Step, Enabled;
    if events != [] {
      StepKeeps(s, events[0]);
      RunKeeps(Step(s, events[0]), events[1..]);
    }
  }

  /**
   Over every run, for every live array: looking its allocator up by name and by index gives the same answer,
   its own interfaces while it is initialised and null otherwise.
   */
  lemma LookupsAgree(s: State, events: seq<Event>, name: string)
    requires Inv(s) && Run(s, events) && name in Final(s, events).allocators
    ensures var t := Final(s, events);
            var a := t.allocators[name];
            && a.index < |t.service.rows| && (name in t.service.ids ==> t.service.ids[name] < |t.service.rows|)
            && ByName(t.service, name) == t.service.rows[a.index] == if a.isInitialized then a.row else NULL_ROW
  {
    hide Run, Final;
    RunKeeps(s, events);
    var t := Final(s, events);
    if !t.allocators[name].isInitialized {
      forall other | other in t.service.ids ensures t.service.ids[other] != t.allocators[name].index {
        assert other in t.allocators && other != name;
      }
    }
  }

  /**
   A successful Init registers the allocator and leaves it initialised; Dispose and Shutdown take it out again. Until
   then nothing changes, and no other array notices.
   */
  lemma RegistrationEffect(s: State, name: string)
    requires Inv(s) && name in s.allocators
    ensures var up := Step(s, EvInit(name, true));
            && name in up.allocators && up.allocators[name] == s.allocators[name].(isInitialized := true)
            && name in up.service.ids && WellIndexed(up) && ByName(up.service, name) == s.allocators[name].row
            && (forall other :: other in s.allocators && other != name ==>
                  && other in up.allocators && up.allocators[other] == s.allocators[other]
                  && ByName(up.service, other) == ByName(s.service, other))
    ensures Step(s, EvInit(name, false)) == s
    ensures Step(s, EvDispose(name)) == Step(s, EvShutdown(name))
    ensures var down := Step(s, EvDispose(name));
            && name in down.allocators && down.allocators[name] == s.allocators[name].(isInitialized := false)
            && name !in down.service.ids && WellIndexed(down)
            && (forall other :: other in s.allocators && other != name ==>
                  && other in down.allocators && down.allocators[other] == s.allocators[other]
                  && ByName(down.service, other) == ByName(s.service, other))
  {
    var a := s.allocators[name];
    forall other | other in s.allocators && other != name ensures s.allocators[other].index != a.index {
    }
    assert name in s.service.ids <==> a.isInitialized;
  }

  // -------------------------------------------------- together with the array manager

  /** The live arrays of the array manager, each with an allocator under its index. */
  ghost predicate Coupled(m: ArrayManager.State, s: State) {
    && s.allocators.Keys == m.arrays.Keys
    && forall name :: name in m.arrays ==> s.allocators[name].index == m.arrays[name]
  }

  /** An array that the manager creates always comes with an index that no other allocator has. */
  lemma CreatedIndexIsFree(m: ArrayManager.State, s: State, name: string, row: Row)
    requires ArrayManager.Bijection(m) && Inv(s) && Coupled(m, s)
    requires ArrayManager.Create(m, name, true, true).1.Success?
    ensures var m' := ArrayManager.Create(m, name, true, true).0;
            && name in m'.arrays
            && Enabled(s, EvNew(name, m'.arrays[name], row))
            && Coupled(m', Step(s, EvNew(name, m'.arrays[name], row)))
  {
    hide ArrayManager.Create, ArrayManager.Bijection;
    ArrayManager.CreateAdds(m, name);
  }

  /** The array manager and the allocators of its arrays. */
  datatype Pair = Pair(m: ArrayManager.State, s: State)

  /** A step of the manager, with the interfaces of the allocators that new arrays bring, or of one allocator. */
  datatype JointEvent = Manage(request: ArrayManager.Event, rows: map<string, Row>) | Allocate(e: Event)

  /** The allocators after the manager's arrays have become `arrays`: old ones stay, new ones are not initialised. */
  function Follow(s: State, arrays: map<string, nat>, rows: map<string, Row>): State {
    s.(allocators := map name | name in arrays ::
         if name in s.allocators then s.allocators[name]
         else Allocator(arrays[name], if name in rows then rows[name] else NULL_ROW, false))
  }

  /** An array is only deleted while its allocator is down; arrays come and go through the manager alone. */
  ghost predicate JointEnabled(p: Pair, e: JointEvent) {
    match e
    case Manage(request, _) =>
      && ArrayManager.Enabled(p.m, request)
      && forall name :: name in p.s.allocators && name !in ArrayManager.Step(p.m, request).arrays ==>
                        !p.s.allocators[name].isInitialized
    case Allocate(e) => (e.EvInit? || e.EvDispose? || e.EvShutdown?) && Enabled(p.s, e)
  }

  ghost function JointStep(p: Pair, e: JointEvent): Pair
    requires JointEnabled(p, e)
  {
    match e
    case Manage(request, rows) =>
      var m' := ArrayManager.Step(p.m, request);
      Pair(m', Follow(p.s, m'.arrays, rows))
    case Allocate(e) => p.(s := Step(p.s, e))
  }

  ghost predicate JointRun(p: Pair, events: seq<JointEvent>)
    decreases events
  {
    events == [] || (JointEnabled(p, events[0]) && JointRun(JointStep(p, events[0]), events[1..]))
  }

  ghost function JointFinal(p: Pair, events: seq<JointEvent>): Pair
    requires JointRun(p, events)
    decreases events
  {
    if events == [] then p else JointFinal(JointStep(p, events[0]), events[1..])
  }

  ghost predicate JointInv(p: Pair) {
    ArrayManager.Bijection(p.m) && Inv(p.s) && Coupled(p.m, p.s)
  }

  lemma FollowKeeps(m: ArrayManager.State, m': ArrayManager.State, s: State, rows: map<string, Row>)
    requires ArrayManager.Bijection(m') && ArrayManager.Stable(m, m') && Inv(s) && Coupled(m, s)
    requires forall name :: name in s.allocators && name !in m'.arrays ==> !s.allocators[name].isInitialized
    ensures Inv(Follow(s, m'.arrays, rows)) && Coupled(m', Follow(s, m'.arrays, rows))
  {
    var s' := Follow(s, m'.arrays, rows);
    assert forall name :: name in m'.arrays ==> s'.allocators[name].index == m'.arrays[name];
    forall a, b | a in s'.allocators && b in s'.allocators && a != b
      ensures s'.allocators[a].index != s'.allocators[b].index
    {
      assert m'.slots[m'.arrays[a]] == a && m'.slots[m'.arrays[b]] == b;
    }
    assert s'.service == s.service;
  }

  lemma JointStepKeeps(p: Pair, e: JointEvent)
    requires JointInv(p) && JointEnabled(p, e)
    ensures JointInv(JointStep(p, e))
  {
    hide Inv, ArrayManager.Bijection, ArrayManager.Step, ArrayManager.Enabled, ArrayManager.Stable;
    match e
    case Manage(request, rows) =>
      ArrayManager.StepBijection(p.m, request);
      ArrayManager.StepStable(p.m, request);
      FollowKeeps(p.m, ArrayManager.Step(p.m, request), p.s, rows);
    case Allocate(e) => StepKeeps(p.s, e);
  }

  lemma {:induction false} JointRunKeeps(p: Pair, events: seq<JointEvent>)
    requires JointInv(p) && JointRun(p, events)
    ensures JointInv(JointFinal(p, events))
    decreases events
  {
    hide JointInv, JointStep, JointEnabled;
    if events != [] {
      JointStepKeeps(p, events[0]);
      JointRunKeeps(JointStep(p, events[0]), events[1..]);
    }
  }

  /**
   Over every run of Create, Delete, Load and ResetPbr, interleaved with Init, Dispose and Shutdown of allocators:
   for every array of the manager, looking its allocator up by name and by the index the manager gave it agree.
   */
  lemma JointLookupsAgree(p: Pair, events: seq<JointEvent>, name: string)
    requires JointInv(p) && JointRun(p, events) && name in JointFinal(p, events).m.arrays
    ensures var t := JointFinal(p, events);
            && name in t.s.allocators && t.m.arrays[name] < |t.s.service.rows|
            && (name in t.s.service.ids ==> t.s.service.ids[name] < |t.s.service.rows|)
            && var a := t.s.allocators[name];
               ByName(t.s.service, name) == t.s.service.rows[t.m.arrays[name]] == if a.isInitialized then a.row else NULL_ROW
  {
    hide JointRun, JointFinal, Inv, ArrayManager.Bijection;
    JointRunKeeps(p, events);
    var t := JointFinal(p, events);
    assert Run(t.s, []) && Final(t.s, []) == t.s;
    LookupsAgree(t.s, [], name);
  }

  // ------------------------------------------------------------------ the object

  class Registry {
    var arrayNameToId: map<string, nat>
    const block: array<Option<nat>>
    const stripe: array<Option<nat>>
    const wbt: array<Option<nat>>
    const context: array<Option<nat>>
    const replayer: array<Option<nat>>

    ghost predicate Valid()
      reads this, block, stripe, wbt, context, replayer
    {
      && block.Length == stripe.Length == wbt.Length == context.Length == replayer.Length == ArrayManager.MAX_ARRAY_CNT
      && block != stripe && block != wbt && block != context && block != replayer
      && stripe != wbt && stripe != context && stripe != replayer
      && wbt != context && wbt != replayer && context != replayer
      && forall name :: name in arrayNameToId ==> arrayNameToId[name] < ArrayManager.MAX_ARRAY_CNT
    }

    ghost function Model(): Service
      requires Valid()
      reads this, block, stripe, wbt, context, replayer
    {
      Service(arrayNameToId,
              seq(ArrayManager.MAX_ARRAY_CNT, i requires 0 <= i < ArrayManager.MAX_ARRAY_CNT
                                                reads block, stripe, wbt, context, replayer
                                                requires i < block.Length && i < stripe.Length && i < wbt.Length
                                                requires i < context.Length && i < replayer.Length
                                              => Row(block[i], stripe[i], wbt[i], context[i], replayer[i])))
    }

    constructor ()
      ensures Valid() && fresh(block) && fresh(stripe) && fresh(wbt) && fresh(context) && fresh(replayer)
      ensures Model() == Service(map[], seq(ArrayManager.MAX_ARRAY_CNT, _ => NULL_ROW))
    {
      arrayNameToId := map[];
      block := new Option<nat>[ArrayManager.MAX_ARRAY_CNT](_ => None);
      stripe := new Option<nat>[ArrayManager.MAX_ARRAY_CNT](_ => None);
      wbt := new Option<nat>[ArrayManager.MAX_ARRAY_CNT](_ => None);
      context := new Option<nat>[ArrayManager.MAX_ARRAY_CNT](_ => None);
      replayer := new Option<nat>[ArrayManager.MAX_ARRAY_CNT](_ => None);
    }

    method WriteRow(id: nat, row: Row)
      requires Valid() && id < ArrayManager.MAX_ARRAY_CNT
      modifies block, stripe, wbt, context, replayer
      ensures Valid() && Model() == old(Model()).(rows := old(Model()).rows[id := row])
    {
      block[id] := row.block;
      stripe[id] := row.stripe;
      wbt[id] := row.wbt;
      context[id] := row.context;
      replayer[id] := row.replayer;
      assert Model().rows == old(Model()).rows[id := row];
    }

    method RegisterAllocator(name: string, id: nat, row: Row)
      requires Valid() && id < ArrayManager.MAX_ARRAY_CNT
      modifies this, block, stripe, wbt, context, replayer
      ensures Valid() && Model() == Register(old(Model()), name, id, row)
    {
      if name !in arrayNameToId {
        arrayNameToId := arrayNameToId[name := id];
        WriteRow(id, row);
      }
    }

    method UnregisterAllocator(name: string)
      requires Valid()
      modifies this, block, stripe, wbt, context, replayer
      ensures Valid() && Model() == Unregister(old(Model()), name)
    {
      if name in arrayNameToId {
        var id := arrayNameToId[name];
        arrayNameToId := arrayNameToId - {name};
        WriteRow(id, NULL_ROW);
      }
    }

    method GetByName(name: string) returns (row: Row)
      requires Valid()
      ensures row == ByName(Model(), name)
    {
      if name !in arrayNameToId {
        return NULL_ROW;
      }
      var id := arrayNameToId[name];
      return Row(block[id], stripe[id], wbt[id], context[id], replayer[id]);
    }
  }
}
