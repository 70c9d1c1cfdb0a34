/** The array manager's index slots and array map (src/array_mgmt/array_manager.cpp). */
module ArrayManager {

  const MAX_ARRAY_CNT: nat := 2

  datatype Reply =
    Success | SameNameExists | ExceedsMax | NameDoesNotExist | BuildFailed | ImportFailed | DeleteFailed | ClearFailed

  /** `slots[i]` is the name that holds index i, empty when free; `arrays` maps a name to the index of its array. */
  datatype State = State(slots: seq<string>, arrays: map<string, nat>)

  const EMPTY := State(seq(MAX_ARRAY_CNT, _ => ""), map[])

  function FirstSlot(slots: seq<string>, name: string): (i: nat)
    ensures i <= |slots|
    ensures i < |slots| ==> slots[i] == name
    ensures forall j :: 0 <= j < i ==> slots[j] != name
  {
    if slots == [] || slots[0] == name then 0 else 1 + FirstSlot(slots[1..], name)
  }

  function Release(slots: seq<string>, name: string): seq<string> {
    var i := FirstSlot(slots, name);
    if i < |slots| then slots[i := ""] else slots
  }

  /** _Import; `ok` is what the array itself answers. A full table is silently taken for a success. */
  function Import(s: State, name: string, ok: bool): (State, Reply) {
    var i := FirstSlot(s.slots, "");
    if i == |s.slots| then (s, Success)
    else if ok then
      (State(s.slots[i := name], if name in s.arrays then s.arrays else s.arrays[name := i]), Success)
    else (s.(slots := Release(s.slots[i := name], name)), ImportFailed)
  }

  /** Create; the builder accepts a name of at least two characters or refuses. */
  function Create(s: State, name: string, built: bool, ok: bool): (State, Reply) {
    if name in s.arrays then (s, SameNameExists)
    else if |s.arrays| >= MAX_ARRAY_CNT then (s, ExceedsMax)
    else if !built || |name| < 2 then (s, BuildFailed)
    else Import(s, name, ok)
  }

  function Delete(s: State, name: string, ok: bool): (State, Reply) {
    if name !in s.arrays then (s, NameDoesNotExist)
    else if !ok then (s, DeleteFailed)
    else (State(Release(s.slots, name), s.arrays - {name}), Success)
  }

  /** A stored array table: its name, and what the builder and the array answer when it is loaded. */
  datatype Stored = Stored(name: string, built: bool, ok: bool)

  /** The loop of Load over the stored tables: it stops at the first one that is not built or not imported. */
  function Load(s: State, stored: seq<Stored>): (State, Reply)
    decreases stored
  {
    if stored == [] then (s, Success)
    else if !stored[0].built then (s, BuildFailed)
    else
      var (s1, reply) := Import(s, stored[0].name, stored[0].ok);
      if reply.Success? then Load(s1, stored[1..]) else (s1, reply)
  }

  /** The loop of ResetPbr: arrays are deleted in the order `names` until one refuses. */
  function Reset(s: State, names: seq<string>, oks: seq<bool>): State
    requires |names| == |oks|
    decreases names
  {
    if names == [] || !oks[0] then s
    else Reset(Delete(s, names[0], true).0, names[1..], oks[1..])
  }

  // ------------------------------------------------------------------- invariant

  /** Names and index slots are in bijection. */
  ghost predicate Bijection(s: State) {
    && |s.slots| == MAX_ARRAY_CNT
    && "" !in s.arrays
    && (forall name :: name in s.arrays ==> s.arrays[name] < |s.slots| && s.slots[s.arrays[name]] == name)
    && (forall i :: 0 <= i < |s.slots| && s.slots[i] != "" ==> s.slots[i] in s.arrays && s.arrays[s.slots[i]] == i)
  }

  lemma ReleaseOwn(s: State, name: string)
    requires Bijection(s) && name in s.arrays
    ensures Release(s.slots, name) == s.slots[s.arrays[name] := ""]
  {
    var i := FirstSlot(s.slots, name);
    assert s.slots[s.arrays[name]] == name;
    assert s.arrays[s.slots[i]] == i;
  }

  /**
   From a bijection with a free slot, a successful import ends in a bijection exactly when the name is fresh
   and not empty: an empty name leaves its slot free, a known one takes a second slot.
   */
  lemma ImportBijectionIff(s: State, name: string)
    requires Bijection(s) && FirstSlot(s.slots, "") < |s.slots|
    ensures Bijection(Import(s, name, true).0) <==> name != "" && name !in s.arrays
  {
    var i := FirstSlot(s.slots, "");
    var s' := Import(s, name, true).0;
    if name != "" && name !in s.arrays {
      assert Bijection(s');
    } else if name != "" {
      assert s.arrays[name] != i && s'.slots[i] == name && s'.arrays[name] != i;
    }
  }

  /**
   A refused import gives its slot back and changes nothing, exactly when no earlier slot has the same name:
   the release frees the first slot with the name.
   */
  lemma ImportRollbackIff(s: State, name: string)
    ensures Import(s, name, false).0 == s <==>
            FirstSlot(s.slots, "") == |s.slots| || name !in s.slots[..FirstSlot(s.slots, "")]
  {
    var i := FirstSlot(s.slots, "");
    if i < |s.slots| {
      var taken := s.slots[i := name];
      var f := FirstSlot(taken, name);
      assert taken[i] == name && f <= i;
      assert forall j :: 0 <= j < i ==> taken[j] == s.slots[j];
      if name in s.slots[..i] {
        assert taken[f := ""][f] == "" && s.slots[f] == name;
      } else {
        assert taken[i := ""] == s.slots;
      }
    }
  }

  /** A table with one array: importing its name again takes a second slot, and a refusal frees the slot of the array. */
  lemma ImportAgainExample()
    ensures var s := State(["aa", ""], map["aa" := 0]);
            && Bijection(s)
            && !Bijection(Import(s, "aa", true).0) && !Bijection(Import(s, "", true).0)
            && Import(s, "aa", false).0 == State(["", "aa"], map["aa" := 0])
  {
    var s := State(["aa", ""], map["aa" := 0]);
    assert s.slots[1..] == [""] && s.slots[1 := "aa"] == ["aa", "aa"] && ["aa", "aa"][0 := ""] == ["", "aa"];
    assert FirstSlot(s.slots, "") == 1;
    ImportBijectionIff(s, "aa");
    ImportBijectionIff(s, "");
  }

  lemma FreshName(s: State, name: string)
    requires Bijection(s) && name !in s.arrays && name != ""
    ensures name !in s.slots
  {
  }

  /** The first n of a full table's slots hold n different names. */
  lemma {:induction false} NamesOf(slots: seq<string>, arrays: map<string, nat>, n: nat) returns (names: set<string>)
    requires n <= |slots|
    requires forall i :: 0 <= i < |slots| ==> slots[i] in arrays && arrays[slots[i]] == i
    ensures |names| == n && names <= arrays.Keys && forall name :: name in names ==> arrays[name] < n
  {
    if n == 0 {
      names := {};
    } else {
      names := NamesOf(slots, arrays, n - 1);
      assert slots[n - 1] !in names;
      names := names + {slots[n - 1]};
    }
  }

  /** Below the limit of arrays there is always a free index: Create never runs into the silent success. */
  lemma BelowLimitHasSlot(s: State)
    requires Bijection(s) && |s.arrays| < MAX_ARRAY_CNT
    ensures FirstSlot(s.slots, "") < |s.slots|
  {
    if FirstSlot(s.slots, "") == |s.slots| {
      var names := NamesOf(s.slots, s.arrays, |s.slots|);
      SubsetCard(names, s.arrays.Keys);
    }
  }

  lemma {:induction false} SubsetCard(a: set<string>, b: set<string>)
    requires a <= b
    ensures |a| <= |b|
  {
    if a != {} {
      var x :| x in a;
      SubsetCard(a - {x}, b - {x});
    }
  }

  lemma CreateKeeps(s: State, name: string, built: bool, ok: bool)
    requires Bijection(s)
    ensures Bijection(Create(s, name, built, ok).0)
    ensures Create(s, name, built, ok).1.Success? ==>
              name in Create(s, name, built, ok).0.arrays && |Create(s, name, built, ok).0.arrays| == |s.arrays| + 1
  {
    if name !in s.arrays && |s.arrays| < MAX_ARRAY_CNT && built && |name| >= 2 {
      BelowLimitHasSlot(s);
      FreshName(s, name);
      ImportBijectionIff(s, name);
      ImportRollbackIff(s, name);
    }
  }

  lemma FreeIndexIsNew(s: State)
    requires Bijection(s)
    ensures |s.slots| == MAX_ARRAY_CNT
    ensures forall other :: other in s.arrays ==> s.arrays[other] != FirstSlot(s.slots, "")
  {
  }

  /** A created array gets an index of its own and leaves the others where they are. */
  lemma CreateAdds(s: State, name: string)
    requires Bijection(s) && Create(s, name, true, true).1.Success?
    ensures var s' := Create(s, name, true, true).0;
            && Bijection(s') && s'.arrays.Keys == s.arrays.Keys + {name} && name !in s.arrays
            && s'.arrays[name] < MAX_ARRAY_CNT
            && forall other :: other in s.arrays ==>
                 s'.arrays[other] == s.arrays[other] && s'.arrays[other] != s'.arrays[name]
  {
    hide Bijection, FirstSlot;
    CreateKeeps(s, name, true, true);
    BelowLimitHasSlot(s);
    FreeIndexIsNew(s);
  }

  lemma DeleteKeeps(s: State, name: string, ok: bool)
    requires Bijection(s)
    ensures Bijection(Delete(s, name, ok).0)
  {
    if name in s.arrays && ok {
      ReleaseOwn(s, name);
      var s' := Delete(s, name, ok).0;
      forall other | other in s'.arrays ensures s'.arrays[other] < |s'.slots| && s'.slots[s'.arrays[other]] == other {
        assert s.slots[s.arrays[other]] == other && s.slots[s.arrays[name]] == name;
      }
    }
  }

  /** The stored names are non-empty, distinct and not in the table yet. */
  ghost predicate FreshNames(s: State, stored: seq<Stored>) {
    && (forall i :: 0 <= i < |stored| ==> stored[i].name != "" && stored[i].name !in s.arrays)
    && (forall i, j :: 0 <= i < j < |stored| ==> stored[i].name != stored[j].name)
  }

  lemma FreshRest(s: State, stored: seq<Stored>)
    requires stored != [] && FreshNames(s, stored)
    ensures FreshNames(Import(s, stored[0].name, stored[0].ok).0, stored[1..])
  {
    var s1, rest := Import(s, stored[0].name, stored[0].ok).0, stored[1..];
    assert forall i :: 0 <= i < |rest| ==> rest[i] == stored[i + 1];
    assert forall other :: other in s1.arrays ==> other in s.arrays || other == stored[0].name;
  }

  lemma ImportKeeps(s: State, name: string, ok: bool)
    requires Bijection(s) && name != "" && name !in s.arrays
    ensures Bijection(Import(s, name, ok).0)
  {
    FreshName(s, name);
    ImportRollbackIff(s, name);
    if FirstSlot(s.slots, "") < |s.slots| {
      ImportBijectionIff(s, name);
    }
  }

  lemma {:induction false} LoadKeeps(s: State, stored: seq<Stored>)
    requires Bijection(s) && FreshNames(s, stored)
    ensures Bijection(Load(s, stored).0)
    decreases stored
  {
    hide Bijection, Import;
    if stored != [] {
      ImportKeeps(s, stored[0].name, stored[0].ok);
      FreshRest(s, stored);
      LoadKeeps(Import(s, stored[0].name, stored[0].ok).0, stored[1..]);
    }
  }

  /** The names in a table, fewer than it has slots if one is free. */
  ghost function Used(slots: seq<string>): (r: set<string>)
    ensures forall name :: name in r <==> name in slots && name != ""
    ensures |r| <= |slots| && ("" in slots ==> |r| < |slots|)
  {
    if slots == [] then {}
    else
      var rest := Used(slots[1..]);
      assert slots == [slots[0]] + slots[1..];
      if slots[0] == "" then rest else rest + {slots[0]}
  }

  /** There are never more arrays than indices, and at the limit no index is free. */
  lemma FullTable(s: State)
    requires Bijection(s)
    ensures |s.arrays| <= MAX_ARRAY_CNT
    ensures |s.arrays| == MAX_ARRAY_CNT ==> FirstSlot(s.slots, "") == |s.slots|
  {
    assert s.arrays.Keys == Used(s.slots) by {
      forall name | name in s.arrays ensures name in s.slots {
        assert s.slots[s.arrays[name]] == name;
      }
    }
    assert |s.arrays.Keys| == |s.arrays|;
    assert FirstSlot(s.slots, "") < |s.slots| ==> "" in s.slots;
  }

  lemma {:induction false} FullLoad(s: State, stored: seq<Stored>)
    requires Bijection(s) && |s.arrays| >= MAX_ARRAY_CNT && forall i :: 0 <= i < |stored| ==> stored[i].built
    ensures Load(s, stored) == (s, Success)
    decreases stored
  {
    hide Bijection;
    if stored != [] {
      FullTable(s);
      FullLoad(s, stored[1..]);
    }
  }

  ghost predicate AllAccepted(stored: seq<Stored>) {
    forall i :: 0 <= i < |stored| ==> stored[i].built && stored[i].ok
  }

  lemma ImportAdds(s: State, name: string)
    requires Bijection(s) && |s.arrays| < MAX_ARRAY_CNT && name != "" && name !in s.arrays
    ensures var (s1, reply) := Import(s, name, true);
            reply.Success? && s1.arrays.Keys == s.arrays.Keys + {name} && |s1.arrays| == |s.arrays| + 1
  {
    BelowLimitHasSlot(s);
  }

  /** Of the stored arrays, all of which could be imported, exactly the first ones that fit are loaded. */
  lemma {:induction false} LoadFits(s: State, stored: seq<Stored>)
    requires Bijection(s) && FreshNames(s, stored) && AllAccepted(stored)
    ensures var (s', reply) := Load(s, stored);
            && reply.Success? && s.arrays.Keys <= s'.arrays.Keys
            && forall i :: 0 <= i < |stored| ==> (stored[i].name in s'.arrays <==> |s.arrays| + i < MAX_ARRAY_CNT)
    decreases stored
  {
    hide Bijection, Import;
    if |s.arrays| >= MAX_ARRAY_CNT {
      FullLoad(s, stored);
    } else if stored != [] {
      var s1, rest := Import(s, stored[0].name, true).0, stored[1..];
      ImportAdds(s, stored[0].name);
      ImportKeeps(s, stored[0].name, true);
      FreshRest(s, stored);
      LoadFits(s1, rest);
      var s' := Load(s, stored).0;
      assert s' == Load(s1, rest).0 && stored[0].name in s1.arrays;
      forall i | 0 < i < |stored| ensures stored[i].name in s'.arrays <==> |s.arrays| + i < MAX_ARRAY_CNT {
        assert rest[i - 1] == stored[i];
      }
    }
  }

  /** Load always reports success for arrays that can be imported, and loads them all exactly when they fit. */
  lemma LoadCompleteIff(s: State, stored: seq<Stored>)
    requires Bijection(s) && FreshNames(s, stored) && AllAccepted(stored)
    ensures var (s', reply) := Load(s, stored);
            && reply.Success?
            && ((forall i :: 0 <= i < |stored| ==> stored[i].name in s'.arrays) <==>
                |s.arrays| + |stored| <= MAX_ARRAY_CNT)
  {
    hide Bijection, Load, FreshNames, AllAccepted;
    LoadFits(s, stored);
    FullTable(s);
    var s' := Load(s, stored).0;
    if |s.arrays| + |stored| > MAX_ARRAY_CNT {
      assert stored[|stored| - 1].name !in s'.arrays;
    }
  }

  /** Three stored arrays: the third is dropped and Load reports success. */
  lemma LoadDropsExample()
    ensures var stored := [Stored("aa", true, true), Stored("bb", true, true), Stored("cc", true, true)];
            Load(EMPTY, stored).1.Success? && Load(EMPTY, stored).0.arrays.Keys == {"aa", "bb"}
  {
    var stored := [Stored("aa", true, true), Stored("bb", true, true), Stored("cc", true, true)];
    var s1 := State(["aa", ""], map["aa" := 0]);
    var s2 := State(["aa", "bb"], map["aa" := 0, "bb" := 1]);
    assert EMPTY.slots == ["", ""] && EMPTY.slots[0 := "aa"] == ["aa", ""];
    assert Import(EMPTY, "aa", true) == (s1, Success);
    assert s1.slots[1..] == [""] && s1.slots[1 := "bb"] == ["aa", "bb"];
    assert Import(s1, "bb", true) == (s2, Success);
    assert s2.slots[1..] == ["bb"] && s2.slots[1..][1..] == [];
    assert Import(s2, "cc", true) == (s2, Success);
    hide Import, FirstSlot;
    assert Load(s2, stored[1..][1..][1..]) == (s2, Success);
    assert Load(s2, stored[1..][1..]) == (s2, Success);
    assert Load(s1, stored[1..]) == (s2, Success);
  }

  lemma {:induction false} ResetKeeps(s: State, names: seq<string>, oks: seq<bool>)
    requires Bijection(s) && |names| == |oks|
    ensures Bijection(Reset(s, names, oks))
    decreases names
  {
    if names != [] && oks[0] {
      DeleteKeeps(s, names[0], true);
      ResetKeeps(Delete(s, names[0], true).0, names[1..], oks[1..]);
    }
  }

  /** A reset in which no array refuses ends in the empty table. */
  lemma {:induction false} ResetEmpties(s: State, names: seq<string>, oks: seq<bool>)
    requires Bijection(s) && |names| == |oks| && (forall i :: 0 <= i < |oks| ==> oks[i])
    requires forall name :: name in s.arrays ==> name in names
    ensures Reset(s, names, oks) == EMPTY
    decreases names
  {
    if names == [] {
      assert s.arrays == map[] && s.slots == EMPTY.slots;
    } else {
      var s1 := Delete(s, names[0], true).0;
      DeleteKeeps(s, names[0], true);
      assert forall name :: name in s1.arrays ==> name in names && name != names[0];
      ResetEmpties(s1, names[1..], oks[1..]);
    }
  }

  /** Which answer Create gives when; it succeeds exactly for a new name below the limit that is built and imported. */
  lemma CreateReply(s: State, name: string, built: bool, ok: bool)
    requires Bijection(s)
    ensures var (s', reply) := Create(s, name, built, ok);
            var room := name !in s.arrays && |s.arrays| < MAX_ARRAY_CNT;
            && (reply.Success? <==> room && built && |name| >= 2 && ok)
            && (reply.SameNameExists? <==> name in s.arrays)
            && (reply.ExceedsMax? <==> name !in s.arrays && |s.arrays| >= MAX_ARRAY_CNT)
            && (reply.BuildFailed? <==> room && !(built && |name| >= 2))
            && (reply.ImportFailed? <==> room && built && |name| >= 2 && !ok)
            && (!reply.Success? ==> s' == s)
  {
    hide Bijection, FirstSlot, Release;
    if name !in s.arrays && |s.arrays| < MAX_ARRAY_CNT && |name| >= 2 {
      BelowLimitHasSlot(s);
      FreshName(s, name);
      ImportRollbackIff(s, name);
    }
  }

  /** Delete removes exactly the named array and frees exactly its index; it is refused without a change otherwise. */
  lemma DeleteEffect(s: State, name: string, ok: bool)
    requires Bijection(s)
    ensures var (s', reply) := Delete(s, name, ok);
            && (reply.Success? <==> name in s.arrays && ok)
            && (reply.NameDoesNotExist? <==> name !in s.arrays)
            && (reply.DeleteFailed? <==> name in s.arrays && !ok)
            && (!reply.Success? ==> s' == s)
            && (reply.Success? ==> s'.arrays == s.arrays - {name} && s'.slots == s.slots[s.arrays[name] := ""])
  {
    if name in s.arrays {
      ReleaseOwn(s, name);
    }
  }

  /** ResetPbr deletes exactly the arrays before the first one that refuses. */
  lemma {:induction false} ResetDeletes(s: State, names: seq<string>, oks: seq<bool>, k: nat)
    requires |names| == |oks| && k <= |names| && (forall j :: 0 <= j < k ==> oks[j]) && (k < |oks| ==> !oks[k])
    ensures forall name :: name in Reset(s, names, oks).arrays <==> name in s.arrays && name !in names[..k]
    decreases names
  {
    if k > 0 {
      assert names[..k] == [names[0]] + names[1..][..k - 1];
      ResetDeletes(Delete(s, names[0], true).0, names[1..], oks[1..], k - 1);
    }
  }

  /**
   Load stops at the first table that is not built, and at the first one that is refused while an index is free; the
   arrays before it stay loaded.
   */
  lemma {:induction false} LoadStopsAt(s: State, stored: seq<Stored>, j: nat)
    requires Bijection(s) && FreshNames(s, stored) && j < |stored| && AllAccepted(stored[..j])
    requires !stored[j].built || (!stored[j].ok && |s.arrays| + j < MAX_ARRAY_CNT)
    ensures Load(s, stored) == (Load(s, stored[..j]).0, if stored[j].built then ImportFailed else BuildFailed)
    decreases stored
  {
    hide Bijection, FirstSlot, Release;
    var s1, rest := Import(s, stored[0].name, stored[0].ok).0, stored[1..];
    if j == 0 {
      if stored[0].built {
        BelowLimitHasSlot(s);
        FreshName(s, stored[0].name);
        ImportRollbackIff(s, stored[0].name);
      }
    } else {
      assert stored[..j][0] == stored[0] && stored[..j][1..] == rest[..j - 1] && rest[j - 1] == stored[j];
      assert stored[0].built && stored[0].ok;
      LoadStep(s, stored, j);
      LoadStopsAt(s1, rest, j - 1);
    }
  }

  lemma LoadStep(s: State, stored: seq<Stored>, j: nat)
    requires Bijection(s) && FreshNames(s, stored) && 0 < j < |stored| && AllAccepted(stored[..j])
    ensures var s1 := Import(s, stored[0].name, true).0;
            && stored[..j][0].ok && Import(s, stored[0].name, true).1.Success?
            && Bijection(s1) && FreshNames(s1, stored[1..]) && AllAccepted(stored[1..][..j - 1])
            && (|s.arrays| + j < MAX_ARRAY_CNT ==> |s1.arrays| + (j - 1) < MAX_ARRAY_CNT)
  {
    hide Bijection, FirstSlot, Release;
    assert stored[..j][0] == stored[0];
    FreshRest(s, stored);
    ImportKeeps(s, stored[0].name, true);
    var rest := stored[1..][..j - 1];
    forall i | 0 <= i < |rest| ensures rest[i].built && rest[i].ok {
      assert rest[i] == stored[..j][i + 1];
    }
    if |s.arrays| < MAX_ARRAY_CNT {
      ImportAdds(s, stored[0].name);
    }
  }

  // ------------------------------------------------------------------------ runs

  datatype Event =
    | EvCreate(name: string, built: bool, ok: bool)
    | EvDelete(name: string, ok: bool)
    | EvLoad(stored: seq<Stored>)
    | EvReset(names: seq<string>, oks: seq<bool>)

  /** Load is given the non-empty, distinct names of arrays that are not there yet. */
  ghost predicate Enabled(s: State, e: Event) {
    match e
    case EvLoad(stored) => FreshNames(s, stored)
    case EvReset(names, oks) => |names| == |oks|
    case _ => true
  }

  function Step(s: State, e: Event): State
    requires Enabled(s, e)
  {
    match e
    case EvCreate(name, built, ok) => Create(s, name, built, ok).0
    case EvDelete(name, ok) => Delete(s, name, ok).0
    case EvLoad(stored) => Load(s, stored).0
    case EvReset(names, oks) => Reset(s, names, oks)
  }

  ghost predicate Run(s: State, events: seq<Event>)
    decreases events
  {
    events == [] || (Enabled(s, events[0]) && Run(Step(s, events[0]), events[1..]))
  }

  ghost function Final(s: State, events: seq<Event>): State
    requires Run(s, events)
    decreases events
  {
    if events == [] then s else Final(Step(s, events[0]), events[1..])
  }

  lemma StepBijection(s: State, e: Event)
    requires Bijection(s) && Enabled(s, e)
    ensures Bijection(Step(s, e))
  {
    hide Bijection;
    match e
    case EvCreate(name, built, ok) => CreateKeeps(s, name, built, ok);
    case EvDelete(name, ok) => DeleteKeeps(s, name, ok);
    case EvLoad(stored) => LoadKeeps(s, stored);
    case EvReset(names, oks) => ResetKeeps(s, names, oks);
  }

  /** Index slots and array map stay in bijection over every run. */
  lemma {:induction false} RunBijection(s: State, events: seq<Event>)
    requires Bijection(s) && Run(s, events)
    ensures Bijection(Final(s, events))
    decreases events
  {
    hide Bijection, Step, Enabled;
    if events != [] {
      StepBijection(s, events[0]);
      RunBijection(Step(s, events[0]), events[1..]);
    }
  }

  /** An array that is there before and after keeps its index. */
  ghost predicate Stable(s: State, s': State) {
    forall name :: name in s.arrays && name in s'.arrays ==> s'.arrays[name] == s.arrays[name]
  }

  lemma {:induction false} LoadStable(s: State, stored: seq<Stored>)
    ensures Stable(s, Load(s, stored).0) && s.arrays.Keys <= Load(s, stored).0.arrays.Keys
    decreases stored
  {
    if stored != [] {
      LoadStable(Import(s, stored[0].name, stored[0].ok).0, stored[1..]);
    }
  }

  lemma {:induction false} ResetStable(s: State, names: seq<string>, oks: seq<bool>)
    requires |names| == |oks|
    ensures Stable(s, Reset(s, names, oks)) && Reset(s, names, oks).arrays.Keys <= s.arrays.Keys
    decreases names
  {
    if names != [] && oks[0] {
      ResetStable(Delete(s, names[0], true).0, names[1..], oks[1..]);
    }
  }

  lemma StepStable(s: State, e: Event)
    requires Enabled(s, e)
    ensures Stable(s, Step(s, e))
  {
    hide Release, FirstSlot, Load, Reset;
    match e
    case EvLoad(stored) => LoadStable(s, stored);
    case EvReset(names, oks) => ResetStable(s, names, oks);
    case _ =>
  }

  // ------------------------------------------------------------------ the object

  class Manager {
    const slots: array<string>
    var arrays: map<string, nat>

    ghost predicate Valid()
      reads this, slots
    {
      Bijection(Model())
    }

    ghost function Model(): State
      reads this, slots
    {
      State(slots[..], arrays)
    }

    constructor ()
      ensures Valid() && Model() == EMPTY && fresh(slots)
    {
      slots := new string[MAX_ARRAY_CNT](_ => "");
      arrays := map[];
      new;
      assert slots[..] == EMPTY.slots;
    }

    method AllocArrayIndex(name: string) returns (index: nat)
      modifies slots
      ensures index == FirstSlot(old(slots[..]), "")
      ensures slots[..] == if index < slots.Length then old(slots[..])[index := name] else old(slots[..])
    {
      for i := 0 to slots.Length
        invariant slots[..] == old(slots[..])
        invariant forall j :: 0 <= j < i ==> slots[j] != ""
      {
        if slots[i] == "" {
          slots[i] := name;
          return i;
        }
      }
      return slots.Length;
    }

    method ReleaseArrayIndex(name: string)
      modifies slots
      ensures slots[..] == Release(old(slots[..]), name)
    {
      for i := 0 to slots.Length
        invariant slots[..] == old(slots[..])
        invariant forall j :: 0 <= j < i ==> slots[j] != name
      {
        if slots[i] == name {
          slots[i] := "";
          return;
        }
      }
    }

    method ImportArray(name: string, ok: bool) returns (reply: Reply)
      modifies this, slots
      ensures (Model(), reply) == Import(old(Model()), name, ok)
    {
      var index := AllocArrayIndex(name);
      reply := Success;
      if index < slots.Length {
        if ok {
          if name !in arrays {
            arrays := arrays[name := index];
          }
        } else {
          reply := ImportFailed;
          ReleaseArrayIndex(name);
        }
      }
    }

    method CreateArray(name: string, built: bool, ok: bool) returns (reply: Reply)
      requires Valid()
      modifies this, slots
      ensures Valid() && (Model(), reply) == Create(old(Model()), name, built, ok)
    {
      CreateKeeps(Model(), name, built, ok);
      if name in arrays {
        return SameNameExists;
      }
      if |arrays| >= MAX_ARRAY_CNT {
        return ExceedsMax;
      }
      if !built || |name| < 2 {
        return BuildFailed;
      }
      reply := ImportArray(name, ok);
    }

    method DeleteArray(name: string, ok: bool) returns (reply: Reply)
      requires Valid()
      modifies this, slots
      ensures Valid() && (Model(), reply) == Delete(old(Model()), name, ok)
    {
      DeleteKeeps(Model(), name, ok);
      if name !in arrays {
        return NameDoesNotExist;
      }
      if !ok {
        return DeleteFailed;
      }
      arrays := arrays - {name};
      ReleaseArrayIndex(name);
      return Success;
    }

    /** Load over the stored tables. */
    method LoadArrays(stored: seq<Stored>) returns (reply: Reply)
      modifies this, slots
      ensures (Model(), reply) == Load(old(Model()), stored)
    {
      hide Import;
      reply := Success;
      for k := 0 to |stored|
        invariant Load(old(Model()), stored) == Load(Model(), stored[k..]) && reply.Success?
      {
        assert stored[k..][1..] == stored[k + 1..];
        if !stored[k].built {
          return BuildFailed;
        }
        reply := ImportArray(stored[k].name, stored[k].ok);
        if !reply.Success? {
          return;
        }
      }
    }

    /**
     ResetPbr: deletes the arrays in the order `names` until one refuses; then the records of all SSDs are cleared,
     which succeeds or not as `clearOk` says.
     */
    method ResetPbr(names: seq<string>, oks: seq<bool>, clearOk: bool) returns (reply: Reply, cleared: bool)
      requires Valid() && |names| == |oks|
      modifies this, slots
      ensures Valid() && Model() == Reset(old(Model()), names, oks)
      ensures cleared <==> clearOk && forall k :: 0 <= k < |oks| ==> oks[k]
      ensures reply.Success? <==> cleared
      ensures reply.DeleteFailed? <==> exists k :: 0 <= k < |oks| && !oks[k]
      ensures reply.Success? || reply.DeleteFailed? || reply.ClearFailed?
    {
      hide Bijection, Delete;
      for k := 0 to |names|
        invariant Valid() && Reset(old(Model()), names, oks) == Reset(Model(), names[k..], oks[k..])
        invariant forall j :: 0 <= j < k ==> oks[j]
      {
        assert names[k..][1..] == names[k + 1..] && oks[k..][1..] == oks[k + 1..];
        if !oks[k] {
          return DeleteFailed, false;
        }
        var deleted := DeleteArray(names[k], true);
      }
      return if clearOk then Success else ClearFailed, clearOk;
    }

    /** GetInfo by index: the loop keeps the last match, and by the bijection there is at most one. */
    method GetInfo(index: nat, names: seq<string>) returns (found: string)
      requires Valid() && (forall name :: name in names <==> name in arrays)
      ensures found == "" <==> forall name :: name in arrays ==> arrays[name] != index
      ensures found != "" ==> found in arrays && arrays[found] == index
      ensures forall name :: name in arrays && arrays[name] == index ==> found == name
    {
      found := "";
      for k := 0 to |names|
        invariant found == "" || (found in arrays && arrays[found] == index)
        invariant forall j :: 0 <= j < k && arrays[names[j]] == index ==> found == names[j]
      {
        if arrays[names[k]] == index {
          assert found != "" ==> slots[..][arrays[found]] == slots[..][arrays[names[k]]];
          found := names[k];
        }
      }
    }
  }
}
