/**
 The completion counter of a flush (src/bio/flush_io.cpp), shared by one scanner and any number of flushers.
 Every atomic load and store is a step of its own.
 */
module FlushIo {
  import opened Int32

  /** Where a running DecreaseStripeCnt stands: after its decrement, after reading zero, about to set the flag. */
  datatype FlusherPc = Decremented | ReadZero | Setting

  /** Where StripesScanComplete stands. */
  datatype ScannerPc = NotCalled | Stored | AboutToSet | Returned

  datatype State = State(
    stripeCnt: int,
    scanComplete: bool,
    flushComplete: bool,
    flushers: map<nat, FlusherPc>,
    scanner: ScannerPc)

  datatype Event =
    | Increase
    | Decrement(t: nat)
    | LoadCnt(t: nat)
    | LoadScan(t: nat)
    | SetFlag(t: nat)
    | ScanStore
    | ScanLoad
    | ScanSetFlag

  const START := State(0, false, false, map[], NotCalled)

  /** Increases come before the scan-complete call, and a stripe is only decremented after it was counted. */
  predicate Enabled(s: State, e: Event) {
    match e
    case Increase => s.scanner.NotCalled?
    case Decrement(t) => t !in s.flushers && s.stripeCnt > 0
    case LoadCnt(t) => t in s.flushers && s.flushers[t].Decremented?
    case LoadScan(t) => t in s.flushers && s.flushers[t].ReadZero?
    case SetFlag(t) => t in s.flushers && s.flushers[t].Setting?
    case ScanStore => s.scanner.NotCalled?
    case ScanLoad => s.scanner.Stored?
    case ScanSetFlag => s.scanner.AboutToSet?
  }

  function Step(s: State, e: Event): State
    requires Enabled(s, e)
  {
    match e
    case Increase => s.(stripeCnt := s.stripeCnt + 1)
    case Decrement(t) => s.(stripeCnt := s.stripeCnt - 1, flushers := s.flushers[t := Decremented])
    case LoadCnt(t) => s.(flushers := if s.stripeCnt == 0 then s.flushers[t := ReadZero] else s.flushers - {t})
    case LoadScan(t) => s.(flushers := if s.scanComplete then s.flushers[t := Setting] else s.flushers - {t})
    case SetFlag(t) => s.(flushComplete := true, flushers := s.flushers - {t})
    case ScanStore => s.(scanComplete := true, scanner := Stored)
    case ScanLoad => s.(scanner := if s.stripeCnt == 0 then AboutToSet else Returned)
    case ScanSetFlag => s.(flushComplete := true, scanner := Returned)
  }

  predicate Run(s: State, events: seq<Event>)
    decreases events
  {
    events == [] || (Enabled(s, events[0]) && Run(Step(s, events[0]), events[1..]))
  }

  function Final(s: State, events: seq<Event>): State
    requires Run(s, events)
    decreases events
  {
    if events == [] then s else Final(Step(s, events[0]), events[1..])
  }

  /** Somebody is still on the way to set the flag. */
  ghost predicate Pending(s: State) {
    s.scanner.Stored? || s.scanner.AboutToSet? || exists t :: t in s.flushers
  }

  ghost predicate Inv(s: State) {
    && s.stripeCnt >= 0
    && (s.scanComplete <==> !s.scanner.NotCalled?)
    && (s.flushComplete ==> s.scanComplete)
    && (forall t :: t in s.flushers && s.flushers[t].Setting? ==> s.scanComplete)
    && (s.scanComplete && s.stripeCnt == 0 && !s.flushComplete ==> Pending(s))
  }

  lemma StepInv(s: State, e: Event)
    requires Inv(s) && Enabled(s, e)
    ensures Inv(Step(s, e))
  {
    var s' := Step(s, e);
    if s'.scanComplete && s'.stripeCnt == 0 && !s'.flushComplete && (e.Decrement? || e.LoadCnt? || e.LoadScan?) {
      assert e.t in s'.flushers;
    } else if s'.scanComplete && s'.stripeCnt == 0 && !s'.flushComplete && e.ScanLoad? {
      assert s'.scanner.AboutToSet?;
    }
  }

  lemma {:induction false} RunInv(s: State, events: seq<Event>)
    requires Inv(s) && Run(s, events)
    ensures Inv(Final(s, events))
    decreases events
  {
    if events != [] {
      StepInv(s, events[0]);
      RunInv(Step(s, events[0]), events[1..]);
    }
  }

  /**
   No completion is lost: in every run, once the scan is complete, the count is zero and no call is in flight,
   the flag is set.
   */
  lemma NoLostCompletion(events: seq<Event>)
    requires Run(START, events)
    ensures var s := Final(START, events);
            s.scanComplete && s.stripeCnt == 0 && s.flushers == map[] && s.scanner.Returned? ==> s.flushComplete
  {
    RunInv(START, events);
  }

  // ------------------------------------------------------------ early completion

  /** Nobody has read a zero that an increase is about to make stale. */
  ghost predicate NoStaleZero(s: State) {
    forall t :: t in s.flushers ==> !s.flushers[t].ReadZero?
  }

  /** Every increase of the run comes while no flusher stands between its two loads. */
  ghost predicate Quiet(s: State, events: seq<Event>)
    requires Run(s, events)
    decreases events
  {
    events == [] || ((events[0].Increase? ==> NoStaleZero(s)) && Quiet(Step(s, events[0]), events[1..]))
  }

  /** A flag that is set, or about to be set, tells the truth. */
  ghost predicate Truthful(s: State) {
    && Inv(s)
    && (s.flushComplete || s.scanner.AboutToSet? ==> s.stripeCnt == 0)
    && (forall t :: t in s.flushers && !s.flushers[t].Decremented? ==> s.stripeCnt == 0)
  }

  lemma {:induction false} QuietTruthful(s: State, events: seq<Event>)
    requires Truthful(s) && Run(s, events) && Quiet(s, events)
    ensures Truthful(Final(s, events))
    decreases events
  {
    if events != [] {
      StepInv(s, events[0]);
      QuietTruthful(Step(s, events[0]), events[1..]);
    }
  }

  /**
   The flag means "all stripes flushed" in every quiet run, and quietness is exactly what is needed: an increase
   while a flusher holds a zero can be continued to a state with the flag set and stripes still counted.
   */
  lemma FlagTruthfulIfQuiet(events: seq<Event>)
    requires Run(START, events) && Quiet(START, events)
    ensures Final(START, events).flushComplete ==> Final(START, events).scanComplete && Final(START, events).stripeCnt == 0
  {
    QuietTruthful(START, events);
  }

  lemma FlagEarlyIfNotQuiet(s: State, t: nat)
    requires Inv(s) && t in s.flushers && s.flushers[t].ReadZero? && Enabled(s, Increase)
    ensures var later := [Increase, ScanStore, LoadScan(t), SetFlag(t)];
            && Run(s, later)
            && Final(s, later).flushComplete && Final(s, later).stripeCnt == s.stripeCnt + 1 > 0
  {
    var s1 := Step(s, Increase);
    var s2 := Step(s1, ScanStore);
    var s3 := Step(s2, LoadScan(t));
    var s4 := Step(s3, SetFlag(t));
    RunOne(s3, SetFlag(t), []);
    RunOne(s2, LoadScan(t), [SetFlag(t)]);
    RunOne(s1, ScanStore, [LoadScan(t), SetFlag(t)]);
    RunOne(s, Increase, [ScanStore, LoadScan(t), SetFlag(t)]);
  }

  lemma RunOne(s: State, e: Event, rest: seq<Event>)
    requires Enabled(s, e) && Run(Step(s, e), rest)
    ensures Run(s, [e] + rest) && Final(s, [e] + rest) == Final(Step(s, e), rest)
  {
    assert ([e] + rest)[1..] == rest;
  }

  /** A run that ends with the flag set while one stripe is still counted. */
  lemma EarlyExample()
    ensures var events := [Increase, Decrement(0), LoadCnt(0), Increase, ScanStore, LoadScan(0), SetFlag(0)];
            && Run(START, events)
            && Final(START, events).flushComplete && Final(START, events).stripeCnt == 1
  {
    var s1 := Step(START, Increase);
    var s2 := Step(s1, Decrement(0));
    var s3 := Step(s2, LoadCnt(0));
    FlagEarlyIfNotQuiet(s3, 0);
    var later := [Increase, ScanStore, LoadScan(0), SetFlag(0)];
    RunOne(s2, LoadCnt(0), later);
    RunOne(s1, Decrement(0), [LoadCnt(0)] + later);
    RunOne(START, Increase, [Decrement(0), LoadCnt(0)] + later);
    assert [Increase, Decrement(0), LoadCnt(0), Increase, ScanStore, LoadScan(0), SetFlag(0)]
        == [Increase] + ([Decrement(0), LoadCnt(0)] + later);
    assert [Decrement(0), LoadCnt(0)] + later == [Decrement(0)] + ([LoadCnt(0)] + later);
  }

  // ---------------------------------------------------------------- whole calls

  /** The counter with whole calls as steps: the flag is set exactly when the scan is complete and nothing is left. */
  class FlushCounter {
    var stripeCnt: int
    var stripesScanComplete: bool
    var stripesFlushComplete: bool

    ghost predicate Valid()
      reads this
    {
      && -0x8000_0000 <= stripeCnt <= INT32_MAX
      && (stripesFlushComplete <==> stripesScanComplete && stripeCnt == 0)
    }

    constructor ()
      ensures Valid() && stripeCnt == 0 && !stripesScanComplete
    {
      stripeCnt, stripesScanComplete, stripesFlushComplete := 0, false, false;
    }

    /** Counting a stripe after the scan breaks the equivalence exactly if the count was zero, or minus one. */
    method IncreaseStripeCnt()
      requires Valid()
      modifies this`stripeCnt
      ensures stripeCnt == Wrap32(old(stripeCnt) + 1)
      ensures Valid() <==> !stripesScanComplete || (old(stripeCnt) != 0 && old(stripeCnt) != -1)
    {
      stripeCnt := Wrap32(stripeCnt + 1);
    }

    /** Uncounting a stripe breaks the equivalence exactly if the flush was already complete. */
    method DecreaseStripeCnt()
      requires Valid()
      modifies this`stripeCnt, this`stripesFlushComplete
      ensures stripeCnt == Wrap32(old(stripeCnt) - 1)
      ensures stripesFlushComplete <==> old(stripesFlushComplete) || (stripesScanComplete && stripeCnt == 0)
      ensures Valid() <==> !old(stripesFlushComplete)
    {
      stripeCnt := Wrap32(stripeCnt - 1);
      if stripeCnt == 0 && stripesScanComplete {
        stripesFlushComplete := true;
      }
    }

    method StripesScanComplete()
      requires Valid()
      modifies this`stripesScanComplete, this`stripesFlushComplete
      ensures Valid() && stripesScanComplete
    {
      stripesScanComplete := true;
      if stripeCnt == 0 {
        stripesFlushComplete := true;
      }
    }

    method IsStripesFlushComplete() returns (complete: bool)
      requires Valid()
      ensures complete <==> stripesScanComplete && stripeCnt == 0
    {
      complete := stripesFlushComplete;
    }
  }
}
