/** Aggregation of the health pages of several disks (src/admin). */
module SmartLog {

  const SENSORS: nat := 8
  const COMPONENTS: nat := 2
  const KELVIN: nat := 273
  const DATA_UNIT: nat := 512 * 1000
  const TWO16: nat := 0x1_0000

  /** The fields of a health page that the aggregation touches. */
  datatype Page = Page(
    temperature: nat,
    spare: nat,
    spareThreshold: nat,
    percentageUsed: nat,
    warningTime: nat,
    criticalTime: nat,
    sensors: seq<nat>,
    unitsRead: (nat, nat),
    unitsWritten: (nat, nat),
    readCommands: (nat, nat),
    writeCommands: (nat, nat))

  predicate Wellformed(p: Page) {
    |p.sensors| == SENSORS
  }

  function Max(a: nat, b: nat): nat {
    if b > a then b else a
  }

  function Min(a: nat, b: nat): nat {
    if b < a then b else a
  }

  function MaxSensors(a: seq<nat>, b: seq<nat>): seq<nat>
    requires |a| == |b| == SENSORS
  {
    seq(SENSORS, i requires 0 <= i < SENSORS => Max(a[i], b[i]))
  }

  /** The merge of one disk page: the first page with a temperature is taken over, later ones are combined. */
  function Merge(r: Page, p: Page): Page
    requires Wellformed(r) && Wellformed(p)
  {
    if p.temperature == 0 then r
    else if r.temperature == 0 then
      r.(temperature := p.temperature, spare := p.spare, spareThreshold := p.spareThreshold,
         percentageUsed := p.percentageUsed, warningTime := p.warningTime, criticalTime := p.criticalTime,
         sensors := p.sensors, unitsRead := p.unitsRead)
    else
      r.(temperature := Max(r.temperature, p.temperature), spare := Min(r.spare, p.spare),
         spareThreshold := Min(r.spareThreshold, p.spareThreshold),
         percentageUsed := Max(r.percentageUsed, p.percentageUsed),
         warningTime := Max(r.warningTime, p.warningTime), criticalTime := Max(r.criticalTime, p.criticalTime),
         sensors := MaxSensors(r.sensors, p.sensors))
  }

  function MergeAll(r: Page, pages: seq<Page>): (m: Page)
    requires Wellformed(r) && forall p :: p in pages ==> Wellformed(p)
    ensures Wellformed(m)
  {
    if pages == [] then r else Merge(MergeAll(r, pages[..|pages| - 1]), pages[|pages| - 1])
  }

  // ------------------------------------------------------- what a merge stands for

  ghost predicate IsMax(pages: seq<Page>, f: Page -> nat, v: nat) {
    && (exists p :: p in pages && p.temperature != 0 && f(p) == v)
    && (forall p :: p in pages && p.temperature != 0 ==> f(p) <= v)
  }

  ghost predicate IsMin(pages: seq<Page>, f: Page -> nat, v: nat) {
    && (exists p :: p in pages && p.temperature != 0 && f(p) == v)
    && (forall p :: p in pages && p.temperature != 0 ==> v <= f(p))
  }

  ghost predicate AnyHot(pages: seq<Page>) {
    exists p :: p in pages && p.temperature != 0
  }

  ghost function Sensor(i: nat): Page -> nat {
    (p: Page) => if i < |p.sensors| then p.sensors[i] else 0
  }

  /** The maximum or minimum of every field over the pages that report a temperature. */
  ghost predicate Summary(pages: seq<Page>, r: Page) {
    && IsMax(pages, (p: Page) => p.temperature, r.temperature)
    && IsMin(pages, (p: Page) => p.spare, r.spare)
    && IsMin(pages, (p: Page) => p.spareThreshold, r.spareThreshold)
    && IsMax(pages, (p: Page) => p.percentageUsed, r.percentageUsed)
    && IsMax(pages, (p: Page) => p.warningTime, r.warningTime)
    && IsMax(pages, (p: Page) => p.criticalTime, r.criticalTime)
    && |r.sensors| == SENSORS
    && forall i :: 0 <= i < SENSORS ==> IsMax(pages, Sensor(i), r.sensors[i])
  }

  lemma MaxPush(pages: seq<Page>, p: Page, f: Page -> nat, v: nat)
    requires IsMax(pages, f, v) && p.temperature != 0
    ensures IsMax(pages + [p], f, Max(v, f(p)))
  {
    var q :| q in pages && q.temperature != 0 && f(q) == v;
    assert q in pages + [p] && p in pages + [p];
  }

  lemma MinPush(pages: seq<Page>, p: Page, f: Page -> nat, v: nat)
    requires IsMin(pages, f, v) && p.temperature != 0
    ensures IsMin(pages + [p], f, Min(v, f(p)))
  {
    var q :| q in pages && q.temperature != 0 && f(q) == v;
    assert q in pages + [p] && p in pages + [p];
  }

  lemma FirstPush(pages: seq<Page>, p: Page, f: Page -> nat)
    requires !AnyHot(pages) && p.temperature != 0
    ensures IsMax(pages + [p], f, f(p)) && IsMin(pages + [p], f, f(p))
  {
    assert p in pages + [p];
  }

  lemma ColdPush(pages: seq<Page>, p: Page, f: Page -> nat, v: nat)
    requires p.temperature == 0
    ensures IsMax(pages, f, v) ==> IsMax(pages + [p], f, v)
    ensures IsMin(pages, f, v) ==> IsMin(pages + [p], f, v)
  {
    if q :| q in pages && q.temperature != 0 && f(q) == v {
      assert q in pages + [p];
    }
  }

  lemma SummaryCold(pages: seq<Page>, p: Page, r: Page)
    requires Summary(pages, r) && p.temperature == 0
    ensures Summary(pages + [p], r)
  {
    hide IsMax, IsMin;
    ColdPush(pages, p, (q: Page) => q.temperature, r.temperature);
    ColdPush(pages, p, (q: Page) => q.spare, r.spare);
    ColdPush(pages, p, (q: Page) => q.spareThreshold, r.spareThreshold);
    ColdPush(pages, p, (q: Page) => q.percentageUsed, r.percentageUsed);
    ColdPush(pages, p, (q: Page) => q.warningTime, r.warningTime);
    ColdPush(pages, p, (q: Page) => q.criticalTime, r.criticalTime);
    forall i | 0 <= i < SENSORS ensures IsMax(pages + [p], Sensor(i), r.sensors[i]) {
      ColdPush(pages, p, Sensor(i), r.sensors[i]);
    }
  }

  lemma SummaryFirst(pages: seq<Page>, p: Page, r: Page)
    requires Wellformed(r) && Wellformed(p) && !AnyHot(pages) && r.temperature == 0 && p.temperature != 0
    ensures Summary(pages + [p], Merge(r, p))
  {
    hide IsMax, IsMin, AnyHot;
    FirstPush(pages, p, (q: Page) => q.temperature);
    FirstPush(pages, p, (q: Page) => q.spare);
    FirstPush(pages, p, (q: Page) => q.spareThreshold);
    FirstPush(pages, p, (q: Page) => q.percentageUsed);
    FirstPush(pages, p, (q: Page) => q.warningTime);
    FirstPush(pages, p, (q: Page) => q.criticalTime);
    forall i | 0 <= i < SENSORS ensures IsMax(pages + [p], Sensor(i), p.sensors[i]) {
      FirstPush(pages, p, Sensor(i));
    }
  }

  lemma SummaryNext(pages: seq<Page>, p: Page, r: Page)
    requires Summary(pages, r) && Wellformed(r) && Wellformed(p) && r.temperature != 0 && p.temperature != 0
    ensures Summary(pages + [p], Merge(r, p))
  {
    hide IsMax, IsMin;
    MaxPush(pages, p, (q: Page) => q.temperature, r.temperature);
    MinPush(pages, p, (q: Page) => q.spare, r.spare);
    MinPush(pages, p, (q: Page) => q.spareThreshold, r.spareThreshold);
    MaxPush(pages, p, (q: Page) => q.percentageUsed, r.percentageUsed);
    MaxPush(pages, p, (q: Page) => q.warningTime, r.warningTime);
    MaxPush(pages, p, (q: Page) => q.criticalTime, r.criticalTime);
    forall i | 0 <= i < SENSORS ensures IsMax(pages + [p], Sensor(i), Merge(r, p).sensors[i]) {
      MaxPush(pages, p, Sensor(i), r.sensors[i]);
    }
  }

  /**
   Merging the pages one by one, starting from a page without a temperature, gives the field-wise maxima and
   minima over the pages that report a temperature, or leaves the result as it was when none does.
   */
  lemma {:induction false} MergeAllSummary(r: Page, pages: seq<Page>)
    requires Wellformed(r) && r.temperature == 0 && forall p :: p in pages ==> Wellformed(p)
    ensures AnyHot(pages) ==> Summary(pages, MergeAll(r, pages)) && MergeAll(r, pages).temperature != 0
    ensures !AnyHot(pages) ==> MergeAll(r, pages) == r
    decreases pages
  {
    if pages != [] {
      var before, p := pages[..|pages| - 1], pages[|pages| - 1];
      assert pages == before + [p];
      MergeAllSummary(r, before);
      assert AnyHot(pages) <==> AnyHot(before) || p.temperature != 0 by {
        assert p in pages;
        assert forall q :: q in pages <==> q in before || q == p;
      }
      var m := MergeAll(r, before);
      hide Summary, AnyHot;
      if p.temperature == 0 {
        if AnyHot(before) {
          SummaryCold(before, p, m);
        }
      } else if AnyHot(before) {
        SummaryNext(before, p, m);
      } else {
        SummaryFirst(before, p, m);
      }
    }
  }

  // ----------------------------------------------------------- arrival order

  ghost predicate SameElements(a: seq<Page>, b: seq<Page>) {
    forall p :: p in a <==> p in b
  }

  lemma MaxUnique(a: seq<Page>, b: seq<Page>, f: Page -> nat, v: nat, w: nat)
    requires SameElements(a, b)
    ensures IsMax(a, f, v) && IsMax(b, f, w) ==> v == w
    ensures IsMin(a, f, v) && IsMin(b, f, w) ==> v == w
  {
  }

  /** The page without the field that depends on which disk answered first. */
  function WithoutUnitsRead(p: Page): Page {
    p.(unitsRead := (0, 0))
  }

  /** The fields no merge touches. */
  lemma {:induction false} MergeAllFrame(r: Page, pages: seq<Page>)
    requires Wellformed(r) && forall p :: p in pages ==> Wellformed(p)
    ensures var m := MergeAll(r, pages);
            m.unitsWritten == r.unitsWritten && m.readCommands == r.readCommands && m.writeCommands == r.writeCommands
    decreases pages
  {
    if pages != [] {
      MergeAllFrame(r, pages[..|pages| - 1]);
    }
  }

  lemma SummaryUnique(a: seq<Page>, b: seq<Page>, x: Page, y: Page)
    requires SameElements(a, b) && Summary(a, x) && Summary(b, y)
    requires x.unitsWritten == y.unitsWritten && x.readCommands == y.readCommands && x.writeCommands == y.writeCommands
    ensures WithoutUnitsRead(x) == WithoutUnitsRead(y)
  {
    hide IsMax, IsMin, SameElements;
    MaxUnique(a, b, (q: Page) => q.temperature, x.temperature, y.temperature);
    MaxUnique(a, b, (q: Page) => q.spare, x.spare, y.spare);
    MaxUnique(a, b, (q: Page) => q.spareThreshold, x.spareThreshold, y.spareThreshold);
    MaxUnique(a, b, (q: Page) => q.percentageUsed, x.percentageUsed, y.percentageUsed);
    MaxUnique(a, b, (q: Page) => q.warningTime, x.warningTime, y.warningTime);
    MaxUnique(a, b, (q: Page) => q.criticalTime, x.criticalTime, y.criticalTime);
    forall i | 0 <= i < SENSORS ensures x.sensors[i] == y.sensors[i] {
      MaxUnique(a, b, Sensor(i), x.sensors[i], y.sensors[i]);
    }
    assert x.sensors == y.sensors;
  }

  /** The order in which the pages arrive matters to the units read only. */
  lemma MergeOrder(r: Page, a: seq<Page>, b: seq<Page>)
    requires Wellformed(r) && r.temperature == 0 && SameElements(a, b)
    requires (forall p :: p in a ==> Wellformed(p)) && (forall p :: p in b ==> Wellformed(p))
    ensures WithoutUnitsRead(MergeAll(r, a)) == WithoutUnitsRead(MergeAll(r, b))
  {
    hide MergeAll, Summary;
    MergeAllSummary(r, a);
    MergeAllSummary(r, b);
    MergeAllFrame(r, a);
    MergeAllFrame(r, b);
    if AnyHot(a) {
      var p :| p in a && p.temperature != 0;
      assert p in b;
      SummaryUnique(a, b, MergeAll(r, a), MergeAll(r, b));
    } else {
      assert !AnyHot(b);
    }
  }

  // ------------------------------------------------------------------- finishing

  /** What the log manager has counted for the volume. */
  datatype Counters = Counters(readCommands: nat, writeCommands: nat, readBytes: nat, writeBytes: nat)

  function Units(bytes: nat): nat {
    if bytes == 0 then 0 else bytes / DATA_UNIT + 1
  }

  /** The first sensor that has no value gets the processor's temperature. */
  function FillSensor(sensors: seq<nat>, value: nat): seq<nat> {
    if sensors == [] then []
    else if sensors[0] == 0 then [value] + sensors[1..]
    else [sensors[0]] + FillSensor(sensors[1..], value)
  }

  /** The finishing step; temperatures are 16-bit fields. */
  function Finish(r: Page, cpu: nat, c: Counters): Page {
    var kelvin := cpu + KELVIN;
    r.(temperature := (r.temperature + kelvin) / COMPONENTS % TWO16,
       sensors := FillSensor(r.sensors, kelvin % TWO16),
       readCommands := (c.readCommands, 0), writeCommands := (c.writeCommands, 0),
       unitsRead := (Units(c.readBytes), 0), unitsWritten := (Units(c.writeBytes), 0))
  }

  /**
   The finished page is the same for every arrival order of the disk pages, and depends only on which pages
   arrived at all.
   */
  lemma FinishedOrder(r: Page, a: seq<Page>, b: seq<Page>, cpu: nat, c: Counters)
    requires Wellformed(r) && r.temperature == 0 && SameElements(a, b)
    requires (forall p :: p in a ==> Wellformed(p)) && (forall p :: p in b ==> Wellformed(p))
    ensures Finish(MergeAll(r, a), cpu, c) == Finish(MergeAll(r, b), cpu, c)
  {
    hide MergeAll, FillSensor, SameElements;
    MergeOrder(r, a, b);
  }

  /** A count of data units covers the bytes and is no larger than needed, but for one unit at an exact multiple. */
  lemma UnitsMeans(bytes: nat)
    ensures bytes == 0 ==> Units(bytes) == 0
    ensures bytes > 0 ==> Units(bytes) >= 1 && (Units(bytes) - 1) * 512000 <= bytes < Units(bytes) * 512000
  {
  }

  /**
   What the finished page tells: the log manager's commands and data units, the extremes of the disks that reported a
   temperature, the mean of the hottest disk and the CPU in kelvin, and the CPU in the first empty sensor.
   */
  lemma FinishMeans(r: Page, pages: seq<Page>, cpu: nat, c: Counters)
    requires Wellformed(r) && r.temperature == 0 && AnyHot(pages) && forall p :: p in pages ==> Wellformed(p)
    ensures var f := Finish(MergeAll(r, pages), cpu, c);
            && f.readCommands == (c.readCommands, 0) && f.writeCommands == (c.writeCommands, 0)
            && f.unitsRead.1 == 0 && f.unitsWritten.1 == 0
            && (c.readBytes == 0 ==> f.unitsRead.0 == 0)
            && (c.readBytes > 0 ==> (f.unitsRead.0 - 1) * 512000 <= c.readBytes < f.unitsRead.0 * 512000)
            && (c.writeBytes == 0 ==> f.unitsWritten.0 == 0)
            && (c.writeBytes > 0 ==> (f.unitsWritten.0 - 1) * 512000 <= c.writeBytes < f.unitsWritten.0 * 512000)
    ensures var f := Finish(MergeAll(r, pages), cpu, c);
            && IsMin(pages, (p: Page) => p.spare, f.spare)
            && IsMin(pages, (p: Page) => p.spareThreshold, f.spareThreshold)
            && IsMax(pages, (p: Page) => p.percentageUsed, f.percentageUsed)
            && IsMax(pages, (p: Page) => p.warningTime, f.warningTime)
            && IsMax(pages, (p: Page) => p.criticalTime, f.criticalTime)
    ensures var v := MergeAll(r, pages).temperature;
            var t := Finish(MergeAll(r, pages), cpu, c).temperature;
            && IsMax(pages, (p: Page) => p.temperature, v)
            && (v + cpu + 273 < 2 * 0x1_0000 ==> 2 * t <= v + cpu + 273 < 2 * t + 2)
  {
    hide MergeAll, Units, FillSensor, IsMax, IsMin;
    MergeAllSummary(r, pages);
    UnitsMeans(c.readBytes);
    UnitsMeans(c.writeBytes);
  }

  /** The finished sensors: the maxima of the disks, with the CPU, in kelvin and 16 bits, in the first empty one. */
  lemma FinishSensors(r: Page, pages: seq<Page>, cpu: nat, c: Counters, k: nat)
    requires Wellformed(r) && r.temperature == 0 && AnyHot(pages) && forall p :: p in pages ==> Wellformed(p)
    requires var m := MergeAll(r, pages).sensors;
             k <= |m| && (forall j :: 0 <= j < k ==> m[j] != 0) && (k < |m| ==> m[k] == 0)
    ensures var f := Finish(MergeAll(r, pages), cpu, c).sensors;
            && |f| == 8
            && (forall j :: 0 <= j < 8 && j != k ==> IsMax(pages, Sensor(j), f[j]))
            && (k < 8 ==> f[k] == (cpu + 273) % 0x1_0000)
  {
    hide MergeAll, Units, FillSensor, IsMax, IsMin;
    MergeAllSummary(r, pages);
    FillSensorAt(MergeAll(r, pages).sensors, k, (cpu + KELVIN) % TWO16);
  }

  /** Before the finishing step the units read are those of the first page that reported a temperature. */
  lemma {:induction false} UnitsReadFirst(r: Page, pages: seq<Page>, k: nat)
    requires Wellformed(r) && r.temperature == 0 && (forall p :: p in pages ==> Wellformed(p)) && k < |pages|
    requires pages[k].temperature != 0 && forall j :: 0 <= j < k ==> pages[j].temperature == 0
    ensures MergeAll(r, pages).unitsRead == pages[k].unitsRead
    decreases pages
  {
    var before := pages[..|pages| - 1];
    MergeAllSummary(r, before);
    if k < |before| {
      assert before[k] in before;
      UnitsReadFirst(r, before, k);
    } else {
      assert !AnyHot(before);
    }
  }

  // ------------------------------------------------------------------ the object

  class ResultPage {
    var page: Page
    const sensors: array<nat>

    ghost predicate Valid() {
      sensors.Length == SENSORS
    }

    ghost function Model(): Page
      reads this, sensors
    {
      page.(sensors := sensors[..])
    }

    constructor (p: Page)
      requires Wellformed(p)
      ensures Valid() && Model() == p && fresh(sensors)
    {
      page := p;
      sensors := new nat[SENSORS](i requires 0 <= i < SENSORS => p.sensors[i]);
      new;
      assert sensors[..] == p.sensors;
    }

    method CopySensors(p: Page)
      requires Valid() && Wellformed(p)
      modifies sensors
      ensures sensors[..] == p.sensors
    {
      for i := 0 to SENSORS
        invariant forall j :: 0 <= j < i ==> sensors[j] == p.sensors[j]
      {
        sensors[i] := p.sensors[i];
      }
    }

    method RaiseSensors(p: Page)
      requires Valid() && Wellformed(p)
      modifies sensors
      ensures sensors[..] == MaxSensors(old(sensors[..]), p.sensors)
    {
      for i := 0 to SENSORS
        invariant forall j :: 0 <= j < i ==> sensors[j] == Max(old(sensors[j]), p.sensors[j])
        invariant forall j :: i <= j < SENSORS ==> sensors[j] == old(sensors[j])
      {
        if p.sensors[i] > sensors[i] {
          sensors[i] := p.sensors[i];
        }
      }
    }

    /** _CalculateVarBasedVal. */
    method MergePage(p: Page)
      requires Valid() && Wellformed(p)
      modifies this, sensors
      ensures Model() == Merge(old(Model()), p)
    {
      if page.temperature == 0 && p.temperature != 0 {
        page := page.(unitsRead := p.unitsRead, temperature := p.temperature, spare := p.spare,
                      spareThreshold := p.spareThreshold, percentageUsed := p.percentageUsed,
                      warningTime := p.warningTime, criticalTime := p.criticalTime);
        CopySensors(p);
      } else if p.temperature != 0 {
        if p.temperature > page.temperature {
          page := page.(temperature := p.temperature);
        }
        if p.spare < page.spare {
          page := page.(spare := p.spare);
        }
        if p.spareThreshold < page.spareThreshold {
          page := page.(spareThreshold := p.spareThreshold);
        }
        if p.percentageUsed > page.percentageUsed {
          page := page.(percentageUsed := p.percentageUsed);
        }
        if p.warningTime > page.warningTime {
          page := page.(warningTime := p.warningTime);
        }
        if p.criticalTime > page.criticalTime {
          page := page.(criticalTime := p.criticalTime);
        }
        RaiseSensors(p);
      }
    }

    /** The sensor loop of _AddComponentTemperature. */
    method FillFirstEmpty(value: nat)
      requires Valid()
      modifies sensors
      ensures sensors[..] == FillSensor(old(sensors[..]), value)
    {
      ghost var all := sensors[..];
      var index := 0;
      while index < SENSORS && sensors[index] != 0
        invariant 0 <= index <= SENSORS && sensors[..] == all
        invariant forall j :: 0 <= j < index ==> all[j] != 0
        decreases SENSORS - index
      {
        index := index + 1;
      }
      FillSensorAt(all, index, value);
      if index < SENSORS {
        sensors[index] := value;
        assert sensors[..] == all[index := value];
      }
    }

    /** _AddComponentTemperature followed by _SetValfromSmartLogMgr. */
    method FinishPage(cpu: nat, c: Counters)
      requires Valid()
      modifies this, sensors
      ensures Model() == Finish(old(Model()), cpu, c)
    {
      hide FillSensor;
      var kelvin := cpu + KELVIN;
      page := page.(temperature := (page.temperature + kelvin) / COMPONENTS % TWO16);
      FillFirstEmpty(kelvin % TWO16);
      page := page.(readCommands := (c.readCommands, 0), writeCommands := (c.writeCommands, 0),
                    unitsRead := (Units(c.readBytes), 0), unitsWritten := (Units(c.writeBytes), 0));
    }
  }

  /** Filling changes exactly the first empty sensor, or nothing when all have a value. */
  lemma {:induction false} FillSensorAt(sensors: seq<nat>, k: nat, value: nat)
    requires k <= |sensors| && (forall j :: 0 <= j < k ==> sensors[j] != 0) && (k < |sensors| ==> sensors[k] == 0)
    ensures FillSensor(sensors, value) == if k < |sensors| then sensors[k := value] else sensors
    decreases sensors
  {
    if sensors != [] && k > 0 {
      FillSensorAt(sensors[1..], k - 1, value);
    }
  }
}
