/** Splitting of volume I/O (src/bio/volume_io.cpp, ubio.cpp, data_buffer.cpp), with the source's integer widths. */
module IoSplit {
  import opened Options

  const TWO32: nat := 0x1_0000_0000
  const TWO64: nat := 0x1_0000_0000_0000_0000
  const SECTOR: nat := 512
  const BLOCK: nat := 4096

  /** A data buffer: `current` is the address of its first byte, `owner` the duty to free `base`. Address 0 is null. */
  datatype Buffer = Buffer(base: nat, current: nat, size: nat, originalSize: nat, owner: bool)

  /** A volume I/O: its buffer and the logical address of its first sector. */
  datatype Io = Io(buf: Buffer, rba: nat)

  /** The constructor's size: a product of two 32-bit numbers. */
  function CreatedSize(unitCount: nat): nat {
    unitCount * SECTOR % TWO32
  }

  /** The size is a whole number of sectors, and is the requested one exactly below 2^23 sectors. */
  lemma CreatedSizeExactIff(unitCount: nat)
    ensures CreatedSize(unitCount) % SECTOR == 0
    ensures CreatedSize(unitCount) == unitCount * SECTOR <==> unitCount < 0x80_0000
  {
    var q := unitCount * SECTOR / TWO32;
    assert CreatedSize(unitCount) == (unitCount - q * 0x80_0000) * SECTOR;
  }

  /** Four gigabytes are taken for nothing. */
  lemma LostSizeExample()
    ensures CreatedSize(0x80_0000) == 0
  {
  }

  /** Copying a buffer never copies the ownership. */
  function Copy(b: Buffer): Buffer {
    Buffer(b.base, b.current, b.size, b.size, false)
  }

  /** DataBuffer::Remove; None stands for the exception. */
  function Remove(b: Buffer, removal: nat, fromTail: bool): Option<Buffer> {
    if removal > b.size then None
    else Some(b.(current := if fromTail then b.current else b.current + removal, size := b.size - removal))
  }

  /** DataBuffer::GetAddress: an address out of range falls back to the base address. */
  function GetAddress(b: Buffer, blockIndex: nat, sectorOffset: nat): nat {
    var shift := (blockIndex * BLOCK + sectorOffset * SECTOR) % TWO64;
    if b.base == 0 || b.size <= shift then b.base else b.current + shift
  }

  /**
   VolumeIo::Split: the I/O that stays and the new one. The remaining size is an unsigned subtraction, so it
   wraps around when the split asks for more than there is.
   */
  function Split(io: Io, sectors: nat, fromTail: bool): Option<(Io, Io)> {
    var removal := sectors * SECTOR;
    var remaining := (io.buf.size - removal) % TWO64;
    match Remove(Copy(io.buf), remaining, !fromTail)
    case None => None
    case Some(other) =>
      match Remove(io.buf, removal, fromTail)
      case None => None
      case Some(kept) =>
        if fromTail then Some((Io(kept, io.rba), Io(other, (io.rba + kept.size / SECTOR) % TWO64)))
        else Some((Io(kept, (io.rba + sectors) % TWO64), Io(other, io.rba)))
  }

  /** Widths of the source: a 64-bit size and a 32-bit sector count. */
  predicate Widths(io: Io, sectors: nat) {
    io.buf.size < TWO64 && sectors < TWO32
  }

  /** A split is rejected exactly when it asks for more than there is, although the subtraction wraps around. */
  lemma RejectedIff(io: Io, sectors: nat, fromTail: bool)
    requires Widths(io, sectors)
    ensures Split(io, sectors, fromTail).None? <==> sectors * SECTOR > io.buf.size
  {
    var removal := sectors * SECTOR;
    if removal > io.buf.size {
      assert (io.buf.size - removal) % TWO64 == io.buf.size - removal + TWO64;
    } else {
      assert (io.buf.size - removal) % TWO64 == io.buf.size - removal;
    }
  }

  /** The two parts of a split in address order. */
  function Parts(io: Io, sectors: nat, fromTail: bool): seq<Io> {
    match Split(io, sectors, fromTail)
    case None => [io]
    case Some((kept, other)) => if fromTail then [kept, other] else [other, kept]
  }

  /**
   What a split means: the parts lie next to each other, cover the I/O, start at sectors that continue each
   other, and only the I/O that stays keeps the ownership.
   */
  lemma SplitMeans(io: Io, sectors: nat, fromTail: bool)
    requires Widths(io, sectors) && sectors * SECTOR <= io.buf.size && io.buf.size % SECTOR == 0 && io.rba < TWO64
    ensures var parts := Parts(io, sectors, fromTail);
            && |parts| == 2
            && parts[0].buf.current == io.buf.current && parts[0].rba == io.rba
            && parts[1].buf.current == io.buf.current + parts[0].buf.size
            && parts[0].buf.size + parts[1].buf.size == io.buf.size
            && parts[1].rba == (io.rba + parts[0].buf.size / SECTOR) % TWO64
            && parts[0].buf.size % SECTOR == 0 && parts[1].buf.size % SECTOR == 0
            && parts[0].buf.base == parts[1].buf.base == io.buf.base
            && parts[if fromTail then 0 else 1].buf.originalSize == io.buf.originalSize
            && parts[if fromTail then 1 else 0].buf.originalSize == io.buf.size
            && parts[if fromTail then 0 else 1].buf.owner == io.buf.owner
            && !parts[if fromTail then 1 else 0].buf.owner
            && parts[if fromTail then 1 else 0].buf.size == sectors * SECTOR
  {
    RejectedIff(io, sectors, fromTail);
    var removal := sectors * SECTOR;
    assert (io.buf.size - removal) % TWO64 == io.buf.size - removal;
    assert removal / SECTOR == sectors && removal % SECTOR == 0;
  }

  // ----------------------------------------------------------- trees of splits

  datatype SplitEvent = SplitEvent(which: nat, sectors: nat, fromTail: bool)

  /** One split of one fragment; the fragments are listed in address order. A rejected split changes nothing. */
  function Step(frags: seq<Io>, e: SplitEvent): seq<Io> {
    if e.which < |frags| then
      frags[..e.which] + Parts(frags[e.which], e.sectors, e.fromTail) + frags[e.which + 1..]
    else frags
  }

  function Final(frags: seq<Io>, events: seq<SplitEvent>): seq<Io>
    decreases events
  {
    if events == [] then frags else Final(Step(frags, events[0]), events[1..])
  }

  /** A fragment of `io`: whole sectors, the same base, and the logical address that belongs to its place. */
  ghost predicate Fragment(io: Io, f: Io) {
    && f.buf.size < TWO64 && f.buf.size % SECTOR == 0 && f.buf.base == io.buf.base
    && f.buf.current >= io.buf.current && (f.buf.current - io.buf.current) % SECTOR == 0
    && f.rba == (io.rba + (f.buf.current - io.buf.current) / SECTOR) % TWO64
  }

  /** The fragments cover the addresses from `start` to `end` one after the other. */
  ghost predicate Tiles(io: Io, frags: seq<Io>, start: nat, end: nat)
    decreases frags
  {
    if frags == [] then start == end
    else
      && Fragment(io, frags[0]) && frags[0].buf.current == start
      && Tiles(io, frags[1..], start + frags[0].buf.size, end)
  }

  ghost function Owners(frags: seq<Io>): nat {
    if frags == [] then 0 else (if frags[0].buf.owner then 1 else 0) + Owners(frags[1..])
  }

  lemma {:induction false} TilesAppend(io: Io, a: seq<Io>, b: seq<Io>, start: nat, mid: nat, end: nat)
    requires Tiles(io, a, start, mid) && Tiles(io, b, mid, end)
    ensures Tiles(io, a + b, start, end)
    decreases a
  {
    if a == [] {
      assert a + b == b;
    } else {
      assert (a + b)[1..] == a[1..] + b;
      TilesAppend(io, a[1..], b, start + a[0].buf.size, mid, end);
    }
  }

  lemma {:induction false} TilesSplit(io: Io, frags: seq<Io>, k: nat, start: nat, end: nat) returns (mid: nat)
    requires k <= |frags| && Tiles(io, frags, start, end)
    ensures Tiles(io, frags[..k], start, mid) && Tiles(io, frags[k..], mid, end)
    decreases k
  {
    if k == 0 {
      mid := start;
    } else {
      mid := TilesSplit(io, frags[1..], k - 1, start + frags[0].buf.size, end);
      assert frags[..k][1..] == frags[1..][..k - 1] && frags[1..][k - 1..] == frags[k..];
    }
  }

  lemma {:induction false} OwnersAppend(a: seq<Io>, b: seq<Io>)
    ensures Owners(a + b) == Owners(a) + Owners(b)
    decreases a
  {
    if a == [] {
      assert a + b == b;
    } else {
      assert (a + b)[1..] == a[1..] + b;
      OwnersAppend(a[1..], b);
    }
  }

  lemma RbaChain(rba: nat, a: nat, b: nat)
    ensures ((rba + a) % TWO64 + b) % TWO64 == (rba + (a + b)) % TWO64
  {
  }

  lemma TwoTiles(io: Io, a: Io, b: Io)
    requires Fragment(io, a) && Fragment(io, b) && b.buf.current == a.buf.current + a.buf.size
    ensures Tiles(io, [a, b], a.buf.current, b.buf.current + b.buf.size)
    ensures Owners([a, b]) == (if a.buf.owner then 1 else 0) + (if b.buf.owner then 1 else 0)
  {
    hide Fragment;
    assert [a, b][1..] == [b] && [b][1..] == [];
    assert Tiles(io, [b], b.buf.current, b.buf.current + b.buf.size);
    assert Owners([b]) == if b.buf.owner then 1 else 0;
  }

  lemma RejectedParts(f: Io, sectors: nat, fromTail: bool)
    requires Widths(f, sectors) && sectors * SECTOR > f.buf.size
    ensures Parts(f, sectors, fromTail) == [f]
  {
    hide Split;
    RejectedIff(f, sectors, fromTail);
  }

  /** The parts of a fragment are fragments and take its place. */
  lemma PartsTile(io: Io, f: Io, sectors: nat, fromTail: bool)
    requires Fragment(io, f) && sectors < TWO32
    ensures var start := f.buf.current;
            Tiles(io, Parts(f, sectors, fromTail), start, start + f.buf.size)
    ensures Owners(Parts(f, sectors, fromTail)) == if f.buf.owner then 1 else 0
  {
    hide Split, Parts;
    var parts := Parts(f, sectors, fromTail);
    if sectors * SECTOR > f.buf.size {
      RejectedParts(f, sectors, fromTail);
      assert parts[1..] == [];
    } else {
      SplitMeans(f, sectors, fromTail);
      var d0, n0 := (f.buf.current - io.buf.current) / SECTOR, parts[0].buf.size / SECTOR;
      RbaChain(io.rba, d0, n0);
      assert parts[1].buf.current - io.buf.current == (d0 + n0) * SECTOR;
      TwoTiles(io, parts[0], parts[1]);
      assert parts == [parts[0], parts[1]];
    }
  }

  lemma StepTiles(io: Io, frags: seq<Io>, e: SplitEvent, start: nat, end: nat)
    requires Tiles(io, frags, start, end) && e.sectors < TWO32
    ensures Tiles(io, Step(frags, e), start, end)
    ensures Owners(Step(frags, e)) == Owners(frags)
  {
    if e.which < |frags| {
      var k, f := e.which, frags[e.which];
      var m := TilesSplit(io, frags, k, start, end);
      assert frags[k..][0] == f && frags[k..][1..] == frags[k + 1..];
      hide Parts, Fragment;
      var parts := Parts(f, e.sectors, e.fromTail);
      PartsTile(io, f, e.sectors, e.fromTail);
      TilesAppend(io, frags[..k], parts, start, m, m + f.buf.size);
      TilesAppend(io, frags[..k] + parts, frags[k + 1..], start, m + f.buf.size, end);
      OwnersAppend(frags[..k], parts);
      OwnersAppend(frags[..k] + parts, frags[k + 1..]);
      assert frags == frags[..k] + frags[k..];
      OwnersAppend(frags[..k], frags[k..]);
    }
  }

  ghost predicate Run(events: seq<SplitEvent>) {
    forall k :: 0 <= k < |events| ==> events[k].sectors < TWO32
  }

  /** Any tree of head and tail splits, oversized ones included, tiles the original and keeps its ownership once. */
  lemma {:induction false} RunTiles(io: Io, frags: seq<Io>, events: seq<SplitEvent>, start: nat, end: nat)
    requires Tiles(io, frags, start, end) && Run(events)
    ensures Tiles(io, Final(frags, events), start, end)
    ensures Owners(Final(frags, events)) == Owners(frags)
    decreases events
  {
    hide Step, Tiles;
    if events != [] {
      StepTiles(io, frags, events[0], start, end);
      RunTiles(io, Step(frags, events[0]), events[1..], start, end);
    }
  }

  /** An I/O as the constructors make it. */
  ghost predicate Whole(io: Io) {
    io.buf.size < TWO64 && io.buf.size % SECTOR == 0 && io.rba < TWO64
  }

  lemma WholeTiles(io: Io)
    requires Whole(io)
    ensures Tiles(io, [io], io.buf.current, io.buf.current + io.buf.size)
    ensures Owners([io]) == if io.buf.owner then 1 else 0
  {
    assert [io][1..] == [];
  }

  // ------------------------------------------------------------------- meaning

  /** The bytes an I/O refers to in a memory. */
  ghost function Read(mem: nat -> int, io: Io): seq<int> {
    seq(io.buf.size, k requires 0 <= k < io.buf.size => mem(io.buf.current + k))
  }

  ghost function ReadAll(mem: nat -> int, frags: seq<Io>): seq<int> {
    if frags == [] then [] else Read(mem, frags[0]) + ReadAll(mem, frags[1..])
  }

  lemma {:induction false} TilesBytes(io: Io, frags: seq<Io>, start: nat, end: nat, mem: nat -> int)
    requires Tiles(io, frags, start, end)
    ensures start <= end && |ReadAll(mem, frags)| == end - start
    ensures forall k :: 0 <= k < end - start ==> ReadAll(mem, frags)[k] == mem(start + k)
    decreases frags
  {
    hide Fragment;
    if frags != [] {
      var n := frags[0].buf.size;
      TilesBytes(io, frags[1..], start + n, end, mem);
      hide Tiles;
      var head, tail := Read(mem, frags[0]), ReadAll(mem, frags[1..]);
      forall k | 0 <= k < end - start ensures (head + tail)[k] == mem(start + k) {
        if k >= n {
          assert tail[k - n] == mem(start + n + (k - n));
        }
      }
    }
  }

  /** Reading the fragments of any tree of splits one after the other reads exactly the original. */
  lemma SplitPreservesBytes(io: Io, events: seq<SplitEvent>, mem: nat -> int)
    requires Whole(io) && Run(events)
    ensures ReadAll(mem, Final([io], events)) == Read(mem, io)
    ensures Owners(Final([io], events)) == if io.buf.owner then 1 else 0
  {
    hide Tiles, Final, Owners, ReadAll;
    WholeTiles(io);
    var start, end := io.buf.current, io.buf.current + io.buf.size;
    RunTiles(io, [io], events, start, end);
    TilesBytes(io, Final([io], events), start, end, mem);
  }

  lemma {:induction false} TilesMember(io: Io, frags: seq<Io>, k: nat, start: nat, end: nat)
    requires Tiles(io, frags, start, end) && k < |frags|
    ensures Fragment(io, frags[k])
    ensures start <= frags[k].buf.current && frags[k].buf.current + frags[k].buf.size <= end
    ensures forall j :: 0 <= j < |frags| && j != k ==>
              frags[j].buf.current + frags[j].buf.size <= frags[k].buf.current
              || frags[k].buf.current + frags[k].buf.size <= frags[j].buf.current
    decreases frags
  {
    hide Fragment;
    if k == 0 {
      TilesStarts(io, frags[1..], start + frags[0].buf.size, end);
    } else {
      TilesMember(io, frags[1..], k - 1, start + frags[0].buf.size, end);
      assert forall j :: 0 < j < |frags| ==> frags[j] == frags[1..][j - 1];
    }
  }

  lemma {:induction false} TilesStarts(io: Io, frags: seq<Io>, start: nat, end: nat)
    requires Tiles(io, frags, start, end)
    ensures start <= end && forall j :: 0 <= j < |frags| ==> start <= frags[j].buf.current
    decreases frags
  {
    hide Fragment;
    if frags != [] {
      TilesStarts(io, frags[1..], start + frags[0].buf.size, end);
    }
  }

  /**
   The address correspondence survives every tree of splits: sector `s` of fragment `k`, given as block and
   sector offset, is found where sector (fragment address + s - original address) of the original was, and
   fragments never overlap.
   */
  lemma SplitPreservesAddresses(io: Io, events: seq<SplitEvent>, k: nat, block: nat, offset: nat, s: nat)
    requires Whole(io) && Run(events) && io.buf.base != 0
    requires io.rba + io.buf.size / SECTOR <= TWO64
    requires s == block * (BLOCK / SECTOR) + offset
    requires k < |Final([io], events)| && s * SECTOR < Final([io], events)[k].buf.size
    ensures var f := Final([io], events)[k];
            && f.rba >= io.rba && f.rba + s < io.rba + io.buf.size / SECTOR
            && GetAddress(f.buf, block, offset) == io.buf.current + SECTOR * (f.rba + s - io.rba)
            && GetAddress(f.buf, block, offset) == GetAddress(io.buf, 0, f.rba + s - io.rba)
    ensures var frags := Final([io], events);
            forall j :: 0 <= j < |frags| && j != k ==>
              frags[j].buf.current + frags[j].buf.size <= frags[k].buf.current
              || frags[k].buf.current + frags[k].buf.size <= frags[j].buf.current
  {
    hide Tiles, Final, Owners;
    WholeTiles(io);
    var start, end := io.buf.current, io.buf.current + io.buf.size;
    RunTiles(io, [io], events, start, end);
    TilesMember(io, Final([io], events), k, start, end);
    FragmentAddress(io, Final([io], events)[k], s);
    assert block * BLOCK + offset * SECTOR == s * SECTOR;
  }

  lemma FragmentAddress(io: Io, f: Io, s: nat)
    requires Whole(io) && io.buf.base != 0 && Fragment(io, f) && s * SECTOR < f.buf.size
    requires io.rba + io.buf.size / SECTOR <= TWO64 && f.buf.current + f.buf.size <= io.buf.current + io.buf.size
    ensures f.rba >= io.rba && f.rba + s < io.rba + io.buf.size / SECTOR
    ensures GetAddress(f.buf, 0, s) == io.buf.current + SECTOR * (f.rba + s - io.rba)
    ensures GetAddress(f.buf, 0, s) == GetAddress(io.buf, 0, f.rba + s - io.rba)
  {
    var d := (f.buf.current - io.buf.current) / SECTOR;
    assert f.buf.current == io.buf.current + d * SECTOR;
    assert d < io.buf.size / SECTOR;
    assert f.rba == io.rba + d;
    assert (s * SECTOR) % TWO64 == s * SECTOR;
    assert ((d + s) * SECTOR) % TWO64 == (d + s) * SECTOR;
  }

  // ------------------------------------------------------------------ the object

  /** An address inside the buffer is found there; a null or too short buffer answers with its base. */
  lemma AddressInBuffer(b: Buffer, block: nat, offset: nat)
    requires block * 4096 + offset * 512 < TWO64
    ensures var shift := block * 4096 + offset * 512;
            && (b.base != 0 && shift < b.size ==> GetAddress(b, block, offset) == b.current + shift)
            && (b.base == 0 || shift >= b.size ==> GetAddress(b, block, offset) == b.base)
  {
    var shift := block * BLOCK + offset * SECTOR;
    assert shift % TWO64 == shift;
  }

  class VolumeIo {
    var base: nat
    var current: nat
    var size: nat
    var originalSize: nat
    var ownership: bool
    var sectorRba: nat

    ghost function Value(): Io
      reads this
    {
      Io(Buffer(base, current, size, originalSize, ownership), sectorRba)
    }

    /** `heapAddress` is the address the allocator would return for a missing buffer. */
    constructor (buffer: nat, unitCount: nat, heapAddress: nat)
      requires unitCount < TWO32
      ensures sectorRba == TWO64 - 1 && size == originalSize == CreatedSize(unitCount)
      ensures ownership <==> buffer == 0 && size != 0
      ensures base == current == if ownership then heapAddress else buffer
    {
      base, current, size, originalSize, ownership := buffer, buffer, CreatedSize(unitCount), CreatedSize(unitCount), false;
      if CreatedSize(unitCount) != 0 && buffer == 0 {
        ownership := true;
        base, current := heapAddress, heapAddress;
      }
      sectorRba := TWO64 - 1;
    }

    constructor FromCopy(source: VolumeIo)
      ensures Value() == Io(Copy(source.Value().buf), source.sectorRba)
    {
      base, current, size, originalSize := source.base, source.current, source.size, source.size;
      ownership, sectorRba := false, source.sectorRba;
    }

    method RemoveBytes(removal: nat, fromTail: bool) returns (ok: bool)
      modifies this`current, this`size
      ensures var r := Remove(old(Value()).buf, removal, fromTail);
              ok == r.Some? && Value() == if ok then old(Value()).(buf := r.value) else old(Value())
    {
      if removal > size {
        return false;
      }
      if !fromTail {
        current := current + removal;
      }
      size := size - removal;
      return true;
    }

    /** Split; null stands for the exception, after which this I/O is as it was. */
    method SplitOff(sectors: nat, fromTail: bool) returns (other: VolumeIo?)
      requires Widths(Value(), sectors)
      modifies this
      ensures other == null <==> sectors * SECTOR > old(size)
      ensures other == null ==> Value() == old(Value())
      ensures other != null ==> fresh(other) && Split(old(Value()), sectors, fromTail) == Some((Value(), other.Value()))
    {
      RejectedIff(Value(), sectors, fromTail);
      other := new VolumeIo.FromCopy(this);
      var removal := sectors * SECTOR;
      var remaining := (size - removal) % TWO64;
      var ok := other.RemoveBytes(remaining, !fromTail);
      if !ok {
        return null;
      }
      var kept := RemoveBytes(removal, fromTail);
      if fromTail {
        other.sectorRba := (other.sectorRba + size / SECTOR) % TWO64;
      } else {
        sectorRba := (sectorRba + sectors) % TWO64;
      }
    }
  }
}
