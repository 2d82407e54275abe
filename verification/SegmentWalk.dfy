/**
 Reading a boot map component: the block read loop with its short reads, and
 the walk through the chain of segment tables, in which the last slot of every
 table links to the next one (core/bootmap_common.c).
 */
module SegmentWalk {
  import opened BlockPointer
  import opened SegmentChain

  /** `Stuck` stands for a read loop that never ends: at the end of the device
      read() keeps returning 0 and the loop keeps calling it. */
  datatype ReadOutcome = Complete | BadPointer | IoError | Stuck

  // ---------- reading blocks ----------

  /** One read(): an error, nothing at the end of the device, or any positive
      number of bytes up to the number wanted. */
  method DeviceRead(disk: Disk, position: nat, buffer: array<Byte>, at: nat, want: nat) returns (count: int)
    requires want > 0 && at + want <= buffer.Length
    modifies buffer
    ensures -1 <= count <= want
    ensures count == 0 ==> position >= |disk.data|
    ensures count > 0 ==> position + count <= |disk.data|
    ensures forall k :: at <= k < at + count ==> buffer[k] == disk.data[position + (k - at)]
    ensures forall k :: 0 <= k < buffer.Length && !(at <= k < at + count) ==> buffer[k] == old(buffer[k])
  {
    if * {
      return -1;
    }
    if position >= |disk.data| {
      return 0;
    }
    var granted: nat :| 1 <= granted <= want && position + granted <= |disk.data|;
    forall i | 0 <= i < granted {
      buffer[at + i] := disk.data[position + i];
    }
    return granted;
  }

  /** Seek to `offset` and read until `total` bytes have arrived. */
  method ReadFully(disk: Disk, offset: nat, total: nat, buffer: array<Byte>, at: nat) returns (r: ReadOutcome)
    requires at + total <= buffer.Length
    modifies buffer
    ensures !r.BadPointer?
    ensures buffer[..at] == old(buffer[..at]) && buffer[at + total..] == old(buffer[at + total..])
    ensures r.Complete? && total > 0 ==> offset + total <= |disk.data|
    ensures r.Complete? && total > 0 ==> buffer[at..at + total] == disk.data[offset..offset + total]
    ensures r.Stuck? ==> offset + total > |disk.data|
  {
    if * {
      return IoError;   // lseek() failed
    }
    var done := 0;
    while done < total
      invariant 0 <= done <= total
      invariant done > 0 ==> offset + done <= |disk.data|
      invariant forall k :: at <= k < at + done ==> buffer[k] == disk.data[offset + (k - at)]
      invariant forall k :: 0 <= k < at ==> buffer[k] == old(buffer[k])
      invariant forall k :: at + total <= k < buffer.Length ==> buffer[k] == old(buffer[k])
    {
      var count := DeviceRead(disk, offset + done, buffer, at + done, total - done);
      if count == -1 {
        return IoError;
      }
      if count == 0 {
        return Stuck;
      }
      done := done + count;
    }
    return Complete;
  }

  method ReadPhyBlocks(disk: Disk, buffer: array<Byte>, at: nat, p: BlockPtr) returns (r: ReadOutcome)
    requires ValidDisk(disk) && at <= buffer.Length
    requires Accepted(disk, p) ==> at + ExtentBytes(disk, p) <= buffer.Length
    modifies buffer
    ensures buffer[..at] == old(buffer[..at])
    ensures r.BadPointer? <==> !Accepted(disk, p)
    ensures r.BadPointer? ==> buffer[..] == old(buffer[..])
    ensures r.Complete? ==> Readable(disk, p) && buffer[at..at + ExtentBytes(disk, p)] == Extent(disk, p)
    ensures r.Complete? ==> buffer[at + ExtentBytes(disk, p)..] == old(buffer[at + ExtentBytes(disk, p)..])
    ensures r.Stuck? ==> !OnDevice(disk, p)
  {
    if !Accepted(disk, p) {
      return BadPointer;
    }
    AcceptedBounds(disk, p);
    r := ReadFully(disk, Offset(disk, p), ExtentBytes(disk, p), buffer, at);
  }

  method Realloc(block: array<Byte>, size: nat) returns (moved: array<Byte>)
    ensures fresh(moved) && moved.Length == size
    ensures block.Length <= size ==> moved[..block.Length] == block[..]
  {
    moved := new Byte[size];
    forall i | 0 <= i < block.Length && i < size {
      moved[i] := block[i];
    }
  }

  // ---------- the boot map on a disk ----------

  function SlotCount(disk: Disk, table: BlockPtr): int
    requires ValidDisk(disk)
  {
    ExtentBytes(disk, table) / PtrSize(disk.kind)
  }

  lemma SlotBounds(disk: Disk, table: BlockPtr)
    requires ValidDisk(disk) && Accepted(disk, table)
    ensures SlotCount(disk, table) >= 32
    ensures SlotCount(disk, table) * PtrSize(disk.kind) <= ExtentBytes(disk, table)
  {
    AcceptedBounds(disk, table);
  }

  /** Slot `k` of the segment table that `table` points to. */
  function Slot(disk: Disk, table: BlockPtr, k: nat): (p: BlockPtr)
    requires ValidDisk(disk) && Readable(disk, table) && (k + 1) * PtrSize(disk.kind) <= |Extent(disk, table)|
    ensures Fits(disk.kind, p)
  {
    var size := PtrSize(disk.kind);
    PackUnpack(disk.kind, Extent(disk, table)[k * size..k * size + size]);
    Unpack(disk.kind, Extent(disk, table)[k * size..k * size + size])
  }

  /** Decode slot `k` of a table in memory. */
  method UnpackSlot(disk: Disk, memory: array<Byte>, ghost table: BlockPtr, k: nat) returns (p: BlockPtr)
    requires ValidDisk(disk) && Readable(disk, table) && memory[..] == Extent(disk, table)
    requires k < SlotCount(disk, table)
    ensures p == Slot(disk, table, k)
  {
    var size := PtrSize(disk.kind);
    SlotBounds(disk, table);
    MulLess(k, SlotCount(disk, table), size);
    assert memory.Length == |Extent(disk, table)|;
    var raw := memory[k * size..k * size + size];
    assert raw == Extent(disk, table)[k * size..k * size + size];
    p := Unpack(disk.kind, raw);
  }

  function SlotsOf(disk: Disk, table: BlockPtr): seq<BlockPtr> {
    if !ValidDisk(disk) || !Readable(disk, table) then []
    else
      SlotBounds(disk, table);
      seq(SlotCount(disk, table), k requires 0 <= k < SlotCount(disk, table) => Slot(disk, table, k))
  }

  /** The bytes an extent holds; nothing if it cannot be read. */
  function Image(disk: Disk, p: BlockPtr): seq<Byte> {
    if Readable(disk, p) then Extent(disk, p) else []
  }

  function ViewOf(disk: Disk): View<BlockPtr> {
    View(p => Readable(disk, p), table => SlotsOf(disk, table), p => IsNull(disk.kind, p))
  }

  function Bytes(image: BlockPtr -> seq<Byte>, ptrs: seq<BlockPtr>): seq<Byte> {
    if ptrs == [] then [] else Bytes(image, ptrs[..|ptrs| - 1]) + image(ptrs[|ptrs| - 1])
  }

  /** Everything on the component's chain can be read. */
  predicate Loadable(disk: Disk, component: BlockPtr, hops: nat) {
    ViewOf(disk).Loadable(component, hops)
  }

  /** The content of the component: the extents of its code pointers, in order. */
  function Content(disk: Disk, component: BlockPtr, hops: nat): seq<Byte> {
    Bytes(p => Image(disk, p), ViewOf(disk).Component(component, hops))
  }

  /** Stands for a pointer about which the disk is asked; only a trigger. */
  predicate Asked(p: BlockPtr) { true }

  /** `v` and `image` tell about the disk; used only for pointers `Asked` about,
      which keeps the disk layout out of the reasoning about the walk. */
  ghost predicate Describes(v: View<BlockPtr>, image: BlockPtr -> seq<Byte>, disk: Disk) {
    forall p {:trigger Asked(p)} ::
      Asked(p) ==>
        && v.readable(p) == Readable(disk, p) && v.slots(p) == SlotsOf(disk, p)
        && v.isNull(p) == IsNull(disk.kind, p) && image(p) == Image(disk, p)
  }

  // ---------- loading ----------

  datatype LoadOutcome = Loaded(content: array<Byte>) | NotLoaded(reason: ReadOutcome)

  /** Allocate a buffer for a segment table and read the table. */
  method ReadSegmentTable(disk: Disk, p: BlockPtr, ghost v: View<BlockPtr>, ghost image: BlockPtr -> seq<Byte>)
    returns (r: ReadOutcome, table: array<Byte>, slots: nat)
    requires ValidDisk(disk) && Describes(v, image, disk)
    ensures fresh(table)
    ensures r.Complete? ==> v.readable(p) && table[..] == image(p) && 32 <= slots == |v.slots(p)|
    ensures !r.Complete? ==> r.IoError? || !v.readable(p)
  {
    assert Asked(p);
    slots := 0;
    if !Accepted(disk, p) {
      table := new Byte[0];
      return BadPointer, table, slots;
    }
    AcceptedBounds(disk, p);
    table := new Byte[ExtentBytes(disk, p)];
    r := ReadPhyBlocks(disk, table, 0, p);
    if r.Complete? {
      SlotBounds(disk, p);
      assert table[..] == table[0..0 + ExtentBytes(disk, p)];
      slots := ExtentBytes(disk, p) / PtrSize(disk.kind);
    }
  }

  method ReadSlot(disk: Disk, table: array<Byte>, ghost at: BlockPtr, entry: nat,
                  ghost v: View<BlockPtr>, ghost image: BlockPtr -> seq<Byte>)
    returns (p: BlockPtr, isNull: bool)
    requires ValidDisk(disk) && Describes(v, image, disk)
    requires v.readable(at) && table[..] == image(at) && entry < |v.slots(at)|
    ensures p == v.slots(at)[entry] && isNull == v.isNull(p)
  {
    assert Asked(at);
    p := UnpackSlot(disk, table, at, entry);
    assert Asked(p);
    isNull := BlockPtrIsNull(disk.kind, p);
  }

  /** Enlarge the buffer and read one code segment behind its content. */
  method AppendSegment(disk: Disk, buffer: array<Byte>, code: BlockPtr,
                       ghost v: View<BlockPtr>, ghost image: BlockPtr -> seq<Byte>)
    returns (r: ReadOutcome, grown: array<Byte>)
    requires ValidDisk(disk) && Describes(v, image, disk)
    ensures fresh(grown)
    ensures r.Complete? ==> v.readable(code) && grown[..] == buffer[..] + image(code)
    ensures !r.Complete? ==> r.IoError? || !v.readable(code)
  {
    assert Asked(code);
    var loadPosition := buffer.Length;
    if !Accepted(disk, code) {
      grown := Realloc(buffer, loadPosition);
      return BadPointer, grown;
    }
    AcceptedBounds(disk, code);
    var bufferSize := loadPosition + ExtentBytes(disk, code);
    grown := Realloc(buffer, bufferSize);
    r := ReadPhyBlocks(disk, grown, loadPosition, code);
    if r.Complete? {
      assert grown[..] == grown[..loadPosition] + grown[loadPosition..loadPosition + ExtentBytes(disk, code)];
    }
  }

  /** `copy_component_to_memory`. Unless the device reports an error the outcome
      is determined: the component is loaded exactly if everything on its chain
      can be read, and then the buffer is its content. */
  method CopyComponentToMemory(disk: Disk, component: BlockPtr, ghost hops: nat) returns (r: LoadOutcome)
    requires ValidDisk(disk) && ViewOf(disk).Ends(component, true, hops)
    ensures r.Loaded? ==> fresh(r.content) && Loadable(disk, component, hops)
    ensures r.Loaded? ==> r.content[..] == Content(disk, component, hops)
    ensures r.NotLoaded? ==> r.reason.IoError? || !Loadable(disk, component, hops)
  {
    ghost var v, image := ViewOf(disk), (p: BlockPtr) => Image(disk, p);
    assert v.Chain(component, true, hops)[0] == component;
    if v.readable(component) {
      ReadableSlots(disk);
      WalkLoadsComponent(v, component, hops);
    }
    r := LoadSegments(disk, component, hops, v, image);
  }

  lemma ReadableSlots(disk: Disk)
    requires ValidDisk(disk)
    ensures forall t :: Readable(disk, t) ==> |SlotsOf(disk, t)| >= 2
  {
    forall t | Readable(disk, t) ensures |SlotsOf(disk, t)| >= 2 {
      SlotBounds(disk, t);
    }
  }

  /** After a code segment: fetch the next pointer, and read a new segment table
      if the end of the current one is reached. */
  method NextPointer(disk: Disk, current: array<Byte>, count: nat, index: nat,
                     ghost here: BlockPtr, ghost bound: nat, ghost loaded: seq<BlockPtr>,
                     ghost all: WalkResult<BlockPtr>,
                     ghost v: View<BlockPtr>, ghost image: BlockPtr -> seq<Byte>)
    returns (read: ReadOutcome, table: array<Byte>, slots: nat, entry: nat, code: BlockPtr, isNull: bool,
             ghost at: BlockPtr, ghost ahead: nat)
    requires ValidDisk(disk) && Describes(v, image, disk)
    requires v.readable(here) && current[..] == image(here) && 32 <= count == |v.slots(here)| && index < count
    requires Pending(v, here, index, bound, loaded, all) && !all.TooLong?
    ensures !read.Complete? ==> read.IoError? || all == Fails
    ensures read.Complete? ==> v.readable(at) && table[..] == image(at) && 32 <= slots == |v.slots(at)|
    ensures read.Complete? && !isNull ==> entry < slots - 1 && code == v.slots(at)[entry]
    ensures read.Complete? && !isNull ==> all == v.Walk(at, entry, ahead).AfterAll(loaded)
    ensures read.Complete? && isNull ==> all == Loads(loaded)
    ensures read.Complete? && !isNull ==> ahead < bound || (ahead == bound && slots == count && entry == index)
  {
    read, table, slots, entry, at, ahead := Complete, current, count, index, here, bound;
    code, isNull := ReadSlot(disk, table, at, entry, v, image);
    if entry == slots - 1 && !isNull {
      read, table, slots := ReadSegmentTable(disk, code, v, image);
      if read.Complete? {
        at, entry := code, 0;
        code, isNull := ReadSlot(disk, table, at, entry, v, image);
        ahead := if isNull then ahead else ahead - 1;
      }
    }
  }

  method LoadSegments(disk: Disk, component: BlockPtr, ghost hops: nat,
                      ghost v: View<BlockPtr>, ghost image: BlockPtr -> seq<Byte>)
    returns (r: LoadOutcome)
    requires ValidDisk(disk) && Describes(v, image, disk)
    requires v.readable(component) ==> |v.slots(component)| >= 2 && !v.Walk(component, 0, hops).TooLong?
    ensures r.Loaded? ==> v.readable(component) && v.Walk(component, 0, hops).Loads? && fresh(r.content)
    ensures r.Loaded? ==> r.content[..] == Bytes(image, v.Walk(component, 0, hops).code)
    ensures r.NotLoaded? ==> r.reason.IoError? || !v.readable(component) || v.Walk(component, 0, hops).Fails?
  {
    var read, table, slots := ReadSegmentTable(disk, component, v, image);
    if !read.Complete? {
      return NotLoaded(read);
    }
    var code, isNull := ReadSlot(disk, table, component, 0, v, image);
    // `code` is the pointer in slot `entry` of the table that is held in memory
    var entry: nat, buffer := 0, new Byte[0];
    ghost var at, ahead, loaded := component, hops, [];
    ghost var all := v.Walk(component, 0, hops);
    var more := true;
    while more
      invariant v.readable(at) && table[..] == image(at) && 32 <= slots == |v.slots(at)|
      invariant buffer[..] == Bytes(image, loaded) && fresh(buffer)
      invariant more ==> entry < slots - 1 && code == v.slots(at)[entry]
      invariant more ==> all == v.Walk(at, entry, ahead).AfterAll(loaded)
      invariant !more ==> all == Loads(loaded)
      decreases more, ahead, slots - entry
    {
      read, buffer := AppendSegment(disk, buffer, code, v, image);
      WalkStep(v, at, entry, ahead, loaded, all);
      if !read.Complete? {
        return NotLoaded(read);
      }
      assert (loaded + [code])[..|loaded|] == loaded;
      loaded := loaded + [code];
      read, table, slots, entry, code, isNull, at, ahead :=
        NextPointer(disk, table, slots, entry + 1, at, ahead, loaded, all, v, image);
      if !read.Complete? {
        return NotLoaded(read);
      }
      more := !isNull;
    }
    return Loaded(buffer);
  }
}
