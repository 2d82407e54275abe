/**
 Booting from a boot map: reading the program table, picking kernel, initrd and
 parameter file out of the component table, and the way to kexec
 (core/bootmap_common.c).
 */
module BootMapBoot {
  import opened BlockPointer
  import opened SegmentWalk

  datatype Component = Component(segment: BlockPtr, kind: Byte, address: nat)

  datatype BootObjects = BootObjects(kernel: BlockPtr, initrd: BlockPtr, initrdLen: int, parmfile: BlockPtr)

  const COMPONENT_EXECUTE: Byte := 1
  const COMPONENT_HEADER_IPL: Byte := 0
  const PSW_DISABLED_WAIT: nat := 0x000a_0000_0000_0000
  const PSW_ADDRESSES: nat := 0x8000_0000   // the address mask keeps the low 31 bits
  const KERNEL_HEADER_SIZE: nat := 65536
  const ENTRY_SIZE: nat := 32      // a packed entry of a component table
  const MAGIC: seq<Byte> := [0x7a, 0x49, 0x50, 0x4c]   // "zIPL"

  /** Why a step fails: what is on the disk, or an I/O error. */
  datatype Status = Good | BadBootMap | IoFailure

  function Failure(read: ReadOutcome): Status {
    if read.IoError? then IoFailure else BadBootMap
  }

  // ---------- program table ----------

  function ProgramTableSize(disk: Disk): nat
    requires ValidDisk(disk)
  {
    512 / PtrSize(disk.kind) - 1
  }

  /** Entry `n` of the program table; the magic number takes the first slot. */
  function ProgramEntry(disk: Disk, table: BlockPtr, n: nat): (p: BlockPtr)
    requires ValidDisk(disk) && Readable(disk, table) && n < ProgramTableSize(disk)
    ensures Fits(disk.kind, p)
  {
    SlotBounds(disk, table);
    Slot(disk, table, n + 1)
  }

  /** A program or component table: one block that starts with the magic number. */
  predicate HasTable(disk: Disk, table: BlockPtr)
    requires ValidDisk(disk)
  {
    && table.blockct == 0 && Readable(disk, table)
    && |Extent(disk, table)| >= 4 && Extent(disk, table)[..4] == MAGIC
  }

  /** Read the block of a table and check its magic number. */
  method ReadTable(disk: Disk, table: BlockPtr) returns (status: Status, buffer: array<Byte>)
    requires ValidDisk(disk)
    ensures fresh(buffer)
    ensures status.Good? ==> HasTable(disk, table) && buffer[..] == Extent(disk, table)
    ensures status.BadBootMap? ==> !HasTable(disk, table)
  {
    buffer := new Byte[disk.blockSize];
    if table.blockct != 0 || !Accepted(disk, table) {
      return BadBootMap, buffer;
    }
    var read := ReadPhyBlocks(disk, buffer, 0, table);
    if !read.Complete? {
      return Failure(read), buffer;
    }
    SlotBounds(disk, table);
    assert buffer[..] == buffer[0..0 + ExtentBytes(disk, table)] == Extent(disk, table);
    if buffer[..4] != MAGIC {
      assert buffer[..4] == Extent(disk, table)[..4];
      return BadBootMap, buffer;
    }
    return Good, buffer;
  }

  method GetProgramTable(disk: Disk, table: BlockPtr) returns (status: Status, program: seq<BlockPtr>)
    requires ValidDisk(disk)
    ensures status.Good? ==> HasTable(disk, table) && |program| == ProgramTableSize(disk)
    ensures status.Good? ==> forall n :: 0 <= n < |program| ==> program[n] == ProgramEntry(disk, table, n)
    ensures status.BadBootMap? ==> !HasTable(disk, table)
  {
    program := [];
    var buffer;
    status, buffer := ReadTable(disk, table);
    if status.Good? {
      program := ReadSlots(disk, buffer, table);
    }
  }

  /** The slots behind the magic number. */
  method ReadSlots(disk: Disk, buffer: array<Byte>, table: BlockPtr) returns (program: seq<BlockPtr>)
    requires ValidDisk(disk) && Readable(disk, table) && buffer[..] == Extent(disk, table)
    ensures |program| == ProgramTableSize(disk)
    ensures forall n :: 0 <= n < |program| ==> program[n] == ProgramEntry(disk, table, n)
  {
    program := [];
    var n := 0;
    SlotBounds(disk, table);
    while n < ProgramTableSize(disk)
      invariant 0 <= n == |program| <= ProgramTableSize(disk)
      invariant forall k :: 0 <= k < n ==> program[k] == ProgramEntry(disk, table, k)
    {
      var entry := UnpackSlot(disk, buffer, table, n + 1);
      program := program + [entry];
      n := n + 1;
    }
  }

  // ---------- component table ----------

  /** The size the code works with counts packed pointers, not entries. */
  function ComponentTableSize(disk: Disk): nat
    requires ValidDisk(disk)
  {
    disk.blockSize / PtrSize(disk.kind) - 1
  }

  /** The entries that the block of a component table really holds. */
  function EntriesInBlock(disk: Disk): (n: nat)
    requires ValidDisk(disk)
    ensures n <= ComponentTableSize(disk)
  {
    disk.blockSize / ENTRY_SIZE - 1
  }

  /** A packed entry: a packed pointer, the type and the address. */
  function UnpackEntry(kind: DiskType, raw: seq<Byte>): Component
    requires |raw| == ENTRY_SIZE
  {
    Component(Unpack(kind, raw[..PtrSize(kind)]), raw[23], Field(raw, 24, 8))
  }

  /** Entry `n`; the magic number and the header take the first place. */
  function ComponentEntry(disk: Disk, table: BlockPtr, n: nat): Component
    requires ValidDisk(disk) && HasTable(disk, table) && n < EntriesInBlock(disk)
  {
    UnpackEntry(disk.kind, Extent(disk, table)[(n + 1) * ENTRY_SIZE..(n + 2) * ENTRY_SIZE])
  }

  /** The entries of a component table. Beyond the block the code goes on reading:
      `behind` is what it takes the memory there for. */
  function ComponentsOf(disk: Disk, table: BlockPtr, behind: seq<Component>): seq<Component>
    requires ValidDisk(disk) && HasTable(disk, table)
  {
    InBlock(disk, table) + behind
  }

  function InBlock(disk: Disk, table: BlockPtr): (entries: seq<Component>)
    requires ValidDisk(disk) && HasTable(disk, table)
    ensures |entries| == EntriesInBlock(disk)
    ensures forall n :: 0 <= n < |entries| ==> entries[n] == ComponentEntry(disk, table, n)
  {
    seq(EntriesInBlock(disk), n requires 0 <= n < EntriesInBlock(disk) => ComponentEntry(disk, table, n))
  }

  method GetComponentTable(disk: Disk, table: BlockPtr, behind: seq<Component>)
    returns (status: Status, opt: Byte, entries: seq<Component>)
    requires ValidDisk(disk) && |behind| == ComponentTableSize(disk) - EntriesInBlock(disk)
    ensures status.Good? ==> HasTable(disk, table) && opt == Extent(disk, table)[4]
    ensures status.Good? ==> entries == ComponentsOf(disk, table, behind)
    ensures status.BadBootMap? ==> !HasTable(disk, table)
  {
    opt, entries := 0, [];
    var buffer;
    status, buffer := ReadTable(disk, table);
    if status.Good? {
      opt := buffer[4];
      entries := ReadEntries(disk, buffer, table, behind);
    }
  }

  method ReadEntries(disk: Disk, buffer: array<Byte>, ghost table: BlockPtr, behind: seq<Component>)
    returns (entries: seq<Component>)
    requires ValidDisk(disk) && HasTable(disk, table) && buffer[..] == Extent(disk, table)
    requires |behind| == ComponentTableSize(disk) - EntriesInBlock(disk)
    ensures entries == ComponentsOf(disk, table, behind)
  {
    entries := [];
    var n := 0;
    while n < ComponentTableSize(disk)
      invariant 0 <= n == |entries| <= ComponentTableSize(disk)
      invariant forall k :: 0 <= k < n ==> entries[k] == ComponentsOf(disk, table, behind)[k]
    {
      if (n + 2) * ENTRY_SIZE <= buffer.Length {
        var raw := buffer[(n + 1) * ENTRY_SIZE..(n + 2) * ENTRY_SIZE];
        assert raw == Extent(disk, table)[(n + 1) * ENTRY_SIZE..(n + 2) * ENTRY_SIZE];
        entries := entries + [UnpackEntry(disk.kind, raw)];
      } else {
        entries := entries + [behind[n - EntriesInBlock(disk)]];
      }
      n := n + 1;
    }
  }

  // ---------- identifying the boot objects ----------

  /** Index of the first executable component, or the length if there is none. */
  function FirstExecute(entries: seq<Component>): (n: nat)
    ensures n <= |entries|
    ensures n < |entries| ==> entries[n].kind == COMPONENT_EXECUTE
    ensures forall k :: 0 <= k < n ==> entries[k].kind != COMPONENT_EXECUTE
  {
    if entries == [] || entries[0].kind == COMPONENT_EXECUTE then 0
    else
      var rest := FirstExecute(entries[1..]);
      assert forall k :: 1 <= k < rest + 1 ==> entries[k] == entries[1..][k - 1];
      1 + rest
  }

  /** Index of the first component loaded at `address`, or the length. */
  function FirstAt(entries: seq<Component>, address: nat): (n: nat)
    ensures n <= |entries|
    ensures n < |entries| ==> entries[n].address == address
    ensures forall k :: 0 <= k < n ==> entries[k].address != address
  {
    if entries == [] || entries[0].address == address then 0
    else
      var rest := FirstAt(entries[1..], address);
      assert forall k :: 1 <= k < rest + 1 ==> entries[k] == entries[1..][k - 1];
      1 + rest
  }

  /** The component loaded at `address`, or the zeroed pointer. */
  function SegmentAt(kind: DiskType, entries: seq<Component>, address: nat): BlockPtr {
    var n := FirstAt(entries, address);
    if n < |entries| then entries[n].segment else ZeroPtr(kind)
  }

  /** A 64-bit length stored into an int. */
  function ToInt(n: nat): int {
    var low := n % 0x1_0000_0000;
    if low > INT_MAX then low - 0x1_0000_0000 else low
  }

  /** The component before the first executable one: it starts with zipl's
      stage 3 parameters. */
  predicate HasStage3(disk: Disk, entries: seq<Component>, hops: nat) {
    var last := FirstExecute(entries);
    && 0 < last < |entries|
    && entries[last].address != PSW_DISABLED_WAIT
    && Loadable(disk, entries[last - 1].segment, hops)
    && |Content(disk, entries[last - 1].segment, hops)| >= 32
  }

  function Stage3(disk: Disk, entries: seq<Component>, hops: nat): (params: seq<Byte>)
    requires HasStage3(disk, entries, hops)
    ensures |params| >= 32
  {
    Content(disk, entries[FirstExecute(entries) - 1].segment, hops)
  }

  /** A kernel can be identified: some component before the executable one is
      loaded at the address in the stage 3 PSW. */
  predicate Identifiable(disk: Disk, entries: seq<Component>, hops: nat) {
    && HasStage3(disk, entries, hops)
    && HasKernel(entries[..FirstExecute(entries)], Stage3(disk, entries, hops))
  }

  predicate HasKernel(candidates: seq<Component>, params: seq<Byte>)
    requires |params| >= 32
  {
    exists k :: 0 <= k < |candidates| && candidates[k].address == Field(params, 24, 8) % PSW_ADDRESSES
  }

  /** The boot objects: the first components at the addresses that the stage 3
      parameters name. */
  function ObjectsOf(disk: Disk, entries: seq<Component>, hops: nat): BootObjects
    requires HasStage3(disk, entries, hops)
  {
    Select(disk.kind, entries[..FirstExecute(entries)], Stage3(disk, entries, hops))
  }

  function Select(kind: DiskType, candidates: seq<Component>, params: seq<Byte>): BootObjects
    requires |params| >= 32
  {
    BootObjects(
      SegmentAt(kind, candidates, Field(params, 24, 8) % PSW_ADDRESSES),
      SegmentAt(kind, candidates, Field(params, 8, 8)),
      if FirstAt(candidates, Field(params, 8, 8)) < |candidates| then ToInt(Field(params, 16, 8)) else 0,
      SegmentAt(kind, candidates, Field(params, 0, 8)))
  }

  predicate TablesEnd(disk: Disk, entries: seq<Component>, hops: nat) {
    forall k :: 0 <= k < |entries| ==> ViewOf(disk).Ends(entries[k].segment, true, hops)
  }

  method FindAddress(candidates: seq<Component>, address: nat) returns (n: nat)
    ensures n == FirstAt(candidates, address)
  {
    n := 0;
    while n < |candidates| && candidates[n].address != address
      invariant n <= |candidates|
      invariant forall k :: 0 <= k < n ==> candidates[k].address != address
    {
      n := n + 1;
    }
  }

  lemma ContentLength(disk: Disk, component: BlockPtr, hops: nat)
    requires ValidDisk(disk) && Loadable(disk, component, hops)
    ensures |Content(disk, component, hops)| >= disk.blockSize
  {
    var v := ViewOf(disk);
    var tables, code := v.Chain(component, true, hops), v.Component(component, hops);
    assert v.readable(tables[0]);
    SlotBounds(disk, component);
    assert |v.CodeSlots(component)| >= 31;
    assert v.Flat(tables) == v.CodeSlots(component) + v.Flat(tables[1..]);
    assert |code| > 0;
    var last := code[|code| - 1];
    assert v.readable(last);
    AcceptedBounds(disk, last);
    assert |Image(disk, last)| >= disk.blockSize;
  }

  /** `identify_boot_objects`. On failure all pointers stay zeroed. */
  method IdentifyBootObjects(disk: Disk, entries: seq<Component>, ghost hops: nat)
    returns (status: Status, objects: BootObjects)
    requires ValidDisk(disk) && TablesEnd(disk, entries, hops)
    ensures status.Good? ==> Identifiable(disk, entries, hops) && objects == ObjectsOf(disk, entries, hops)
    ensures status.BadBootMap? ==> !Identifiable(disk, entries, hops)
    ensures !status.Good? ==> objects == NoObjects(disk.kind)
  {
    objects := NoObjects(disk.kind);
    // the component in front of the executable one is the stage 3 loader
    var last := FindExecute(entries);
    if last == 0 || last == |entries| || entries[last].address == PSW_DISABLED_WAIT {
      return BadBootMap, objects;
    }
    var load := CopyComponentToMemory(disk, entries[last - 1].segment, hops);
    if load.NotLoaded? {
      return Failure(load.reason), objects;
    }
    ContentLength(disk, entries[last - 1].segment, hops);
    var ok;
    ok, objects := LookUpObjects(disk.kind, entries[..last], load.content[..]);
    return if ok then Good else BadBootMap, objects;
  }

  method FindExecute(entries: seq<Component>) returns (last: nat)
    ensures last == FirstExecute(entries)
  {
    last := 0;
    while last < |entries| && entries[last].kind != COMPONENT_EXECUTE
      invariant 0 <= last <= |entries|
      invariant forall k :: 0 <= k < last ==> entries[k].kind != COMPONENT_EXECUTE
    {
      last := last + 1;
    }
  }

  /** Search kernel, initrd and parameter file among the components. */
  method LookUpObjects(kind: DiskType, candidates: seq<Component>, stage3: seq<Byte>)
    returns (ok: bool, objects: BootObjects)
    requires |stage3| >= 32
    ensures ok == HasKernel(candidates, stage3)
    ensures objects == if ok then Select(kind, candidates, stage3) else NoObjects(kind)
  {
    objects := NoObjects(kind);
    // the three addresses are parameters of the stage 3 loader
    var n := FindAddress(candidates, Field(stage3, 24, 8) % PSW_ADDRESSES);
    if n == |candidates| {
      return false, objects;
    }
    objects := objects.(kernel := candidates[n].segment);
    n := FindAddress(candidates, Field(stage3, 8, 8));
    if n != |candidates| {
      objects := objects.(initrd := candidates[n].segment, initrdLen := ToInt(Field(stage3, 16, 8)));
    }
    n := FindAddress(candidates, Field(stage3, 0, 8));
    if n != |candidates| {
      objects := objects.(parmfile := candidates[n].segment);
    }
    return true, objects;
  }

  function NoObjects(kind: DiskType): BootObjects {
    BootObjects(ZeroPtr(kind), ZeroPtr(kind), 0, ZeroPtr(kind))
  }

  // ---------- the way to kexec ----------

  datatype Initrd = NoInitrd | InitrdImage(image: seq<Byte>)

  /** Either kexec is called with these files and this command line, or an error
      message is returned. */
  datatype BootResult = Kexec(kernel: seq<Byte>, initrd: Initrd, cmdline: seq<Byte>) | BootError(reason: Status)

  /** write(): an error for a count that is negative as ssize_t, else an error or
      the whole block. */
  method WriteFile(content: seq<Byte>, count: int) returns (written: int, file: seq<Byte>)
    requires count <= |content|
    ensures written == -1 || written == count >= 0
    ensures file == if written >= 0 then content[..written] else []
  {
    if count < 0 {
      return -1, [];
    }
    if * {
      return -1, [];
    }
    return count, content[..count];
  }

  /** The bytes before the first NUL; the last byte is overwritten with one. */
  function CString(content: seq<Byte>): seq<Byte> {
    if |content| <= 1 || content[0] == 0 then [] else [content[0]] + CString(content[1..])
  }

  function Zeros(n: nat): seq<Byte> { seq(n, _ => 0) }

  /** All boot objects can be loaded. A length of -1 is the one negative length
      that is not noticed: it equals the error code of write(). */
  predicate ObjectsLoadable(disk: Disk, objects: BootObjects, hops: nat) {
    && Loadable(disk, objects.kernel, hops)
    && (!IsNull(disk.kind, objects.initrd) ==>
          && Loadable(disk, objects.initrd, hops)
          && -1 <= objects.initrdLen <= |Content(disk, objects.initrd, hops)|)
    && (!IsNull(disk.kind, objects.parmfile) ==> Loadable(disk, objects.parmfile, hops))
  }

  /** The call of kexec that the boot map describes. */
  function KexecOf(disk: Disk, objects: BootObjects, hops: nat, extra: seq<Byte>): BootResult
    requires ObjectsLoadable(disk, objects, hops)
  {
    Kexec(
      Zeros(KERNEL_HEADER_SIZE) + Content(disk, objects.kernel, hops),
      if IsNull(disk.kind, objects.initrd) then NoInitrd
      else InitrdImage(InitrdFile(Content(disk, objects.initrd, hops), objects.initrdLen)),
      (if IsNull(disk.kind, objects.parmfile) then [] else CString(Content(disk, objects.parmfile, hops)))
      + [0x20] + extra)
  }

  function InitrdFile(content: seq<Byte>, length: int): seq<Byte>
    requires -1 <= length <= |content|
  {
    if length == -1 then [] else content[..length]
  }

  method ReadKernelComponent(disk: Disk, kernel: BlockPtr, ghost hops: nat) returns (status: Status, file: seq<Byte>)
    requires ValidDisk(disk) && ViewOf(disk).Ends(kernel, true, hops)
    ensures status.Good? ==> Loadable(disk, kernel, hops)
    ensures status.Good? ==> file == Zeros(KERNEL_HEADER_SIZE) + Content(disk, kernel, hops)
    ensures status.BadBootMap? ==> !Loadable(disk, kernel, hops)
  {
    file := Zeros(KERNEL_HEADER_SIZE);
    var load := CopyComponentToMemory(disk, kernel, hops);
    if load.NotLoaded? {
      return Failure(load.reason), file;
    }
    var written, image := WriteFile(load.content[..], load.content.Length);
    if written != load.content.Length {
      return IoFailure, file;
    }
    return Good, file + image;
  }

  method ReadInitrdComponent(disk: Disk, initrd: BlockPtr, initrdLen: int, ghost hops: nat)
    returns (status: Status, file: seq<Byte>)
    requires ValidDisk(disk) && ViewOf(disk).Ends(initrd, true, hops)
    ensures status.Good? ==> Loadable(disk, initrd, hops) && -1 <= initrdLen <= |Content(disk, initrd, hops)|
    ensures status.Good? ==> file == InitrdFile(Content(disk, initrd, hops), initrdLen)
    ensures status.BadBootMap? ==>
              !(Loadable(disk, initrd, hops) && -1 <= initrdLen <= |Content(disk, initrd, hops)|)
  {
    file := [];
    var load := CopyComponentToMemory(disk, initrd, hops);
    if load.NotLoaded? {
      return Failure(load.reason), file;
    }
    if load.content.Length < initrdLen {
      return BadBootMap, file;
    }
    var written;
    written, file := WriteFile(load.content[..], initrdLen);
    if written != initrdLen {
      return if initrdLen < 0 then BadBootMap else IoFailure, file;
    }
    return Good, file;
  }

  method ReadParmfileComponent(disk: Disk, parmfile: BlockPtr, ghost hops: nat)
    returns (status: Status, cmdline: seq<Byte>)
    requires ValidDisk(disk) && ViewOf(disk).Ends(parmfile, true, hops)
    ensures status.Good? ==> Loadable(disk, parmfile, hops) && cmdline == CString(Content(disk, parmfile, hops))
    ensures status.BadBootMap? ==> !Loadable(disk, parmfile, hops)
  {
    var load := CopyComponentToMemory(disk, parmfile, hops);
    if load.NotLoaded? {
      return Failure(load.reason), [];
    }
    return Good, CString(load.content[..]);
  }

  /** The component table of the program can be read. */
  predicate HasProgram(disk: Disk, table: BlockPtr, program: int)
    requires ValidDisk(disk)
  {
    && 0 <= program < ProgramTableSize(disk) && HasTable(disk, table)
    && HasTable(disk, ProgramEntry(disk, table, program))
  }

  /** The boot map leads to kexec: every table on the way is valid, the boot
      objects are identified and can be loaded. */
  predicate Bootable(disk: Disk, table: BlockPtr, program: int, behind: seq<Component>, hops: nat)
    requires ValidDisk(disk)
  {
    && HasProgram(disk, table, program)
    && var entry := ProgramEntry(disk, table, program);
    && !IsNull(disk.kind, entry) && Extent(disk, entry)[4] == COMPONENT_HEADER_IPL
    && var entries := ComponentsOf(disk, entry, behind);
    && Identifiable(disk, entries, hops) && ObjectsLoadable(disk, ObjectsOf(disk, entries, hops), hops)
  }

  /** `boot_bootmap_disk`. The result of identifying the boot objects is dropped,
      as in the source; nevertheless kexec is called exactly when the boot objects
      are identified and loadable (unless I/O fails), and with their content. */
  method BootBootmapDisk(disk: Disk, table: BlockPtr, program: int, behind: seq<Component>,
                         extra: seq<Byte>, ghost hops: nat)
    returns (r: BootResult)
    requires ValidDisk(disk) && |behind| == ComponentTableSize(disk) - EntriesInBlock(disk)
    requires HasProgram(disk, table, program) ==>
               TablesEnd(disk, ComponentsOf(disk, ProgramEntry(disk, table, program), behind), hops)
    ensures r.Kexec? ==> Bootable(disk, table, program, behind, hops)
    ensures r.Kexec? ==>
              var entries := ComponentsOf(disk, ProgramEntry(disk, table, program), behind);
              r == KexecOf(disk, ObjectsOf(disk, entries, hops), hops, extra)
    ensures r == BootError(BadBootMap) ==> !Bootable(disk, table, program, behind, hops)
  {
    if program < 0 || program >= ProgramTableSize(disk) {
      return BootError(BadBootMap);
    }
    var status, programTable := GetProgramTable(disk, table);
    if !status.Good? {
      return BootError(status);
    }
    var entry := programTable[program];
    var empty := BlockPtrIsNull(disk.kind, entry);
    if empty {
      return BootError(BadBootMap);
    }
    var opt, entries;
    status, opt, entries := GetComponentTable(disk, entry, behind);
    if !status.Good? {
      return BootError(status);
    }
    if opt != COMPONENT_HEADER_IPL {
      return BootError(BadBootMap);
    }
    // the status is not looked at: without objects the kernel pointer stays zeroed
    var dropped, objects := IdentifyBootObjects(disk, entries, hops);
    ObjectsEnd(disk, entries, hops, objects);
    r := LoadBootObjects(disk, objects, extra, hops);
    if dropped.IoFailure? && r == BootError(BadBootMap) {
      r := BootError(IoFailure);   // only the classification of the error, not its message
    }
  }

  /** The block of a component table holds an executable entry. */
  predicate Terminated(entries: seq<Component>) { FirstExecute(entries) < |entries| }

  lemma FirstExecuteAppend(entries: seq<Component>, behind: seq<Component>)
    requires Terminated(entries)
    ensures FirstExecute(entries + behind) == FirstExecute(entries)
  {
    var n, all := FirstExecute(entries), entries + behind;
    assert all[n] == entries[n] && forall k :: 0 <= k < n ==> all[k] == entries[k];
  }

  /** The entries up to the executable one decide what is identified. */
  lemma HeadDecides(disk: Disk, entries: seq<Component>, b: seq<Component>, c: seq<Component>, hops: nat)
    requires Terminated(entries)
    ensures Identifiable(disk, entries + b, hops) == Identifiable(disk, entries + c, hops)
    ensures Identifiable(disk, entries + b, hops) ==>
              ObjectsOf(disk, entries + b, hops) == ObjectsOf(disk, entries + c, hops)
  {
    var last := FirstExecute(entries);
    FirstExecuteAppend(entries, b);
    FirstExecuteAppend(entries, c);
    assert (entries + b)[..last] == entries[..last] == (entries + c)[..last];
    assert (entries + b)[last] == (entries + c)[last];
    assert last > 0 ==> (entries + b)[last - 1] == (entries + c)[last - 1];
  }

  /** With other memory behind the block the same is booted. */
  predicate SameBoot(disk: Disk, table: BlockPtr, program: int, b: seq<Component>, c: seq<Component>, hops: nat)
    requires ValidDisk(disk) && Bootable(disk, table, program, b, hops)
  {
    && Bootable(disk, table, program, c, hops)
    && var entry := ProgramEntry(disk, table, program);
       ObjectsOf(disk, ComponentsOf(disk, entry, c), hops) == ObjectsOf(disk, ComponentsOf(disk, entry, b), hops)
  }

  /** Memory that is taken for components none of which is executable. */
  function Plain(kind: DiskType, n: nat): seq<Component> { seq(n, _ => Component(ZeroPtr(kind), 0, 0)) }

  lemma PlainStops(disk: Disk, entries: seq<Component>, n: nat, hops: nat)
    requires !Terminated(entries)
    ensures !HasStage3(disk, entries + Plain(disk.kind, n), hops)
  {
    var all := entries + Plain(disk.kind, n);
    forall k | 0 <= k < |all| ensures all[k].kind != COMPONENT_EXECUTE {
      assert k < |entries| ==> all[k] == entries[k];
    }
  }

  /** What lies in memory behind the block of a component table has no influence on
      what is booted, exactly if the table itself has an executable entry. */
  lemma BehindIrrelevant(disk: Disk, table: BlockPtr, program: int, b: seq<Component>, hops: nat)
    requires ValidDisk(disk) && Bootable(disk, table, program, b, hops)
    ensures (forall c :: |c| == |b| ==> SameBoot(disk, table, program, b, c, hops))
       <==> Terminated(InBlock(disk, ProgramEntry(disk, table, program)))
  {
    var entries := InBlock(disk, ProgramEntry(disk, table, program));
    if Terminated(entries) {
      forall c | |c| == |b| ensures SameBoot(disk, table, program, b, c, hops) {
        HeadDecides(disk, entries, b, c, hops);
      }
    } else {
      PlainStops(disk, entries, |b|, hops);
      assert !SameBoot(disk, table, program, b, Plain(disk.kind, |b|), hops);
    }
  }

  /** From the identified objects to kexec. */
  method LoadBootObjects(disk: Disk, objects: BootObjects, extra: seq<Byte>, ghost hops: nat) returns (r: BootResult)
    requires ValidDisk(disk) && ViewOf(disk).Ends(objects.kernel, true, hops)
    requires ViewOf(disk).Ends(objects.initrd, true, hops) && ViewOf(disk).Ends(objects.parmfile, true, hops)
    ensures r.Kexec? ==> ObjectsLoadable(disk, objects, hops) && r == KexecOf(disk, objects, hops, extra)
    ensures r == BootError(BadBootMap) ==> !ObjectsLoadable(disk, objects, hops)
  {
    var status, kernel := ReadKernelComponent(disk, objects.kernel, hops);
    if !status.Good? {
      return BootError(status);
    }
    var initrd := NoInitrd;
    if !IsNull(disk.kind, objects.initrd) {
      var image;
      status, image := ReadInitrdComponent(disk, objects.initrd, objects.initrdLen, hops);
      if !status.Good? {
        return BootError(status);
      }
      initrd := InitrdImage(image);
    }
    var cmdline := [];
    if !IsNull(disk.kind, objects.parmfile) {
      status, cmdline := ReadParmfileComponent(disk, objects.parmfile, hops);
      if !status.Good? {
        return BootError(status);
      }
    }
    r := Kexec(kernel, initrd, cmdline + [0x20] + extra);
  }

  /** A zeroed pointer cannot be loaded, and the walks over the boot objects end. */
  lemma ObjectsEnd(disk: Disk, entries: seq<Component>, hops: nat, objects: BootObjects)
    requires ValidDisk(disk) && TablesEnd(disk, entries, hops)
    requires objects == NoObjects(disk.kind)
          || (Identifiable(disk, entries, hops) && objects == ObjectsOf(disk, entries, hops))
    ensures ViewOf(disk).Ends(objects.kernel, true, hops)
    ensures ViewOf(disk).Ends(objects.initrd, true, hops)
    ensures ViewOf(disk).Ends(objects.parmfile, true, hops)
    ensures objects == NoObjects(disk.kind) ==> !Loadable(disk, objects.kernel, hops)
  {
    var v := ViewOf(disk);
    ZeroRejected(disk);
    assert !v.PassesThrough(ZeroPtr(disk.kind), true);
    assert v.Chain(ZeroPtr(disk.kind), true, hops)[0] == ZeroPtr(disk.kind);
  }
}
