/**
 Disk block pointers of a zipl boot map: the packed on-disk layouts, the null
 test on the unpacked union, the validity check and the conversion from
 cylinder/head/sector to a block number (core/bootmap_common.c).

 Multi-byte fields are big endian: boot maps exist on System z only.
 */
module BlockPointer {

  type Byte = n: nat | n < 256

  datatype DiskType = Scsi | Fba | Diag | EckdClassic | EckdCompatible | Unknown {
    predicate Linear() { Scsi? || Fba? }
    predicate Eckd() { EckdClassic? || EckdCompatible? }
  }

  datatype Geometry = Geometry(heads: Byte, sectors: Byte, cylinders: nat)

  /** `data` is the content of the device behind the file descriptor. */
  datatype Disk = Disk(kind: DiskType, blockSize: nat, blocks: nat, geo: Geometry, data: seq<Byte>)

  /** The two members of the `disk_blockptr_t` union. */
  datatype BlockPtr =
    | Chs(cyl: int, head: int, sec: int, size: int, blockct: int)
    | Linear(block: nat, size: int, blockct: int)

  const INT_MAX: int := 0x7fff_ffff

  // ---------- big endian integers ----------

  function Pow256(width: nat): (p: nat)
    ensures p > 0
  {
    if width == 0 then 1 else 256 * Pow256(width - 1)
  }

  function FromBE(bs: seq<Byte>): nat {
    if bs == [] then 0 else 256 * FromBE(bs[..|bs| - 1]) + bs[|bs| - 1]
  }

  function ToBE(n: nat, width: nat): (bs: seq<Byte>)
    ensures |bs| == width
  {
    if width == 0 then [] else ToBE(n / 256, width - 1) + [n % 256]
  }

  lemma {:induction false} FromBEToBE(n: nat, width: nat)
    requires n < Pow256(width)
    ensures FromBE(ToBE(n, width)) == n
  {
    if width > 0 {
      FromBEToBE(n / 256, width - 1);
      assert ToBE(n, width)[..width - 1] == ToBE(n / 256, width - 1);
    }
  }

  lemma {:induction false} ToBEFromBE(bs: seq<Byte>)
    ensures FromBE(bs) < Pow256(|bs|)
    ensures ToBE(FromBE(bs), |bs|) == bs
  {
    if bs != [] {
      ToBEFromBE(bs[..|bs| - 1]);
      assert bs == bs[..|bs| - 1] + [bs[|bs| - 1]];
    }
  }

  predicate AllZero(bs: seq<Byte>) {
    forall k :: 0 <= k < |bs| ==> bs[k] == 0
  }

  lemma AllZeroConcat(a: seq<Byte>, b: seq<Byte>)
    ensures AllZero(a + b) <==> AllZero(a) && AllZero(b)
  {
    assert forall k :: 0 <= k < |a| ==> (a + b)[k] == a[k];
    assert forall k :: 0 <= k < |b| ==> b[k] == (a + b)[|a| + k];
  }

  lemma {:induction false} ZeroBytes(n: nat, width: nat)
    requires n < Pow256(width)
    ensures n == 0 <==> AllZero(ToBE(n, width))
  {
    if width > 0 {
      ZeroBytes(n / 256, width - 1);
      AllZeroConcat(ToBE(n / 256, width - 1), [n % 256]);
      assert AllZero([n % 256]) <==> [n % 256][0] == 0;
      assert n == 0 <==> n / 256 == 0 && n % 256 == 0;
    }
  }

  lemma Widths()
    ensures Pow256(1) == 0x100 && Pow256(2) == 0x1_0000 && Pow256(4) == 0x1_0000_0000
    ensures Pow256(8) == 0x1_0000_0000_0000_0000
  {
    assert Pow256(3) == 0x100_0000;
    assert Pow256(5) == 0x100_0000_0000;
    assert Pow256(6) == 0x1_0000_0000_0000;
    assert Pow256(7) == 0x100_0000_0000_0000;
  }

  // ---------- packed layouts ----------

  /** Size of a packed pointer; zero for the disk types that have none. */
  function PtrSize(kind: DiskType): nat {
    match kind
    case Scsi => 16
    case Fba | EckdClassic | EckdCompatible => 8
    case Diag | Unknown => 0
  }

  function Field(raw: seq<Byte>, at: nat, width: nat): nat
    requires at + width <= |raw|
  {
    FromBE(raw[at..at + width])
  }

  function Unpack(kind: DiskType, raw: seq<Byte>): BlockPtr
    requires |raw| == PtrSize(kind)
  {
    match kind
    case Scsi => Linear(Field(raw, 0, 8), Field(raw, 8, 2), Field(raw, 10, 2))
    case Fba => Linear(Field(raw, 0, 4), Field(raw, 4, 2), Field(raw, 6, 2))
    case EckdClassic | EckdCompatible =>
      Chs(Field(raw, 0, 2), Field(raw, 2, 2), Field(raw, 4, 1), Field(raw, 5, 2), Field(raw, 7, 1))
    case Diag | Unknown => Linear(0, 0, 0)
  }

  /** The layout zipl writes; the reserved SCSI bytes are zero. */
  function Pack(kind: DiskType, p: BlockPtr): (raw: seq<Byte>)
    requires Fits(kind, p)
    ensures |raw| == PtrSize(kind)
  {
    match kind
    case Scsi => ToBE(p.block, 8) + ToBE(p.size, 2) + ToBE(p.blockct, 2) + [0, 0, 0, 0]
    case Fba => ToBE(p.block, 4) + ToBE(p.size, 2) + ToBE(p.blockct, 2)
    case EckdClassic | EckdCompatible =>
      ToBE(p.cyl, 2) + ToBE(p.head, 2) + ToBE(p.sec, 1) + ToBE(p.size, 2) + ToBE(p.blockct, 1)
    case Diag | Unknown => []
  }

  /** The pointer has the disk's shape and its fields the packed widths. */
  predicate Fits(kind: DiskType, p: BlockPtr) {
    match kind
    case Scsi => p.Linear? && p.block < Pow256(8) && 0 <= p.size < 0x1_0000 && 0 <= p.blockct < 0x1_0000
    case Fba => p.Linear? && p.block < Pow256(4) && 0 <= p.size < 0x1_0000 && 0 <= p.blockct < 0x1_0000
    case EckdClassic | EckdCompatible =>
      && p.Chs? && 0 <= p.cyl < 0x1_0000 && 0 <= p.head < 0x1_0000 && 0 <= p.sec < 0x100
      && 0 <= p.size < 0x1_0000 && 0 <= p.blockct < 0x100
    case Diag | Unknown => p == Linear(0, 0, 0)
  }

  lemma Slice(before: seq<Byte>, field: seq<Byte>, after: seq<Byte>)
    ensures (before + field + after)[|before|..|before| + |field|] == field
  {
  }

  lemma FieldOf(before: seq<Byte>, n: nat, width: nat, after: seq<Byte>)
    requires n < Pow256(width)
    ensures Field(before + ToBE(n, width) + after, |before|, width) == n
  {
    Slice(before, ToBE(n, width), after);
    FromBEToBE(n, width);
  }

  /** Reading back a packed pointer gives the same pointer. */
  lemma UnpackPack(kind: DiskType, p: BlockPtr)
    requires Fits(kind, p)
    ensures Unpack(kind, Pack(kind, p)) == p
  {
    Widths();
    if kind.Eckd() {
      UnpackPackEckd(kind, p);
    } else if kind.Scsi? {
      var a, b, c, d := ToBE(p.block, 8), ToBE(p.size, 2), ToBE(p.blockct, 2), [0, 0, 0, 0];
      FieldOf([], p.block, 8, b + c + d);
      FieldOf(a, p.size, 2, c + d);
      FieldOf(a + b, p.blockct, 2, d);
      assert a + b + c + d == [] + a + (b + c + d) == a + b + (c + d);
    } else if kind.Fba? {
      var a, b, c := ToBE(p.block, 4), ToBE(p.size, 2), ToBE(p.blockct, 2);
      FieldOf([], p.block, 4, b + c);
      FieldOf(a, p.size, 2, c);
      FieldOf(a + b, p.blockct, 2, []);
      assert a + b + c == [] + a + (b + c) == a + b + c + [];
    }
  }

  lemma UnpackPackEckd(kind: DiskType, p: BlockPtr)
    requires kind.Eckd() && Fits(kind, p)
    ensures Unpack(kind, Pack(kind, p)) == p
  {
    Widths();
    var a, b, c := ToBE(p.cyl, 2), ToBE(p.head, 2), ToBE(p.sec, 1);
    var d, e := ToBE(p.size, 2), ToBE(p.blockct, 1);
    FieldOf([], p.cyl, 2, b + c + d + e);
    FieldOf(a, p.head, 2, c + d + e);
    FieldOf(a + b, p.sec, 1, d + e);
    FieldOf(a + b + c, p.size, 2, e);
    FieldOf(a + b + c + d, p.blockct, 1, []);
    var raw := a + b + c + d + e;
    assert raw == [] + a + (b + c + d + e);
    assert raw == a + b + (c + d + e);
    assert raw == a + b + c + (d + e);
    assert raw == a + b + c + d + e + [];
  }

  lemma FieldFits(raw: seq<Byte>, at: nat, width: nat)
    requires at + width <= |raw|
    ensures Field(raw, at, width) < Pow256(width) && ToBE(Field(raw, at, width), width) == raw[at..at + width]
  {
    ToBEFromBE(raw[at..at + width]);
  }

  /** Nothing but the four reserved SCSI bytes is lost by unpacking. */
  lemma PackUnpack(kind: DiskType, raw: seq<Byte>)
    requires |raw| == PtrSize(kind)
    ensures Fits(kind, Unpack(kind, raw))
    ensures Pack(kind, Unpack(kind, raw)) == if kind.Scsi? then raw[..12] + [0, 0, 0, 0] else raw
  {
    UnpackFits(kind, raw);
    if kind.Eckd() {
      PackUnpackEckd(kind, raw);
    } else {
      PackUnpackLinear(kind, raw);
    }
  }

  lemma PackUnpackLinear(kind: DiskType, raw: seq<Byte>)
    requires !kind.Eckd() && |raw| == PtrSize(kind) && Fits(kind, Unpack(kind, raw))
    ensures Pack(kind, Unpack(kind, raw)) == if kind.Scsi? then raw[..12] + [0, 0, 0, 0] else raw
  {
    if kind.Scsi? {
      FieldFits(raw, 0, 8); FieldFits(raw, 8, 2); FieldFits(raw, 10, 2);
      assert raw[0..8] + raw[8..10] + raw[10..12] == raw[..12];
    } else if kind.Fba? {
      FieldFits(raw, 0, 4); FieldFits(raw, 4, 2); FieldFits(raw, 6, 2);
      assert raw[0..4] + raw[4..6] + raw[6..8] == raw;
    }
  }

  lemma UnpackFits(kind: DiskType, raw: seq<Byte>)
    requires |raw| == PtrSize(kind)
    ensures Fits(kind, Unpack(kind, raw))
  {
    Widths();
    match kind
    case Scsi => FieldFits(raw, 0, 8); FieldFits(raw, 8, 2); FieldFits(raw, 10, 2);
    case Fba => FieldFits(raw, 0, 4); FieldFits(raw, 4, 2); FieldFits(raw, 6, 2);
    case EckdClassic | EckdCompatible =>
      FieldFits(raw, 0, 2); FieldFits(raw, 2, 2); FieldFits(raw, 4, 1); FieldFits(raw, 5, 2); FieldFits(raw, 7, 1);
    case Diag | Unknown =>
  }

  lemma PackUnpackEckd(kind: DiskType, raw: seq<Byte>)
    requires kind.Eckd() && |raw| == PtrSize(kind) && Fits(kind, Unpack(kind, raw))
    ensures Pack(kind, Unpack(kind, raw)) == raw
  {
    FieldFits(raw, 0, 2); FieldFits(raw, 2, 2); FieldFits(raw, 4, 1); FieldFits(raw, 5, 2); FieldFits(raw, 7, 1);
    Extend(raw, 0, 2); Extend(raw, 2, 4); Extend(raw, 4, 5); Extend(raw, 5, 7); Extend(raw, 7, 8);
    assert [] + raw[0..2] == raw[0..2] && raw[..8] == raw;
  }

  lemma Extend(raw: seq<Byte>, i: nat, j: nat)
    requires i <= j <= |raw|
    ensures raw[..i] + raw[i..j] == raw[..j]
  {
  }

  // ---------- null test ----------

  function Int32Bytes(x: int): (bs: seq<Byte>)
    ensures |bs| == 4
  {
    ToBE(x % 0x1_0000_0000, 4)
  }

  /** The memory of the union as the null test sees it. */
  function UnionBytes(p: BlockPtr): seq<Byte> {
    match p
    case Chs(cyl, head, sec, size, blockct) =>
      Int32Bytes(cyl) + Int32Bytes(head) + Int32Bytes(sec) + Int32Bytes(size) + Int32Bytes(blockct)
    case Linear(block, size, blockct) =>
      ToBE(block, 8) + Int32Bytes(size) + Int32Bytes(blockct)
  }

  /** What the null test decides, in terms of fields: on ECKD only cylinder and
      head take part, on FBA only the block number. */
  predicate IsNull(kind: DiskType, p: BlockPtr) {
    match kind
    case Scsi => p.Linear? && p.block == 0 && p.size == 0 && p.blockct == 0
    case Fba => p.Linear? && p.block == 0
    case EckdClassic | EckdCompatible => p.Chs? && p.cyl == 0 && p.head == 0
    case Diag | Unknown => true
  }

  lemma Int32Zero(x: int)
    requires -0x8000_0000 <= x <= INT_MAX
    ensures x == 0 <==> AllZero(Int32Bytes(x))
  {
    Widths();
    ZeroBytes(x % 0x1_0000_0000, 4);
    assert x == 0 <==> x % 0x1_0000_0000 == 0;
  }

  lemma UnionPrefixZero(kind: DiskType, p: BlockPtr)
    requires Fits(kind, p)
    ensures PtrSize(kind) <= |UnionBytes(p)|
    ensures IsNull(kind, p) <==> AllZero(UnionBytes(p)[..PtrSize(kind)])
  {
    Widths();
    var memory := UnionBytes(p)[..PtrSize(kind)];
    match kind
    case Scsi =>
      ZeroBytes(p.block, 8); Int32Zero(p.size); Int32Zero(p.blockct);
      assert memory == ToBE(p.block, 8) + Int32Bytes(p.size) + Int32Bytes(p.blockct);
      AllZeroConcat(ToBE(p.block, 8) + Int32Bytes(p.size), Int32Bytes(p.blockct));
      AllZeroConcat(ToBE(p.block, 8), Int32Bytes(p.size));
    case Fba =>
      ZeroBytes(p.block, 8);
      assert memory == ToBE(p.block, 8);
    case EckdClassic | EckdCompatible =>
      Int32Zero(p.cyl); Int32Zero(p.head);
      assert memory == Int32Bytes(p.cyl) + Int32Bytes(p.head);
      AllZeroConcat(Int32Bytes(p.cyl), Int32Bytes(p.head));
    case Diag | Unknown =>
  }

  method BlockPtrIsNull(kind: DiskType, p: BlockPtr) returns (isNull: bool)
    requires Fits(kind, p)
    ensures isNull == IsNull(kind, p)
  {
    UnionPrefixZero(kind, p);
    isNull := TestMemory(UnionBytes(p), PtrSize(kind));
  }

  /** The byte loop of the null test. */
  method TestMemory(memory: seq<Byte>, size: nat) returns (isNull: bool)
    requires size <= |memory|
    ensures isNull == AllZero(memory[..size])
  {
    var n := 0;
    while n < size
      invariant 0 <= n <= size
      invariant forall k :: 0 <= k < n ==> memory[k] == 0
    {
      if memory[n] != 0 {
        assert memory[..size][n] != 0;
        return false;
      }
      n := n + 1;
    }
    return true;
  }

  // ---------- validity check and addresses ----------

  /** `check_blockptr` for the disk types that can be opened. */
  predicate Accepted(disk: Disk, p: BlockPtr) {
    && (disk.kind.Linear() ==>
          p.Linear? && p.blockct >= 0 && p.size == disk.blockSize && p.block < disk.blocks)
    && (disk.kind.Eckd() ==>
          && p.Chs? && p.blockct >= 0 && p.size == disk.blockSize
          && 0 <= p.cyl < disk.geo.cylinders && 0 <= p.head < disk.geo.heads
          && 1 <= p.sec <= disk.geo.sectors)
  }

  /** The number of the first block a pointer addresses. */
  function BlockIndex(geo: Geometry, p: BlockPtr): int {
    match p
    case Chs(cyl, head, sec, _, _) => sec + geo.sectors * (head + cyl * geo.heads) - 1
    case Linear(block, _, _) => block
  }

  function Capacity(geo: Geometry): nat {
    geo.cylinders * geo.heads * geo.sectors
  }

  /** An initialised disk record, as `disk_open` leaves it: a supported type and
      the device size converted to physical blocks by two truncating divisions. */
  predicate ValidDisk(disk: Disk) {
    && (disk.kind.Linear() || disk.kind.Eckd())
    && disk.blockSize >= 512 && disk.blockSize % 512 == 0
    && disk.blocks == |disk.data| / 512 / (disk.blockSize / 512)
  }

  predicate LexLess(p: BlockPtr, q: BlockPtr)
    requires p.Chs? && q.Chs?
  {
    || p.cyl < q.cyl
    || (p.cyl == q.cyl && p.head < q.head)
    || (p.cyl == q.cyl && p.head == q.head && p.sec < q.sec)
  }

  lemma MulLess(a: int, b: int, n: int)
    requires a < b && n >= 0
    ensures a * n + n <= b * n
  {
    assert (a + 1) * n <= b * n;
  }

  lemma MulMono(a: int, b: int, n: int)
    requires n >= 0
    ensures a <= b ==> a * n <= b * n
  {
    if a < b {
      MulLess(a, b, n);
    }
  }

  /** Every accepted pointer addresses a block below the capacity. */
  lemma ChsInRange(disk: Disk, p: BlockPtr)
    requires disk.kind.Eckd() && Accepted(disk, p)
    ensures 0 <= BlockIndex(disk.geo, p) < Capacity(disk.geo)
  {
    var g := disk.geo;
    var track := p.head + p.cyl * g.heads;
    MulLess(p.cyl, g.cylinders, g.heads);
    MulLess(track, g.cylinders * g.heads, g.sectors);
    assert g.sectors * track == track * g.sectors >= 0;
  }

  /** The address formula keeps the order cylinder, head, sector. */
  lemma ChsOrder(disk: Disk, p: BlockPtr, q: BlockPtr)
    requires disk.kind.Eckd() && Accepted(disk, p) && Accepted(disk, q)
    ensures LexLess(p, q) <==> BlockIndex(disk.geo, p) < BlockIndex(disk.geo, q)
  {
    if LexLess(p, q) {
      ChsStrict(disk, p, q);
    } else if LexLess(q, p) {
      ChsStrict(disk, q, p);
    }
  }

  lemma ChsStrict(disk: Disk, p: BlockPtr, q: BlockPtr)
    requires disk.kind.Eckd() && Accepted(disk, p) && Accepted(disk, q) && LexLess(p, q)
    ensures BlockIndex(disk.geo, p) < BlockIndex(disk.geo, q)
  {
    var g := disk.geo;
    var tp, tq := p.head + p.cyl * g.heads, q.head + q.cyl * g.heads;
    if p.cyl < q.cyl {
      MulLess(p.cyl, q.cyl, g.heads);
    }
    if tp < tq {
      MulLess(tp, tq, g.sectors);
      assert g.sectors * tp == tp * g.sectors && g.sectors * tq == tq * g.sectors;
    }
  }

  lemma DivBound(n: nat, m: nat, d: nat)
    requires d > 0 && n < m * d
    ensures n / d < m
  {
    MulMono(m, n / d, d);
  }

  lemma SplitIndex(cylinders: nat, heads: nat, sectors: nat, index: nat) returns (cyl: nat, head: nat, sec: nat)
    requires index < cylinders * heads * sectors
    ensures cyl < cylinders && head < heads && 1 <= sec <= sectors
    ensures sec + sectors * (head + cyl * heads) - 1 == index
  {
    assert heads == 0 || sectors == 0 ==> cylinders * heads * sectors == 0;
    DivBound(index, cylinders * heads, sectors);
    DivBound(index / sectors, cylinders, heads);
    var track := index / sectors;
    cyl, head, sec := track / heads, track % heads, index % sectors + 1;
    assert head + cyl * heads == track;
    assert index % sectors + sectors * track == index;
  }

  /** Every block below the capacity is addressed by an accepted pointer: with
      `ChsInRange` and `ChsOrder` the formula is an order isomorphism. */
  lemma ChsOnto(disk: Disk, index: nat) returns (p: BlockPtr)
    requires disk.kind.Eckd() && index < Capacity(disk.geo)
    ensures Accepted(disk, p) && BlockIndex(disk.geo, p) == index
  {
    var cyl, head, sec := SplitIndex(disk.geo.cylinders, disk.geo.heads, disk.geo.sectors, index);
    p := Chs(cyl, head, sec, disk.blockSize, 0);
  }

  /** The partial results of the 32-bit evaluation of the address formula. */
  predicate NoIntOverflow(geo: Geometry, p: BlockPtr)
    requires p.Chs?
  {
    && p.cyl * geo.heads <= INT_MAX
    && p.head + p.cyl * geo.heads <= INT_MAX
    && geo.sectors * (p.head + p.cyl * geo.heads) <= INT_MAX
    && p.sec + geo.sectors * (p.head + p.cyl * geo.heads) <= INT_MAX
  }

  /** The int arithmetic is safe for every accepted pointer exactly when the
      number of blocks of the geometry fits an int. */
  lemma ChsOverflow(disk: Disk)
    requires disk.kind.Eckd()
    ensures (forall p :: Accepted(disk, p) ==> NoIntOverflow(disk.geo, p)) <==> Capacity(disk.geo) <= INT_MAX
  {
    var g := disk.geo;
    if Capacity(g) <= INT_MAX {
      forall p | Accepted(disk, p) ensures NoIntOverflow(g, p) {
        ChsNoOverflow(disk, p);
      }
    } else {
      var last := ChsOnto(disk, Capacity(g) - 1);
      assert last.sec + g.sectors * (last.head + last.cyl * g.heads) == Capacity(g);
      assert !NoIntOverflow(g, last);
    }
  }

  lemma ChsNoOverflow(disk: Disk, p: BlockPtr)
    requires disk.kind.Eckd() && Accepted(disk, p) && Capacity(disk.geo) <= INT_MAX
    ensures NoIntOverflow(disk.geo, p)
  {
    ChsInRange(disk, p);
    var cylinders := p.cyl * disk.geo.heads;
    var track := p.head + cylinders;
    assert cylinders >= 0;
    MulMono(1, disk.geo.sectors, track);
    assert disk.geo.sectors * track >= track;
  }

  /** A pointer that can be read and yet tests as null: it addresses the first
      track of an ECKD disk or the first block of an FBA disk, never a SCSI disk. */
  lemma AcceptedNull(disk: Disk, p: BlockPtr)
    requires ValidDisk(disk) && Accepted(disk, p)
    ensures IsNull(disk.kind, p) <==>
              || (disk.kind.Eckd() && BlockIndex(disk.geo, p) < disk.geo.sectors)
              || (disk.kind.Fba? && BlockIndex(disk.geo, p) == 0)
  {
    if disk.kind.Eckd() {
      var g := disk.geo;
      var track := p.head + p.cyl * g.heads;
      assert track >= 0 && (track == 0 <==> IsNull(disk.kind, p)) by {
        if p.cyl > 0 {
          MulLess(0, p.cyl, g.heads);
        }
      }
      if track > 0 {
        MulLess(0, track, g.sectors);
        assert g.sectors * track == track * g.sectors >= g.sectors;
      }
    }
  }

  /** The zeroed pointer is never accepted, so it can stand for "no component". */
  lemma ZeroRejected(disk: Disk)
    requires ValidDisk(disk)
    ensures !Accepted(disk, ZeroPtr(disk.kind)) && IsNull(disk.kind, ZeroPtr(disk.kind))
  {
  }

  function ZeroPtr(kind: DiskType): (p: BlockPtr)
    ensures Fits(kind, p)
  {
    Widths();
    if kind.Eckd() then Chs(0, 0, 0, 0, 0) else Linear(0, 0, 0)
  }

  // ---------- extents ----------

  function ExtentBytes(disk: Disk, p: BlockPtr): int {
    disk.blockSize * (p.blockct + 1)
  }

  function Offset(disk: Disk, p: BlockPtr): int {
    BlockIndex(disk.geo, p) * disk.blockSize
  }

  /** The extent starts and ends inside the device. */
  predicate OnDevice(disk: Disk, p: BlockPtr) {
    0 <= Offset(disk, p) && 0 <= ExtentBytes(disk, p) && Offset(disk, p) + ExtentBytes(disk, p) <= |disk.data|
  }

  predicate Readable(disk: Disk, p: BlockPtr) {
    Accepted(disk, p) && OnDevice(disk, p)
  }

  function Extent(disk: Disk, p: BlockPtr): seq<Byte>
    requires Readable(disk, p)
  {
    disk.data[Offset(disk, p)..Offset(disk, p) + ExtentBytes(disk, p)]
  }

  lemma AcceptedBounds(disk: Disk, p: BlockPtr)
    requires ValidDisk(disk) && Accepted(disk, p)
    ensures BlockIndex(disk.geo, p) >= 0 && Offset(disk, p) >= 0
    ensures ExtentBytes(disk, p) >= disk.blockSize
  {
    if disk.kind.Eckd() {
      ChsInRange(disk, p);
    }
    assert disk.blockSize * (p.blockct + 1) >= disk.blockSize;
  }

  /** The first block of an accepted pointer lies on the device: always for the
      linear layouts, because the block count is rounded down twice, and for
      ECKD when the geometry describes no more than the device holds. */
  lemma FirstBlockOnDevice(disk: Disk, p: BlockPtr)
    requires ValidDisk(disk) && Accepted(disk, p)
    requires disk.kind.Eckd() ==> Capacity(disk.geo) * disk.blockSize <= |disk.data|
    ensures Offset(disk, p) + disk.blockSize <= |disk.data|
  {
    var index := BlockIndex(disk.geo, p);
    AcceptedBounds(disk, p);
    if disk.kind.Eckd() {
      ChsInRange(disk, p);
      MulLess(index, Capacity(disk.geo), disk.blockSize);
    } else {
      var sectors, perBlock := |disk.data| / 512, disk.blockSize / 512;
      MulLess(index, disk.blocks, perBlock);
      assert disk.blocks * perBlock <= sectors;
      assert disk.blockSize == perBlock * 512;
      assert (index * perBlock + perBlock) * 512 == index * disk.blockSize + disk.blockSize by {
        assert index * perBlock * 512 == index * (perBlock * 512);
      }
      assert sectors * 512 <= |disk.data|;
    }
  }
}
