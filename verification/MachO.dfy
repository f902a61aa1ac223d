/** The load-command scan of the Mach-O runtime (macho_runtime.rs) and the layout
    it reads (build-macho-console-fixture.py): segments become memory regions, the
    last LC_MAIN gives the entry offset. */
module MachO {
  import opened Common

  const MAGIC: nat := 0xfeedfacf
  const CPU_X86_64: nat := 0x01000007
  const EXECUTE: nat := 2
  const LC_SEGMENT_64: nat := 0x19
  const LC_MAIN: nat := 0x80000028
  const HEADER: nat := 32
  const TWO32: nat := 0x1_0000_0000
  const TWO64: nat := 0x1_0000_0000_0000_0000

  /** The errors, and last the abort of the program when a region cannot be allocated. */
  datatype Error = NotMachO | NotX86Executable | CommandsOutOfBounds | CommandTruncated | CommandSizeInvalid
                 | SegmentOverflow | SegmentInvalid | NoMain | CapacityOverflow

  datatype Result<+T> = Ok(value: T) | Err(error: Error)

  datatype Perm = Perm(read: bool, write: bool, execute: bool)

  datatype Region = Region(base: nat, bytes: seq<byte>, perm: Perm)

  /** Little-endian reads. */
  function U32(data: seq<byte>, at: nat): (n: nat)
    requires at + 4 <= |data|
    ensures n < TWO32
  {
    data[at] as nat + 0x100 * data[at + 1] as nat + 0x1_0000 * data[at + 2] as nat + 0x100_0000 * data[at + 3] as nat
  }

  function U64(data: seq<byte>, at: nat): (n: nat)
    requires at + 8 <= |data|
    ensures n < TWO64
  {
    U32(data, at) + TWO32 * U32(data, at + 4)
  }

  function PermOf(prot: nat): Perm { Perm(prot % 2 == 1, prot / 2 % 2 == 1, prot / 4 % 2 == 1) }

  function Padded(bytes: seq<byte>, size: nat): (p: seq<byte>)
    requires |bytes| <= size
    ensures |p| == size && p[..|bytes|] == bytes && forall i :: |bytes| <= i < size ==> p[i] == 0
  {
    bytes + seq(size - |bytes|, _ => 0 as byte)
  }

  // ---------------------------------------------------------------- scan, as a function

  datatype Scanned = Scanned(regions: seq<Region>, entryoff: Option<nat>, offset: nat)

  function SegmentAt(data: seq<byte>, at: nat): (r: Result<Region>)
    requires at + 72 <= |data|
  {
    var vmaddr, vmsize := U64(data, at + 24), U64(data, at + 32);
    var fileoff, filesize := U64(data, at + 40), U64(data, at + 48);
    var fe := fileoff + filesize;
    if fe >= TWO64 then Err(SegmentOverflow)
    else if fe > |data| || vmsize < filesize then Err(SegmentInvalid)
    else if vmsize >= ALLOCATION_LIMIT then Err(CapacityOverflow)
    else Ok(Region(vmaddr, Padded(data[fileoff..fe], vmsize), PermOf(U32(data, at + 60))))
  }

  /** One command, read only below `end`. */
  function Command(data: seq<byte>, end: nat, s: Scanned): (r: Result<Scanned>)
    requires end <= |data|
    ensures r.Ok? ==> s.offset + 8 <= r.value.offset <= end
  {
    var at := s.offset;
    if at + 8 > end then Err(CommandTruncated)
    else
      var cmd, size := U32(data, at), U32(data, at + 4);
      if size < 8 || at + size > end then Err(CommandSizeInvalid)
      else if cmd == LC_SEGMENT_64 && size >= 72 then
        match SegmentAt(data, at)
        case Err(e) => Err(e)
        case Ok(region) => Ok(Scanned(s.regions + [region], s.entryoff, at + size))
      else if cmd == LC_MAIN && size >= 24 then Ok(Scanned(s.regions, Some(U64(data, at + 8)), at + size))
      else Ok(Scanned(s.regions, s.entryoff, at + size))
  }

  function CommandsTo(data: seq<byte>, end: nat, n: nat): (r: Result<Scanned>)
    requires end <= |data|
    ensures r.Ok? ==> HEADER + 8 * n <= r.value.offset && (n > 0 ==> r.value.offset <= end)
  {
    if n == 0 then Ok(Scanned([], None, HEADER))
    else
      match CommandsTo(data, end, n - 1)
      case Err(e) => Err(e)
      case Ok(s) => Command(data, end, s)
  }

  function Scan(data: seq<byte>): Result<(seq<Region>, nat)> {
    if |data| < HEADER || U32(data, 0) != MAGIC then Err(NotMachO)
    else if U32(data, 12) != EXECUTE || U32(data, 4) != CPU_X86_64 then Err(NotX86Executable)
    else
      var end := HEADER + U32(data, 20);
      if end > |data| then Err(CommandsOutOfBounds)
      else
        match CommandsTo(data, end, U32(data, 16))
        case Err(e) => Err(e)
        case Ok(s) => if s.entryoff.None? then Err(NoMain) else Ok((s.regions, s.entryoff.value))
  }

  method ScanImage(data: seq<byte>) returns (r: Result<(seq<Region>, nat)>)
    ensures r == Scan(data)
  {
    hide U32, U64, PermOf, SegmentAt;
    if |data| < HEADER || U32(data, 0) != MAGIC {
      return Err(NotMachO);
    }
    if U32(data, 12) != EXECUTE || U32(data, 4) != CPU_X86_64 {
      return Err(NotX86Executable);
    }
    var ncmds := U32(data, 16);
    var end := HEADER + U32(data, 20);
    if end > |data| {
      return Err(CommandsOutOfBounds);
    }
    var regions: seq<Region> := [];
    var entryoff: Option<nat> := None;
    var offset: nat := HEADER;
    for n := 0 to ncmds
      invariant CommandsTo(data, end, n) == Ok(Scanned(regions, entryoff, offset))
    {
      if offset + 8 > end {
        ErrorStays(data, end, n + 1, ncmds);
        return Err(CommandTruncated);
      }
      var cmd, size := U32(data, offset), U32(data, offset + 4);
      if size < 8 || offset + size > end {
        ErrorStays(data, end, n + 1, ncmds);
        return Err(CommandSizeInvalid);
      }
      if cmd == LC_SEGMENT_64 && size >= 72 {
        var segment := SegmentAt(data, offset);
        if segment.Err? {
          ErrorStays(data, end, n + 1, ncmds);
          return Err(segment.error);
        }
        regions := regions + [segment.value];
      } else if cmd == LC_MAIN && size >= 24 {
        entryoff := Some(U64(data, offset + 8));
      }
      offset := offset + size;
    }
    if entryoff.None? {
      return Err(NoMain);
    }
    r := Ok((regions, entryoff.value));
  }

  lemma {:induction false} ErrorStays(data: seq<byte>, end: nat, n: nat, m: nat)
    requires end <= |data| && n <= m && CommandsTo(data, end, n).Err?
    ensures CommandsTo(data, end, m) == CommandsTo(data, end, n)
    decreases m
  {
    hide Command;
    if n < m { ErrorStays(data, end, n, m - 1); }
  }

  // ---------------------------------------------------------------- what a successful scan has read

  predicate IsSegment(data: seq<byte>, at: nat)
    requires at + 8 <= |data|
  {
    U32(data, at) == LC_SEGMENT_64 && U32(data, at + 4) >= 72
  }

  predicate IsMain(data: seq<byte>, at: nat)
    requires at + 8 <= |data|
  {
    U32(data, at) == LC_MAIN && U32(data, at + 4) >= 24
  }

  /** The region a segment command at an offset describes. */
  ghost predicate Describes(data: seq<byte>, at: nat, region: Region)
    requires at + 72 <= |data|
  {
    var fileoff, filesize := U64(data, at + 40), U64(data, at + 48);
    && region.base == U64(data, at + 24)
    && |region.bytes| == U64(data, at + 32) && filesize <= |region.bytes| < ALLOCATION_LIMIT
    && fileoff + filesize <= |data| && fileoff + filesize < TWO64
    && region.bytes[..filesize] == data[fileoff..fileoff + filesize]
    && (forall i :: filesize <= i < |region.bytes| ==> region.bytes[i] == 0)
    && region.perm == PermOf(U32(data, at + 60))
  }

  /** The command at offset a ends at offset b, inside the command area. */
  predicate Follows(data: seq<byte>, end: nat, a: nat, b: nat) {
    a + 8 <= b <= end <= |data| && b == a + U32(data, a + 4)
  }

  /** Command offsets: each command starts where the one before it ends. */
  ghost predicate Chain(data: seq<byte>, end: nat, offs: seq<nat>) {
    && |offs| > 0 && offs[0] == HEADER
    && forall j, k :: 0 <= j < k < |offs| && k == j + 1 ==> Follows(data, end, offs[j], offs[k])
  }

  /** The segment commands among the first n. */
  ghost function Segments(data: seq<byte>, end: nat, offs: seq<nat>, n: nat): seq<nat>
    requires Chain(data, end, offs) && n < |offs|
  {
    if n == 0 then []
    else
      assert Follows(data, end, offs[n - 1], offs[n]);
      Segments(data, end, offs, n - 1) + (if IsSegment(data, offs[n - 1]) then [offs[n - 1]] else [])
  }

  /** The entry offset of the last LC_MAIN among the first n. */
  ghost function LastMain(data: seq<byte>, end: nat, offs: seq<nat>, n: nat): Option<nat>
    requires Chain(data, end, offs) && n < |offs|
  {
    if n == 0 then None
    else
      assert Follows(data, end, offs[n - 1], offs[n]);
      if IsMain(data, offs[n - 1]) then Some(U64(data, offs[n - 1] + 8)) else LastMain(data, end, offs, n - 1)
  }

  lemma ChainExtends(data: seq<byte>, end: nat, offs: seq<nat>, next: nat)
    requires Chain(data, end, offs) && Follows(data, end, offs[|offs| - 1], next)
    ensures Chain(data, end, offs + [next])
  {
    hide Follows;
  }

  lemma {:induction false} ChainPrefix(data: seq<byte>, end: nat, offs: seq<nat>, next: nat, n: nat)
    requires Chain(data, end, offs) && Chain(data, end, offs + [next]) && n < |offs|
    ensures Segments(data, end, offs + [next], n) == Segments(data, end, offs, n)
    ensures LastMain(data, end, offs + [next], n) == LastMain(data, end, offs, n)
  {
    if n > 0 {
      ChainPrefix(data, end, offs, next, n - 1);
      assert Follows(data, end, offs[n - 1], offs[n]);
      hide U32, U64, Chain;
      assert (offs + [next])[n - 1] == offs[n - 1] && (offs + [next])[n] == offs[n];
    }
  }

  /** What the scan state says about the commands it has passed. */
  ghost predicate Faithful(data: seq<byte>, end: nat, offs: seq<nat>, s: Scanned) {
    && Chain(data, end, offs)
    && s.offset == offs[|offs| - 1]
    && s.entryoff == LastMain(data, end, offs, |offs| - 1)
    && DescribesAll(data, Segments(data, end, offs, |offs| - 1), s.regions)
  }

  ghost predicate DescribesAll(data: seq<byte>, segs: seq<nat>, regions: seq<Region>) {
    && |regions| == |segs|
    && forall k :: 0 <= k < |segs| ==> segs[k] + 72 <= |data| && Describes(data, segs[k], regions[k])
  }

  lemma CommandIsFaithful(data: seq<byte>, end: nat, offs: seq<nat>, s: Scanned)
    requires end <= |data| && Faithful(data, end, offs, s) && Command(data, end, s).Ok?
    ensures Faithful(data, end, offs + [Command(data, end, s).value.offset], Command(data, end, s).value)
  {
    var t := Command(data, end, s).value;
    var n := |offs| - 1;
    assert Follows(data, end, s.offset, t.offset);
    if IsSegment(data, s.offset) { SegmentDescribes(data, s.offset); }
    hide U32, U64, PermOf, Describes, SegmentAt;
    ChainExtends(data, end, offs, t.offset);
    ChainPrefix(data, end, offs, t.offset, n);
    var more := offs + [t.offset];
    assert more[n] == s.offset;
    hide Chain, Follows;
    assert Segments(data, end, more, n + 1) ==
           Segments(data, end, offs, n) + (if IsSegment(data, s.offset) then [s.offset] else []);
    assert LastMain(data, end, more, n + 1) == t.entryoff;
  }

  /** A successful scan of n commands has followed a chain of n strictly increasing
      offsets inside the command area, and found one region per segment command,
      in order, and the entry offset of the last LC_MAIN. */
  lemma {:induction false} ScanFollowsChain(data: seq<byte>, end: nat, n: nat) returns (offs: seq<nat>)
    requires end <= |data| && CommandsTo(data, end, n).Ok?
    ensures |offs| == n + 1 && Faithful(data, end, offs, CommandsTo(data, end, n).value)
  {
    hide Command, Faithful;
    if n == 0 {
      offs := [HEADER];
      StartIsFaithful(data, end);
    } else {
      offs := ScanFollowsChain(data, end, n - 1);
      CommandIsFaithful(data, end, offs, CommandsTo(data, end, n - 1).value);
      offs := offs + [CommandsTo(data, end, n).value.offset];
    }
  }

  lemma StartIsFaithful(data: seq<byte>, end: nat)
    ensures Faithful(data, end, [HEADER], Scanned([], None, HEADER))
  {
  }

  lemma SegmentDescribes(data: seq<byte>, at: nat)
    requires at + 72 <= |data| && SegmentAt(data, at).Ok?
    ensures Describes(data, at, SegmentAt(data, at).value)
  {
    hide U32, U64, PermOf;
  }

  // ---------------------------------------------------------------- when the scan succeeds

  /** A segment command whose file slice lies in the image and in its region, which
      can be allocated. */
  predicate Readable(data: seq<byte>, at: nat)
    requires at + 72 <= |data|
  {
    var fileoff, filesize := U64(data, at + 40), U64(data, at + 48);
    fileoff + filesize <= |data| && fileoff + filesize < TWO64 && filesize <= U64(data, at + 32) < ALLOCATION_LIMIT
  }

  ghost predicate AllReadable(data: seq<byte>, segs: seq<nat>) {
    forall k :: 0 <= k < |segs| ==> segs[k] + 72 <= |data| && Readable(data, segs[k])
  }

  /** An executable's header, with its command area inside the image. */
  predicate GoodHeader(data: seq<byte>) {
    && |data| >= HEADER && U32(data, 0) == MAGIC && U32(data, 4) == CPU_X86_64 && U32(data, 12) == EXECUTE
    && HEADER + U32(data, 20) <= |data|
  }

  /** The offsets of the commands the header announces. */
  ghost predicate Announced(data: seq<byte>, offs: seq<nat>) {
    GoodHeader(data) && |offs| == U32(data, 16) + 1 && Chain(data, HEADER + U32(data, 20), offs)
  }

  /** A chain of announced commands with readable segments and an entry. */
  ghost predicate Runnable(data: seq<byte>, offs: seq<nat>) {
    && Announced(data, offs)
    && AllReadable(data, Segments(data, HEADER + U32(data, 20), offs, |offs| - 1))
    && LastMain(data, HEADER + U32(data, 20), offs, |offs| - 1).Some?
  }

  /** What a successful scan returns: the regions of all segment commands the header
      announces, in order, and the entry offset of the last LC_MAIN among them. */
  lemma ScanReads(data: seq<byte>) returns (offs: seq<nat>)
    requires Scan(data).Ok?
    ensures Runnable(data, offs)
    ensures var end, (regions, entry) := HEADER + U32(data, 20), Scan(data).value;
            && DescribesAll(data, Segments(data, end, offs, |offs| - 1), regions)
            && LastMain(data, end, offs, |offs| - 1) == Some(entry)
  {
    hide U32, U64, CommandsTo, Chain, Describes;
    var end := HEADER + U32(data, 20);
    offs := ScanFollowsChain(data, end, U32(data, 16));
    var segs, regions := Segments(data, end, offs, |offs| - 1), Scan(data).value.0;
    hide Segments, LastMain;
    forall k | 0 <= k < |segs|
      ensures segs[k] + 72 <= |data| && Readable(data, segs[k])
    {
      DescribedIsReadable(data, segs[k], regions[k]);
    }
  }

  lemma DescribedIsReadable(data: seq<byte>, at: nat, region: Region)
    requires at + 72 <= |data| && Describes(data, at, region)
    ensures Readable(data, at)
  {
    hide U32, U64;
  }

  /** One command of a chain is accepted. */
  lemma CommandIsAccepted(data: seq<byte>, end: nat, s: Scanned, next: nat)
    requires Follows(data, end, s.offset, next)
    requires IsSegment(data, s.offset) ==> Readable(data, s.offset)
    ensures var r := Command(data, end, s);
            && r.Ok? && r.value.offset == next
            && r.value.entryoff == if IsMain(data, s.offset) then Some(U64(data, s.offset + 8)) else s.entryoff
  {
    hide U32, U64, PermOf;
  }

  lemma {:induction false} ChainIsAccepted(data: seq<byte>, end: nat, offs: seq<nat>, n: nat)
    requires end <= |data| && Chain(data, end, offs) && n < |offs| && AllReadable(data, Segments(data, end, offs, n))
    ensures var r := CommandsTo(data, end, n);
            r.Ok? && r.value.offset == offs[n] && r.value.entryoff == LastMain(data, end, offs, n)
  {
    hide U32, U64, Command, Readable;
    if n > 0 {
      var segs, at := Segments(data, end, offs, n - 1), offs[n - 1];
      assert Follows(data, end, at, offs[n]);
      hide Chain;
      assert segs <= Segments(data, end, offs, n);
      if IsSegment(data, at) { assert Segments(data, end, offs, n)[|segs|] == at; }
      ChainIsAccepted(data, end, offs, n - 1);
      CommandIsAccepted(data, end, CommandsTo(data, end, n - 1).value, offs[n]);
    }
  }

  /** The scan succeeds exactly on a good header announcing a chain of commands that
      fills no more than the command area, with readable segments and an LC_MAIN. */
  lemma ScanSucceedsExactly(data: seq<byte>)
    ensures Scan(data).Ok? <==> exists offs :: Runnable(data, offs)
  {
    if Scan(data).Ok? {
      var offs := ScanReads(data);
    }
    if offs :| Runnable(data, offs) {
      hide U32, CommandsTo, Segments, Chain, AllReadable;
      ChainIsAccepted(data, HEADER + U32(data, 20), offs, |offs| - 1);
    }
  }

  /** Which answer an unusable header gets... */
  lemma HeaderErrors(data: seq<byte>)
    ensures |data| < 32 || U32(data, 0) != 0xfeedfacf ==> Scan(data) == Err(NotMachO)
    ensures |data| >= 32 && U32(data, 0) == 0xfeedfacf && (U32(data, 4) != 0x01000007 || U32(data, 12) != 2) ==>
              Scan(data) == Err(NotX86Executable)
    ensures |data| >= 32 && U32(data, 0) == 0xfeedfacf && U32(data, 4) == 0x01000007 && U32(data, 12) == 2 ==>
              32 + U32(data, 20) > |data| ==> Scan(data) == Err(CommandsOutOfBounds)
  {
    hide U32, CommandsTo;
  }

  /** ...which one a command... */
  lemma CommandErrors(data: seq<byte>, end: nat, s: Scanned)
    requires end <= |data|
    ensures s.offset + 8 > end ==> Command(data, end, s) == Err(CommandTruncated)
    ensures s.offset + 8 <= end && (U32(data, s.offset + 4) < 8 || s.offset + U32(data, s.offset + 4) > end) ==>
              Command(data, end, s) == Err(CommandSizeInvalid)
  {
    hide U32, SegmentAt;
  }

  /** ...which one a segment... */
  lemma SegmentErrors(data: seq<byte>, at: nat)
    requires at + 72 <= |data|
    ensures var vmsize, fileoff, filesize := U64(data, at + 32), U64(data, at + 40), U64(data, at + 48);
            var fileEnd, r := fileoff + filesize, SegmentAt(data, at);
            && (fileEnd >= TWO64 ==> r == Err(SegmentOverflow))
            && (fileEnd < TWO64 && (fileEnd > |data| || vmsize < filesize) ==> r == Err(SegmentInvalid))
            && (fileEnd < TWO64 && fileEnd <= |data| && filesize <= vmsize && vmsize >= ALLOCATION_LIMIT ==>
                  r == Err(CapacityOverflow))
  {
    hide U64, U32, PermOf;
  }

  /** ...and that the first command in error decides. */
  lemma FirstErrorDecides(data: seq<byte>, k: nat)
    requires GoodHeader(data) && k < U32(data, 16) && CommandsTo(data, HEADER + U32(data, 20), k).Ok?
    requires Command(data, HEADER + U32(data, 20), CommandsTo(data, HEADER + U32(data, 20), k).value).Err?
    ensures var r := Command(data, HEADER + U32(data, 20), CommandsTo(data, HEADER + U32(data, 20), k).value);
            Scan(data) == Err(r.error)
  {
    hide U32, Command;
    var end := HEADER + U32(data, 20);
    assert CommandsTo(data, end, k + 1).Err?;
    ErrorStays(data, end, k + 1, U32(data, 16));
    hide CommandsTo;
  }

  // ---------------------------------------------------------------- images

  function LE32(n: nat): (b: seq<byte>)
    ensures |b| == 4
  {
    [(n % 0x100) as byte, (n / 0x100 % 0x100) as byte, (n / 0x1_0000 % 0x100) as byte, (n / 0x100_0000 % 0x100) as byte]
  }

  function LE64(n: nat): (b: seq<byte>)
    ensures |b| == 8
  {
    LE32(n % TWO32) + LE32(n / TWO32)
  }

  datatype LoadCommand =
    | Segment(name: seq<byte>, vmaddr: nat, vmsize: nat, fileoff: nat, filesize: nat,
              maxprot: nat, initprot: nat, nsects: nat, flags: nat, sections: seq<byte>)
    | Main(entryoff: nat, stacksize: nat, extra: seq<byte>)
    | Other(cmd: nat, body: seq<byte>)

  function Id(c: LoadCommand): nat {
    match c
    case Segment(_, _, _, _, _, _, _, _, _, _) => LC_SEGMENT_64
    case Main(_, _, _) => LC_MAIN
    case Other(cmd, _) => cmd
  }

  /** The fields of a segment between its name and its protection. */
  function Placement(c: LoadCommand): (b: seq<byte>)
    requires c.Segment?
    ensures |b| == 32
  {
    LE64(c.vmaddr) + LE64(c.vmsize) + LE64(c.fileoff) + LE64(c.filesize)
  }

  function Protection(c: LoadCommand): (b: seq<byte>)
    requires c.Segment?
    ensures |b| == 16
  {
    LE32(c.maxprot) + LE32(c.initprot) + LE32(c.nsects) + LE32(c.flags)
  }

  function Payload(c: LoadCommand): seq<byte> {
    match c
    case Segment(name, _, _, _, _, _, _, _, _, sections) => name + Placement(c) + Protection(c) + sections
    case Main(entryoff, stacksize, extra) => LE64(entryoff) + (LE64(stacksize) + extra)
    case Other(_, body) => body
  }

  function Bytes(c: LoadCommand): (b: seq<byte>)
    ensures |b| == 8 + |Payload(c)|
  {
    LE32(Id(c)) + LE32(8 + |Payload(c)|) + Payload(c)
  }

  function AllBytes(cmds: seq<LoadCommand>): seq<byte> {
    if cmds == [] then [] else AllBytes(cmds[..|cmds| - 1]) + Bytes(cmds[|cmds| - 1])
  }

  function HeaderBytes(subtype: nat, ncmds: nat, size: nat, flags: nat): (b: seq<byte>)
    ensures |b| == HEADER
  {
    LE32(MAGIC) + LE32(CPU_X86_64) + LE32(subtype) + LE32(EXECUTE) + LE32(ncmds) + LE32(size) + LE32(flags) + LE32(0)
  }

  function Image(subtype: nat, flags: nat, cmds: seq<LoadCommand>, rest: seq<byte>): seq<byte> {
    HeaderBytes(subtype, |cmds|, |AllBytes(cmds)|, flags) + AllBytes(cmds) + rest
  }

  /** Fields in range, the file slice inside the image and inside the region. */
  ghost predicate WellFormed(c: LoadCommand, imageSize: nat) {
    && Id(c) < TWO32 && 8 + |Payload(c)| < TWO32
    && (c.Segment? ==> |c.name| == 16 && c.vmaddr < TWO64 && c.vmsize < TWO64 && c.initprot < TWO32
                       && c.fileoff + c.filesize <= imageSize && c.filesize <= c.vmsize)
    && (c.Main? ==> c.entryoff < TWO64)
    && (c.Other? ==> !(c.cmd == LC_SEGMENT_64 && |Payload(c)| >= 64) && !(c.cmd == LC_MAIN && |Payload(c)| >= 16))
  }

  /** The region of the command is not too large for an allocation. */
  predicate Allocatable(c: LoadCommand) { c.Segment? ==> c.vmsize < ALLOCATION_LIMIT }

  ghost predicate AllAllocatable(cmds: seq<LoadCommand>, n: nat)
    requires n <= |cmds|
  {
    forall k :: 0 <= k < n ==> Allocatable(cmds[k])
  }

  ghost predicate AllWellFormed(cmds: seq<LoadCommand>, imageSize: nat) {
    forall k :: 0 <= k < |cmds| ==> WellFormed(cmds[k], imageSize)
  }

  function RegionOf(image: seq<byte>, c: LoadCommand): Region
    requires c.Segment? && c.fileoff + c.filesize <= |image| && c.filesize <= c.vmsize
  {
    Region(c.vmaddr, Padded(image[c.fileoff..c.fileoff + c.filesize], c.vmsize), PermOf(c.initprot))
  }

  ghost function RegionsTo(image: seq<byte>, cmds: seq<LoadCommand>, n: nat): seq<Region>
    requires n <= |cmds| && AllWellFormed(cmds, |image|)
  {
    if n == 0 then []
    else RegionsTo(image, cmds, n - 1) + (if cmds[n - 1].Segment? then [RegionOf(image, cmds[n - 1])] else [])
  }

  function EntryTo(cmds: seq<LoadCommand>, n: nat): Option<nat>
    requires n <= |cmds|
  {
    if n == 0 then None else if cmds[n - 1].Main? then Some(cmds[n - 1].entryoff) else EntryTo(cmds, n - 1)
  }

  lemma LE32IsRead(a: seq<byte>, n: nat, z: seq<byte>)
    requires n < TWO32
    ensures U32(a + LE32(n) + z, |a|) == n
  {
    var b, l := a + LE32(n) + z, LE32(n);
    assert b[|a|] == l[0] && b[|a| + 1] == l[1] && b[|a| + 2] == l[2] && b[|a| + 3] == l[3];
    FourBytes(n);
  }

  lemma FourBytes(n: nat)
    requires n < TWO32
    ensures n % 0x100 + 0x100 * (n / 0x100 % 0x100) + 0x1_0000 * (n / 0x1_0000 % 0x100)
            + 0x100_0000 * (n / 0x100_0000 % 0x100) == n
  {
    var q := n / 0x100;
    assert n / 0x1_0000 == q / 0x100;
    assert n / 0x100_0000 == q / 0x100 / 0x100;
  }

  lemma LE64IsRead(a: seq<byte>, n: nat, z: seq<byte>)
    requires n < TWO64
    ensures U64(a + LE64(n) + z, |a|) == n
  {
    hide LE32, U32;
    var lo, hi := LE32(n % TWO32), LE32(n / TWO32);
    var b := a + LE64(n) + z;
    assert b == a + lo + (hi + z) && b == (a + lo) + hi + z;
    LE32IsRead(a, n % TWO32, hi + z);
    LE32IsRead(a + lo, n / TWO32, z);
    assert n == n % TWO32 + TWO32 * (n / TWO32);
  }

  /** Reads inside a window of the image are reads of the window. */
  lemma Window(data: seq<byte>, at: nat, b: seq<byte>, k: nat)
    requires at + |b| <= |data| && data[at..at + |b|] == b
    ensures k + 4 <= |b| ==> U32(data, at + k) == U32(b, k)
    ensures k + 8 <= |b| ==> U64(data, at + k) == U64(b, k)
  {
    if k + 4 <= |b| {
      assert data[at + k] == b[k] && data[at + (k + 1)] == b[k + 1];
      assert data[at + (k + 2)] == b[k + 2] && data[at + (k + 3)] == b[k + 3];
    }
    if k + 8 <= |b| {
      assert data[at + (k + 4)] == b[k + 4] && data[at + (k + 5)] == b[k + 5];
      assert data[at + (k + 6)] == b[k + 6] && data[at + (k + 7)] == b[k + 7];
    }
  }

  lemma IdAndSize(c: LoadCommand)
    requires Id(c) < TWO32 && 8 + |Payload(c)| < TWO32
    ensures U32(Bytes(c), 0) == Id(c) && U32(Bytes(c), 4) == 8 + |Payload(c)|
  {
    hide LE32, U32, Payload, Id;
    var i, s, p := LE32(Id(c)), LE32(8 + |Payload(c)|), Payload(c);
    assert Bytes(c) == [] + i + (s + p) && Bytes(c) == i + s + p;
    LE32IsRead([], Id(c), s + p);
    LE32IsRead(i, 8 + |Payload(c)|, p);
  }

  lemma SegmentFields(c: LoadCommand)
    requires c.Segment? && |c.name| == 16
    requires c.vmaddr < TWO64 && c.vmsize < TWO64 && c.fileoff < TWO64 && c.filesize < TWO64
    requires c.initprot < TWO32
    ensures var b := Bytes(c);
            && U64(b, 24) == c.vmaddr && U64(b, 32) == c.vmsize && U64(b, 40) == c.fileoff && U64(b, 48) == c.filesize
            && U32(b, 60) == c.initprot
  {
    hide LE32, LE64, U32, U64;
    var b, h := Bytes(c), LE32(Id(c)) + LE32(8 + |Payload(c)|) + c.name;
    var q := Protection(c) + c.sections;
    var v, w, x, y := LE64(c.vmaddr), LE64(c.vmsize), LE64(c.fileoff), LE64(c.filesize);
    var m, i, t := LE32(c.maxprot), LE32(c.initprot), LE32(c.nsects) + LE32(c.flags) + c.sections;
    assert |h| == 24 && b == h + Placement(c) + q;
    assert q == m + i + t;
    assert b == h + v + (w + x + y + q);
    assert b == (h + v) + w + (x + y + q);
    assert b == (h + v + w) + x + (y + q);
    assert b == (h + v + w + x) + y + q;
    assert b == (h + v + w + x + y + m) + i + t;
    LE64IsRead(h, c.vmaddr, w + x + y + q);
    LE64IsRead(h + v, c.vmsize, x + y + q);
    LE64IsRead(h + v + w, c.fileoff, y + q);
    LE64IsRead(h + v + w + x, c.filesize, q);
    LE32IsRead(h + v + w + x + y + m, c.initprot, t);
  }

  lemma MainField(c: LoadCommand)
    requires c.Main? && c.entryoff < TWO64
    ensures U64(Bytes(c), 8) == c.entryoff
  {
    hide LE32, LE64, U32, U64;
    var h, z := LE32(Id(c)) + LE32(8 + |Payload(c)|), LE64(c.stacksize) + c.extra;
    assert Bytes(c) == h + LE64(c.entryoff) + z;
    LE64IsRead(h, c.entryoff, z);
  }

  lemma FieldsInPlace(data: seq<byte>, at: nat, c: LoadCommand)
    requires WellFormed(c, |data|) && |data| < TWO64
    requires at + |Bytes(c)| <= |data| && data[at..at + |Bytes(c)|] == Bytes(c)
    ensures |Bytes(c)| == 8 + |Payload(c)|
    ensures U32(data, at) == Id(c) && U32(data, at + 4) == |Bytes(c)|
    ensures c.Segment? ==>
              && |Bytes(c)| >= 72
              && U64(data, at + 24) == c.vmaddr && U64(data, at + 32) == c.vmsize
              && U64(data, at + 40) == c.fileoff && U64(data, at + 48) == c.filesize
              && U32(data, at + 60) == c.initprot
    ensures c.Main? ==> |Bytes(c)| >= 24 && U64(data, at + 8) == c.entryoff
  {
    hide U32, U64, LE32, LE64;
    var b := Bytes(c);
    IdAndSize(c);
    Window(data, at, b, 0);
    Window(data, at, b, 4);
    if c.Segment? {
      SegmentFields(c);
      hide Bytes;
      Window(data, at, b, 24);
      Window(data, at, b, 32);
      Window(data, at, b, 40);
      Window(data, at, b, 48);
      Window(data, at, b, 60);
    } else if c.Main? {
      MainField(c);
      hide Bytes;
      Window(data, at, b, 8);
    }
  }

  /** One command found at its place in the image. */
  lemma CommandIsRead(data: seq<byte>, end: nat, s: Scanned, c: LoadCommand)
    requires |data| < TWO64 && end <= |data| && WellFormed(c, |data|)
    requires s.offset + |Bytes(c)| <= end && data[s.offset..s.offset + |Bytes(c)|] == Bytes(c)
    ensures Command(data, end, s) ==
            if !Allocatable(c) then Err(CapacityOverflow)
            else Ok(Scanned(s.regions + (if c.Segment? then [RegionOf(data, c)] else []),
                            if c.Main? then Some(c.entryoff) else s.entryoff, s.offset + |Bytes(c)|))
  {
    hide U32, U64, Bytes, PermOf, Padded, LE32, LE64, Payload, Command;
    FieldsInPlace(data, s.offset, c);
    if c.Segment? {
      hide WellFormed;
      PlainSegment(data, end, s);
      assert SegmentAt(data, s.offset) == if Allocatable(c) then Ok(RegionOf(data, c)) else Err(CapacityOverflow);
    } else if c.Main? {
      hide WellFormed;
      PlainMain(data, end, s);
      assert s.regions + [] == s.regions;
    } else {
      PlainOther(data, end, s);
      assert s.regions + [] == s.regions;
    }
  }

  lemma PlainSegment(data: seq<byte>, end: nat, s: Scanned)
    requires end <= |data| && s.offset + 72 <= end
    requires var size := U32(data, s.offset + 4);
             U32(data, s.offset) == LC_SEGMENT_64 && size >= 72 && s.offset + size <= end
    ensures Command(data, end, s) ==
            match SegmentAt(data, s.offset)
            case Err(e) => Err(e)
            case Ok(r) => Ok(Scanned(s.regions + [r], s.entryoff, s.offset + U32(data, s.offset + 4)))
  {
    hide U32, SegmentAt;
  }

  lemma PlainMain(data: seq<byte>, end: nat, s: Scanned)
    requires end <= |data| && s.offset + 24 <= end
    requires var size := U32(data, s.offset + 4);
             U32(data, s.offset) == LC_MAIN && size >= 24 && s.offset + size <= end
    ensures Command(data, end, s) ==
            Ok(Scanned(s.regions, Some(U64(data, s.offset + 8)), s.offset + U32(data, s.offset + 4)))
  {
    hide U32, U64;
  }

  lemma PlainOther(data: seq<byte>, end: nat, s: Scanned)
    requires end <= |data| && s.offset + 8 <= end
    requires var size := U32(data, s.offset + 4);
             && size >= 8 && s.offset + size <= end
             && !(U32(data, s.offset) == LC_SEGMENT_64 && size >= 72) && !(U32(data, s.offset) == LC_MAIN && size >= 24)
    ensures Command(data, end, s) == Ok(Scanned(s.regions, s.entryoff, s.offset + U32(data, s.offset + 4)))
  {
    hide U32, U64;
  }

  lemma NextBytes(cmds: seq<LoadCommand>, n: nat)
    requires n < |cmds|
    ensures AllBytes(cmds[..n + 1]) == AllBytes(cmds[..n]) + Bytes(cmds[n])
  {
    hide Bytes;
    assert cmds[..n + 1][..n] == cmds[..n];
  }

  lemma {:induction false} EarlierBytes(cmds: seq<LoadCommand>, n: nat, m: nat)
    requires n <= m <= |cmds|
    ensures AllBytes(cmds[..n]) <= AllBytes(cmds[..m])
    decreases m
  {
    hide AllBytes, Bytes;
    if n < m {
      EarlierBytes(cmds, n, m - 1);
      NextBytes(cmds, m - 1);
    }
  }

  lemma BytesInPlace(cmds: seq<LoadCommand>, n: nat)
    requires n < |cmds|
    ensures var o := |AllBytes(cmds[..n])|;
            && o + |Bytes(cmds[n])| == |AllBytes(cmds[..n + 1])| <= |AllBytes(cmds)|
            && AllBytes(cmds)[o..o + |Bytes(cmds[n])|] == Bytes(cmds[n])
  {
    hide AllBytes, Bytes;
    NextBytes(cmds, n);
    EarlierBytes(cmds, n + 1, |cmds|);
    assert cmds[..|cmds|] == cmds;
  }

  /** The image is a header, the commands and the rest of the file. */
  ghost predicate LaidOut(data: seq<byte>, cmds: seq<LoadCommand>) {
    && HEADER + |AllBytes(cmds)| <= |data| < TWO64
    && data[HEADER..HEADER + |AllBytes(cmds)|] == AllBytes(cmds)
    && AllWellFormed(cmds, |data|)
  }

  lemma CommandInPlace(data: seq<byte>, cmds: seq<LoadCommand>, n: nat)
    requires LaidOut(data, cmds) && n < |cmds|
    ensures var o, b := HEADER + |AllBytes(cmds[..n])|, Bytes(cmds[n]);
            && o + |b| == HEADER + |AllBytes(cmds[..n + 1])| <= HEADER + |AllBytes(cmds)| <= |data| < TWO64
            && data[o..o + |b|] == b && WellFormed(cmds[n], |data|)
  {
    hide AllBytes, Bytes, WellFormed;
    BytesInPlace(cmds, n);
    var o, m := |AllBytes(cmds[..n])|, |Bytes(cmds[n])|;
    SubSlice(data, HEADER, HEADER + |AllBytes(cmds)|, o, m);
  }

  lemma SubSlice<T>(d: seq<T>, a: nat, b: nat, o: nat, m: nat)
    requires a <= b <= |d| && o + m <= b - a
    ensures a + o + m <= |d| && d[a + o..a + o + m] == d[a..b][o..o + m]
  {
    var w := d[a..b];
    var x, y := d[a + o..a + o + m], w[o..o + m];
    forall i | 0 <= i < |x|
      ensures x[i] == y[i]
    {
      assert w[o + i] == d[a + o + i];
    }
  }

  /** The scan state the first n commands should lead to. */
  ghost function StateTo(data: seq<byte>, cmds: seq<LoadCommand>, n: nat): Scanned
    requires n <= |cmds| && AllWellFormed(cmds, |data|)
  {
    Scanned(RegionsTo(data, cmds, n), EntryTo(cmds, n), HEADER + |AllBytes(cmds[..n])|)
  }

  lemma StateGrows(data: seq<byte>, cmds: seq<LoadCommand>, n: nat)
    requires 0 < n <= |cmds| && AllWellFormed(cmds, |data|)
    ensures var c, s := cmds[n - 1], StateTo(data, cmds, n - 1);
            StateTo(data, cmds, n) ==
            Scanned(s.regions + (if c.Segment? then [RegionOf(data, c)] else []),
                    if c.Main? then Some(c.entryoff) else s.entryoff, s.offset + |Bytes(c)|)
  {
    hide RegionOf, WellFormed, Bytes;
    NextBytes(cmds, n - 1);
    hide AllBytes;
  }

  lemma StartState(data: seq<byte>, cmds: seq<LoadCommand>)
    requires AllWellFormed(cmds, |data|)
    ensures StateTo(data, cmds, 0) == Scanned([], None, HEADER)
  {
  }

  lemma NextState(data: seq<byte>, cmds: seq<LoadCommand>, n: nat)
    requires LaidOut(data, cmds) && 0 < n <= |cmds|
    ensures Command(data, HEADER + |AllBytes(cmds)|, StateTo(data, cmds, n - 1)) ==
            if Allocatable(cmds[n - 1]) then Ok(StateTo(data, cmds, n)) else Err(CapacityOverflow)
  {
    hide Command, WellFormed, RegionOf, Bytes, AllBytes, StateTo, AllWellFormed, Payload, Id;
    StateOffset(data, cmds, n - 1);
    CommandInPlace(data, cmds, n - 1);
    StateGrows(data, cmds, n);
    var c, s := cmds[n - 1], StateTo(data, cmds, n - 1);
    hide LaidOut;
    CommandIsRead(data, HEADER + |AllBytes(cmds)|, s, c);
  }

  lemma StateOffset(data: seq<byte>, cmds: seq<LoadCommand>, n: nat)
    requires n <= |cmds| && AllWellFormed(cmds, |data|)
    ensures StateTo(data, cmds, n).offset == HEADER + |AllBytes(cmds[..n])|
  {
  }

  lemma {:induction false} CommandsAreRead(data: seq<byte>, cmds: seq<LoadCommand>, n: nat)
    requires LaidOut(data, cmds) && n <= |cmds|
    ensures CommandsTo(data, HEADER + |AllBytes(cmds)|, n) ==
            if AllAllocatable(cmds, n) then Ok(StateTo(data, cmds, n)) else Err(CapacityOverflow)
  {
    hide Command, AllBytes, StateTo, AllWellFormed, Allocatable;
    if n == 0 {
      StartState(data, cmds);
    } else {
      CommandsAreRead(data, cmds, n - 1);
      NextState(data, cmds, n);
    }
  }

  lemma HeaderIsRead(subtype: nat, ncmds: nat, size: nat, flags: nat, data: seq<byte>)
    requires ncmds < TWO32 && size < TWO32 && |data| >= HEADER
    requires data[..HEADER] == HeaderBytes(subtype, ncmds, size, flags)
    ensures U32(data, 0) == MAGIC && U32(data, 4) == CPU_X86_64 && U32(data, 12) == EXECUTE
    ensures U32(data, 16) == ncmds && U32(data, 20) == size
  {
    hide LE32, U32;
    var h := HeaderBytes(subtype, ncmds, size, flags);
    var a, b, c, d := LE32(MAGIC), LE32(CPU_X86_64), LE32(subtype), LE32(EXECUTE);
    var e, f, g, z := LE32(ncmds), LE32(size), LE32(flags), LE32(0);
    assert h == [] + a + (b + c + d + e + f + g + z);
    assert h == a + b + (c + d + e + f + g + z);
    assert h == (a + b + c) + d + (e + f + g + z);
    assert h == (a + b + c + d) + e + (f + g + z);
    assert h == (a + b + c + d + e) + f + (g + z);
    LE32IsRead([], MAGIC, b + c + d + e + f + g + z);
    LE32IsRead(a, CPU_X86_64, c + d + e + f + g + z);
    LE32IsRead(a + b + c, EXECUTE, e + f + g + z);
    LE32IsRead(a + b + c + d, ncmds, f + g + z);
    LE32IsRead(a + b + c + d + e, size, g + z);
    assert data[0..0 + |h|] == h;
    Window(data, 0, h, 0);
    Window(data, 0, h, 4);
    Window(data, 0, h, 12);
    Window(data, 0, h, 16);
    Window(data, 0, h, 20);
  }

  /** Scanning the image of any list of well-formed commands gives back their
      segments in order, each filled from the file and zeroed behind, and the
      entry offset of the last LC_MAIN; a region too large to allocate aborts. */
  lemma ScanOfImage(subtype: nat, flags: nat, cmds: seq<LoadCommand>, rest: seq<byte>)
    requires var image := Image(subtype, flags, cmds, rest);
             && |image| < TWO64 && |cmds| < TWO32 && |AllBytes(cmds)| < TWO32
             && AllWellFormed(cmds, |image|)
    ensures var image, entry := Image(subtype, flags, cmds, rest), EntryTo(cmds, |cmds|);
            Scan(image) == if !AllAllocatable(cmds, |cmds|) then Err(CapacityOverflow)
                           else if entry.None? then Err(NoMain)
                           else Ok((RegionsTo(image, cmds, |cmds|), entry.value))
  {
    hide U32, WellFormed, RegionsTo, EntryTo, AllBytes, CommandsTo, AllAllocatable;
    var image := Image(subtype, flags, cmds, rest);
    var head := HeaderBytes(subtype, |cmds|, |AllBytes(cmds)|, flags);
    hide HeaderBytes;
    assert image[..HEADER] == head;
    assert image[HEADER..HEADER + |AllBytes(cmds)|] == AllBytes(cmds);
    HeaderIsRead(subtype, |cmds|, |AllBytes(cmds)|, flags, image);
    CommandsAreRead(image, cmds, |cmds|);
    assert cmds[..|cmds|] == cmds;
  }

  // ---------------------------------------------------------------- permissions and layout, in numbers

  function Bit(b: bool): nat { if b then 1 else 0 }

  /** The three low bits are read, write and execute, whatever stands above them. */
  lemma PermBits(r: bool, w: bool, x: bool, above: nat)
    ensures PermOf(Bit(r) + 2 * Bit(w) + 4 * Bit(x) + 8 * above) == Perm(r, w, x)
  {
    var high := Bit(x) + 2 * above;
    var middle := Bit(w) + 2 * high;
    HalfOf(Bit(r), middle);
    HalfOf(Bit(w), high);
    HalfOf(Bit(x), above);
    Quarter(Bit(r) + 2 * middle);
  }

  lemma HalfOf(bit: nat, n: nat)
    requires bit < 2
    ensures (bit + 2 * n) / 2 == n && (bit + 2 * n) % 2 == bit
  {
  }

  lemma Quarter(n: nat)
    ensures n / 4 == n / 2 / 2
  {
  }

  lemma {:induction false} RegionsCount(image: seq<byte>, cmds: seq<LoadCommand>, k: nat, n: nat)
    requires k < n <= |cmds| && AllWellFormed(cmds, |image|) && cmds[k].Segment?
    ensures var i := |RegionsTo(image, cmds, k)|;
            i < |RegionsTo(image, cmds, n)| && RegionsTo(image, cmds, n)[i] == RegionOf(image, cmds[k])
    decreases n
  {
    hide RegionOf, WellFormed;
    if k < n - 1 { RegionsCount(image, cmds, k, n - 1); }
  }

  lemma {:induction false} RegionsAreSegments(image: seq<byte>, cmds: seq<LoadCommand>, n: nat)
    requires n <= |cmds| && AllWellFormed(cmds, |image|)
    ensures |RegionsTo(image, cmds, n)| == |set k: nat | k < n && cmds[k].Segment?|
  {
    hide RegionOf, WellFormed;
    if n > 0 {
      RegionsAreSegments(image, cmds, n - 1);
      var before := set k: nat | k < n - 1 && cmds[k].Segment?;
      assert (set k: nat | k < n && cmds[k].Segment?)
          == if cmds[n - 1].Segment? then before + {n - 1} else before;
    }
  }

  /** An image of well-formed commands with an entry and no region too large. */
  ghost predicate Loads(subtype: nat, flags: nat, cmds: seq<LoadCommand>, rest: seq<byte>) {
    && |Image(subtype, flags, cmds, rest)| < TWO64 && |cmds| < TWO32 && |AllBytes(cmds)| < TWO32
    && AllWellFormed(cmds, |Image(subtype, flags, cmds, rest)|)
    && AllAllocatable(cmds, |cmds|) && EntryTo(cmds, |cmds|).Some?
  }

  /** Address and size of a segment, its file slice followed by zeros, and permissions. */
  ghost predicate Holds(region: Region, image: seq<byte>, c: LoadCommand, perm: Perm) {
    && c.Segment? && region.base == c.vmaddr && |region.bytes| == c.vmsize
    && c.fileoff + c.filesize <= |image| && c.filesize <= c.vmsize
    && region.bytes[..c.filesize] == image[c.fileoff..c.fileoff + c.filesize]
    && (forall j :: c.filesize <= j < c.vmsize ==> region.bytes[j] == 0)
    && region.perm == perm
  }

  lemma RegionHolds(image: seq<byte>, c: LoadCommand, r: bool, w: bool, x: bool, above: nat)
    requires c.Segment? && WellFormed(c, |image|)
    requires c.initprot == (if r then 1 else 0) + (if w then 2 else 0) + (if x then 4 else 0) + 8 * above
    ensures Holds(RegionOf(image, c), image, c, Perm(r, w, x))
  {
    PermBits(r, w, x, above);
    hide PermOf, Payload;
  }

  /** Every segment of an image that loads comes back, after the regions of the
      earlier segments, with the permissions its protection grants bit by bit. */
  lemma SegmentIsLoaded(subtype: nat, flags: nat, cmds: seq<LoadCommand>, rest: seq<byte>, k: nat,
                        r: bool, w: bool, x: bool, above: nat)
    requires Loads(subtype, flags, cmds, rest) && k < |cmds| && cmds[k].Segment?
    requires cmds[k].initprot == (if r then 1 else 0) + (if w then 2 else 0) + (if x then 4 else 0) + 8 * above
    ensures var image, i := Image(subtype, flags, cmds, rest), |set j: nat | j < k && cmds[j].Segment?|;
            && Scan(image).Ok? && i < |Scan(image).value.0|
            && Holds(Scan(image).value.0[i], image, cmds[k], Perm(r, w, x))
  {
    hide Image, Scan, AllBytes, PermOf, AllAllocatable, Holds, RegionsTo, WellFormed;
    var image := Image(subtype, flags, cmds, rest);
    ScanOfImage(subtype, flags, cmds, rest);
    RegionHolds(image, cmds[k], r, w, x, above);
    RegionsCount(image, cmds, k, |cmds|);
    RegionsAreSegments(image, cmds, k);
  }

  lemma {:induction false} LastEntry(cmds: seq<LoadCommand>, n: nat, k: nat)
    requires k < n <= |cmds| && cmds[k].Main? && forall j :: k < j < n ==> !cmds[j].Main?
    ensures EntryTo(cmds, n) == Some(cmds[k].entryoff)
    decreases n
  {
    if k < n - 1 { LastEntry(cmds, n - 1, k); }
  }

  /** The first bytes of an image, as the format fixes them... */
  lemma HeaderFormat(subtype: nat, ncmds: nat, size: nat, flags: nat)
    ensures var h := HeaderBytes(subtype, ncmds, size, flags);
            h[..8] == [0xcf, 0xfa, 0xed, 0xfe, 7, 0, 0, 1] && h[12..16] == [2, 0, 0, 0]
  {
    NumberFormat();
    hide LE32;
    var h := HeaderBytes(subtype, ncmds, size, flags);
    assert h[..8] == LE32(MAGIC) + LE32(CPU_X86_64);
    assert h[12..16] == LE32(EXECUTE);
  }

  lemma NumberFormat()
    ensures LE32(MAGIC) == [0xcf, 0xfa, 0xed, 0xfe] && LE32(CPU_X86_64) == [7, 0, 0, 1] && LE32(EXECUTE) == [2, 0, 0, 0]
    ensures LE32(LC_SEGMENT_64) == [0x19, 0, 0, 0] && LE32(LC_MAIN) == [0x28, 0, 0, 0x80]
  {
  }

  /** ...and of its commands. */
  lemma CommandFormat(c: LoadCommand)
    ensures c.Segment? ==> Bytes(c)[..4] == [0x19, 0, 0, 0]
    ensures c.Main? ==> Bytes(c)[..4] == [0x28, 0, 0, 0x80]
  {
    NumberFormat();
    hide LE32, Payload;
    assert Bytes(c)[..4] == LE32(Id(c));
  }

  /** A segment without file content and with a region of 2^63 bytes. */
  function HugeSegment(name: seq<byte>): LoadCommand {
    Segment(name, 0, ALLOCATION_LIMIT, 0, 0, 7, 7, 0, 0, [])
  }

  /** A file of 128 bytes that passes every test of the scan and still aborts it. */
  lemma HugeSegmentAborts(name: seq<byte>)
    requires |name| == 16
    ensures var image := Image(0, 0, [HugeSegment(name), Main(1, 0, [])], []);
            |image| == 128 && Scan(image) == Err(CapacityOverflow)
  {
    hide Bytes, Scan, HeaderBytes, WellFormed, AllBytes, HugeSegment;
    var cmds := [HugeSegment(name), Main(1, 0, [])];
    HugeCommands(name);
    assert cmds[..2] == cmds && cmds[..0] == [];
    assert |AllBytes([])| == 0 by { NoBytes(); }
    NextBytes(cmds, 0);
    NextBytes(cmds, 1);
    ScanOfImage(0, 0, cmds, []);
    assert !Allocatable(cmds[0]);
  }

  lemma HugeCommands(name: seq<byte>)
    requires |name| == 16
    ensures var a, b := HugeSegment(name), Main(1, 0, []);
            && |Bytes(a)| == 72 && |Bytes(b)| == 24 && !Allocatable(a)
            && WellFormed(a, 128) && WellFormed(b, 128)
  {
    hide LE32, LE64;
  }

  lemma NoBytes()
    ensures AllBytes([]) == []
  {
  }
}
