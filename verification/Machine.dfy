/** The virtual resources of the Windows executor (executor.rs) as a state machine:
    handles, shared pipes, pages and the break heap, with the history of each pipe
    and of the page allocator. Proved here: what every run of operations keeps. */
module Machine {
  import opened Common

  /** A pipe is named by the handle its reading end was created under. */
  datatype Resource = File(path: string) | Reader(pipe: int) | Writer(peer: int, closed: bool)

  /** `accepted` and `delivered` record every byte ever written to and read from the pipe. */
  datatype Pipe = Pipe(buffer: seq<byte>, closed: bool, accepted: seq<byte>, delivered: seq<byte>)

  datatype Page = Page(addr: nat, size: nat, flags: nat, data: seq<byte>)

  datatype Range = Range(addr: nat, size: nat)

  /** `handed` records every range the page allocator ever gave out. */
  datatype State = State(
    handles: map<int, Resource>, nextFd: int, pipes: map<int, Pipe>,
    pages: map<nat, Page>, nextAddr: nat, handed: seq<Range>,
    heapBase: nat, heapBrk: nat, heap: seq<byte>)

  /** Arguments are None when their text does not parse. For an ordinary file `io` is
      what the operating system answers: a byte count, or None for an error. */
  datatype Op =
    | CreateFile(path: string, granted: bool)
    | ReadFile(fd: Option<int>, count: Option<nat>, io: Option<nat>)
    | WriteFile(fd: Option<int>, data: seq<byte>, io: Option<nat>)
    | CloseHandle(fd: Option<int>)
    | CreatePipe
    | DuplicateHandle(fd: Option<int>)
    | VirtualAlloc(size: Option<nat>)
    | VirtualFree(addr: Option<nat>)
    | Brk(delta: Option<int>)

  /** A value, a failure with its error code, or an internal error. */
  datatype Outcome = Ok(value: int) | Fail(code: nat) | Error

  const PAGE: nat := 4096
  const HEAP_BASE: nat := 0x6000_0000_0000
  const MMAP_BASE: nat := 0x7f00_0000_0000
  const READABLE: nat := 4

  function Initial(): State { State(map[], 0, map[], map[], MMAP_BASE, [], HEAP_BASE, HEAP_BASE, []) }

  // ---------------------------------------------------------------- operations

  function Min(a: nat, b: nat): nat { if a < b then a else b }

  function Zeroed(n: nat): (z: seq<byte>)
    ensures |z| == n && forall i :: 0 <= i < n ==> z[i] == 0
  {
    seq(n, _ => 0 as byte)
  }

  function Read(s: State, fd: int, count: nat, io: Option<nat>): (State, Outcome) {
    if fd !in s.handles then (s, Error)
    else
      match s.handles[fd]
      case File(_) => (s, if io.Some? then Ok(io.value) else Error)
      case Writer(_, _) => (s, Fail(9))
      case Reader(p) =>
        if p !in s.pipes then (s, Error)
        else if s.pipes[p].closed then (s, Fail(9))
        else
          var pipe := s.pipes[p];
          var n := Min(|pipe.buffer|, count);
          var drained := pipe.(buffer := pipe.buffer[n..], delivered := pipe.delivered + pipe.buffer[..n]);
          (s.(pipes := s.pipes[p := drained]), Ok(n))
  }

  function Write(s: State, fd: int, data: seq<byte>, io: Option<nat>): (State, Outcome) {
    if fd !in s.handles then (s, Error)
    else
      match s.handles[fd]
      case File(_) => (s, if io.Some? then Ok(io.value) else Error)
      case Reader(_) => (s, Fail(9))
      case Writer(peer, closed) =>
        if closed then (s, Fail(9))
        else if peer !in s.handles then (s, Error)
        else if !s.handles[peer].Reader? || s.handles[peer].pipe !in s.pipes then (s, Fail(9))
        else
          var p := s.handles[peer].pipe;
          var pipe := s.pipes[p];
          if pipe.closed then (s, Fail(9))
          else
            var filled := pipe.(buffer := pipe.buffer + data, accepted := pipe.accepted + data);
            (s.(pipes := s.pipes[p := filled]), Ok(|data|))
  }

  /** Closing a writing end marks the pipe closed, if the original reading handle is still open. */
  function Close(s: State, fd: int): (State, Outcome) {
    if fd !in s.handles then (s, Fail(9))
    else
      var left := s.(handles := s.handles - {fd});
      match s.handles[fd]
      case Writer(peer, _) =>
        if peer in left.handles && left.handles[peer].Reader? && left.handles[peer].pipe in s.pipes then
          var p := left.handles[peer].pipe;
          (left.(pipes := s.pipes[p := s.pipes[p].(closed := true)]), Ok(0))
        else (left, Ok(0))
      case File(_) => (left, Ok(0))
      case Reader(_) => (left, Ok(0))
  }

  function MakePipe(s: State): (State, Outcome) {
    var r, w := s.nextFd, s.nextFd + 1;
    (s.(nextFd := s.nextFd + 2,
        handles := s.handles[r := Reader(r)][w := Writer(r, false)],
        pipes := s.pipes[r := Pipe([], false, [], [])]), Ok(r))
  }

  function Duplicate(s: State, fd: int): (State, Outcome) {
    if fd !in s.handles then (s, Error)
    else (s.(nextFd := s.nextFd + 1, handles := s.handles[s.nextFd := s.handles[fd]]), Ok(s.nextFd))
  }

  function RoundUp(size: nat): nat { (size + PAGE - 1) / PAGE * PAGE }

  function Map(s: State, size: nat): (State, Outcome) {
    if size == 0 then (s, Fail(22))
    else
      var a, n := s.nextAddr, RoundUp(size);
      var page := Page(a, n, READABLE, Zeroed(n));
      (s.(nextAddr := a + n, pages := s.pages[a := page], handed := s.handed + [Range(a, n)]), Ok(a))
  }

  function Unmap(s: State, addr: nat): (State, Outcome) {
    if addr in s.pages then (s.(pages := s.pages - {addr}), Ok(0)) else (s, Fail(14))
  }

  function HeapAlloc(s: State, n: nat): (State, Outcome) {
    (s.(heapBrk := s.heapBrk + n, heap := s.heap + Zeroed(n)), Ok(s.heapBrk))
  }

  function HeapFree(s: State, addr: nat): (State, Outcome) {
    if s.heapBase <= addr <= s.heapBrk then
      var shrink := s.heapBrk - addr;
      (s.(heapBrk := addr, heap := if |s.heap| >= shrink then s.heap[..|s.heap| - shrink] else s.heap), Ok(0))
    else (s, Fail(14))
  }

  /** A negative amount asks for the break that many bytes lower, or for address 0. */
  function ChangeBreak(s: State, delta: int): (State, Outcome) {
    if delta >= 0 then HeapAlloc(s, delta)
    else HeapFree(s, if s.heapBrk >= -delta then s.heapBrk + delta else 0)
  }

  function Step(s: State, op: Op): (State, Outcome) {
    match op
    case CreateFile(path, granted) =>
      if granted then (s.(nextFd := s.nextFd + 1, handles := s.handles[s.nextFd := File(path)]), Ok(s.nextFd))
      else (s, Error)
    case ReadFile(fd, count, io) => if fd.None? || count.None? then (s, Error) else Read(s, fd.value, count.value, io)
    case WriteFile(fd, data, io) => if fd.None? then (s, Error) else Write(s, fd.value, data, io)
    case CloseHandle(fd) => if fd.None? then (s, Error) else Close(s, fd.value)
    case CreatePipe => MakePipe(s)
    case DuplicateHandle(fd) => if fd.None? then (s, Error) else Duplicate(s, fd.value)
    case VirtualAlloc(size) => if size.None? then (s, Error) else Map(s, size.value)
    case VirtualFree(addr) => if addr.None? then (s, Error) else Unmap(s, addr.value)
    case Brk(delta) => if delta.None? then (s, Error) else ChangeBreak(s, delta.value)
  }

  function Run(s: State, ops: seq<Op>): State {
    if ops == [] then s else Step(Run(s, ops[..|ops| - 1]), ops[|ops| - 1]).0
  }

  // ---------------------------------------------------------------- what every run keeps

  /** Handles below the counter; a handle a pipe is named by is that pipe's reading
      end or gone for good; writers are open and know an existing pipe. */
  ghost predicate HandlesInv(s: State) {
    && s.nextFd >= 0
    && (forall fd :: fd in s.handles ==> 0 <= fd < s.nextFd)
    && (forall p :: p in s.pipes ==> 0 <= p < s.nextFd)
    && (forall fd :: fd in s.handles && s.handles[fd].Reader? ==> s.handles[fd].pipe in s.pipes)
    && (forall fd :: fd in s.handles && s.handles[fd].Writer? ==>
          s.handles[fd].peer in s.pipes && !s.handles[fd].closed)
    && (forall p :: p in s.pipes && p in s.handles ==> s.handles[p] == Reader(p))
  }

  /** Bytes written are bytes read followed by bytes buffered. */
  ghost predicate PipesInv(s: State) {
    forall p :: p in s.pipes ==> s.pipes[p].accepted == s.pipes[p].delivered + s.pipes[p].buffer
  }

  ghost predicate GoodPage(a: nat, page: Page, limit: nat) {
    && page.addr == a && page.size > 0 && |page.data| == page.size
    && a % PAGE == 0 && page.size % PAGE == 0 && a + page.size <= limit
  }

  /** Ranges handed out lie end to end below the cursor; live pages are among them. */
  ghost predicate PagesInv(s: State) {
    && s.nextAddr % PAGE == 0
    && (forall a :: a in s.pages ==> GoodPage(a, s.pages[a], s.nextAddr) && Range(a, s.pages[a].size) in s.handed)
    && (forall i :: 0 <= i < |s.handed| ==> s.handed[i].size > 0 && s.handed[i].addr + s.handed[i].size <= s.nextAddr)
    && (forall i, j :: 0 <= i < j < |s.handed| ==> s.handed[i].addr + s.handed[i].size <= s.handed[j].addr)
  }

  ghost predicate HeapInv(s: State) { s.heapBase <= s.heapBrk && |s.heap| == s.heapBrk - s.heapBase }

  ghost predicate Inv(s: State) { HandlesInv(s) && PipesInv(s) && PagesInv(s) && HeapInv(s) }

  /** The round-up is the least multiple of the page size covering the request. */
  lemma RoundUpIsLeast(size: nat)
    ensures size <= RoundUp(size) && RoundUp(size) % 4096 == 0
    ensures forall k: nat :: k * 4096 >= size ==> k * 4096 >= RoundUp(size)
  {
  }

  lemma PipeStepKeepsHandles(s: State, op: Op)
    requires HandlesInv(s) && (op.ReadFile? || op.WriteFile?)
    ensures HandlesInv(Step(s, op).0)
  {
  }

  lemma CloseKeepsHandles(s: State, fd: int)
    requires HandlesInv(s)
    ensures HandlesInv(Close(s, fd).0)
  {
  }

  lemma NewHandleKeepsHandles(s: State, op: Op)
    requires HandlesInv(s) && (op.CreateFile? || op.CreatePipe? || op.DuplicateHandle?)
    ensures HandlesInv(Step(s, op).0)
  {
  }

  lemma StepKeepsHandles(s: State, op: Op)
    requires HandlesInv(s)
    ensures HandlesInv(Step(s, op).0)
  {
    if op.ReadFile? || op.WriteFile? {
      PipeStepKeepsHandles(s, op);
    } else if op.CreateFile? || op.CreatePipe? || op.DuplicateHandle? {
      NewHandleKeepsHandles(s, op);
    } else if op.CloseHandle? && op.fd.Some? {
      CloseKeepsHandles(s, op.fd.value);
    }
    hide Read, Write, Close, MakePipe, Duplicate;
  }

  lemma StepKeepsPipes(s: State, op: Op)
    requires HandlesInv(s) && PipesInv(s)
    ensures PipesInv(Step(s, op).0)
  {
  }

  lemma MapKeepsPages(s: State, size: nat)
    requires PagesInv(s) && size > 0
    ensures PagesInv(Map(s, size).0)
  {
    RoundUpIsLeast(size);
    var n, t := RoundUp(size), Map(s, size).0;
    assert n > 0 && (s.nextAddr + n) % PAGE == 0;
    hide RoundUp;
    var r := Range(s.nextAddr, n);
    assert t.handed[|s.handed|] == r;
    forall a | a in t.pages
      ensures GoodPage(a, t.pages[a], t.nextAddr) && Range(a, t.pages[a].size) in t.handed
    {
      if a != s.nextAddr { assert Range(a, s.pages[a].size) in s.handed; }
    }
  }

  lemma OthersOnlyFreePages(s: State, op: Op)
    requires !(op.VirtualAlloc? && op.size.Some? && op.size.value > 0)
    ensures var t := Step(s, op).0;
            && t.handed == s.handed && t.nextAddr == s.nextAddr
            && forall a :: a in t.pages ==> a in s.pages && t.pages[a] == s.pages[a]
  {
  }

  lemma StepKeepsPages(s: State, op: Op)
    requires PagesInv(s)
    ensures PagesInv(Step(s, op).0)
  {
    if op.VirtualAlloc? && op.size.Some? && op.size.value > 0 {
      MapKeepsPages(s, op.size.value);
      hide PagesInv;
    } else {
      OthersOnlyFreePages(s, op);
      hide Step;
    }
  }

  lemma StepKeepsHeap(s: State, op: Op)
    requires HeapInv(s)
    ensures HeapInv(Step(s, op).0)
  {
  }

  /** Every state a run from the start can reach satisfies all four invariants. */
  lemma {:induction false} RunKeepsInv(ops: seq<Op>)
    ensures Inv(Run(Initial(), ops))
  {
    hide Step, HandlesInv, PipesInv, PagesInv, HeapInv;
    if ops == [] {
      InitialInv();
    } else {
      var s, op := Run(Initial(), ops[..|ops| - 1]), ops[|ops| - 1];
      RunKeepsInv(ops[..|ops| - 1]);
      StepKeepsHandles(s, op);
      StepKeepsPipes(s, op);
      StepKeepsPages(s, op);
      StepKeepsHeap(s, op);
    }
  }

  lemma InitialInv()
    ensures Inv(Initial())
  {
  }

  lemma StepKeepsGone(s: State, op: Op, fd: int)
    requires 0 <= fd < s.nextFd && fd !in s.handles
    ensures fd !in Step(s, op).0.handles && fd < Step(s, op).0.nextFd
  {
  }

  /** Handles are never reused: one that was given out and is gone stays gone. */
  lemma {:induction false} HandlesAreNotReused(s: State, ops: seq<Op>, fd: int)
    requires HandlesInv(s) && 0 <= fd < s.nextFd && fd !in s.handles
    ensures fd !in Run(s, ops).handles && fd < Run(s, ops).nextFd && HandlesInv(Run(s, ops))
  {
    if ops != [] {
      hide HandlesInv, Step;
      HandlesAreNotReused(s, ops[..|ops| - 1], fd);
      StepKeepsHandles(Run(s, ops[..|ops| - 1]), ops[|ops| - 1]);
      StepKeepsGone(Run(s, ops[..|ops| - 1]), ops[|ops| - 1], fd);
    }
  }

  lemma StepKeepsClosed(s: State, op: Op, p: int)
    requires HandlesInv(s) && p in s.pipes && s.pipes[p].closed
    ensures p in Step(s, op).0.pipes && Step(s, op).0.pipes[p] == s.pipes[p]
  {
  }

  /** Once closed, a pipe's contents and history are frozen: what was not read by then never is. */
  lemma {:induction false} ClosedIsForever(s: State, ops: seq<Op>, p: int)
    requires HandlesInv(s) && p in s.pipes && s.pipes[p].closed
    ensures p in Run(s, ops).pipes && Run(s, ops).pipes[p] == s.pipes[p] && HandlesInv(Run(s, ops))
  {
    if ops != [] {
      hide HandlesInv, Step;
      ClosedIsForever(s, ops[..|ops| - 1], p);
      StepKeepsHandles(Run(s, ops[..|ops| - 1]), ops[|ops| - 1]);
      StepKeepsClosed(Run(s, ops[..|ops| - 1]), ops[|ops| - 1], p);
    }
  }

  /** No read and no write on a closed pipe succeeds, through any handle. */
  lemma ClosedRefuses(s: State, op: Op, p: int)
    requires HandlesInv(s) && p in s.pipes && s.pipes[p].closed
    ensures op.ReadFile? && op.fd.Some? && op.fd.value in s.handles && s.handles[op.fd.value] == Reader(p)
            ==> !Step(s, op).1.Ok? && Step(s, op).0 == s
    ensures op.WriteFile? && op.fd.Some? && op.fd.value in s.handles && s.handles[op.fd.value] == Writer(p, false)
            ==> !Step(s, op).1.Ok? && Step(s, op).0 == s
  {
  }

  /** A write through a writing end succeeds exactly when the pipe's original
      reading handle is still open and the pipe is not closed; then it appends all
      its bytes and reports their number, otherwise it changes nothing. The answer
      that the peer is no reading end is never given. */
  lemma WriteSucceedsExactly(ops: seq<Op>, fd: int, data: seq<byte>, io: Option<nat>)
    requires var s := Run(Initial(), ops); fd in s.handles && s.handles[fd].Writer?
    ensures var s := Run(Initial(), ops);
            var p := s.handles[fd].peer;
            var (t, r) := Write(s, fd, data, io);
            && p in s.pipes
            && (p in s.handles ==> s.handles[p] == Reader(p))
            && (r.Ok? <==> p in s.handles && !s.pipes[p].closed)
            && (r.Ok? ==> r.value == |data| && PipeChanged(s, t, p)
                          && t.pipes[p].buffer == s.pipes[p].buffer + data
                          && t.pipes[p].delivered == s.pipes[p].delivered && !t.pipes[p].closed)
            && (!r.Ok? ==> t == s && r == if p in s.handles then Fail(9) else Error)
  {
    RunKeepsInv(ops);
    hide Run;
  }

  /** An operation that is not answered with success changes nothing. */
  lemma RefusalsChangeNothing(s: State, op: Op)
    ensures !Step(s, op).1.Ok? ==> Step(s, op).0 == s
  {
  }

  /** Where handles lead: a file answers what the operating system answers, the wrong
      end of a pipe refuses, an unknown handle and unreadable arguments are errors. */
  lemma AnswersByHandle(s: State, fd: int, count: nat, data: seq<byte>, io: Option<nat>)
    requires fd in s.handles
    ensures s.handles[fd].File? ==>
              && Step(s, ReadFile(Some(fd), Some(count), io)) == (s, if io.Some? then Ok(io.value) else Error)
              && Step(s, WriteFile(Some(fd), data, io)) == (s, if io.Some? then Ok(io.value) else Error)
    ensures s.handles[fd].Writer? ==> Step(s, ReadFile(Some(fd), Some(count), io)) == (s, Fail(9))
    ensures s.handles[fd].Reader? ==> Step(s, WriteFile(Some(fd), data, io)) == (s, Fail(9))
  {
  }

  lemma AnswersWithoutHandle(s: State, fd: Option<int>, count: Option<nat>, data: seq<byte>, io: Option<nat>)
    requires fd.None? || fd.value !in s.handles
    ensures Step(s, ReadFile(fd, count, io)).1 == Step(s, WriteFile(fd, data, io)).1 == Error
    ensures Step(s, DuplicateHandle(fd)).1 == Error
    ensures Step(s, CloseHandle(fd)).1 == if fd.None? then Error else Fail(9)
  {
  }

  lemma AnswersWithoutNumber(s: State, fd: Option<int>, io: Option<nat>)
    ensures Step(s, ReadFile(fd, None, io)).1 == Error && Step(s, VirtualAlloc(None)).1 == Error
    ensures Step(s, VirtualFree(None)).1 == Error && Step(s, Brk(None)).1 == Error
  {
  }

  /** A file the system opens gets the next handle, and nothing else changes. */
  lemma OpenedFile(ops: seq<Op>, path: string)
    ensures var s := Run(Initial(), ops);
            var (t, r) := Step(s, CreateFile(path, true));
            && r == Ok(s.nextFd) && s.nextFd !in s.handles
            && t == s.(handles := s.handles[s.nextFd := File(path)], nextFd := s.nextFd + 1)
            && Step(s, CreateFile(path, false)) == (s, Error)
  {
    RunKeepsInv(ops);
    hide Run, PipesInv, PagesInv, HeapInv;
  }

  /** The first answers of a new executor. */
  lemma FirstAnswers(path: string)
    ensures Step(Initial(), CreateFile(path, true)).1 == Ok(0) && Step(Initial(), CreatePipe).1 == Ok(0)
    ensures Step(Initial(), VirtualAlloc(Some(1))).1 == Ok(0x7f00_0000_0000)
    ensures Step(Initial(), Brk(Some(0))).1 == Ok(0x6000_0000_0000)
  {
  }

  /** Nothing but one pipe differs. */
  ghost predicate PipeChanged(s: State, t: State, p: int) {
    && p in s.pipes && p in t.pipes && t == s.(pipes := t.pipes)
    && t.pipes.Keys == s.pipes.Keys && forall q :: q in s.pipes && q != p ==> t.pipes[q] == s.pipes[q]
  }

  /** A read through any copy of a reading end succeeds exactly when the pipe is not
      closed; it then delivers as many of the oldest buffered bytes as asked for, or
      all of them, and reports their number. */
  lemma ReadSucceedsExactly(ops: seq<Op>, fd: int, p: int, count: nat, io: Option<nat>)
    requires var s := Run(Initial(), ops); fd in s.handles && s.handles[fd] == Reader(p)
    ensures var s := Run(Initial(), ops);
            var (t, r) := Read(s, fd, count, io);
            && p in s.pipes
            && (r.Ok? <==> !s.pipes[p].closed)
            && (r.Ok? ==>
                  var buffer := s.pipes[p].buffer;
                  var n := if |buffer| < count then |buffer| else count;
                  && r.value == n && PipeChanged(s, t, p)
                  && t.pipes[p].delivered == s.pipes[p].delivered + buffer[..n]
                  && t.pipes[p].buffer == buffer[n..]
                  && t.pipes[p].accepted == s.pipes[p].accepted && !t.pipes[p].closed)
            && (!r.Ok? ==> t == s && r == Fail(9))
  {
    RunKeepsInv(ops);
    hide Run;
  }

  /** After a read that asks for enough, everything written so far has been delivered. */
  lemma ReadCatchesUp(ops: seq<Op>, fd: int, p: int, count: nat, io: Option<nat>)
    requires var s := Run(Initial(), ops);
             fd in s.handles && s.handles[fd] == Reader(p) && p in s.pipes && !s.pipes[p].closed
             && count >= |s.pipes[p].buffer|
    ensures var t := Run(Initial(), ops + [ReadFile(Some(fd), Some(count), io)]);
            p in t.pipes && t.pipes[p].delivered == t.pipes[p].accepted && t.pipes[p].buffer == []
  {
    var op := ReadFile(Some(fd), Some(count), io);
    assert (ops + [op])[..|ops|] == ops;
    assert Run(Initial(), ops + [op]) == Step(Run(Initial(), ops), op).0;
    ReadSucceedsExactly(ops, fd, p, count, io);
    RunKeepsInv(ops);
    hide Run, HandlesInv, PagesInv, HeapInv, Read;
    var b := Run(Initial(), ops).pipes[p].buffer;
    assert b[..|b|] == b && b[|b|..] == [];
  }

  /** A new pipe: two new handles, the first one reported; what is written to the
      second is what a read from the first, or from a copy of it, delivers. */
  lemma PipeDelivers(ops: seq<Op>, data: seq<byte>, count: nat)
    requires count >= |data|
    ensures var s := Run(Initial(), ops);
            var (t, r) := Step(s, CreatePipe);
            var fd := s.nextFd;
            var (u, w) := Step(t, WriteFile(Some(fd + 1), data, None));
            var (v, d) := Step(u, DuplicateHandle(Some(fd)));
            var (x, n) := Step(v, ReadFile(Some(fd + 2), Some(count), None));
            && r == Ok(fd) && t.handles == s.handles[fd := Reader(fd)][fd + 1 := Writer(fd, false)]
            && fd !in s.handles && fd + 1 !in s.handles
            && w == Ok(|data|) && d == Ok(fd + 2) && n == Ok(|data|)
            && x.pipes == s.pipes[fd := Pipe([], false, data, data)]
  {
    RunKeepsInv(ops);
    hide Run, PipesInv, PagesInv, HeapInv;
    assert [] + data == data && data[..|data|] == data && data[|data|..] == [];
  }

  /** A copy stands for the same resource under a new handle, and nothing else changes. */
  lemma CopyIsTheSame(ops: seq<Op>, fd: int)
    ensures var s := Run(Initial(), ops);
            var (t, r) := Step(s, DuplicateHandle(Some(fd)));
            if fd !in s.handles then (t, r) == (s, Error)
            else && r == Ok(s.nextFd) && s.nextFd !in s.handles && s.nextFd in t.handles
                 && t.handles[s.nextFd] == s.handles[fd]
                 && t == s.(handles := t.handles, nextFd := t.nextFd)
                 && forall h :: h in s.handles ==> h in t.handles && t.handles[h] == s.handles[h]
  {
    RunKeepsInv(ops);
    hide Run;
  }

  /** Closing takes away the one handle; the pipe is marked only for a writing end
      whose original reading handle is open. */
  lemma CloseForgets(s: State, fd: int)
    requires HandlesInv(s)
    ensures var (t, r) := Step(s, CloseHandle(Some(fd)));
            if fd !in s.handles then (t, r) == (s, Fail(9))
            else && r == Ok(0) && t.handles.Keys == s.handles.Keys - {fd}
                 && (forall h :: h in t.handles ==> t.handles[h] == s.handles[h])
                 && t == s.(handles := t.handles, pipes := t.pipes)
                 && t.pipes.Keys == s.pipes.Keys
                 && (forall p :: p in s.pipes ==>
                       t.pipes[p] == if s.handles[fd].Writer? && s.handles[fd].peer == p && p in s.handles
                                     then s.pipes[p].(closed := true) else s.pipes[p])
  {
  }

  /** After the original reading handle is closed no write to the pipe succeeds
      again, duplicated readers notwithstanding. */
  lemma OrphanedWriters(s: State, ops: seq<Op>, p: int, fd: int, data: seq<byte>, io: Option<nat>)
    requires HandlesInv(s) && p in s.pipes && p !in s.handles
    ensures var t := Run(s, ops);
            fd in t.handles && t.handles[fd].Writer? && t.handles[fd].peer == p ==> Write(t, fd, data, io) == (t, Error)
  {
    HandlesAreNotReused(s, ops, p);
    hide Run;
  }

  /** Between any two states of a run, what a pipe has accepted and delivered only
      grows, and its ledger balances. */
  lemma {:induction false} PipeLedger(s: State, ops: seq<Op>, p: int)
    requires Inv(s) && p in s.pipes
    ensures var t := Run(s, ops);
            && p in t.pipes && HandlesInv(t) && PipesInv(t)
            && s.pipes[p].accepted <= t.pipes[p].accepted && s.pipes[p].delivered <= t.pipes[p].delivered
            && t.pipes[p].delivered <= t.pipes[p].accepted
            && t.pipes[p].buffer == t.pipes[p].accepted[|t.pipes[p].delivered|..]
  {
    if ops == [] {
    } else {
      var u, op := Run(s, ops[..|ops| - 1]), ops[|ops| - 1];
      PipeLedger(s, ops[..|ops| - 1], p);
      StepKeepsHandles(u, op);
      StepKeepsPipes(u, op);
      StepGrowsLedger(u, op, p);
      hide Step, HandlesInv;
    }
  }

  lemma StepGrowsLedger(s: State, op: Op, p: int)
    requires HandlesInv(s) && p in s.pipes
    ensures var t := Step(s, op).0;
            p in t.pipes && s.pipes[p].accepted <= t.pipes[p].accepted && s.pipes[p].delivered <= t.pipes[p].delivered
  {
  }

  /** The bytes an operation writes to pipe p, as its answer reports. */
  function WrittenBy(s: State, op: Op, p: int): seq<byte> {
    if op.WriteFile? && op.fd.Some? && op.fd.value in s.handles && s.handles[op.fd.value].Writer?
       && s.handles[op.fd.value].peer == p && Step(s, op).1.Ok? then op.data else []
  }

  /** How many bytes an operation reads from pipe p, as its answer reports. */
  function ReadBy(s: State, op: Op, p: int): int {
    if op.ReadFile? && op.fd.Some? && op.fd.value in s.handles && s.handles[op.fd.value] == Reader(p)
       && Step(s, op).1.Ok? then Step(s, op).1.value else 0
  }

  function Written(s: State, ops: seq<Op>, p: int): seq<byte> {
    if ops == [] then []
    else Written(s, ops[..|ops| - 1], p) + WrittenBy(Run(s, ops[..|ops| - 1]), ops[|ops| - 1], p)
  }

  function ReadTotal(s: State, ops: seq<Op>, p: int): int {
    if ops == [] then 0
    else ReadTotal(s, ops[..|ops| - 1], p) + ReadBy(Run(s, ops[..|ops| - 1]), ops[|ops| - 1], p)
  }

  lemma StepMovesBytes(s: State, op: Op, p: int)
    requires HandlesInv(s)
    ensures p !in s.pipes ==> WrittenBy(s, op, p) == [] && ReadBy(s, op, p) == 0
    ensures p !in s.pipes && p in Step(s, op).0.pipes ==> Step(s, op).0.pipes[p] == Pipe([], false, [], [])
    ensures p in s.pipes ==>
              && p in Step(s, op).0.pipes
              && Step(s, op).0.pipes[p].accepted == s.pipes[p].accepted + WrittenBy(s, op, p)
              && |Step(s, op).0.pipes[p].delivered| == |s.pipes[p].delivered| + ReadBy(s, op, p)
  {
  }

  /** Conservation: in every run, whatever handles were duplicated or closed, all
      bytes successfully written to a pipe are, in order, the bytes successfully
      read from it followed by the bytes in its buffer. */
  lemma {:induction false} PipeConservation(ops: seq<Op>, p: int)
    ensures var t := Run(Initial(), ops);
            && HandlesInv(t) && PipesInv(t)
            && (p in t.pipes ==>
                  && Written(Initial(), ops, p) == t.pipes[p].delivered + t.pipes[p].buffer
                  && t.pipes[p].accepted == Written(Initial(), ops, p)
                  && |t.pipes[p].delivered| == ReadTotal(Initial(), ops, p))
            && (p !in t.pipes ==> Written(Initial(), ops, p) == [] && ReadTotal(Initial(), ops, p) == 0)
  {
    RunKeepsInv(ops);
    if ops != [] {
      hide Step, WrittenBy, ReadBy, HandlesInv;
      PipeConservation(ops[..|ops| - 1], p);
      StepMovesBytes(Run(Initial(), ops[..|ops| - 1]), ops[|ops| - 1], p);
    }
  }

  /** Closing any one writing end, an original or a copy, while the original reading
      handle is open stops the pipe for good: no later read or write on it succeeds,
      whatever happens in between. After that handle is gone it changes no pipe. */
  lemma OneCloseStopsAll(s: State, fd: int, p: int, ops: seq<Op>, op: Op)
    requires HandlesInv(s) && fd in s.handles && s.handles[fd] == Writer(p, false)
    ensures p !in s.handles ==> Close(s, fd).0.pipes == s.pipes
    ensures p in s.handles ==>
              var t := Run(Close(s, fd).0, ops);
              && (op.WriteFile? && op.fd.Some? && op.fd.value in t.handles && t.handles[op.fd.value] == Writer(p, false)
                  ==> !Step(t, op).1.Ok?)
              && (op.ReadFile? && op.fd.Some? && op.fd.value in t.handles && t.handles[op.fd.value] == Reader(p)
                  ==> !Step(t, op).1.Ok?)
              && p in t.pipes && t.pipes[p].delivered == s.pipes[p].delivered && t.pipes[p].buffer == s.pipes[p].buffer
  {
    if p in s.handles {
      assert s.handles[p] == Reader(p);
      var u := Close(s, fd).0;
      assert Step(s, CloseHandle(Some(fd))).0 == u;
      StepKeepsHandles(s, CloseHandle(Some(fd)));
      assert p in u.pipes && u.pipes[p] == s.pipes[p].(closed := true);
      hide Step, HandlesInv, Close;
      ClosedIsForever(u, ops, p);
      ClosedRefuses(Run(u, ops), op, p);
    }
  }

  // ---------------------------------------------------------------- pages and heap

  /** In every reachable state live pages are aligned, non-empty, zero-overlap and below the cursor. */
  lemma PagesAreDisjoint(ops: seq<Op>, a: nat, b: nat)
    requires var s := Run(Initial(), ops); a in s.pages && b in s.pages && a < b
    ensures var s := Run(Initial(), ops);
            && a + s.pages[a].size <= b
            && GoodPage(a, s.pages[a], s.nextAddr) && GoodPage(b, s.pages[b], s.nextAddr)
  {
    RunKeepsInv(ops);
    hide Run;
    var s := Run(Initial(), ops);
    var i :| 0 <= i < |s.handed| && s.handed[i] == Range(a, s.pages[a].size);
    var j :| 0 <= j < |s.handed| && s.handed[j] == Range(b, s.pages[b].size);
    if j < i { assert false; }
  }

  lemma StepGrowsHanded(s: State, op: Op)
    ensures s.handed <= Step(s, op).0.handed
  {
  }

  lemma {:induction false} HandedGrows(s: State, ops: seq<Op>, k: nat)
    requires k <= |ops|
    ensures Run(s, ops[..k]).handed <= Run(s, ops).handed
    decreases |ops|
  {
    if k < |ops| {
      var front := ops[..|ops| - 1];
      HandedGrows(s, front, k);
      assert front[..k] == ops[..k];
      StepGrowsHanded(Run(s, front), ops[|ops| - 1]);
      hide Step;
    } else {
      assert ops[..k] == ops;
    }
  }

  lemma AllocationIsBehind(s: State, size: nat)
    requires PagesInv(s) && size > 0
    ensures var (t, r) := Step(s, VirtualAlloc(Some(size)));
            && r.Ok? && r.value >= 0 && r.value as nat in t.pages && t.pages[r.value].size == RoundUp(size)
            && t.handed == s.handed + [Range(r.value, RoundUp(size))]
            && forall i :: 0 <= i < |s.handed| ==> s.handed[i].addr + s.handed[i].size <= r.value
  {
    hide RoundUp;
  }

  /** A range given out at any moment of a run stays on record to its end, freed or
      not, and the next allocation lies behind it. */
  lemma NoRangeTwice(ops: seq<Op>, k: nat, size: nat, i: nat)
    requires size > 0 && k <= |ops| && i < |Run(Initial(), ops[..k]).handed|
    ensures var s, range := Run(Initial(), ops), Run(Initial(), ops[..k]).handed[i];
            var (t, r) := Step(s, VirtualAlloc(Some(size)));
            && r.Ok? && r.value >= 0 && r.value as nat in t.pages && t.pages[r.value].size == RoundUp(size)
            && t.handed == s.handed + [Range(r.value, RoundUp(size))]
            && range in s.handed && range.addr + range.size <= r.value
  {
    RunKeepsInv(ops);
    HandedGrows(Initial(), ops, k);
    var s := Run(Initial(), ops);
    assert s.handed[i] == Run(Initial(), ops[..k]).handed[i];
    hide Run, RoundUp;
    AllocationIsBehind(s, size);
    hide Step;
  }

  /** An allocated page is readable and zero; freeing it takes away exactly that page,
      and freeing it again fails. */
  lemma PageLivesOnce(ops: seq<Op>, size: nat)
    requires size > 0
    ensures var s := Run(Initial(), ops);
            var (t, r) := Step(s, VirtualAlloc(Some(size)));
            var a := s.nextAddr;
            var (u, f) := Step(t, VirtualFree(Some(a)));
            && r == Ok(a) && a !in s.pages && t.pages == s.pages[a := t.pages[a]]
            && t.pages[a].flags == 4 && |t.pages[a].data| == RoundUp(size)
            && (forall i :: 0 <= i < RoundUp(size) ==> t.pages[a].data[i] == 0)
            && f == Ok(0) && u.pages == s.pages
            && Step(u, VirtualFree(Some(a))) == (u, Fail(14))
            && Step(s, VirtualAlloc(Some(0))) == (s, Fail(22))
  {
    RunKeepsInv(ops);
    hide Run, HandlesInv, PipesInv, HeapInv, RoundUp;
    var s := Run(Initial(), ops);
    assert s.nextAddr !in s.pages;
    var page := Page(s.nextAddr, RoundUp(size), READABLE, Zeroed(RoundUp(size)));
    assert s.pages[s.nextAddr := page] - {s.nextAddr} == s.pages;
  }

  /** Moving the break keeps the bytes below it; new ones are zero. The answer to
      growing is the old break. */
  lemma HeapKeepsBytes(s: State, delta: int)
    requires HeapInv(s) && s.heapBase > 0
    ensures var (t, r) := Step(s, Brk(Some(delta)));
            && t == s.(heapBrk := t.heapBrk, heap := t.heap)
            && (delta >= 0 ==> r == Ok(s.heapBrk) && t.heapBrk == s.heapBrk + delta
                               && |t.heap| == |s.heap| + delta && s.heap <= t.heap
                               && forall i :: |s.heap| <= i < |t.heap| ==> t.heap[i] == 0)
            && (delta < 0 && s.heapBrk + delta >= s.heapBase ==>
                  r == Ok(0) && t.heapBrk == s.heapBrk + delta && t.heap == s.heap[..|s.heap| + delta])
            && (s.heapBrk + delta < s.heapBase ==> (t, r) == (s, Fail(14)))
  {
  }

  /** What one operation adds to the break when it is accepted. */
  function Accepted(s: State, op: Op): int {
    if op.Brk? && op.delta.Some? && s.heapBase <= s.heapBrk + op.delta.value then op.delta.value else 0
  }

  function AcceptedSum(s: State, ops: seq<Op>): int {
    if ops == [] then 0
    else AcceptedSum(s, ops[..|ops| - 1]) + Accepted(Run(s, ops[..|ops| - 1]), ops[|ops| - 1])
  }

  lemma StepBreak(s: State, op: Op)
    requires s.heapBase == HEAP_BASE && HeapInv(s)
    ensures Step(s, op).0.heapBase == s.heapBase && Step(s, op).0.heapBrk == s.heapBrk + Accepted(s, op)
  {
  }

  /** The break is the base plus everything accepted, and the heap holds that many bytes. */
  lemma {:induction false} BreakIsTheSum(ops: seq<Op>)
    ensures var s := Run(Initial(), ops);
            && s.heapBase == HEAP_BASE && HeapInv(s)
            && s.heapBrk == HEAP_BASE + AcceptedSum(Initial(), ops)
            && |s.heap| == AcceptedSum(Initial(), ops)
  {
    if ops != [] {
      hide Step, Accepted;
      BreakIsTheSum(ops[..|ops| - 1]);
      StepBreak(Run(Initial(), ops[..|ops| - 1]), ops[|ops| - 1]);
      StepKeepsHeap(Run(Initial(), ops[..|ops| - 1]), ops[|ops| - 1]);
    }
  }

  /** Growing by n and shrinking by n restores the state; shrinking below the base changes nothing. */
  lemma GrowThenShrink(s: State, n: int)
    requires HeapInv(s) && s.heapBase > 0 && n > 0
    ensures ChangeBreak(ChangeBreak(s, n).0, -n) == (s, Ok(0))
    ensures s.heapBrk - n < s.heapBase ==> ChangeBreak(s, -n) == (s, Fail(14))
  {
    var t := ChangeBreak(s, n).0;
    assert t.heap[..|s.heap|] == s.heap;
  }

  // ---------------------------------------------------------------- machine integers

  const I32_BOUND: int := 0x8000_0000
  const I64_BOUND: int := 0x8000_0000_0000_0000

  /** In this step the source's 32-bit handle counter and the 64-bit numbers that
      report addresses do not overflow, and no buffer is too large to allocate. */
  predicate Fits(s: State, op: Op) {
    match op
    case CreateFile(_, _) => s.nextFd + 1 < I32_BOUND
    case ReadFile(fd, count, _) =>
      fd.Some? && fd.value in s.handles && count.Some? ==> count.value < ALLOCATION_LIMIT
    case DuplicateHandle(_) => s.nextFd + 1 < I32_BOUND
    case CreatePipe => s.nextFd + 2 < I32_BOUND
    case VirtualAlloc(size) => size.Some? ==> s.nextAddr + RoundUp(size.value) < I64_BOUND
    case Brk(delta) => delta.Some? ==> s.heapBrk + delta.value < I64_BOUND
    case _ => true
  }

  ghost predicate RunFits(s: State, ops: seq<Op>) {
    forall k :: 0 <= k < |ops| ==> Fits(Run(s, ops[..k]), ops[k])
  }

  // ---------------------------------------------------------------- event runs

  /** What the rule table makes of an event: an operation, nothing, or an error. */
  datatype Mapping = Hit(op: Op) | Miss | Fault

  function Hits(ms: seq<Mapping>): seq<Op> {
    if ms == [] then []
    else
      var m := ms[|ms| - 1];
      Hits(ms[..|ms| - 1]) + (if m.Hit? then [m.op] else [])
  }

  /** The answer to event i of a run. */
  function Answer(s: State, ms: seq<Mapping>, i: nat): Option<Outcome>
    requires i < |ms|
  {
    if ms[i].Hit? then Some(Step(Run(s, Hits(ms[..i])), ms[i].op).1) else None
  }

  /** How many of the first n answers satisfy a test. */
  function Count(answers: seq<Option<Outcome>>, test: Option<Outcome> -> bool, n: nat): (c: nat)
    requires n <= |answers|
    ensures c <= n
  {
    if n == 0 then 0 else Count(answers, test, n - 1) + (if test(answers[n - 1]) then 1 else 0)
  }

  function Succeeded(): Option<Outcome> -> bool { (a: Option<Outcome>) => a.Some? && a.value.Ok? }

  function Failed(): Option<Outcome> -> bool { (a: Option<Outcome>) => a.Some? && !a.value.Ok? }

  function Missed(): Option<Outcome> -> bool { (a: Option<Outcome>) => a.None? }

  /** Every event is counted exactly once. */
  lemma {:induction false} CountsAddUp(answers: seq<Option<Outcome>>, n: nat)
    requires n <= |answers|
    ensures Count(answers, Succeeded(), n) + Count(answers, Failed(), n) + Count(answers, Missed(), n) == n
  {
    if n > 0 { CountsAddUp(answers, n - 1); }
  }

  lemma {:induction false} CountPrefix(a: seq<Option<Outcome>>, x: Option<Outcome>, test: Option<Outcome> -> bool,
                                       n: nat)
    requires n <= |a|
    ensures Count(a + [x], test, n) == Count(a, test, n)
  {
    if n > 0 { CountPrefix(a, x, test, n - 1); }
  }
}
