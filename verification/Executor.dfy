/** The executor as the source has it: one object updated in place, whose handles
    share pipe objects (executor.rs). Every method is tied to a step of Machine. */
module Executor {
  import opened Common
  import opened Machine

  /** The shared buffer and closed flag behind a pipe's reading handles. */
  class SharedPipe {
    var buffer: seq<byte>
    var closed: bool
    ghost const id: int
    ghost var accepted: seq<byte>
    ghost var delivered: seq<byte>

    constructor (ghost id: int)
      ensures this.id == id && buffer == [] && !closed && accepted == [] && delivered == []
    {
      this.id := id;
      buffer, closed, accepted, delivered := [], false, [], [];
    }

    ghost function View(): Pipe
      reads this
    {
      Pipe(buffer, closed, accepted, delivered)
    }
  }

  datatype Handle = FileHandle(path: string) | PipeReader(pipe: SharedPipe) | PipeWriter(peerFd: int, closed: bool)

  class WindowsFileExecutor {
    var handleTable: map<int, Handle>
    var nextFd: int
    var memPages: map<nat, Page>
    var nextMmapAddr: nat
    var heapBase: nat
    var heapBrk: nat
    var heapData: seq<byte>
    ghost var pipeOf: map<int, SharedPipe>
    ghost var handed: seq<Range>

    ghost function ViewHandle(h: Handle): Resource {
      match h
      case FileHandle(path) => File(path)
      case PipeReader(pipe) => Reader(pipe.id)
      case PipeWriter(peer, closed) => Writer(peer, closed)
    }

    ghost function ViewHandles(): map<int, Resource>
      reads `handleTable
    {
      map fd | fd in handleTable :: ViewHandle(handleTable[fd])
    }

    ghost function ViewPipes(): map<int, Pipe>
      reads `pipeOf, pipeOf.Values
    {
      map p | p in pipeOf :: pipeOf[p].View()
    }

    /** The machine state this object stands for. */
    ghost function View(): State
      reads this, pipeOf.Values
    {
      State(ViewHandles(), nextFd, ViewPipes(), memPages, nextMmapAddr, handed, heapBase, heapBrk, heapData)
    }

    /** Pipe objects are told apart by their name; reading handles point at them. */
    ghost predicate Linked()
      reads `handleTable, `pipeOf, pipeOf.Values
    {
      && (forall p :: p in pipeOf ==> pipeOf[p].id == p)
      && (forall fd :: fd in handleTable && handleTable[fd].PipeReader? ==>
            handleTable[fd].pipe.id in pipeOf && pipeOf[handleTable[fd].pipe.id] == handleTable[fd].pipe)
    }

    ghost predicate Valid()
      reads this, pipeOf.Values
    {
      Linked() && Inv(View())
    }

    constructor ()
      ensures Valid() && View() == Initial() && fresh(pipeOf.Values)
    {
      handleTable, nextFd := map[], 0;
      memPages, nextMmapAddr := map[], MMAP_BASE;
      heapBase, heapBrk, heapData := HEAP_BASE, HEAP_BASE, [];
      pipeOf, handed := map[], [];
      new;
      InitialInv();
    }

    lemma StepKeepsInv(s: State, op: Op)
      requires Inv(s)
      ensures Inv(Step(s, op).0)
    {
      hide Step, HandlesInv, PipesInv, PagesInv, HeapInv;
      StepKeepsHandles(s, op);
      StepKeepsPipes(s, op);
      StepKeepsPages(s, op);
      StepKeepsHeap(s, op);
    }

    /** A change to one pipe object shows at that pipe only. */
    twostate lemma OnePipeChanged(pipe: SharedPipe)
      requires old(Linked()) && pipeOf == old(pipeOf) && pipe.id in pipeOf && pipeOf[pipe.id] == pipe
      requires forall q :: q in pipeOf.Values && q != pipe ==> unchanged(q)
      ensures ViewPipes() == old(ViewPipes())[pipe.id := pipe.View()]
    {
      forall p | p in pipeOf && p != pipe.id
        ensures pipeOf[p].View() == old(pipeOf[p].View())
      {
        assert pipeOf[p] in pipeOf.Values && pipeOf[p].id == p;
      }
    }

    method AllocFd() returns (fd: int)
      requires nextFd + 1 < I32_BOUND
      modifies `nextFd
      ensures fd == old(nextFd) && nextFd == fd + 1
    {
      fd := nextFd;
      nextFd := nextFd + 1;
    }

    method ExecCreateFile(path: string, granted: bool) returns (r: Outcome)
      requires Valid() && nextFd + 1 < I32_BOUND
      modifies this
      ensures Valid() && pipeOf == old(pipeOf)
      ensures (View(), r) == Step(old(View()), CreateFile(path, granted))
    {
      hide Inv;
      StepKeepsInv(View(), CreateFile(path, granted));
      if !granted {
        return Error;
      }
      var fd := AllocFd();
      handleTable := handleTable[fd := FileHandle(path)];
      r := Ok(fd);
      assert ViewHandles() == old(ViewHandles())[fd := File(path)];
      assert ViewPipes() == old(ViewPipes());
    }

    method ExecReadFile(fd: Option<int>, count: Option<nat>, io: Option<nat>) returns (r: Outcome)
      requires Valid()
      requires fd.Some? && fd.value in handleTable && count.Some? ==> count.value < ALLOCATION_LIMIT
      modifies this, pipeOf.Values
      ensures Valid() && pipeOf == old(pipeOf)
      ensures (View(), r) == Step(old(View()), ReadFile(fd, count, io))
    {
      StepKeepsInv(View(), ReadFile(fd, count, io));
      if fd.None? || count.None? || fd.value !in handleTable {
        return Error;
      }
      match handleTable[fd.value] {
        case FileHandle(_) =>
          r := if io.Some? then Ok(io.value) else Error;
        case PipeReader(pipe) =>
          if pipe.closed {
            return Fail(9);
          }
          var n := Min(|pipe.buffer|, count.value);
          pipe.delivered := pipe.delivered + pipe.buffer[..n];
          pipe.buffer := pipe.buffer[n..];
          r := Ok(n);
          hide Inv;
          assert ViewHandles() == old(ViewHandles());
          OnePipeChanged(pipe);
        case PipeWriter(_, _) =>
          r := Fail(9);
      }
    }

    method ExecWriteFile(fd: Option<int>, data: seq<byte>, io: Option<nat>) returns (r: Outcome)
      requires Valid()
      modifies this, pipeOf.Values
      ensures Valid() && pipeOf == old(pipeOf)
      ensures (View(), r) == Step(old(View()), WriteFile(fd, data, io))
    {
      StepKeepsInv(View(), WriteFile(fd, data, io));
      if fd.None? || fd.value !in handleTable {
        return Error;
      }
      match handleTable[fd.value] {
        case FileHandle(_) =>
          r := if io.Some? then Ok(io.value) else Error;
        case PipeReader(_) =>
          r := Fail(9);
        case PipeWriter(peerFd, closed) =>
          if closed {
            assert false;  // no code path closes a writing end
          }
          if peerFd !in handleTable {
            return Error;
          }
          match handleTable[peerFd] {
            case PipeReader(pipe) =>
              if pipe.closed {
                return Fail(9);
              }
              pipe.buffer := pipe.buffer + data;
              pipe.accepted := pipe.accepted + data;
              r := Ok(|data|);
              hide Inv;
              assert ViewHandles() == old(ViewHandles());
              OnePipeChanged(pipe);
            case _ =>
              assert false;  // the peer is a reading end or gone
          }
      }
    }

    method ExecCloseHandle(fd: Option<int>) returns (r: Outcome)
      requires Valid()
      modifies this, pipeOf.Values
      ensures Valid() && pipeOf == old(pipeOf)
      ensures (View(), r) == Step(old(View()), CloseHandle(fd))
    {
      StepKeepsInv(View(), CloseHandle(fd));
      if fd.None? {
        return Error;
      }
      if fd.value !in handleTable {
        return Fail(9);
      }
      hide Inv;
      CloseOpenHandle(fd.value);
      r := Ok(0);
    }

    /** Take the handle out of the table, and mark the pipe of a writing end. */
    method CloseOpenHandle(fd: int)
      requires Linked() && fd in handleTable
      modifies this`handleTable, pipeOf.Values
      ensures Linked()
      ensures (View(), Ok(0)) == Close(old(View()), fd)
    {
      var entry := handleTable[fd];
      ghost var s := View();
      handleTable := handleTable - {fd};
      assert ViewHandles() == s.handles - {fd};
      assert ViewPipes() == s.pipes;
      if entry.PipeWriter? && entry.peerFd in handleTable && handleTable[entry.peerFd].PipeReader? {
        MarkClosed(handleTable[entry.peerFd].pipe);
      }
    }

    /** Set the flag every reading handle of the pipe shares. */
    method MarkClosed(pipe: SharedPipe)
      requires Linked() && pipe.id in pipeOf && pipeOf[pipe.id] == pipe
      modifies pipe`closed
      ensures Linked() && ViewHandles() == old(ViewHandles())
      ensures ViewPipes() == old(ViewPipes())[pipe.id := old(pipe.View()).(closed := true)]
    {
      pipe.closed := true;
      OnePipeChanged(pipe);
    }

    method ExecCreatePipe() returns (r: Outcome)
      requires Valid() && nextFd + 2 < I32_BOUND
      modifies this
      ensures Valid() && fresh(pipeOf.Values - old(pipeOf.Values))
      ensures (View(), r) == Step(old(View()), CreatePipe)
    {
      StepKeepsInv(View(), CreatePipe);
      hide Inv, Step, View, Linked;
      var readFd := AllocFd();
      var writeFd := AllocFd();
      var pipe := new SharedPipe(readFd);
      handleTable := handleTable[readFd := PipeReader(pipe)];
      handleTable := handleTable[writeFd := PipeWriter(readFd, false)];
      pipeOf := pipeOf[readFd := pipe];
      r := Ok(readFd);
      PipeInstalled(pipe);
    }

    twostate lemma PipeInstalled(new pipe: SharedPipe)
      requires old(Valid()) && forall q :: q in old(pipeOf.Values) ==> unchanged(q)
      requires pipe.id == old(nextFd) && pipe.View() == Pipe([], false, [], [])
      requires nextFd == old(nextFd) + 2 && pipeOf == old(pipeOf)[old(nextFd) := pipe]
      requires handleTable
               == old(handleTable)[old(nextFd) := PipeReader(pipe)][old(nextFd) + 1 := PipeWriter(old(nextFd), false)]
      requires memPages == old(memPages) && nextMmapAddr == old(nextMmapAddr) && handed == old(handed)
      requires heapBase == old(heapBase) && heapBrk == old(heapBrk) && heapData == old(heapData)
      ensures Linked() && View() == MakePipe(old(View())).0
    {
      PipeAdded(pipe);
      hide Inv, ViewPipes, Linked;
      var r := old(nextFd);
      assert ViewHandles() == old(ViewHandles())[r := Reader(r)][r + 1 := Writer(r, false)];
    }

    twostate lemma PipeAdded(new pipe: SharedPipe)
      requires old(Valid()) && forall q :: q in old(pipeOf.Values) ==> unchanged(q)
      requires pipe.id == old(nextFd) && pipeOf == old(pipeOf)[pipe.id := pipe]
      requires handleTable == old(handleTable)[pipe.id := PipeReader(pipe)][pipe.id + 1 := PipeWriter(pipe.id, false)]
      ensures Linked() && ViewPipes() == old(ViewPipes())[pipe.id := pipe.View()]
    {
      var s := old(View());
      assert forall p :: p in s.pipes ==> p < s.nextFd;
      hide Inv;
      forall p | p in old(pipeOf)
        ensures p != pipe.id && pipeOf[p] == old(pipeOf[p]) && pipeOf[p].View() == old(pipeOf[p].View())
      {
        assert p in s.pipes;
        assert old(pipeOf[p]) in old(pipeOf.Values);
      }
    }

    /** The copy shares the pipe object of a reading end. */
    method ExecDuplicateHandle(fd: Option<int>) returns (r: Outcome)
      requires Valid() && nextFd + 1 < I32_BOUND
      modifies this
      ensures Valid() && pipeOf == old(pipeOf)
      ensures (View(), r) == Step(old(View()), DuplicateHandle(fd))
    {
      hide Inv;
      StepKeepsInv(View(), DuplicateHandle(fd));
      if fd.None? || fd.value !in handleTable {
        return Error;
      }
      var newFd := AllocFd();
      CopyHandle(fd.value, newFd);
      r := Ok(newFd);
    }

    method CopyHandle(fd: int, newFd: int)
      requires Linked() && fd in handleTable
      modifies `handleTable
      ensures Linked() && ViewPipes() == old(ViewPipes())
      ensures ViewHandles() == old(ViewHandles())[newFd := old(ViewHandles()[fd])]
    {
      handleTable := handleTable[newFd := handleTable[fd]];
    }

    method ExecVirtualAlloc(size: Option<nat>) returns (r: Outcome)
      requires Valid() && (size.Some? ==> nextMmapAddr + RoundUp(size.value) < I64_BOUND)
      modifies this
      ensures Valid() && pipeOf == old(pipeOf)
      ensures (View(), r) == Step(old(View()), VirtualAlloc(size))
    {
      hide Inv;
      StepKeepsInv(View(), VirtualAlloc(size));
      if size.None? {
        return Error;
      }
      if size.value == 0 {
        return Fail(22);
      }
      var alignedSize := RoundUp(size.value);
      var addr := nextMmapAddr;
      nextMmapAddr := nextMmapAddr + alignedSize;
      memPages := memPages[addr := Page(addr, alignedSize, READABLE, Zeroed(alignedSize))];
      handed := handed + [Range(addr, alignedSize)];
      r := Ok(addr);
      assert ViewPipes() == old(ViewPipes());
    }

    method ExecVirtualFree(addr: Option<nat>) returns (r: Outcome)
      requires Valid()
      modifies this
      ensures Valid() && pipeOf == old(pipeOf)
      ensures (View(), r) == Step(old(View()), VirtualFree(addr))
    {
      hide Inv;
      StepKeepsInv(View(), VirtualFree(addr));
      if addr.None? {
        return Error;
      }
      if addr.value in memPages {
        memPages := memPages - {addr.value};
        r := Ok(0);
      } else {
        r := Fail(14);
      }
      assert ViewPipes() == old(ViewPipes());
    }

    method ExecBrk(delta: Option<int>) returns (r: Outcome)
      requires Valid() && (delta.Some? ==> heapBrk + delta.value < I64_BOUND)
      modifies this
      ensures Valid() && pipeOf == old(pipeOf)
      ensures (View(), r) == Step(old(View()), Brk(delta))
    {
      hide Inv;
      StepKeepsInv(View(), Brk(delta));
      if delta.None? {
        return Error;
      }
      if delta.value >= 0 {
        r := Ok(heapBrk);
        heapBrk := heapBrk + delta.value;
        heapData := heapData + Zeroed(delta.value);
      } else {
        var target := if heapBrk >= -delta.value then heapBrk + delta.value else 0;
        if heapBase <= target <= heapBrk {
          var shrink := heapBrk - target;
          heapBrk := target;
          if |heapData| >= shrink {
            heapData := heapData[..|heapData| - shrink];
          }
          r := Ok(0);
        } else {
          r := Fail(14);
        }
      }
      assert ViewPipes() == old(ViewPipes());
    }

    method Execute(op: Op) returns (r: Outcome)
      requires Valid() && Fits(View(), op)
      modifies this, pipeOf.Values
      ensures Valid() && fresh(pipeOf.Values - old(pipeOf.Values))
      ensures (View(), r) == Step(old(View()), op)
    {
      assert Fits(View(), op);
      hide Inv, Step, RoundUp, Linked;
      match op {
        case CreateFile(path, granted) => r := ExecCreateFile(path, granted);
        case ReadFile(fd, count, io) => r := ExecReadFile(fd, count, io);
        case WriteFile(fd, data, io) => r := ExecWriteFile(fd, data, io);
        case CloseHandle(fd) => r := ExecCloseHandle(fd);
        case CreatePipe => r := ExecCreatePipe();
        case DuplicateHandle(fd) => r := ExecDuplicateHandle(fd);
        case VirtualAlloc(size) => r := ExecVirtualAlloc(size);
        case VirtualFree(addr) => r := ExecVirtualFree(addr);
        case Brk(delta) => r := ExecBrk(delta);
      }
    }
  }

  datatype Report = Report(steps: seq<Option<Outcome>>, succeeded: nat, failed: nat, missed: nat)

  /** Map and execute a list of events: the object ends in the state of the machine
      after the mapped operations, each step carries that operation's answer, and
      every event is counted once. An error of the rule table aborts the run. */
  method RunEvents(executor: WindowsFileExecutor, events: seq<Mapping>) returns (r: Option<Report>)
    requires executor.Valid() && RunFits(executor.View(), Hits(events))
    modifies executor, executor.pipeOf.Values
    ensures executor.Valid()
    ensures r.None? <==> Fault in events
    ensures r.Some? ==>
              && executor.View() == Run(old(executor.View()), Hits(events))
              && |r.value.steps| == |events|
              && (forall i :: 0 <= i < |events| ==> r.value.steps[i] == Answer(old(executor.View()), events, i))
              && r.value.succeeded == Count(r.value.steps, Succeeded(), |events|)
              && r.value.failed == Count(r.value.steps, Failed(), |events|)
              && r.value.missed == Count(r.value.steps, Missed(), |events|)
              && r.value.succeeded + r.value.failed + r.value.missed == |events|
  {
    hide Step, Fits, Run, Reported;
    ghost var s := executor.View();
    var steps: seq<Option<Outcome>> := [];
    var succeeded, failed, missed := 0, 0, 0;
    NothingReported(s, events);
    for n := 0 to |events|
      invariant executor.Valid() && fresh(executor.pipeOf.Values - old(executor.pipeOf.Values))
      invariant executor.View() == Run(s, Hits(events[..n]))
      invariant Fault !in events[..n]
      invariant Reported(s, events, n, Report(steps, succeeded, failed, missed))
    {
      hide executor.Valid, executor.View, Hits, Answer;
      if events[n].Fault? {
        return None;
      }
      ghost var sofar := Report(steps, succeeded, failed, missed);
      EventStep(s, events, n);
      if events[n].Miss? {
        missed := missed + 1;
        steps := steps + [None];
      } else {
        var res := executor.Execute(events[n].op);
        if res.Ok? { succeeded := succeeded + 1; } else { failed := failed + 1; }
        steps := steps + [Some(res)];
      }
      ReportGrows(s, events, n, sofar);
    }
    assert events[..|events|] == events;
    r := Some(Report(steps, succeeded, failed, missed));
    FullReport(s, events, r.value);
    CountsAddUp(steps, |events|);
  }

  ghost predicate Reported(s: State, events: seq<Mapping>, n: nat, r: Report)
    requires n <= |events|
  {
    && |r.steps| == n
    && (forall i :: 0 <= i < n ==> r.steps[i] == Answer(s, events, i))
    && r.succeeded == Count(r.steps, Succeeded(), n)
    && r.failed == Count(r.steps, Failed(), n)
    && r.missed == Count(r.steps, Missed(), n)
  }

  lemma NothingReported(s: State, events: seq<Mapping>)
    ensures Reported(s, events, 0, Report([], 0, 0, 0)) && s == Run(s, Hits(events[..0]))
  {
  }

  lemma FullReport(s: State, events: seq<Mapping>, r: Report)
    requires Reported(s, events, |events|, r)
    ensures |r.steps| == |events|
    ensures forall i :: 0 <= i < |events| ==> r.steps[i] == Answer(s, events, i)
    ensures r.succeeded == Count(r.steps, Succeeded(), |events|)
    ensures r.failed == Count(r.steps, Failed(), |events|)
    ensures r.missed == Count(r.steps, Missed(), |events|)
  {
  }

  /** What the next event does to the machine, and its answer. */
  lemma EventStep(s: State, events: seq<Mapping>, n: nat)
    requires n < |events| && !events[n].Fault? && RunFits(s, Hits(events))
    ensures events[n].Miss? ==>
              Run(s, Hits(events[..n + 1])) == Run(s, Hits(events[..n])) && Answer(s, events, n) == None
    ensures events[n].Hit? ==>
              var u := Run(s, Hits(events[..n]));
              && Fits(u, events[n].op)
              && Run(s, Hits(events[..n + 1])) == Step(u, events[n].op).0
              && Answer(s, events, n) == Some(Step(u, events[n].op).1)
    ensures Fault !in events[..n] ==> Fault !in events[..n + 1]
  {
    hide Step, Fits;
    assert events[..n + 1][..n] == events[..n];
    if events[n].Miss? {
      assert Hits(events[..n + 1]) == Hits(events[..n]);
    } else {
      HitFits(s, events, n);
      var ops := Hits(events[..n + 1]);
      assert ops[..|ops| - 1] == Hits(events[..n]);
    }
  }

  lemma ReportGrows(s: State, events: seq<Mapping>, n: nat, r: Report)
    requires n < |events| && Reported(s, events, n, r)
    ensures var a := Answer(s, events, n);
            Reported(s, events, n + 1, Report(r.steps + [a],
              r.succeeded + (if a.Some? && a.value.Ok? then 1 else 0),
              r.failed + (if a.Some? && !a.value.Ok? then 1 else 0),
              r.missed + (if a.None? then 1 else 0)))
  {
    hide Answer;
    CountPrefix(r.steps, Answer(s, events, n), Succeeded(), n);
    CountPrefix(r.steps, Answer(s, events, n), Failed(), n);
    CountPrefix(r.steps, Answer(s, events, n), Missed(), n);
  }

  lemma {:induction false} HitsPrefix(ms: seq<Mapping>, n: nat)
    requires n <= |ms|
    ensures Hits(ms[..n]) <= Hits(ms)
  {
    if n < |ms| {
      HitsPrefix(ms[..|ms| - 1], n);
      assert ms[..|ms| - 1][..n] == ms[..n];
    } else {
      assert ms[..n] == ms;
    }
  }

  lemma HitFits(s: State, ms: seq<Mapping>, n: nat)
    requires n < |ms| && ms[n].Hit? && RunFits(s, Hits(ms))
    ensures Fits(Run(s, Hits(ms[..n])), ms[n].op)
  {
    hide Fits, Run;
    HitsPrefix(ms, n + 1);
    assert ms[..n + 1][..n] == ms[..n];
    var k := |Hits(ms[..n])|;
    assert Hits(ms[..n + 1]) == Hits(ms[..n]) + [ms[n].op];
    assert Hits(ms)[..k] == Hits(ms[..n]) && Hits(ms)[k] == ms[n].op;
  }
}
