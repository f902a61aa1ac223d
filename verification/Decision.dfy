/** The decision pipeline (agent.rs, bilateral/gate.rs): rules first, then the
    network behind its gate, then a counted miss; and the early-stopping run. The
    rule table, the network, the codec and the injection check are parameters. */
module Decision {
  import opened Common
  import opened Text

  datatype Event = Event(nr: int, name: string, args: seq<string>, tid: nat)

  datatype Target = Target(operation: string, description: string)

  datatype Lookup = Rule(target: Target) | NoRule | LookupError

  /** What lies outside the pipeline. */
  datatype Rules = Rules(intercept: Event -> Lookup, injectable: string -> bool,
                         parseFd: string -> Option<int>, parseLen: string -> Option<nat>, parseHex: string -> nat)

  datatype Decoded = Decoded(windowsOp: string, confidence: real)

  datatype Codec = Codec(encode: Event -> Option<seq<real>>, decode: seq<real> -> Option<Decoded>)

  datatype Gate = Gate(enabled: bool, coverage: real, pairedSamples: nat, successRate: real)

  datatype Settings = Settings(network: Option<seq<real> -> Option<seq<real>>>, codec: Option<Codec>, gate: Gate,
                               confidenceThreshold: real, fallbackThreshold: nat)

  // ---------------------------------------------------------------- gate and blocklist

  datatype Reason = Disabled | LowCoverage | FewSamples | LowSuccess

  function UnmetReasons(g: Gate): seq<Reason> {
    (if !g.enabled then [Disabled] else []) +
    (if g.coverage <= 0.8 then [LowCoverage] else []) +
    (if g.pairedSamples < 100_000 then [FewSamples] else []) +
    (if g.successRate <= 0.9 then [LowSuccess] else [])
  }

  predicate IsReady(g: Gate) { UnmetReasons(g) == [] }

  /** The gate opens on all four conditions together, and every reason listed is a failed one. */
  lemma ReadyExactly(g: Gate)
    ensures IsReady(g) <==> g.enabled && g.coverage > 0.8 && g.pairedSamples >= 100_000 && g.successRate > 0.9
    ensures Disabled in UnmetReasons(g) <==> !g.enabled
    ensures LowCoverage in UnmetReasons(g) <==> g.coverage <= 0.8
    ensures FewSamples in UnmetReasons(g) <==> g.pairedSamples < 100_000
    ensures LowSuccess in UnmetReasons(g) <==> g.successRate <= 0.9
  {
  }

  function Blocklist(): seq<string> {
    ["WriteProcessMemory", "CreateRemoteThread", "CreateRemoteThreadEx", "VirtualAllocEx", "SetWindowsHookExW",
     "TerminateProcess", "DeleteFileW", "RegDeleteKeyW", "RegDeleteKeyExW", "RegDeleteTreeW"]
  }

  /** Compared without regard to ASCII letter case. */
  predicate Blocked(operation: string) {
    exists i :: 0 <= i < |Blocklist()| && Lower(operation) == Lower(Blocklist()[i])
  }

  // ---------------------------------------------------------------- one event

  datatype Verdict = Broken | Mapped(target: Target) | Derived(operation: string, confidence: real) | Missed

  function TryDerive(s: Settings, e: Event): Option<Decoded> {
    if !IsReady(s.gate) || s.network.None? || s.codec.None? then None
    else
      match s.codec.value.encode(e)
      case None => None
      case Some(input) =>
        match s.network.value(input)
        case None => None
        case Some(output) =>
          match s.codec.value.decode(output)
          case None => None
          case Some(d) =>
            if d.confidence < s.confidenceThreshold || Blocked(d.windowsOp) then None else Some(d)
  }

  /** What becomes of an event; the pipeline's own state has no say in it. */
  function Classify(r: Rules, s: Settings, e: Event): Verdict {
    match r.intercept(e)
    case LookupError => Broken
    case Rule(target) => if r.injectable(target.operation) then Mapped(target) else Broken
    case NoRule =>
      match TryDerive(s, e)
      case Some(d) => Derived(d.windowsOp, d.confidence)
      case None => Missed
  }

  /** The network's way from an event to an operation: encoded, computed, decoded. */
  ghost predicate Suggests(s: Settings, e: Event, operation: string, confidence: real) {
    && s.network.Some? && s.codec.Some?
    && exists input, output ::
         && s.codec.value.encode(e) == Some(input) && s.network.value(input) == Some(output)
         && s.codec.value.decode(output) == Some(Decoded(operation, confidence))
  }

  /** Without a rule the network's answer is taken exactly when all four gate
      conditions hold, it is confident enough and its operation is not blocked. */
  lemma DerivesExactly(r: Rules, s: Settings, e: Event, operation: string, confidence: real)
    requires r.intercept(e) == NoRule
    ensures Classify(r, s, e) == Derived(operation, confidence) <==>
            && s.gate.enabled && s.gate.coverage > 0.8 && s.gate.pairedSamples >= 100_000 && s.gate.successRate > 0.9
            && Suggests(s, e, operation, confidence)
            && confidence >= s.confidenceThreshold && !Blocked(operation)
  {
    ReadyExactly(s.gate);
    hide IsReady, Blocked, UnmetReasons;
  }

  /** What decides every other verdict. */
  lemma VerdictsExactly(r: Rules, s: Settings, e: Event)
    ensures forall t :: Classify(r, s, e) == Mapped(t) <==> r.intercept(e) == Rule(t) && r.injectable(t.operation)
    ensures Classify(r, s, e) == Broken <==>
            r.intercept(e).LookupError? || (r.intercept(e).Rule? && !r.injectable(r.intercept(e).target.operation))
    ensures Classify(r, s, e) == Missed <==>
            && r.intercept(e) == NoRule
            && forall operation, confidence :: Classify(r, s, e) != Derived(operation, confidence)
  {
    hide TryDerive;
  }

  /** The ten blocked operations, in any ASCII letter case. */
  lemma BlockedExactly(operation: string)
    ensures Blocked(operation) <==>
            var o := Lower(operation);
            || o == "writeprocessmemory" || o == "createremotethread" || o == "createremotethreadex"
            || o == "virtualallocex" || o == "setwindowshookexw" || o == "terminateprocess"
            || o == "deletefilew" || o == "regdeletekeyw" || o == "regdeletekeyexw" || o == "regdeletetreew"
  {
    BlockedTexts();
    hide Lower;
  }

  lemma BlockedTexts()
    ensures var b := Blocklist();
            && |b| == 10
            && Lower(b[0]) == "writeprocessmemory" && Lower(b[1]) == "createremotethread"
            && Lower(b[2]) == "createremotethreadex" && Lower(b[3]) == "virtualallocex"
            && Lower(b[4]) == "setwindowshookexw" && Lower(b[5]) == "terminateprocess"
            && Lower(b[6]) == "deletefilew" && Lower(b[7]) == "regdeletekeyw"
            && Lower(b[8]) == "regdeletekeyexw" && Lower(b[9]) == "regdeletetreew"
  {
    InjectionTexts();
    ProcessTexts();
    RemovalTexts();
    hide Lower;
  }

  lemma InjectionTexts()
    ensures Lower("WriteProcessMemory") == "writeprocessmemory"
    ensures Lower("CreateRemoteThread") == "createremotethread"
    ensures Lower("CreateRemoteThreadEx") == "createremotethreadex"
  {
  }

  lemma ProcessTexts()
    ensures Lower("VirtualAllocEx") == "virtualallocex"
    ensures Lower("SetWindowsHookExW") == "setwindowshookexw"
    ensures Lower("TerminateProcess") == "terminateprocess"
  {
  }

  lemma RemovalTexts()
    ensures Lower("DeleteFileW") == "deletefilew" && Lower("RegDeleteKeyW") == "regdeletekeyw"
    ensures Lower("RegDeleteKeyExW") == "regdeletekeyexw" && Lower("RegDeleteTreeW") == "regdeletetreew"
  {
  }

  datatype FdEntry = FdEntry(fd: int, path: string, mode: string)

  datatype MmapEntry = MmapEntry(addr: nat, len: nat, prot: string, flags: string)

  /** The process ledger. */
  datatype Ledger = Ledger(fds: map<int, FdEntry>, mmaps: seq<MmapEntry>, cwd: string, brk: nat)

  function ArgOr(e: Event, i: nat, otherwise: string): string { if i < |e.args| then e.args[i] else otherwise }

  function Without(ms: seq<MmapEntry>, addr: nat): (r: seq<MmapEntry>)
    ensures forall i :: 0 <= i < |r| ==> r[i] in ms && r[i].addr != addr
  {
    if ms == [] then []
    else if ms[0].addr == addr then Without(ms[1..], addr)
    else [ms[0]] + Without(ms[1..], addr)
  }

  function RemoveFirst(ms: seq<MmapEntry>, addr: nat): (r: seq<MmapEntry>)
    ensures forall i :: 0 <= i < |r| ==> r[i] in ms
  {
    if ms == [] then [] else if ms[0].addr == addr then ms[1..] else [ms[0]] + RemoveFirst(ms[1..], addr)
  }

  function Advance(r: Rules, l: Ledger, e: Event, t: Target): Ledger {
    if t.operation == "CreateFileW" then
      var fd := |l.fds| + 1;
      l.(fds := l.fds[fd := FdEntry(fd, ArgOr(e, 0, ""), "read")])
    else if t.operation == "CloseHandle" then
      var fd := if 0 < |e.args| && r.parseFd(e.args[0]).Some? then r.parseFd(e.args[0]).value else 0;
      l.(fds := l.fds - {fd})
    else if t.operation == "VirtualAlloc" then
      var addr := r.parseHex(ArgOr(e, 0, "0"));
      var len := if 1 < |e.args| && r.parseLen(e.args[1]).Some? then r.parseLen(e.args[1]).value else 0;
      l.(mmaps := Without(l.mmaps, addr) + [MmapEntry(addr, len, "rw-", "private")])
    else if t.operation == "VirtualFree" then l.(mmaps := RemoveFirst(l.mmaps, r.parseHex(ArgOr(e, 0, "0"))))
    else if t.operation == "GetCurrentDirectoryW" then l.(cwd := ArgOr(e, 0, ""))
    else if t.operation == "HeapAlloc/HeapFree" then l.(brk := r.parseHex(ArgOr(e, 0, "0")))
    else l
  }

  ghost predicate DistinctMaps(ms: seq<MmapEntry>) {
    forall i, j :: 0 <= i < j < |ms| ==> ms[i].addr != ms[j].addr
  }

  lemma {:induction false} WithoutKeepsOthers(ms: seq<MmapEntry>, addr: nat, m: MmapEntry)
    ensures m in Without(ms, addr) <==> m in ms && m.addr != addr
  {
    if ms != [] { WithoutKeepsOthers(ms[1..], addr, m); }
  }

  lemma {:induction false} RemoveKeepsOthers(ms: seq<MmapEntry>, addr: nat, m: MmapEntry)
    requires DistinctMaps(ms)
    ensures m in RemoveFirst(ms, addr) <==> m in ms && m.addr != addr
  {
    if ms != [] {
      RemoveKeepsOthers(ms[1..], addr, m);
      assert m in ms <==> m == ms[0] || m in ms[1..];
      assert forall i :: 1 <= i < |ms| ==> ms[i] == ms[1..][i - 1];
    }
  }

  /** The ledger of open files: an opened path is recorded under the next number... */
  lemma OpenInLedger(r: Rules, l: Ledger, e: Event, t: Target)
    requires t.operation == "CreateFileW"
    ensures var fds, fd := Advance(r, l, e, t).fds, |l.fds| + 1;
            && fd in fds && fds[fd] == FdEntry(fd, if |e.args| > 0 then e.args[0] else "", "read")
            && forall k :: k != fd ==> (k in fds <==> k in l.fds) && (k in fds ==> fds[k] == l.fds[k])
  {
    hide Without, RemoveFirst;
  }

  /** ...a closed number is gone, and no other operation touches the table. */
  lemma CloseInLedger(r: Rules, l: Ledger, e: Event, t: Target)
    requires t.operation != "CreateFileW"
    ensures var fds, given := Advance(r, l, e, t).fds, if |e.args| > 0 then r.parseFd(e.args[0]) else None;
            if t.operation == "CloseHandle" then fds == l.fds - {if given.Some? then given.value else 0}
            else fds == l.fds
  {
    hide Without, RemoveFirst;
  }

  /** The ledger of mappings: an allocation replaces what its address held, a release
      removes it, everything at other addresses stays. */
  lemma MapsInLedger(r: Rules, l: Ledger, e: Event, t: Target, m: MmapEntry)
    requires DistinctMaps(l.mmaps)
    ensures var ms, addr := Advance(r, l, e, t).mmaps, r.parseHex(if |e.args| > 0 then e.args[0] else "0");
            if t.operation == "VirtualAlloc" then
              var given := if |e.args| > 1 then r.parseLen(e.args[1]) else None;
              m in ms <==> if m.addr != addr then m in l.mmaps
                           else && m.prot == "rw-" && m.flags == "private"
                                && m.len == if given.Some? then given.value else 0
            else if t.operation == "VirtualFree" then m in ms <==> m in l.mmaps && m.addr != addr
            else ms == l.mmaps
  {
    var addr := r.parseHex(ArgOr(e, 0, "0"));
    WithoutKeepsOthers(l.mmaps, addr, m);
    RemoveKeepsOthers(l.mmaps, addr, m);
    hide Without, RemoveFirst, DistinctMaps;
  }

  /** Directory and break change with their own operation only. */
  lemma PlaceInLedger(r: Rules, l: Ledger, e: Event, t: Target)
    ensures Advance(r, l, e, t).cwd ==
            if t.operation == "GetCurrentDirectoryW" then (if |e.args| > 0 then e.args[0] else "") else l.cwd
    ensures Advance(r, l, e, t).brk ==
            if t.operation == "HeapAlloc/HeapFree" then r.parseHex(if |e.args| > 0 then e.args[0] else "0") else l.brk
  {
    hide Without, RemoveFirst;
  }

  datatype Outcome = Success | Failure

  datatype Record = Record(number: nat, event: Event, fallback: string, outcome: Outcome)

  datatype Pipe = Pipe(ledger: Ledger, records: seq<Record>, missCount: nat)

  function Fresh(): Pipe { Pipe(Ledger(map[], [], "", 0), [], 0) }

  function Log(p: Pipe, e: Event, fallback: string, outcome: Outcome): Pipe {
    p.(records := p.records + [Record(|p.records| + 1, e, fallback, outcome)])
  }

  /** The pipeline after an event with a given verdict; an error leaves it as it is. */
  function Apply(r: Rules, p: Pipe, e: Event, v: Verdict): Pipe {
    match v
    case Broken => p
    case Mapped(t) => Log(p.(ledger := Advance(r, p.ledger, e, t)), e, "", Success)
    case Derived(_, _) => Log(p, e, "", Success)
    case Missed => Log(p, e, "wsl2", Failure).(missCount := p.missCount + 1)
  }

  /** The pipeline after the first n events of a run from scratch. */
  function After(r: Rules, s: Settings, events: seq<Event>, n: nat): Pipe
    requires n <= |events|
  {
    if n == 0 then Fresh() else Apply(r, After(r, s, events, n - 1), events[n - 1], Classify(r, s, events[n - 1]))
  }

  /** How many of the first n events are misses. */
  function MissesTo(r: Rules, s: Settings, events: seq<Event>, n: nat): (m: nat)
    requires n <= |events|
    ensures m <= n
  {
    if n == 0 then 0
    else MissesTo(r, s, events, n - 1) + (if Classify(r, s, events[n - 1]) == Missed then 1 else 0)
  }

  /** The operations of the first n events that were not missed, in order. */
  function OperationsTo(r: Rules, s: Settings, events: seq<Event>, n: nat): seq<string>
    requires n <= |events|
  {
    if n == 0 then []
    else
      OperationsTo(r, s, events, n - 1) +
      (match Classify(r, s, events[n - 1])
       case Mapped(t) => [t.operation]
       case Derived(op, _) => [op]
       case _ => [])
  }

  /** The ledger of a run starts empty and follows the hits, in their order. */
  lemma LedgerFollowsHits(r: Rules, s: Settings, events: seq<Event>, n: nat)
    requires n <= |events|
    ensures After(r, s, events, 0).ledger == Ledger(map[], [], "", 0)
    ensures n > 0 ==>
              var before, v := After(r, s, events, n - 1).ledger, Classify(r, s, events[n - 1]);
              After(r, s, events, n).ledger == if v.Mapped? then Advance(r, before, events[n - 1], v.target) else before
  {
    hide Classify, Advance;
  }

  ghost predicate NoError(r: Rules, s: Settings, events: seq<Event>, n: nat)
    requires n <= |events|
  {
    forall i :: 0 <= i < n ==> Classify(r, s, events[i]) != Broken
  }

  // ---------------------------------------------------------------- bookkeeping over runs

  function CountTo(records: seq<Record>, o: Outcome, n: nat): (c: nat)
    requires n <= |records|
    ensures c <= n
  {
    if n == 0 then 0 else CountTo(records, o, n - 1) + (if records[n - 1].outcome == o then 1 else 0)
  }

  lemma {:induction false} CountAppend(records: seq<Record>, x: Record, o: Outcome, n: nat)
    requires n <= |records|
    ensures CountTo(records + [x], o, n) == CountTo(records, o, n)
  {
    if n > 0 { CountAppend(records, x, o, n - 1); }
  }

  /** The record of an event: its number, and for a miss the failure and its way out. */
  function Noted(number: nat, e: Event, missed: bool): Record {
    Record(number, e, if missed then "wsl2" else "", if missed then Failure else Success)
  }

  lemma ApplyLogs(r: Rules, p: Pipe, e: Event, v: Verdict)
    requires v != Broken
    ensures var q := Apply(r, p, e, v);
            && q.records == p.records + [Noted(|p.records| + 1, e, v == Missed)]
            && q.missCount == p.missCount + (if v == Missed then 1 else 0)
  {
    hide Advance;
  }

  lemma {:induction false} RecordsAreNoted(r: Rules, s: Settings, events: seq<Event>, n: nat)
    requires n <= |events| && NoError(r, s, events, n)
    ensures var p := After(r, s, events, n);
            && |p.records| == n
            && forall i :: 0 <= i < n ==> p.records[i] == Noted(i + 1, events[i], Classify(r, s, events[i]) == Missed)
  {
    hide Classify, Apply, Noted;
    if n > 0 {
      RecordsAreNoted(r, s, events, n - 1);
      ApplyLogs(r, After(r, s, events, n - 1), events[n - 1], Classify(r, s, events[n - 1]));
    }
  }

  lemma {:induction false} CountsAreKept(r: Rules, s: Settings, events: seq<Event>, n: nat)
    requires n <= |events| && NoError(r, s, events, n)
    ensures var p := After(r, s, events, n);
            && p.missCount == MissesTo(r, s, events, n) && |p.records| == n
            && CountTo(p.records, Failure, n) == p.missCount
            && CountTo(p.records, Success, n) + p.missCount == n
  {
    hide Classify, Apply;
    if n > 0 {
      CountsAreKept(r, s, events, n - 1);
      var p, e := After(r, s, events, n - 1), events[n - 1];
      var v := Classify(r, s, e);
      ApplyLogs(r, p, e, v);
      var x := Noted(n, e, v == Missed);
      CountAppend(p.records, x, Failure, n - 1);
      CountAppend(p.records, x, Success, n - 1);
    }
  }

  /** The miss counter is the number of misses, and the telemetry holds one numbered
      record per event, with a failure and a way out exactly for the misses. */
  lemma Bookkeeping(r: Rules, s: Settings, events: seq<Event>, n: nat)
    requires n <= |events| && NoError(r, s, events, n)
    ensures var p := After(r, s, events, n);
            && p.missCount == MissesTo(r, s, events, n)
            && |p.records| == n
            && (forall i :: 0 <= i < n ==> p.records[i] == Noted(i + 1, events[i], Classify(r, s, events[i]) == Missed))
            && CountTo(p.records, Failure, n) == p.missCount
            && CountTo(p.records, Success, n) + p.missCount == n
  {
    hide Classify, Apply, After, Noted, NoError;
    RecordsAreNoted(r, s, events, n);
    CountsAreKept(r, s, events, n);
  }

  lemma {:induction false} WithoutIsDistinct(ms: seq<MmapEntry>, addr: nat)
    requires DistinctMaps(ms)
    ensures DistinctMaps(Without(ms, addr))
  {
    if ms != [] { WithoutIsDistinct(ms[1..], addr); }
  }

  lemma {:induction false} RemoveFirstIsDistinct(ms: seq<MmapEntry>, addr: nat)
    requires DistinctMaps(ms)
    ensures DistinctMaps(RemoveFirst(ms, addr))
  {
    if ms != [] { RemoveFirstIsDistinct(ms[1..], addr); }
  }

  lemma AdvanceIsDistinct(r: Rules, l: Ledger, e: Event, t: Target)
    requires DistinctMaps(l.mmaps)
    ensures DistinctMaps(Advance(r, l, e, t).mmaps)
  {
    var addr := r.parseHex(ArgOr(e, 0, "0"));
    WithoutIsDistinct(l.mmaps, addr);
    RemoveFirstIsDistinct(l.mmaps, addr);
  }

  /** In every run an address is mapped at most once. */
  lemma {:induction false} AddressesAreDistinct(r: Rules, s: Settings, events: seq<Event>, n: nat)
    requires n <= |events|
    ensures DistinctMaps(After(r, s, events, n).ledger.mmaps)
  {
    hide Classify, Advance, DistinctMaps;
    if n > 0 {
      AddressesAreDistinct(r, s, events, n - 1);
      var p, e := After(r, s, events, n - 1), events[n - 1];
      match Classify(r, s, e) {
        case Mapped(t) => AdvanceIsDistinct(r, p.ledger, e, t);
        case _ =>
      }
    } else {
      assert DistinctMaps([]) by { NothingIsDistinct(); }
    }
  }

  lemma NothingIsDistinct()
    ensures DistinctMaps([])
  {
  }

  /** The operation of a verdict that has one. */
  function OperationOf(v: Verdict): string
    requires v.Mapped? || v.Derived?
  {
    match v
    case Mapped(t) => t.operation
    case Derived(operation, _) => operation
  }

  /** Without errors the operations are those of the events not missed, in their
      order: before each of them stand as many as there were earlier hits. */
  lemma {:induction false} OperationsInOrder(r: Rules, s: Settings, events: seq<Event>, n: nat, i: nat)
    requires i < n <= |events| && NoError(r, s, events, n)
    ensures var ops := OperationsTo(r, s, events, n);
            && |ops| == n - MissesTo(r, s, events, n)
            && (Classify(r, s, events[i]) != Missed ==>
                  var k := i - MissesTo(r, s, events, i);
                  k < |ops| && ops[k] == OperationOf(Classify(r, s, events[i])))
  {
    hide Classify;
    OperationCount(r, s, events, n - 1);
    OperationCount(r, s, events, n);
    if i < n - 1 { OperationsInOrder(r, s, events, n - 1, i); }
  }

  lemma {:induction false} OperationCount(r: Rules, s: Settings, events: seq<Event>, n: nat)
    requires n <= |events| && NoError(r, s, events, n)
    ensures |OperationsTo(r, s, events, n)| == n - MissesTo(r, s, events, n)
  {
    hide Classify;
    if n > 0 { OperationCount(r, s, events, n - 1); }
  }

  /** Misses are counted one by one. */
  lemma {:induction false} MissesAreCardinality(r: Rules, s: Settings, events: seq<Event>, n: nat)
    requires n <= |events|
    ensures MissesTo(r, s, events, n) == |set i: nat | i < n && Classify(r, s, events[i]) == Missed|
  {
    hide Classify;
    if n > 0 {
      MissesAreCardinality(r, s, events, n - 1);
      var before := set i: nat | i < n - 1 && Classify(r, s, events[i]) == Missed;
      assert (set i: nat | i < n && Classify(r, s, events[i]) == Missed)
          == if Classify(r, s, events[n - 1]) == Missed then before + {n - 1} else before;
    }
  }

  // ---------------------------------------------------------------- rules alone against rules with network

  /** The same pipeline without a network. */
  function RulesOnly(s: Settings): Settings { s.(network := None, codec := None) }

  /** Event by event: the same rule hits and errors; a derivation only where the
      rules alone miss, behind a ready gate, confident enough and not blocked. */
  lemma NetworkOnlyFillsMisses(r: Rules, s: Settings, e: Event)
    ensures var alone, with := Classify(r, RulesOnly(s), e), Classify(r, s, e);
            && (alone.Broken? <==> with.Broken?)
            && (alone.Mapped? || with.Mapped? ==> alone == with)
            && (with.Missed? ==> alone.Missed?)
            && !alone.Derived?
            && (with.Derived? ==> alone.Missed? && s.network.Some?
                                  && s.gate.enabled && s.gate.coverage > 0.8 && s.gate.pairedSamples >= 100_000
                                  && s.gate.successRate > 0.9
                                  && with.confidence >= s.confidenceThreshold && !Blocked(with.operation))
            && (!IsReady(s.gate) ==> alone == with)
  {
    ReadyExactly(s.gate);
    hide Blocked, IsReady;
  }

  /** Over any events: equal ledgers, never more misses; with a closed gate the
      two pipelines are indistinguishable. */
  lemma {:induction false} NetworkOnlyImproves(r: Rules, s: Settings, events: seq<Event>, n: nat)
    requires n <= |events|
    ensures var alone, with := After(r, RulesOnly(s), events, n), After(r, s, events, n);
            && with.ledger == alone.ledger
            && MissesTo(r, s, events, n) <= MissesTo(r, RulesOnly(s), events, n)
            && (!IsReady(s.gate) ==>
                  with == alone && OperationsTo(r, s, events, n) == OperationsTo(r, RulesOnly(s), events, n))
  {
    hide Classify, Advance, IsReady, RulesOnly;
    if n > 0 {
      NetworkOnlyImproves(r, s, events, n - 1);
      NetworkOnlyFillsMisses(r, s, events[n - 1]);
    }
  }

  /** One event on which the network is asked and heard makes the misses strictly fewer. */
  lemma {:induction false} OneDerivationSaves(r: Rules, s: Settings, events: seq<Event>, n: nat, i: nat)
    requires i < n <= |events| && Classify(r, s, events[i]).Derived?
    ensures MissesTo(r, s, events, n) < MissesTo(r, RulesOnly(s), events, n)
  {
    hide Classify, RulesOnly;
    NetworkOnlyFillsMisses(r, s, events[n - 1]);
    NetworkOnlyImproves(r, s, events, n - 1);
    if i < n - 1 { OneDerivationSaves(r, s, events, n - 1, i); }
  }

  // ---------------------------------------------------------------- the early-stopping run

  const FALLBACK_THRESHOLD: nat := 5

  /** The run consumes n events: the shortest prefix with five misses, or all. */
  ghost predicate StopsAt(r: Rules, s: Settings, events: seq<Event>, n: nat)
    requires n <= |events|
  {
    && (forall k :: 0 <= k < n ==> MissesTo(r, s, events, k) < FALLBACK_THRESHOLD)
    && (n < |events| ==> MissesTo(r, s, events, n) >= FALLBACK_THRESHOLD)
  }

  /** It ends with the fifth miss, or at the end of the events with fewer. */
  lemma StopsAtTheFifth(r: Rules, s: Settings, events: seq<Event>, n: nat)
    requires n <= |events| && StopsAt(r, s, events, n)
    ensures MissesTo(r, s, events, n) <= 5 && (n < |events| ==> MissesTo(r, s, events, n) == 5)
    ensures n > 0 && MissesTo(r, s, events, n) == 5 ==> Classify(r, s, events[n - 1]) == Missed
  {
    hide Classify;
    if n > 0 { assert MissesTo(r, s, events, n - 1) < FALLBACK_THRESHOLD; }
  }

  /** With the network the run goes at least as far, and falls back only if the rules alone would. */
  lemma NetworkStopsNoEarlier(r: Rules, s: Settings, events: seq<Event>, alone: nat, with: nat)
    requires alone <= |events| && with <= |events|
    requires StopsAt(r, RulesOnly(s), events, alone) && StopsAt(r, s, events, with)
    ensures alone <= with
    ensures MissesTo(r, s, events, with) >= FALLBACK_THRESHOLD ==>
              MissesTo(r, RulesOnly(s), events, alone) >= FALLBACK_THRESHOLD
  {
    hide MissesTo, RulesOnly;
    NetworkOnlyImproves(r, s, events, with);
    if with < alone { assert false; }
  }

  // ---------------------------------------------------------------- the numbers of missed events

  /** One of the first n records is a failure with this event number. */
  predicate FailureNumber(records: seq<Record>, n: nat, x: int)
    requires n <= |records|
  {
    exists i :: 0 <= i < n && records[i].outcome == Failure && records[i].event.nr == x
  }

  predicate Ordered(s: seq<int>) { forall i, j :: 0 <= i < j < |s| ==> s[i] <= s[j] }

  predicate Ascending(s: seq<int>) { forall i, j :: 0 <= i < j < |s| ==> s[i] < s[j] }

  function Insert(x: int, s: seq<int>): (r: seq<int>)
    requires Ordered(s)
    ensures Ordered(r) && forall y :: y in r <==> y == x || y in s
  {
    if s == [] || x <= s[0] then [x] + s
    else
      var rest := Insert(x, s[1..]);
      assert forall k :: 0 <= k < |rest| ==> rest[k] in rest;
      [s[0]] + rest
  }

  function SortNumbers(s: seq<int>): (r: seq<int>)
    ensures Ordered(r) && forall y :: y in r <==> y in s
  {
    if s == [] then [] else Insert(s[0], SortNumbers(s[1..]))
  }

  /** Keeps one of each run of equal neighbours. */
  method Dedup(s: seq<int>) returns (r: seq<int>)
    requires Ordered(s)
    ensures Ascending(r) && forall y :: y in r <==> y in s
  {
    r := [];
    for i := 0 to |s|
      invariant Ascending(r) && forall y :: y in r <==> y in s[..i]
      invariant r == [] <==> i == 0
      invariant i > 0 ==> r[|r| - 1] == s[i - 1]
    {
      assert s[..i + 1] == s[..i] + [s[i]];
      assert forall k :: 0 <= k < |r| ==> r[k] in r;
      if i == 0 || s[i] != s[i - 1] {
        r := r + [s[i]];
      }
    }
    assert s[..|s|] == s;
  }

  // ---------------------------------------------------------------- the pipeline object

  class DecisionPipeline {
    const rules: Rules
    const settings: Settings
    var state: Ledger
    var records: seq<Record>
    var nextSeq: nat
    var missCount: nat

    ghost predicate Valid()
      reads this
    {
      nextSeq == |records|
    }

    ghost function View(): Pipe
      reads this
    {
      Pipe(state, records, missCount)
    }

    constructor (rules: Rules, settings: Settings)
      ensures Valid() && View() == Fresh() && this.rules == rules && this.settings == settings
    {
      this.rules, this.settings := rules, settings;
      state := Ledger(map[], [], "", 0);
      records, nextSeq, missCount := [], 0, 0;
    }

    method AddRecord(e: Event, fallback: string, outcome: Outcome)
      requires Valid()
      modifies `records, `nextSeq
      ensures Valid() && View() == Log(old(View()), e, fallback, outcome)
    {
      nextSeq := nextSeq + 1;
      records := records + [Record(nextSeq, e, fallback, outcome)];
    }

    /** Rule, then derivation, then miss. */
    method Step(e: Event) returns (v: Verdict)
      requires Valid()
      modifies this
      ensures Valid()
      ensures v == Classify(rules, settings, e)
      ensures View() == Apply(rules, old(View()), e, v)
    {
      hide TryDerive, Advance;
      match rules.intercept(e) {
        case LookupError =>
          v := Broken;
        case Rule(target) =>
          if !rules.injectable(target.operation) {
            return Broken;
          }
          state := Advance(rules, state, e, target);
          AddRecord(e, "", Success);
          v := Mapped(target);
        case NoRule =>
          var derived := TryDerive(settings, e);
          if derived.Some? {
            AddRecord(e, "", Success);
            return Derived(derived.value.windowsOp, derived.value.confidence);
          }
          AddRecord(e, "wsl2", Failure);
          missCount := missCount + 1;
          v := Missed;
      }
    }

    /** The numbers of the missed events, ascending, each once. */
    method UniqueSyscalls() returns (nrs: seq<int>)
      requires Valid()
      ensures Ascending(nrs)
      ensures forall x :: x in nrs <==> FailureNumber(records, |records|, x)
    {
      nrs := [];
      for n := 0 to |records|
        invariant forall x :: x in nrs <==> FailureNumber(records, n, x)
      {
        if records[n].outcome == Failure {
          nrs := nrs + [records[n].event.nr];
        }
      }
      nrs := SortNumbers(nrs);
      nrs := Dedup(nrs);
    }

    predicate ShouldFallback()
      reads this
    {
      missCount >= settings.fallbackThreshold
    }
  }

  datatype Report =
    | StepError
    | Unavailable
    | FallbackError
    | Done(fellBack: bool, mapped: seq<string>, missed: nat, uniqueMissed: seq<int>, state: Ledger)

  ghost predicate MissedNumber(r: Rules, s: Settings, events: seq<Event>, n: nat, x: int)
    requires n <= |events|
  {
    exists i :: 0 <= i < n && Classify(r, s, events[i]) == Missed && events[i].nr == x
  }

  lemma StartOfRun(r: Rules, s: Settings, events: seq<Event>)
    ensures After(r, s, events, 0) == Fresh() && MissesTo(r, s, events, 0) == 0 && OperationsTo(r, s, events, 0) == []
  {
  }

  lemma NextOfRun(r: Rules, s: Settings, events: seq<Event>, n: nat)
    requires 0 < n <= |events|
    ensures var v := Classify(r, s, events[n - 1]);
            && After(r, s, events, n) == Apply(r, After(r, s, events, n - 1), events[n - 1], v)
            && MissesTo(r, s, events, n) == MissesTo(r, s, events, n - 1) + (if v.Missed? then 1 else 0)
            && OperationsTo(r, s, events, n) == OperationsTo(r, s, events, n - 1) +
                 (if v.Mapped? then [v.target.operation] else if v.Derived? then [v.operation] else [])
  {
    hide Classify, Apply;
  }

  lemma MissCount(r: Rules, s: Settings, events: seq<Event>, n: nat)
    requires n <= |events| && NoError(r, s, events, n)
    ensures After(r, s, events, n).missCount == MissesTo(r, s, events, n)
  {
    CountsAreKept(r, s, events, n);
    hide After, Classify;
  }

  lemma NumbersAreMissed(r: Rules, s: Settings, events: seq<Event>, n: nat, unique: seq<int>)
    requires n <= |events| && NoError(r, s, events, n)
    requires var records := After(r, s, events, n).records;
             forall x :: x in unique <==> FailureNumber(records, |records|, x)
    ensures forall x :: x in unique <==> MissedNumber(r, s, events, n, x)
  {
    Bookkeeping(r, s, events, n);
    hide Classify, After;
    var records := After(r, s, events, n).records;
    forall x
      ensures x in unique <==> MissedNumber(r, s, events, n, x)
    {
      if MissedNumber(r, s, events, n, x) {
        var i :| 0 <= i < n && Classify(r, s, events[i]) == Missed && events[i].nr == x;
        assert records[i].outcome == Failure && records[i].event.nr == x;
      }
    }
  }

  /** The early-stopping run. `wslReady` and `fallbackWorks` are the answers of the
      second execution path. The second result is the number of events consumed. */
  method RunB1(rules: Rules, settings: Settings, events: seq<Event>, wslReady: bool, fallbackWorks: bool)
    returns (report: Report, consumed: nat)
    requires settings.fallbackThreshold == FALLBACK_THRESHOLD
    ensures consumed <= |events|
    ensures report.StepError? ==> consumed < |events| && Classify(rules, settings, events[consumed]) == Broken
                                  && MissesTo(rules, settings, events, consumed) < FALLBACK_THRESHOLD
    ensures NoError(rules, settings, events, consumed)
    ensures !report.StepError? ==>
              var misses := MissesTo(rules, settings, events, consumed);
              var fellBack := misses == FALLBACK_THRESHOLD;
              && StopsAt(rules, settings, events, consumed)
              && misses <= FALLBACK_THRESHOLD
              && (report.Unavailable? <==> fellBack && !wslReady)
              && (report.FallbackError? <==> fellBack && wslReady && !fallbackWorks)
              && (report.Done? ==>
                    report == Done(fellBack, OperationsTo(rules, settings, events, consumed), misses,
                                   report.uniqueMissed, After(rules, settings, events, consumed).ledger))
    ensures report.Done? ==>
              && Ascending(report.uniqueMissed)
              && forall x :: x in report.uniqueMissed <==> MissedNumber(rules, settings, events, consumed, x)
  {
    hide Classify, Apply, After, MissesTo, OperationsTo;
    StartOfRun(rules, settings, events);
    var pipeline := new DecisionPipeline(rules, settings);
    var mapped: seq<string> := [];
    consumed := 0;
    var i := 0;
    while i < |events|
      invariant 0 <= i <= |events| && consumed == i && pipeline.Valid() && fresh(pipeline)
      invariant pipeline.rules == rules && pipeline.settings == settings
      invariant pipeline.View() == After(rules, settings, events, i)
      invariant NoError(rules, settings, events, i)
      invariant mapped == OperationsTo(rules, settings, events, i)
      invariant forall k :: 0 <= k <= i ==> MissesTo(rules, settings, events, k) < FALLBACK_THRESHOLD
    {
      var v := pipeline.Step(events[i]);
      if v.Broken? {
        return StepError, i;
      }
      i := i + 1;
      consumed := i;
      NextOfRun(rules, settings, events, i);
      MissCount(rules, settings, events, i);
      match v {
        case Mapped(target) =>
          mapped := mapped + [target.operation];
        case Derived(operation, _) =>
          mapped := mapped + [operation];
        case Missed =>
          if pipeline.ShouldFallback() {
            break;
          }
        case Broken =>
          assert false;
      }
    }
    MissCount(rules, settings, events, consumed);
    var fellBack := pipeline.ShouldFallback();
    if fellBack && !wslReady {
      return Unavailable, consumed;
    }
    if fellBack && !fallbackWorks {
      return FallbackError, consumed;
    }
    var unique := pipeline.UniqueSyscalls();
    NumbersAreMissed(rules, settings, events, consumed, unique);
    report := Done(fellBack, mapped, pipeline.missCount, unique, pipeline.state);
  }
}
