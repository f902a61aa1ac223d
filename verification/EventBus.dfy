/** The event bus (eventbus.rs) under concurrency: publishers interleave the three
    atomic steps of a publication - stamp, send, count - in any way. */
module EventBus {
  /** Where a publisher stands. */
  datatype Phase = Idle | Stamped(stamp: nat) | Handed(stamp: nat, accepted: bool)

  /** The shared counters, the number of receivers, the publishers, the stamps in
      the order the channel took them, and the stamps in the order they were drawn. */
  datatype Bus = Bus(seqNo: nat, sent: nat, dropped: nat, receivers: nat,
                     phases: seq<Phase>, channel: seq<nat>, issued: seq<nat>)

  datatype Action = Stamp(p: nat) | Send(p: nat) | Count(p: nat) | Subscribe | Unsubscribe

  function New(publishers: nat): Bus { Bus(0, 0, 0, 0, seq(publishers, _ => Idle), [], []) }

  /** A step that is not possible changes nothing. A send fails only without receivers. */
  function Step(b: Bus, a: Action): Bus {
    match a
    case Stamp(p) =>
      if p < |b.phases| && b.phases[p].Idle? then
        b.(seqNo := b.seqNo + 1, phases := b.phases[p := Stamped(b.seqNo)], issued := b.issued + [b.seqNo])
      else b
    case Send(p) =>
      if p < |b.phases| && b.phases[p].Stamped? then
        var n := b.phases[p].stamp;
        if b.receivers > 0 then b.(phases := b.phases[p := Handed(n, true)], channel := b.channel + [n])
        else b.(phases := b.phases[p := Handed(n, false)])
      else b
    case Count(p) =>
      if p < |b.phases| && b.phases[p].Handed? then
        var idle := b.phases[p := Idle];
        if b.phases[p].accepted then b.(phases := idle, sent := b.sent + 1)
        else b.(phases := idle, dropped := b.dropped + 1)
      else b
    case Subscribe => b.(receivers := b.receivers + 1)
    case Unsubscribe => if b.receivers > 0 then b.(receivers := b.receivers - 1) else b
  }

  function Run(b: Bus, actions: seq<Action>): Bus {
    if actions == [] then b else Step(Run(b, actions[..|actions| - 1]), actions[|actions| - 1])
  }

  function InFlight(phases: seq<Phase>): nat {
    if phases == [] then 0
    else InFlight(phases[..|phases| - 1]) + (if phases[|phases| - 1].Idle? then 0 else 1)
  }

  /** Publishers whose event was accepted, or refused, and is not counted yet. */
  function Uncounted(phases: seq<Phase>, accepted: bool): nat {
    if phases == [] then 0
    else Uncounted(phases[..|phases| - 1], accepted) + Answered(phases[|phases| - 1], accepted)
  }

  function Answered(p: Phase, accepted: bool): nat { if p.Handed? && p.accepted == accepted then 1 else 0 }

  ghost predicate Inv(b: Bus) {
    && b.sent + b.dropped + InFlight(b.phases) == b.seqNo
    && |b.channel| == b.sent + Uncounted(b.phases, true)
    && |b.issued| == b.seqNo && (forall i :: 0 <= i < b.seqNo ==> b.issued[i] == i)
    && (forall p :: 0 <= p < |b.phases| && !b.phases[p].Idle? ==> b.phases[p].stamp < b.seqNo)
    && (forall p, q :: 0 <= p < q < |b.phases| && !b.phases[p].Idle? && !b.phases[q].Idle? ==>
          b.phases[p].stamp != b.phases[q].stamp)
    && (forall i :: 0 <= i < |b.channel| ==> b.channel[i] < b.seqNo)
    && (forall i, j :: 0 <= i < j < |b.channel| ==> b.channel[i] != b.channel[j])
    && (forall p, i :: 0 <= p < |b.phases| && 0 <= i < |b.channel| && b.phases[p].Stamped? ==>
          b.channel[i] != b.phases[p].stamp)
  }

  lemma {:induction false} PhaseChange(phases: seq<Phase>, p: nat, x: Phase)
    requires p < |phases|
    ensures InFlight(phases[p := x]) + (if phases[p].Idle? then 0 else 1)
            == InFlight(phases) + (if x.Idle? then 0 else 1)
  {
    var n := |phases| - 1;
    if p < n {
      PhaseChange(phases[..n], p, x);
      assert phases[p := x][..n] == phases[..n][p := x];
    } else {
      assert phases[p := x][..n] == phases[..n];
    }
  }

  lemma {:induction false} AnswerChange(phases: seq<Phase>, p: nat, x: Phase, accepted: bool)
    requires p < |phases|
    ensures Uncounted(phases[p := x], accepted) + Answered(phases[p], accepted)
            == Uncounted(phases, accepted) + Answered(x, accepted)
  {
    var n := |phases| - 1;
    if p < n {
      AnswerChange(phases[..n], p, x, accepted);
      assert phases[p := x][..n] == phases[..n][p := x];
    } else {
      assert phases[p := x][..n] == phases[..n];
    }
  }

  /** A publisher moves on. */
  lemma Moves(phases: seq<Phase>, p: nat, x: Phase)
    requires p < |phases|
    ensures InFlight(phases[p := x]) + (if phases[p].Idle? then 0 else 1)
            == InFlight(phases) + (if x.Idle? then 0 else 1)
    ensures Uncounted(phases[p := x], true) + Answered(phases[p], true) == Uncounted(phases, true) + Answered(x, true)
    ensures Uncounted(phases[p := x], false) + Answered(phases[p], false)
            == Uncounted(phases, false) + Answered(x, false)
  {
    PhaseChange(phases, p, x);
    AnswerChange(phases, p, x, true);
    AnswerChange(phases, p, x, false);
  }

  lemma StepKeepsInv(b: Bus, a: Action)
    requires Inv(b)
    ensures Inv(Step(b, a))
  {
    hide InFlight, Uncounted;
    match a {
      case Stamp(p) => if p < |b.phases| { Moves(b.phases, p, Stamped(b.seqNo)); }
      case Send(p) =>
        if p < |b.phases| && b.phases[p].Stamped? {
          Moves(b.phases, p, Handed(b.phases[p].stamp, true));
          Moves(b.phases, p, Handed(b.phases[p].stamp, false));
        }
      case Count(p) => if p < |b.phases| { Moves(b.phases, p, Idle); }
      case Subscribe =>
      case Unsubscribe =>
    }
  }

  lemma {:induction false} NobodyInFlight(phases: seq<Phase>)
    requires forall p :: 0 <= p < |phases| ==> phases[p].Idle?
    ensures InFlight(phases) == 0 && Uncounted(phases, true) == 0 && Uncounted(phases, false) == 0
  {
    if phases != [] { NobodyInFlight(phases[..|phases| - 1]); }
  }

  /** Under every interleaving: stamps are handed out once each in counting order,
      nothing is delivered twice, and the counters balance. */
  lemma {:induction false} RunKeepsInv(publishers: nat, actions: seq<Action>)
    ensures Inv(Run(New(publishers), actions))
  {
    if actions == [] {
      NobodyInFlight(New(publishers).phases);
    } else {
      hide Step, Inv;
      RunKeepsInv(publishers, actions[..|actions| - 1]);
      StepKeepsInv(Run(New(publishers), actions[..|actions| - 1]), actions[|actions| - 1]);
    }
  }

  ghost predicate Quiet(b: Bus) { forall p :: 0 <= p < |b.phases| ==> b.phases[p].Idle? }

  /** Whenever no publication is in progress, sent + dropped is the number published
      and the channel took exactly the sent ones. */
  lemma IdleMetrics(publishers: nat, actions: seq<Action>)
    requires Quiet(Run(New(publishers), actions))
    ensures var b := Run(New(publishers), actions);
            b.sent + b.dropped == b.seqNo == |b.issued| && |b.channel| == b.sent
  {
    RunKeepsInv(publishers, actions);
    NobodyInFlight(Run(New(publishers), actions).phases);
    hide Run;
  }

  /** A receiver that comes and goes leaves the bus as it was. */
  lemma ReceiverComesAndGoes(b: Bus)
    ensures Step(b, Subscribe).receivers == b.receivers + 1
    ensures Step(Step(b, Subscribe), Unsubscribe) == b
  {
  }

  // ---------------------------------------------------------------- order of delivery

  ghost predicate Ascending(s: seq<nat>) { forall i, j :: 0 <= i < j < |s| ==> s[i] < s[j] }

  ghost predicate Waits(b: Bus, p: int) { 0 <= p < |b.phases| && b.phases[p].Stamped? }

  /** Deliveries from a position on are in stamp order, and every stamp waiting to be
      sent is larger than all of them. */
  ghost predicate Orderly(b: Bus, from: nat) {
    && (forall i, j :: from <= i < j < |b.channel| ==> b.channel[i] < b.channel[j])
    && (forall p, i :: Waits(b, p) && from <= i < |b.channel| ==> b.channel[i] < b.phases[p].stamp)
  }

  /** When the step delivers a stamp, it is the smallest one waiting. */
  ghost predicate SmallestFirst(b: Bus, a: Action) {
    a.Send? && Waits(b, a.p) && b.receivers > 0 ==>
      forall q :: Waits(b, q) ==> b.phases[a.p].stamp <= b.phases[q].stamp
  }

  /** Two publishers suffice to deliver stamp 1 before stamp 0. */
  lemma OvertakingIsPossible()
    ensures Run(New(2), [Subscribe, Stamp(0), Stamp(1), Send(1), Send(0)]).channel == [1, 0]
  {
    var b0 := New(2);
    var a := [Subscribe, Stamp(0), Stamp(1), Send(1), Send(0)];
    assert a[..4] == [Subscribe, Stamp(0), Stamp(1), Send(1)];
    assert a[..4][..3] == [Subscribe, Stamp(0), Stamp(1)];
    assert a[..4][..3][..2] == [Subscribe, Stamp(0)];
    assert a[..4][..3][..2][..1] == [Subscribe];
    assert a[..4][..3][..2][..1][..0] == [];
    var b1 := Step(b0, Subscribe);
    assert Run(b0, a[..4][..3][..2][..1]) == b1;
    var b2 := Step(b1, Stamp(0));
    assert Run(b0, a[..4][..3][..2]) == b2;
    var b3 := Step(b2, Stamp(1));
    assert Run(b0, a[..4][..3]) == b3;
    var b4 := Step(b3, Send(1));
    assert Run(b0, a[..4]) == b4;
  }

  /** One step, of any kind, keeps the order exactly when it delivers no stamp or the
      smallest one waiting. */
  lemma StepOrder(b: Bus, a: Action, from: nat)
    requires Inv(b) && from <= |b.channel| && Orderly(b, from)
    ensures Orderly(Step(b, a), from) <==> SmallestFirst(b, a)
  {
    hide InFlight, Uncounted;
    var c := Step(b, a);
    if a.Send? && Waits(b, a.p) && b.receivers > 0 {
      var n := b.phases[a.p].stamp;
      assert c.channel[|b.channel|] == n;
      forall q | Waits(b, q) && q != a.p
        ensures Waits(c, q) && c.phases[q] == b.phases[q]
      {
      }
    } else {
      assert c.channel == b.channel;
      forall q | Waits(c, q)
        ensures c.phases[q].stamp == b.seqNo || (Waits(b, q) && c.phases[q] == b.phases[q])
      {
      }
    }
  }

  /** What no step takes back. */
  lemma StepGrows(b: Bus, a: Action)
    ensures var c := Step(b, a);
            && b.channel <= c.channel && b.seqNo <= c.seqNo && |c.phases| == |b.phases|
            && (a != Unsubscribe ==> b.receivers <= c.receivers)
  {
  }

  lemma {:induction false} RunGrows(b: Bus, actions: seq<Action>)
    requires Inv(b)
    ensures var c := Run(b, actions); Inv(c) && b.channel <= c.channel && b.seqNo <= c.seqNo
  {
    if actions != [] {
      hide Inv, Step;
      RunGrows(b, actions[..|actions| - 1]);
      StepGrows(Run(b, actions[..|actions| - 1]), actions[|actions| - 1]);
      StepKeepsInv(Run(b, actions[..|actions| - 1]), actions[|actions| - 1]);
    }
  }

  ghost predicate OrderlyTo(b: Bus, actions: seq<Action>, n: nat)
    requires n <= |actions|
  {
    forall k :: 0 <= k <= n ==> Orderly(Run(b, actions[..k]), |b.channel|)
  }

  ghost predicate SmallestFirstTo(b: Bus, actions: seq<Action>, n: nat)
    requires n <= |actions|
  {
    forall k :: 0 <= k < n ==> SmallestFirst(Run(b, actions[..k]), actions[k])
  }

  lemma NextRun(b: Bus, actions: seq<Action>, n: nat)
    requires n < |actions|
    ensures Run(b, actions[..n + 1]) == Step(Run(b, actions[..n]), actions[n])
  {
    assert actions[..n + 1][..n] == actions[..n];
  }

  /** Over any run, from any state: deliveries stay in order throughout exactly when
      every delivery takes the smallest stamp waiting at that moment. */
  lemma {:induction false} OrderKeptExactly(b: Bus, actions: seq<Action>, n: nat)
    requires Inv(b) && n <= |actions|
    ensures OrderlyTo(b, actions, n) <==> SmallestFirstTo(b, actions, n)
  {
    hide Inv, Step, Orderly, SmallestFirst, Run;
    if n == 0 {
      assert actions[..0] == [];
      EmptyRun(b);
    } else {
      OrderKeptExactly(b, actions, n - 1);
      var c := Run(b, actions[..n - 1]);
      RunGrows(b, actions[..n - 1]);
      NextRun(b, actions, n - 1);
      if Orderly(c, |b.channel|) { StepOrder(c, actions[n - 1], |b.channel|); }
    }
  }

  lemma EmptyRun(b: Bus)
    ensures Run(b, []) == b && Orderly(b, |b.channel|)
  {
  }

  // ---------------------------------------------------------------- continuity

  /** Every stamp drawn or delivered since a state is at least its counter. */
  ghost predicate Later(b: Bus, since: Bus) {
    && (forall p :: Waits(b, p) ==> since.seqNo <= b.phases[p].stamp)
    && (forall i :: |since.channel| <= i < |b.channel| ==> since.seqNo <= b.channel[i])
  }

  lemma StepIsLater(b: Bus, a: Action, since: Bus)
    requires Later(b, since) && since.seqNo <= b.seqNo && |since.channel| <= |b.channel|
    ensures Later(Step(b, a), since)
  {
    var c := Step(b, a);
    forall q | Waits(c, q)
      ensures c.phases[q].stamp == b.seqNo || (Waits(b, q) && c.phases[q] == b.phases[q])
    {
    }
    if a.Send? && Waits(b, a.p) {
      assert forall i :: 0 <= i < |b.channel| ==> c.channel[i] == b.channel[i];
    }
  }

  lemma {:induction false} RunIsLater(since: Bus, actions: seq<Action>)
    requires Inv(since) && Quiet(since)
    ensures Later(Run(since, actions), since)
  {
    if actions != [] {
      RunIsLater(since, actions[..|actions| - 1]);
      RunGrows(since, actions[..|actions| - 1]);
      hide Inv, Step, Later;
      StepIsLater(Run(since, actions[..|actions| - 1]), actions[|actions| - 1], since);
    }
  }

  /** The stamps from a to b - 1. */
  function Range(a: nat, b: nat): (s: seq<nat>)
    requires a <= b
    ensures |s| == b - a && forall i :: 0 <= i < b - a ==> s[i] == a + i
  {
    seq(b - a, i => a + i)
  }

  ghost predicate Distinct(s: seq<nat>) { forall i, j :: 0 <= i < j < |s| ==> s[i] != s[j] }

  lemma {:induction false} DistinctCount(s: seq<nat>, x: nat)
    requires Distinct(s)
    ensures multiset(s)[x] == if x in s then 1 else 0
  {
    if s != [] {
      var n := |s| - 1;
      assert s == s[..n] + [s[n]];
      DistinctCount(s[..n], x);
      assert s[n] !in s[..n];
    }
  }

  /** Distinct stamps without one of them. */
  lemma Removed(s: seq<nat>, k: nat)
    requires Distinct(s) && k < |s|
    ensures var t := s[..k] + s[k + 1..];
            Distinct(t) && forall x :: x in t <==> x in s && x != s[k]
  {
    var t := s[..k] + s[k + 1..];
    forall x | x in s && x != s[k]
      ensures x in t
    {
      var i :| 0 <= i < |s| && s[i] == x;
      assert x == if i < k then t[i] else t[i - 1];
    }
  }

  /** n different stamps in a range of n fill it. */
  lemma {:induction false} Pigeonhole(s: seq<nat>, a: nat)
    requires Distinct(s) && forall i :: 0 <= i < |s| ==> a <= s[i] < a + |s|
    ensures forall x :: x in s <==> a <= x < a + |s|
  {
    if s != [] {
      var n := |s| - 1;
      var top := a + n;
      var k := if top in s then IndexIn(s, top) else n;
      var t := s[..k] + s[k + 1..];
      Removed(s, k);
      hide Distinct;
      forall i | 0 <= i < |t|
        ensures a <= t[i] < a + n
      {
        assert t[i] in t;
      }
      Pigeonhole(t, a);
      assert s[k] in s && s[k] !in t;
    }
  }

  ghost function IndexIn(s: seq<nat>, x: nat): (k: nat)
    requires x in s
    ensures k < |s| && s[k] == x
  {
    var k :| 0 <= k < |s| && s[k] == x;
    k
  }

  lemma SameElements(s: seq<nat>, t: seq<nat>)
    requires Distinct(s) && Distinct(t) && forall x :: x in s <==> x in t
    ensures multiset(s) == multiset(t)
  {
    forall x: nat
      ensures multiset(s)[x] == multiset(t)[x]
    {
      DistinctCount(s, x);
      DistinctCount(t, x);
    }
  }

  lemma {:induction false} SortedRange(s: seq<nat>, a: nat, i: nat)
    requires Ascending(s) && (forall x :: x in s <==> a <= x < a + |s|) && i <= |s|
    ensures forall j :: 0 <= j < i ==> s[j] == a + j
  {
    if i > 0 {
      SortedRange(s, a, i - 1);
      var x: nat := a + i - 1;
      assert s[i - 1] in s && x in s;
      var k :| 0 <= k < |s| && s[k] == x;
      assert i > 1 ==> s[i - 2] < s[i - 1];
    }
  }

  /** What the channel took during a run. */
  ghost function Delivered(b: Bus, actions: seq<Action>): seq<nat>
    requires Inv(b)
  {
    RunGrows(b, actions);
    Run(b, actions).channel[|b.channel|..]
  }

  lemma DeliveredAreNew(b: Bus, actions: seq<Action>)
    requires Inv(b) && Quiet(b)
    ensures var c, s := Run(b, actions), Delivered(b, actions);
            && b.seqNo <= c.seqNo && Distinct(s)
            && forall i :: 0 <= i < |s| ==> b.seqNo <= s[i] < c.seqNo
  {
    RunGrows(b, actions);
    RunIsLater(b, actions);
    hide Run, InFlight, Uncounted;
  }

  lemma DeliveredCount(b: Bus, actions: seq<Action>)
    requires Inv(b) && Quiet(b) && Quiet(Run(b, actions))
    ensures var c := Run(b, actions); |Delivered(b, actions)| + c.dropped == c.seqNo - b.seqNo + b.dropped
  {
    RunGrows(b, actions);
    NobodyInFlight(b.phases);
    NobodyInFlight(Run(b, actions).phases);
    hide Run;
  }

  // ---------------------------------------------------------------- drops

  /** When the step sends, somebody receives. */
  ghost predicate Served(b: Bus, a: Action) { a.Send? && Waits(b, a.p) ==> b.receivers > 0 }

  ghost predicate ServedTo(b: Bus, actions: seq<Action>, n: nat)
    requires n <= |actions|
  {
    forall k :: 0 <= k < n ==> Served(Run(b, actions[..k]), actions[k])
  }

  /** Events refused so far, counted or about to be. */
  function Refused(b: Bus): nat { b.dropped + Uncounted(b.phases, false) }

  /** A step refuses an event exactly when it sends without a receiver. */
  lemma StepRefuses(b: Bus, a: Action)
    ensures Refused(Step(b, a)) == Refused(b) + (if Served(b, a) then 0 else 1)
  {
    hide InFlight, Uncounted;
    match a {
      case Stamp(p) => if p < |b.phases| { Moves(b.phases, p, Stamped(b.seqNo)); }
      case Send(p) =>
        if p < |b.phases| && b.phases[p].Stamped? {
          Moves(b.phases, p, Handed(b.phases[p].stamp, true));
          Moves(b.phases, p, Handed(b.phases[p].stamp, false));
        }
      case Count(p) => if p < |b.phases| { Moves(b.phases, p, Idle); }
      case Subscribe =>
      case Unsubscribe =>
    }
  }

  lemma {:induction false} RunRefuses(b: Bus, actions: seq<Action>, n: nat)
    requires n <= |actions|
    ensures Refused(b) <= Refused(Run(b, actions[..n]))
    ensures Refused(Run(b, actions[..n])) == Refused(b) <==> ServedTo(b, actions, n)
  {
    hide Step, Refused, Served, Run;
    if n == 0 {
      assert actions[..0] == [];
      EmptyRun(b);
    } else {
      RunRefuses(b, actions, n - 1);
      NextRun(b, actions, n - 1);
      StepRefuses(Run(b, actions[..n - 1]), actions[n - 1]);
    }
  }

  /** Between two quiet moments an event is dropped exactly when some send in between
      finds no receiver. */
  lemma DropsExactly(b: Bus, actions: seq<Action>)
    requires Quiet(b) && Quiet(Run(b, actions))
    ensures Run(b, actions).dropped == b.dropped <==> ServedTo(b, actions, |actions|)
  {
    RunRefuses(b, actions, |actions|);
    assert actions[..|actions|] == actions;
    NobodyInFlight(b.phases);
    NobodyInFlight(Run(b, actions).phases);
    hide Run, Served;
  }

  /** A subscriber that stays serves every send. */
  lemma {:induction false} StayingServes(b: Bus, actions: seq<Action>, n: nat)
    requires n <= |actions| && b.receivers > 0 && Unsubscribe !in actions
    ensures Run(b, actions[..n]).receivers > 0 && ServedTo(b, actions, n)
  {
    hide Step, Run;
    if n == 0 {
      assert actions[..0] == [];
      EmptyRun(b);
    } else {
      StayingServes(b, actions, n - 1);
      NextRun(b, actions, n - 1);
      StepGrows(Run(b, actions[..n - 1]), actions[n - 1]);
    }
  }

  /** A publication without a receiver loses its stamp. */
  lemma StampIsLost()
    ensures var c := Run(New(1), [Stamp(0), Send(0), Count(0)]);
            Quiet(c) && c.seqNo == 1 && c.channel == [] && c.dropped == 1
  {
    var b, a := New(1), [Stamp(0), Send(0), Count(0)];
    assert a[..2] == [Stamp(0), Send(0)] && a[..2][..1] == [Stamp(0)] && a[..2][..1][..0] == [];
    assert Run(b, a[..2][..1]) == Step(b, Stamp(0));
    assert Run(b, a[..2]) == Step(Step(b, Stamp(0)), Send(0));
  }

  // ---------------------------------------------------------------- nothing missing, nothing overtaken

  /** Between two quiet moments the stamps delivered are exactly those drawn, in some
      order, if and only if no send found the channel without a receiver. */
  lemma NothingIsMissingExactly(b: Bus, actions: seq<Action>)
    requires Inv(b) && Quiet(b) && Quiet(Run(b, actions))
    ensures var c := Run(b, actions);
            && b.seqNo <= c.seqNo
            && (multiset(Delivered(b, actions)) == multiset(Range(b.seqNo, c.seqNo))
                <==> ServedTo(b, actions, |actions|))
  {
    hide Run, Inv, Delivered, Quiet, Served;
    DropsExactly(b, actions);
    DeliveredAreNew(b, actions);
    DeliveredCount(b, actions);
    var c, s := Run(b, actions), Delivered(b, actions);
    var r := Range(b.seqNo, c.seqNo);
    assert |multiset(s)| == |s| && |multiset(r)| == |r|;
    if c.dropped == b.dropped {
      Pigeonhole(s, b.seqNo);
      forall x
        ensures x in s <==> x in r
      {
        if b.seqNo <= x < c.seqNo { assert r[x - b.seqNo] == x; }
      }
      SameElements(s, r);
    }
  }

  /** In an ascending history nothing early is overtaken by what comes later. */
  lemma LaterIsLarger(early: seq<nat>, all: seq<nat>, from: nat, x: nat)
    requires from <= |early| && early <= all && Ascending(all[from..])
    ensures forall i, j :: from <= i < j < |early| ==> early[i] < early[j]
    ensures x in all[from..] && x !in early ==> forall i :: from <= i < |early| ==> early[i] < x
  {
    var s := all[from..];
    assert forall i :: from <= i < |all| ==> all[i] == s[i - from];
    if x in s && x !in early {
      var j :| 0 <= j < |s| && s[j] == x;
      assert all[from + j] == x;
      assert forall i :: 0 <= i < |early| ==> early[i] in early && early[i] == all[i];
    }
  }

  /** When the stamps of a run are all delivered in ascending order, no delivery has
      overtaken a waiting stamp on the way. */
  lemma NeverOvertaken(b: Bus, actions: seq<Action>, k: nat)
    requires Inv(b) && Quiet(b) && k <= |actions| && Ascending(Delivered(b, actions))
    requires forall x :: x in Delivered(b, actions) <==> b.seqNo <= x < Run(b, actions).seqNo
    ensures Orderly(Run(b, actions[..k]), |b.channel|)
  {
    var c, m := Run(b, actions), Run(b, actions[..k]);
    RunGrows(b, actions);
    RunGrows(b, actions[..k]);
    RunIsLater(b, actions[..k]);
    RunSplits(b, actions, k);
    RunGrows(m, actions[k..]);
    assert c.channel[|b.channel|..] == Delivered(b, actions);
    hide Run, Quiet, Delivered;
    LaterIsLarger(m.channel, c.channel, |b.channel|, 0);
    forall p | Waits(m, p)
      ensures forall i :: |b.channel| <= i < |m.channel| ==> m.channel[i] < m.phases[p].stamp
    {
      WaitingIsNotDelivered(m, p);
      hide Inv;
      LaterIsLarger(m.channel, c.channel, |b.channel|, m.phases[p].stamp);
    }
  }

  lemma WaitingIsNotDelivered(b: Bus, p: int)
    requires Inv(b) && Waits(b, p)
    ensures b.phases[p].stamp !in b.channel && b.phases[p].stamp < b.seqNo
  {
    hide InFlight, Uncounted;
  }

  lemma {:induction false} RunSplits(b: Bus, actions: seq<Action>, k: nat)
    requires k <= |actions|
    ensures Run(b, actions) == Run(Run(b, actions[..k]), actions[k..])
    decreases |actions|
  {
    if k < |actions| {
      var front := actions[..|actions| - 1];
      hide Step;
      RunSplits(b, front, k);
      assert front[..k] == actions[..k];
      assert actions[k..][..|actions| - k - 1] == front[k..];
    } else {
      assert actions[..k] == actions;
    }
  }

  /** Without drops the delivered sequence is continuous if and only if every
      delivery took the smallest stamp waiting. */
  lemma ContinuousInOrder(b: Bus, actions: seq<Action>)
    requires Inv(b) && Quiet(b) && Quiet(Run(b, actions)) && Run(b, actions).dropped == b.dropped
    ensures b.seqNo <= Run(b, actions).seqNo
    ensures Delivered(b, actions) == Range(b.seqNo, Run(b, actions).seqNo) <==> SmallestFirstTo(b, actions, |actions|)
  {
    hide Run, Inv, Delivered, Quiet, Orderly, SmallestFirst;
    DeliveredAreNew(b, actions);
    DeliveredCount(b, actions);
    var c, s := Run(b, actions), Delivered(b, actions);
    Pigeonhole(s, b.seqNo);
    OrderKeptExactly(b, actions, |actions|);
    if s == Range(b.seqNo, c.seqNo) {
      forall k | 0 <= k <= |actions|
        ensures Orderly(Run(b, actions[..k]), |b.channel|)
      {
        NeverOvertaken(b, actions, k);
      }
    } else if SmallestFirstTo(b, actions, |actions|) {
      assert actions[..|actions|] == actions;
      OrderlyDelivery(b, actions);
      SortedRange(s, b.seqNo, |s|);
      assert false;
    }
  }

  /** The sequence a subscriber sees between two quiet moments is continuous if and
      only if every send found a receiver and took the smallest stamp waiting. */
  lemma ContinuousExactly(b: Bus, actions: seq<Action>)
    requires Inv(b) && Quiet(b) && Quiet(Run(b, actions))
    ensures b.seqNo <= Run(b, actions).seqNo
    ensures Delivered(b, actions) == Range(b.seqNo, Run(b, actions).seqNo)
            <==> ServedTo(b, actions, |actions|) && SmallestFirstTo(b, actions, |actions|)
  {
    hide Run, Inv, Delivered, Quiet, Served, SmallestFirst;
    NothingIsMissingExactly(b, actions);
    DropsExactly(b, actions);
    if ServedTo(b, actions, |actions|) { ContinuousInOrder(b, actions); }
  }

  /** A single publisher overtakes nobody. */
  lemma {:induction false} OnePublisher(b: Bus, actions: seq<Action>, n: nat)
    requires n <= |actions| && |b.phases| == 1
    ensures |Run(b, actions[..n]).phases| == 1 && SmallestFirstTo(b, actions, n)
  {
    hide Step, Run;
    if n == 0 {
      assert actions[..0] == [];
      EmptyRun(b);
    } else {
      OnePublisher(b, actions, n - 1);
      NextRun(b, actions, n - 1);
      StepGrows(Run(b, actions[..n - 1]), actions[n - 1]);
    }
  }

  /** So one publisher and a subscriber that stays see every number once, in order. */
  lemma OneToOneIsContinuous(b: Bus, actions: seq<Action>)
    requires Inv(b) && Quiet(b) && Quiet(Run(b, actions))
    requires |b.phases| == 1 && b.receivers > 0 && Unsubscribe !in actions
    ensures b.seqNo <= Run(b, actions).seqNo
    ensures Delivered(b, actions) == Range(b.seqNo, Run(b, actions).seqNo)
  {
    hide Run, Inv, Delivered, Quiet, Served, SmallestFirst;
    ContinuousExactly(b, actions);
    StayingServes(b, actions, |actions|);
    OnePublisher(b, actions, |actions|);
  }

  lemma OrderlyDelivery(b: Bus, actions: seq<Action>)
    requires Inv(b) && Orderly(Run(b, actions), |b.channel|)
    ensures Ascending(Delivered(b, actions))
  {
    RunGrows(b, actions);
    hide Run, Inv;
  }
}
