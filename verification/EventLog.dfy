/** The event history file (eventlog.rs): one encoded event per line, read back
    newest first in 8192-byte blocks counted from the end of the file. */
module EventLog {
  import opened Common

  datatype Event = Event(number: nat, body: seq<byte>)

  /** The JSON codec. Decoding includes the trimming of blanks around a line and
      the lossy reading of bytes that are not UTF-8. */
  datatype Codec = Codec(encode: Event -> seq<byte>, decode: seq<byte> -> Option<Event>)

  const NEWLINE: byte := 10
  const BLOCK: nat := 8192

  predicate OneLine(b: seq<byte>) { forall i :: 0 <= i < |b| ==> b[i] != NEWLINE }

  ghost predicate NonEmpty(c: Codec) { forall e :: c.encode(e) != [] }

  /** Encodings are non-empty single lines, decode to their event, and no proper
      part of one decodes to anything. */
  ghost predicate GoodCodec(c: Codec) {
    && NonEmpty(c)
    && (forall e :: OneLine(c.encode(e)) && c.decode(c.encode(e)) == Some(e))
    && (forall e, i, j :: 0 <= i <= j <= |c.encode(e)| && j - i < |c.encode(e)| ==> c.decode(c.encode(e)[i..j]) == None)
  }

  // ---------------------------------------------------------------- lines

  function LineEnd(b: seq<byte>): (i: nat)
    ensures i <= |b| && OneLine(b[..i])
    ensures i < |b| ==> b[i] == NEWLINE
  {
    if b == [] || b[0] == NEWLINE then 0 else 1 + LineEnd(b[1..])
  }

  function Lines(b: seq<byte>): seq<seq<byte>> {
    var i := LineEnd(b);
    if b == [] then [] else if i == |b| then [b] else [b[..i]] + Lines(b[i + 1..])
  }

  lemma {:induction false} LineEndUnique(b: seq<byte>, i: nat)
    requires i <= |b| && OneLine(b[..i]) && (i < |b| ==> b[i] == NEWLINE)
    ensures LineEnd(b) == i
  {
    if i > 0 {
      assert b[..i][0] != NEWLINE;
      assert b[1..][..i - 1] == b[..i][1..];
      LineEndUnique(b[1..], i - 1);
    }
  }

  lemma FirstLine(x: seq<byte>, rest: seq<byte>)
    requires OneLine(x)
    ensures Lines(x + [NEWLINE] + rest) == [x] + Lines(rest)
  {
    var b := x + [NEWLINE] + rest;
    assert b[..|x|] == x && b[|x|] == NEWLINE && b[|x| + 1..] == rest;
    LineEndUnique(b, |x|);
  }

  lemma OnlyLine(x: seq<byte>)
    requires OneLine(x)
    ensures Lines(x) == if x == [] then [] else [x]
  {
    assert x[..|x|] == x;
    LineEndUnique(x, |x|);
  }

  /** The file after a sequence of appends. */
  function Content(c: Codec, evs: seq<Event>): seq<byte> {
    if evs == [] then [] else Content(c, evs[..|evs| - 1]) + c.encode(evs[|evs| - 1]) + [NEWLINE]
  }

  /** A logged event is its encoding and a line feed behind all earlier ones. */
  lemma LineAppended(c: Codec, evs: seq<Event>, e: Event)
    ensures Content(c, []) == [] && Content(c, evs + [e]) == Content(c, evs) + c.encode(e) + [10]
  {
    assert (evs + [e])[..|evs|] == evs;
  }

  lemma {:induction false} ContentConcat(c: Codec, a: seq<Event>, b: seq<Event>)
    ensures Content(c, a + b) == Content(c, a) + Content(c, b)
  {
    if b == [] {
      assert a + b == a;
    } else {
      var n := |b| - 1;
      assert (a + b)[..|a + b| - 1] == a + b[..n];
      ContentConcat(c, a, b[..n]);
    }
  }

  // ---------------------------------------------------------------- reading, as a function

  /** What the reader keeps of one decoded line. */
  function Kept(before: Option<nat>, d: Option<Event>): seq<Event> {
    if d.Some? && (before.None? || d.value.number < before.value) then [d.value] else []
  }

  /** The events kept from some lines, last line first. */
  function Newest(c: Codec, before: Option<nat>, lines: seq<seq<byte>>): seq<Event> {
    if lines == [] then [] else Newest(c, before, lines[1..]) + Kept(before, c.decode(lines[0]))
  }

  function BlockSize(n: nat): nat { if n < BLOCK then n else BLOCK }

  /** The events kept from a file prefix, block by block from its end. */
  function Scan(c: Codec, before: Option<nat>, b: seq<byte>): seq<Event> {
    if b == [] then []
    else
      var lo := |b| - BlockSize(|b|);
      Newest(c, before, Lines(b[lo..])) + Scan(c, before, b[..lo])
  }

  function Take<T>(n: nat, s: seq<T>): seq<T> { if |s| <= n then s else s[..n] }

  /** Stable insertion, larger numbers first. */
  function Insert(e: Event, s: seq<Event>): seq<Event> {
    if s == [] || e.number >= s[0].number then [e] + s else [s[0]] + Insert(e, s[1..])
  }

  function SortDescending(s: seq<Event>): seq<Event> {
    if s == [] then [] else Insert(s[0], SortDescending(s[1..]))
  }

  function HistoryOf(c: Codec, before: Option<nat>, limit: nat, b: seq<byte>): seq<Event> {
    Take(limit, SortDescending(Take(limit, Scan(c, before, b))))
  }

  // ---------------------------------------------------------------- which events survive

  /** The newest events below the anchor, newest first: what the reader is for. */
  function NewestOf(before: Option<nat>, evs: seq<Event>): seq<Event> {
    if evs == [] then []
    else Kept(before, Some(evs[|evs| - 1])) + NewestOf(before, evs[..|evs| - 1])
  }

  /** Which events those are: the ones below the anchor, all without one... */
  lemma {:induction false} NewestMembers(before: Option<nat>, evs: seq<Event>, e: Event)
    ensures e in NewestOf(before, evs) <==> e in evs && (before.None? || e.number < before.value)
  {
    if evs != [] {
      var pre, last := evs[..|evs| - 1], evs[|evs| - 1];
      NewestMembers(before, pre, e);
      assert evs == pre + [last];
    }
  }

  /** ...each as often as it was logged... */
  lemma {:induction false} NewestCounts(before: Option<nat>, evs: seq<Event>, e: Event)
    requires before.None? || e.number < before.value
    ensures multiset(NewestOf(before, evs))[e] == multiset(evs)[e]
  {
    if evs != [] {
      var pre, last := evs[..|evs| - 1], evs[|evs| - 1];
      NewestCounts(before, pre, e);
      assert evs == pre + [last];
    }
  }

  /** ...and the last one logged first. */
  lemma {:induction false} NewestIsReversed(evs: seq<Event>, i: nat)
    requires i < |evs|
    ensures |NewestOf(None, evs)| == |evs| && NewestOf(None, evs)[i] == evs[|evs| - 1 - i]
  {
    if |evs| > 1 { NewestIsReversed(evs[..|evs| - 1], if i > 0 then i - 1 else 0); }
  }

  /** What is kept from some lines lies below the anchor, whatever the file holds. */
  lemma {:induction false} NewestIsBelow(c: Codec, n: nat, lines: seq<seq<byte>>)
    ensures forall e :: e in Newest(c, Some(n), lines) ==> e.number < n
  {
    if lines != [] { NewestIsBelow(c, n, lines[1..]); }
  }

  lemma {:induction false} ScanIsBelow(c: Codec, n: nat, b: seq<byte>)
    ensures forall e :: e in Scan(c, Some(n), b) ==> e.number < n
    decreases |b|
  {
    hide Newest, Lines;
    if b != [] {
      var lo := |b| - BlockSize(|b|);
      NewestIsBelow(c, n, Lines(b[lo..]));
      ScanIsBelow(c, n, b[..lo]);
    }
  }

  /** No answer holds an event at or above the anchor, or more events than asked for,
      whatever bytes the file holds; and its numbers descend. */
  lemma HistoryIsBelow(c: Codec, before: Option<nat>, limit: nat, b: seq<byte>)
    ensures var found := HistoryOf(c, before, limit, b);
            && |found| <= limit && Descending(found)
            && forall e :: e in found ==> before.None? || e.number < before.value
  {
    var all := Scan(c, before, b);
    if before.Some? { ScanIsBelow(c, before.value, b); }
    hide Scan, SortDescending;
    var taken := Take(limit, all);
    SortedDescending(taken);
    var sorted := SortDescending(taken);
    assert forall e :: e in sorted ==> e in multiset(sorted);
    assert forall e :: e in multiset(taken) ==> e in taken;
    assert forall e :: e in taken ==> e in all;
    TakeKeepsOrder(limit, sorted);
  }

  lemma TakeKeepsOrder(limit: nat, s: seq<Event>)
    requires Descending(s)
    ensures Descending(Take(limit, s)) && |Take(limit, s)| <= limit && forall e :: e in Take(limit, s) ==> e in s
  {
  }

  /** A text of len bytes, after bytes away from the end of the file, lies inside one block. */
  predicate Whole(len: nat, after: nat)
    requires len > 0
  {
    (after + len - 1) / BLOCK == after / BLOCK
  }

  /** The same, without the events whose text a block boundary cuts; `after`
      bytes follow the last line. */
  ghost function NewestWhole(c: Codec, before: Option<nat>, evs: seq<Event>, after: nat): seq<Event>
    requires NonEmpty(c)
  {
    if evs == [] then []
    else
      var e, len := evs[|evs| - 1], |c.encode(evs[|evs| - 1])|;
      (if Whole(len, after + 1) then Kept(before, Some(e)) else []) +
      NewestWhole(c, before, evs[..|evs| - 1], after + 1 + len)
  }

  lemma {:induction false} NewestConcat(c: Codec, before: Option<nat>, a: seq<seq<byte>>, b: seq<seq<byte>>)
    ensures Newest(c, before, a + b) == Newest(c, before, b) + Newest(c, before, a)
  {
    if a == [] {
      assert a + b == b;
    } else {
      assert (a + b)[1..] == a[1..] + b;
      NewestConcat(c, before, a[1..], b);
    }
  }

  /** What is read of the fragment at the end of a prefix: its event, when it is
      a whole text lying in the last block. */
  function Tail(c: Codec, before: Option<nat>, e: Event, m: nat): seq<Event> {
    if m == |c.encode(e)| && 0 < m <= BLOCK then Kept(before, Some(e)) else []
  }

  lemma CodecFacts(c: Codec, e: Event)
    requires GoodCodec(c)
    ensures NonEmpty(c) && c.encode(e) != [] && OneLine(c.encode(e))
  {
  }

  lemma FragmentDecodes(c: Codec, before: Option<nat>, e: Event, i: nat, j: nat)
    requires GoodCodec(c) && i <= j <= |c.encode(e)|
    ensures var x := c.encode(e)[i..j];
            && OneLine(x)
            && Kept(before, c.decode(x)) == if j - i == |c.encode(e)| then Kept(before, Some(e)) else []
  {
    if j - i == |c.encode(e)| { assert c.encode(e)[i..j] == c.encode(e); }
  }

  /** The kept events of a fragment standing alone, or of nothing. */
  lemma FragmentLines(c: Codec, before: Option<nat>, e: Event, i: nat, j: nat)
    requires GoodCodec(c) && i <= j <= |c.encode(e)|
    ensures Newest(c, before, Lines(c.encode(e)[i..j])) == if j - i == |c.encode(e)| then Kept(before, Some(e)) else []
  {
    FragmentDecodes(c, before, e, i, j);
    hide GoodCodec;
    var x := c.encode(e)[i..j];
    OnlyLine(x);
    assert Newest(c, before, []) == [];
    if x != [] { assert [x][1..] == []; }
  }

  /** Whole lines followed by a fragment of a further event. */
  lemma {:induction false} LinesOfContent(c: Codec, before: Option<nat>, evs: seq<Event>, e: Event, i: nat, j: nat)
    requires GoodCodec(c) && i <= j <= |c.encode(e)|
    ensures Newest(c, before, Lines(Content(c, evs) + c.encode(e)[i..j])) ==
            Newest(c, before, Lines(c.encode(e)[i..j])) + NewestOf(before, evs)
  {
    hide GoodCodec, OneLine, Lines, Kept, Newest, Content, NewestOf;
    var p := c.encode(e)[i..j];
    if evs == [] {
      NothingWritten(c, before);
      assert Content(c, evs) + p == p;
    } else {
      var first, rest := evs[0], evs[1..];
      assert evs == [first] + rest;
      OneEvent(c, before, first);
      ContentConcat(c, [first], rest);
      NewestOfConcat(before, [first], rest);
      assert Content(c, evs) + p == c.encode(first) + [NEWLINE] + (Content(c, rest) + p);
      LinesOfContent(c, before, rest, e, i, j);
      FirstLine(c.encode(first), Content(c, rest) + p);
      NewestCons(c, before, c.encode(first), Lines(Content(c, rest) + p));
    }
  }

  lemma NothingWritten(c: Codec, before: Option<nat>)
    ensures Content(c, []) == [] && NewestOf(before, []) == []
  {
  }

  lemma OneEvent(c: Codec, before: Option<nat>, e: Event)
    requires GoodCodec(c)
    ensures Content(c, [e]) == c.encode(e) + [NEWLINE] && OneLine(c.encode(e))
    ensures NewestOf(before, [e]) == Kept(before, Some(e)) == Kept(before, c.decode(c.encode(e)))
  {
  }

  lemma NewestCons(c: Codec, before: Option<nat>, x: seq<byte>, ls: seq<seq<byte>>)
    ensures Newest(c, before, [x] + ls) == Newest(c, before, ls) + Kept(before, c.decode(x))
  {
    hide Kept;
    assert ([x] + ls)[1..] == ls;
  }

  lemma {:induction false} NewestOfConcat(before: Option<nat>, a: seq<Event>, b: seq<Event>)
    ensures NewestOf(before, a + b) == NewestOf(before, b) + NewestOf(before, a)
  {
    hide Kept;
    if b == [] {
      assert a + b == a;
    } else {
      assert (a + b)[..|a + b| - 1] == a + b[..|b| - 1];
      NewestOfConcat(before, a, b[..|b| - 1]);
    }
  }

  /** A whole block more behind the lines changes nothing. */
  lemma {:induction false} OneBlockFurther(c: Codec, before: Option<nat>, evs: seq<Event>, after: nat)
    requires NonEmpty(c)
    ensures NewestWhole(c, before, evs, after + BLOCK) == NewestWhole(c, before, evs, after)
  {
    if evs != [] {
      var len := |c.encode(evs[|evs| - 1])|;
      hide Whole, Kept;
      OneBlockFurther(c, before, evs[..|evs| - 1], after + 1 + len);
      FurtherIsWholeToo(len, after + 1);
    }
  }

  lemma NearIsWhole(len: nat, after: nat)
    requires len > 0 && after + len <= BLOCK
    ensures Whole(len, after)
  {
  }

  lemma FurtherIsWholeToo(len: nat, after: nat)
    requires len > 0
    ensures Whole(len, after + BLOCK) == Whole(len, after)
  {
  }

  /** Lines that fit into the last block are all whole. */
  lemma {:induction false} LastLinesAreWhole(c: Codec, before: Option<nat>, pre: seq<Event>, post: seq<Event>,
                                             after: nat)
    requires NonEmpty(c)
    requires after + |Content(c, post)| <= BLOCK
    ensures NewestWhole(c, before, pre + post, after) ==
            NewestOf(before, post) + NewestWhole(c, before, pre, after + |Content(c, post)|)
  {
    hide Whole, Kept, NewestWhole;
    if post == [] {
      assert pre + post == pre;
    } else {
      var n := |post| - 1;
      var e, len := post[n], |c.encode(post[n])|;
      assert pre + post == (pre + post[..n]) + [e];
      assert |Content(c, post)| == |Content(c, post[..n])| + len + 1;
      assert NewestOf(before, post) == Kept(before, Some(e)) + NewestOf(before, post[..n]);
      hide Content, NewestOf;
      LastLinesAreWhole(c, before, pre, post[..n], after + 1 + len);
      NearIsWhole(len, after + 1);
      LastLine(c, before, pre + post[..n], e, after);
    }
  }

  lemma LastLine(c: Codec, before: Option<nat>, pre: seq<Event>, f: Event, after: nat)
    requires NonEmpty(c)
    ensures NewestWhole(c, before, pre + [f], after) ==
            (if Whole(|c.encode(f)|, after + 1) then Kept(before, Some(f)) else [])
            + NewestWhole(c, before, pre, after + 1 + |c.encode(f)|)
  {
    assert (pre + [f])[..|pre + [f]| - 1] == pre;
  }

  /** The line a position inside the lines falls into. */
  lemma {:induction false} Locate(c: Codec, evs: seq<Event>, at: nat) returns (j: nat, r: nat)
    requires at < |Content(c, evs)|
    ensures j < |evs| && at == |Content(c, evs[..j])| + r && r <= |c.encode(evs[j])|
  {
    var n := |evs| - 1;
    if at >= |Content(c, evs[..n])| {
      j, r := n, at - |Content(c, evs[..n])|;
    } else {
      j, r := Locate(c, evs[..n], at);
      assert evs[..n][..j] == evs[..j];
    }
  }

  /** The block reader, on lines followed by the first m bytes of a further text,
      keeps exactly the events whose text no block boundary cuts. */
  lemma {:induction false} ScanFindsWhole(c: Codec, before: Option<nat>, evs: seq<Event>, e: Event, m: nat)
    requires GoodCodec(c) && m <= |c.encode(e)|
    ensures Scan(c, before, Content(c, evs) + c.encode(e)[..m]) ==
            Tail(c, before, e, m) + NewestWhole(c, before, evs, m)
    decreases |Content(c, evs)| + m
  {
    var b := Content(c, evs) + c.encode(e)[..m];
    if |b| <= BLOCK {
      ScanOneBlock(c, before, evs, e, m);
    } else if |Content(c, evs)| <= |b| - BLOCK {
      ScanFindsWhole(c, before, evs, e, m - BLOCK);
      ScanInsideText(c, before, evs, e, m);
    } else {
      var lo := |b| - BLOCK;
      var j, r := Locate(c, evs, lo);
      assert evs == evs[..j] + [evs[j]] + evs[j + 1..];
      ContentConcat(c, evs[..j] + [evs[j]], evs[j + 1..]);
      ContentConcat(c, evs[..j], [evs[j]]);
      ScanFindsWhole(c, before, evs[..j], evs[j], r);
      ScanAcrossLines(c, before, evs[..j], evs[j], r, evs[j + 1..], e, m);
    }
  }

  lemma ScanOneBlock(c: Codec, before: Option<nat>, evs: seq<Event>, e: Event, m: nat)
    requires GoodCodec(c) && m <= |c.encode(e)|
    requires |Content(c, evs)| + m <= BLOCK
    ensures Scan(c, before, Content(c, evs) + c.encode(e)[..m]) ==
            Tail(c, before, e, m) + NewestWhole(c, before, evs, m)
  {
    hide GoodCodec, Lines, NewestWhole, Content, Kept, NewestOf, Scan, Newest, Whole, NonEmpty;
    var b := Content(c, evs) + c.encode(e)[..m];
    CodecFacts(c, e);
    LinesOfContent(c, before, evs, e, 0, m);
    FragmentLines(c, before, e, 0, m);
    assert c.encode(e)[0..m] == c.encode(e)[..m];
    LastLinesAreWhole(c, before, [], evs, m);
    assert [] + evs == evs;
    NoLines(c, before, m + |Content(c, evs)|);
    ScanSmall(c, before, b);
  }

  lemma NoLines(c: Codec, before: Option<nat>, after: nat)
    requires NonEmpty(c)
    ensures NewestWhole(c, before, [], after) == [] && Newest(c, before, Lines([])) == []
  {
  }

  lemma ScanSmall(c: Codec, before: Option<nat>, b: seq<byte>)
    requires |b| <= BLOCK
    ensures Scan(c, before, b) == Newest(c, before, Lines(b))
  {
    if b != [] {
      assert b[0..] == b && b[..0] == [];
      hide Lines;
    }
  }

  /** One step of the reader on a file of more than one block. */
  lemma ScanStep(c: Codec, before: Option<nat>, b: seq<byte>)
    requires |b| > BLOCK
    ensures Scan(c, before, b) ==
            Newest(c, before, Lines(b[|b| - BLOCK..])) + Scan(c, before, b[..|b| - BLOCK])
  {
    hide Newest, Lines;
  }

  /** The last block lies inside the trailing text. */
  lemma ScanInsideText(c: Codec, before: Option<nat>, evs: seq<Event>, e: Event, m: nat)
    requires GoodCodec(c) && BLOCK <= m <= |c.encode(e)| && |Content(c, evs)| + m > BLOCK
    requires Scan(c, before, Content(c, evs) + c.encode(e)[..m - BLOCK]) ==
             Tail(c, before, e, m - BLOCK) + NewestWhole(c, before, evs, m - BLOCK)
    ensures Scan(c, before, Content(c, evs) + c.encode(e)[..m]) ==
            Tail(c, before, e, m) + NewestWhole(c, before, evs, m)
  {
    hide GoodCodec, Lines, NewestWhole, Content, Kept, Scan;
    CodecFacts(c, e);
    FragmentLines(c, before, e, m - BLOCK, m);
    OneBlockFurther(c, before, evs, m - BLOCK);
    var t := c.encode(e);
    var b := Content(c, evs) + t[..m];
    var lo := |b| - BLOCK;
    assert b[lo..] == t[m - BLOCK..m];
    assert b[..lo] == Content(c, evs) + t[..m - BLOCK];
    ScanStep(c, before, b);
  }

  /** A line with r bytes before the last block and the rest inside it: read
      here, or with the rest of the file, exactly when it is whole. */
  lemma SplitLine(c: Codec, before: Option<nat>, f: Event, r: nat)
    requires GoodCodec(c) && r <= |c.encode(f)| && |c.encode(f)| - r <= BLOCK
    ensures Kept(before, c.decode(c.encode(f)[r..])) + Tail(c, before, f, r) ==
            if Whole(|c.encode(f)|, BLOCK + r - |c.encode(f)|) then Kept(before, Some(f)) else []
  {
    hide GoodCodec, Kept;
    var t := c.encode(f);
    CodecFacts(c, f);
    FragmentDecodes(c, before, f, r, |t|);
    assert t[r..|t|] == t[r..];
  }

  /** The last block starts inside, or right before or after, the text of line f. */
  lemma ScanAcrossLines(c: Codec, before: Option<nat>, pre: seq<Event>, f: Event, r: nat, post: seq<Event>, e: Event,
                        m: nat)
    requires GoodCodec(c) && m <= |c.encode(e)| && r <= |c.encode(f)|
    requires |c.encode(f)| - r + 1 + |Content(c, post)| + m == BLOCK
    requires |Content(c, pre)| + r > 0
    requires Scan(c, before, Content(c, pre) + c.encode(f)[..r])
             == Tail(c, before, f, r) + NewestWhole(c, before, pre, r)
    ensures Scan(c, before, Content(c, pre + [f] + post) + c.encode(e)[..m]) ==
            Tail(c, before, e, m) + NewestWhole(c, before, pre + [f] + post, m)
  {
    hide GoodCodec, Lines, NewestWhole, Content, Kept, Whole, Scan, Tail, Newest;
    var t, p := c.encode(f), c.encode(e)[..m];
    var b := Content(c, pre + [f] + post) + p;
    var behind := m + |Content(c, post)|;
    CodecFacts(c, f);
    CutPoint(c, pre, f, r, post, p);
    BlockAcrossLines(c, before, f, r, post, e, m);
    LastLinesAreWhole(c, before, pre + [f], post, m);
    LastLine(c, before, pre, f, behind);
    OneBlockFurther(c, before, pre, r);
    SplitLine(c, before, f, r);
    ScanStep(c, before, b);
    Regroup(Tail(c, before, e, m), NewestOf(before, post), Kept(before, c.decode(t[r..])), Tail(c, before, f, r),
            NewestWhole(c, before, pre, r));
  }

  lemma Regroup<T>(a: seq<T>, b: seq<T>, c: seq<T>, d: seq<T>, e: seq<T>)
    ensures a + b + c + (d + e) == a + (b + (c + d + e))
  {
  }

  lemma CutPoint(c: Codec, pre: seq<Event>, f: Event, r: nat, post: seq<Event>, p: seq<byte>)
    requires r <= |c.encode(f)|
    ensures var b := Content(c, pre + [f] + post) + p;
            var lo := |Content(c, pre)| + r;
            && lo + |c.encode(f)| - r + 1 + |Content(c, post)| + |p| == |b|
            && b[..lo] == Content(c, pre) + c.encode(f)[..r]
            && b[lo..] == c.encode(f)[r..] + [NEWLINE] + (Content(c, post) + p)
  {
    hide Content;
    ContentAround(c, pre, f, post, p);
    SplitInside(Content(c, pre), c.encode(f), [NEWLINE] + (Content(c, post) + p), r);
    var y, z := c.encode(f), Content(c, post) + p;
    assert y[r..] + ([NEWLINE] + z) == y[r..] + [NEWLINE] + z;
  }

  lemma ContentAround(c: Codec, pre: seq<Event>, f: Event, post: seq<Event>, p: seq<byte>)
    ensures Content(c, pre + [f] + post) + p == Content(c, pre) + c.encode(f) + ([NEWLINE] + (Content(c, post) + p))
  {
    ContentConcat(c, pre + [f], post);
    assert (pre + [f])[..|pre + [f]| - 1] == pre;
    assert Content(c, pre + [f]) == Content(c, pre) + c.encode(f) + [NEWLINE];
    hide Content;
    var x, z := Content(c, pre) + c.encode(f), Content(c, post);
    assert x + [NEWLINE] + z + p == x + ([NEWLINE] + (z + p));
  }

  lemma SplitInside<T>(x: seq<T>, y: seq<T>, z: seq<T>, r: nat)
    requires r <= |y|
    ensures var b := x + y + z; b[..|x| + r] == x + y[..r] && b[|x| + r..] == y[r..] + z
  {
  }

  lemma BlockAcrossLines(c: Codec, before: Option<nat>, f: Event, r: nat, post: seq<Event>, e: Event, m: nat)
    requires GoodCodec(c) && m <= |c.encode(e)| && m <= BLOCK && r <= |c.encode(f)|
    ensures Newest(c, before, Lines(c.encode(f)[r..] + [NEWLINE] + (Content(c, post) + c.encode(e)[..m]))) ==
            Tail(c, before, e, m) + NewestOf(before, post) + Kept(before, c.decode(c.encode(f)[r..]))
  {
    hide GoodCodec, Lines, Content, Kept;
    var x, p := c.encode(f)[r..], c.encode(e)[..m];
    CodecFacts(c, e);
    FragmentDecodes(c, before, f, r, |c.encode(f)|);
    assert c.encode(f)[r..|c.encode(f)|] == x && c.encode(e)[0..m] == p;
    FirstLine(x, Content(c, post) + p);
    LinesOfContent(c, before, post, e, 0, m);
    FragmentLines(c, before, e, 0, m);
    var ls := Lines(Content(c, post) + p);
    assert ([x] + ls)[1..] == ls;
  }

  // ---------------------------------------------------------------- what history returns

  /** For any file written by appends, in any order of numbers. */
  lemma HistoryOfContent(c: Codec, before: Option<nat>, limit: nat, evs: seq<Event>)
    requires GoodCodec(c)
    ensures HistoryOf(c, before, limit, Content(c, evs)) ==
            Take(limit, SortDescending(Take(limit, NewestWhole(c, before, evs, 0))))
  {
    hide GoodCodec, Scan, Content, NewestWhole, SortDescending;
    var e := Event(0, []);
    CodecFacts(c, e);
    ScanFindsWhole(c, before, evs, e, 0);
    assert Content(c, evs) + c.encode(e)[..0] == Content(c, evs);
    assert [] + NewestWhole(c, before, evs, 0) == NewestWhole(c, before, evs, 0);
  }

  lemma {:induction false} InsertKeepsAll(e: Event, s: seq<Event>)
    ensures multiset(Insert(e, s)) == multiset{e} + multiset(s)
  {
    if s != [] && e.number < s[0].number {
      InsertKeepsAll(e, s[1..]);
      assert s == [s[0]] + s[1..];
    }
  }

  lemma {:induction false} InsertKeeps(e: Event, s: seq<Event>)
    requires Descending(s)
    ensures Descending(Insert(e, s)) && |Insert(e, s)| > 0
    ensures Insert(e, s)[0] == e || (s != [] && Insert(e, s)[0] == s[0])
  {
    if s != [] && e.number < s[0].number {
      InsertKeeps(e, s[1..]);
      ConsDescends(s[0], Insert(e, s[1..]));
    } else if s != [] {
      ConsDescends(e, s);
    }
  }

  lemma ConsDescends(x: Event, s: seq<Event>)
    requires Descending(s) && |s| > 0 && x.number >= s[0].number
    ensures Descending([x] + s)
  {
    assert forall i :: 0 <= i < |s| ==> s[0].number >= s[i].number;
  }

  ghost predicate Descending(s: seq<Event>) { forall i, j :: 0 <= i < j < |s| ==> s[i].number >= s[j].number }

  /** The final sort orders by number and neither loses nor invents events. */
  lemma {:induction false} SortedDescending(s: seq<Event>)
    ensures Descending(SortDescending(s)) && multiset(SortDescending(s)) == multiset(s)
  {
    if s != [] {
      SortedDescending(s[1..]);
      InsertKeeps(s[0], SortDescending(s[1..]));
      InsertKeepsAll(s[0], SortDescending(s[1..]));
      assert s == [s[0]] + s[1..];
    }
  }

  lemma {:induction false} SortIsIdle(s: seq<Event>)
    requires Descending(s)
    ensures SortDescending(s) == s
  {
    if s != [] {
      SortIsIdle(s[1..]);
      assert s == [s[0]] + s[1..];
    }
  }

  /** Numbers increase along the file. */
  ghost predicate Increasing(evs: seq<Event>) { forall i, j :: 0 <= i < j < |evs| ==> evs[i].number < evs[j].number }

  ghost predicate Below(s: seq<Event>, n: nat) { forall i :: 0 <= i < |s| ==> s[i].number < n }

  lemma {:induction false} WholeDescends(c: Codec, before: Option<nat>, evs: seq<Event>, after: nat, n: nat)
    requires NonEmpty(c) && Increasing(evs) && Below(evs, n)
    ensures Descending(NewestWhole(c, before, evs, after)) && Below(NewestWhole(c, before, evs, after), n)
  {
    hide Whole;
    if evs != [] {
      var e := evs[|evs| - 1];
      WholeDescends(c, before, evs[..|evs| - 1], after + 1 + |c.encode(e)|, e.number);
    }
  }

  lemma IncreasingBelow(evs: seq<Event>)
    requires Increasing(evs)
    ensures Below(evs, if evs == [] then 0 else evs[|evs| - 1].number + 1)
  {
  }

  /** With increasing numbers the sort has nothing to do. */
  lemma IncreasingHistory(c: Codec, before: Option<nat>, limit: nat, evs: seq<Event>)
    requires GoodCodec(c) && Increasing(evs)
    ensures HistoryOf(c, before, limit, Content(c, evs)) == Take(limit, NewestWhole(c, before, evs, 0))
  {
    HistoryOfContent(c, before, limit, evs);
    CodecFacts(c, Event(0, []));
    hide GoodCodec, HistoryOf, NewestWhole;
    IncreasingBelow(evs);
    WholeDescends(c, before, evs, 0, if evs == [] then 0 else evs[|evs| - 1].number + 1);
    SortIsIdle(Take(limit, NewestWhole(c, before, evs, 0)));
  }

  /** None of the newest `limit` events below the anchor has its text cut by a block boundary. */
  ghost predicate NoneCut(c: Codec, before: Option<nat>, limit: nat, evs: seq<Event>, after: nat)
    requires NonEmpty(c)
  {
    if limit == 0 || evs == [] then true
    else
      var e, len := evs[|evs| - 1], |c.encode(evs[|evs| - 1])|;
      var pre := evs[..|evs| - 1];
      if Kept(before, Some(e)) == [] then NoneCut(c, before, limit, pre, after + 1 + len)
      else Whole(len, after + 1) && NoneCut(c, before, limit - 1, pre, after + 1 + len)
  }

  lemma TakeCons<T>(limit: nat, x: T, s: seq<T>)
    requires limit > 0
    ensures Take(limit, [x] + s) == [x] + Take(limit - 1, s)
  {
  }

  lemma {:induction false} WholeEqualsNewest(c: Codec, before: Option<nat>, limit: nat, evs: seq<Event>, after: nat)
    requires NonEmpty(c) && Increasing(evs)
    ensures Take(limit, NewestWhole(c, before, evs, after)) == Take(limit, NewestOf(before, evs)) <==>
            NoneCut(c, before, limit, evs, after)
  {
    hide Whole, NewestWhole, NewestOf, Kept, Take;
    if limit == 0 {
      TakeNone(NewestWhole(c, before, evs, after));
      TakeNone(NewestOf(before, evs));
    } else if evs == [] {
      NoLines(c, before, after);
      NothingWritten(c, before);
    } else {
      var e, pre := evs[|evs| - 1], evs[..|evs| - 1];
      var after' := after + 1 + |c.encode(e)|;
      var w, a := NewestWhole(c, before, pre, after'), NewestOf(before, pre);
      assert evs == pre + [e];
      LastLine(c, before, pre, e, after);
      LastNewest(before, pre, e);
      if Kept(before, Some(e)) == [] {
        WholeEqualsNewest(c, before, limit, pre, after');
        assert [] + w == w && [] + a == a;
      } else {
        WholeEqualsNewest(c, before, limit - 1, pre, after');
        WholeDescends(c, before, pre, after', e.number);
        KeptIsOne(before, e);
        TakeCons(limit, e, w);
        TakeCons(limit, e, a);
        assert [] + w == w;
        HeadDiffers(limit, e, w, Take(limit - 1, w), Take(limit - 1, a));
      }
    }
  }

  lemma TakeNone<T>(s: seq<T>)
    ensures Take(0, s) == []
  {
  }

  lemma KeptIsOne(before: Option<nat>, e: Event)
    ensures Kept(before, Some(e)) == [] || Kept(before, Some(e)) == [e]
  {
  }

  lemma LastNewest(before: Option<nat>, pre: seq<Event>, e: Event)
    ensures NewestOf(before, pre + [e]) == Kept(before, Some(e)) + NewestOf(before, pre)
  {
    assert (pre + [e])[..|pre + [e]| - 1] == pre;
  }

  lemma HeadDiffers(limit: nat, e: Event, w: seq<Event>, x: seq<Event>, y: seq<Event>)
    requires limit > 0 && Below(w, e.number)
    ensures Take(limit, w) != [e] + y
    ensures [e] + x == [e] + y <==> x == y
  {
    if |w| > 0 { assert Take(limit, w)[0] == w[0]; }
    if [e] + x == [e] + y { assert ([e] + x)[1..] == x && ([e] + y)[1..] == y; }
  }

  /** The reader returns the newest `limit` events below the anchor, newest first,
      if and only if none of those is cut by a block boundary. */
  lemma HistoryIsExact(c: Codec, before: Option<nat>, limit: nat, evs: seq<Event>)
    requires GoodCodec(c) && Increasing(evs)
    ensures NonEmpty(c)
    ensures HistoryOf(c, before, limit, Content(c, evs)) == Take(limit, NewestOf(before, evs)) <==>
            NoneCut(c, before, limit, evs, 0)
  {
    CodecFacts(c, Event(0, []));
    IncreasingHistory(c, before, limit, evs);
    hide GoodCodec, HistoryOf;
    WholeEqualsNewest(c, before, limit, evs, 0);
  }

  /** When none of them is cut, the newest events are found, whatever their numbers. */
  lemma {:induction false} NoneCutFindsNewest(c: Codec, before: Option<nat>, limit: nat, evs: seq<Event>, after: nat)
    requires NonEmpty(c) && NoneCut(c, before, limit, evs, after)
    ensures Take(limit, NewestWhole(c, before, evs, after)) == Take(limit, NewestOf(before, evs))
  {
    hide Whole, NewestWhole, NewestOf, Kept, Take;
    if limit == 0 {
      TakeNone(NewestWhole(c, before, evs, after));
      TakeNone(NewestOf(before, evs));
    } else if evs == [] {
      NoLines(c, before, after);
      NothingWritten(c, before);
    } else {
      var e, pre := evs[|evs| - 1], evs[..|evs| - 1];
      var after' := after + 1 + |c.encode(e)|;
      var w, a := NewestWhole(c, before, pre, after'), NewestOf(before, pre);
      assert evs == pre + [e];
      LastLine(c, before, pre, e, after);
      LastNewest(before, pre, e);
      if Kept(before, Some(e)) == [] {
        NoneCutFindsNewest(c, before, limit, pre, after');
        assert [] + w == w && [] + a == a;
      } else {
        NoneCutFindsNewest(c, before, limit - 1, pre, after');
        KeptIsOne(before, e);
        TakeCons(limit, e, w);
        TakeCons(limit, e, a);
      }
    }
  }

  lemma TakeIsShort<T>(limit: nat, s: seq<T>)
    ensures |Take(limit, s)| <= limit && (|s| <= limit ==> Take(limit, s) == s)
  {
  }

  lemma SortKeepsLength(s: seq<Event>)
    ensures |SortDescending(s)| == |s|
  {
    SortedDescending(s);
    assert |multiset(s)| == |s| && |multiset(SortDescending(s))| == |SortDescending(s)|;
  }

  /** Without any assumption on the numbers - they start again with every daemon, and
      overtaken events are logged late: when none of the newest events is cut, the
      reader returns them sorted by number, which is newest first exactly when their
      numbers descend that way. */
  lemma HistoryInAnyOrder(c: Codec, before: Option<nat>, limit: nat, evs: seq<Event>)
    requires GoodCodec(c)
    ensures NonEmpty(c)
    ensures NoneCut(c, before, limit, evs, 0) ==>
              var newest, found := Take(limit, NewestOf(before, evs)), HistoryOf(c, before, limit, Content(c, evs));
              && found == SortDescending(newest) && multiset(found) == multiset(newest) && Descending(found)
              && (found == newest <==> Descending(newest))
  {
    CodecFacts(c, Event(0, []));
    HistoryOfContent(c, before, limit, evs);
    hide GoodCodec, HistoryOf, NewestWhole, NewestOf, Take;
    if NoneCut(c, before, limit, evs, 0) {
      var newest := Take(limit, NewestOf(before, evs));
      NoneCutFindsNewest(c, before, limit, evs, 0);
      hide NoneCut;
      TakeIsShort(limit, NewestOf(before, evs));
      SortKeepsLength(newest);
      TakeIsShort(limit, SortDescending(newest));
      SortedDescending(newest);
      if Descending(newest) { SortIsIdle(newest); }
    }
  }

  lemma NewestOfTwo(a: Event, b: Event)
    ensures NewestOf(None, [a, b]) == [b, a]
  {
    assert [a, b] == [a] + [b] && [a] == [] + [a];
    LastNewest(None, [a], b);
    LastNewest(None, [], a);
    hide NewestOf;
    assert NewestOf(None, []) == [] by { NoneNewest(None); }
  }

  lemma NoneNewest(before: Option<nat>)
    ensures NewestOf(before, []) == []
  {
  }

  lemma SortOfTwo(a: Event, b: Event)
    requires a.number > b.number
    ensures SortDescending([b, a]) == [a, b]
  {
    var t := [b, a];
    assert t[1..] == [a] && [a][1..] == [];
    assert SortDescending([a]) == [a];
    assert SortDescending(t) == Insert(b, [a]) == [a] + Insert(b, []);
  }

  /** An event logged before a restart comes out before a later one with a smaller number. */
  lemma RestartReorders(c: Codec, a: Event, b: Event)
    requires GoodCodec(c) && a.number > b.number && |Content(c, [a, b])| <= BLOCK
    ensures HistoryOf(c, None, 2, Content(c, [a, b])) == [a, b]
    ensures Take(2, NewestOf(None, [a, b])) == [b, a]
  {
    hide GoodCodec, HistoryOf, NoneCut, Content, NewestOf, SortDescending;
    CodecFacts(c, a);
    NewestOfTwo(a, b);
    TakeIsShort(2, [b, a]);
    ShortFileCutsNone(c, None, 2, [a, b], 0);
    HistoryInAnyOrder(c, None, 2, [a, b]);
    SortOfTwo(a, b);
  }

  lemma {:induction false} ShortFileCutsNone(c: Codec, before: Option<nat>, limit: nat, evs: seq<Event>, after: nat)
    requires NonEmpty(c) && after + |Content(c, evs)| <= BLOCK
    ensures NoneCut(c, before, limit, evs, after)
  {
    hide Whole, Kept;
    if limit > 0 && evs != [] {
      var e, pre := evs[|evs| - 1], evs[..|evs| - 1];
      var len := |c.encode(e)|;
      NearIsWhole(len, after + 1);
      ShortFileCutsNone(c, before, limit, pre, after + 1 + len);
      ShortFileCutsNone(c, before, limit - 1, pre, after + 1 + len);
    }
  }

  /** In particular nothing is lost from a file of one block. */
  lemma ShortHistoryIsExact(c: Codec, before: Option<nat>, limit: nat, evs: seq<Event>)
    requires GoodCodec(c) && Increasing(evs) && |Content(c, evs)| <= 8192
    ensures HistoryOf(c, before, limit, Content(c, evs)) == Take(limit, NewestOf(before, evs))
  {
    CodecFacts(c, Event(0, []));
    ShortFileCutsNone(c, before, limit, evs, 0);
    HistoryIsExact(c, before, limit, evs);
    hide GoodCodec, HistoryOf;
  }

  /** A single event of 8192 bytes or more is never returned. */
  lemma LongEventIsLost(c: Codec, e: Event, limit: nat)
    requires GoodCodec(c) && |c.encode(e)| >= 8192 && limit > 0
    ensures HistoryOf(c, None, limit, Content(c, [e])) == []
    ensures Take(limit, NewestOf(None, [e])) == [e]
  {
    CodecFacts(c, e);
    HistoryOfContent(c, None, limit, [e]);
    hide GoodCodec, HistoryOf;
    LastLine(c, None, [], e, 0);
    assert [] + [e] == [e];
  }

  // ---------------------------------------------------------------- the log

  class EventLog {
    var file: seq<byte>
    const codec: Codec
    ghost var events: seq<Event>

    ghost predicate Valid()
      reads this
    {
      GoodCodec(codec) && file == Content(codec, events)
    }

    /** Opens a file left by earlier appends, or a new one. */
    constructor (codec: Codec, ghost earlier: seq<Event>, file: seq<byte>)
      requires GoodCodec(codec) && file == Content(codec, earlier)
      ensures Valid() && events == earlier && this.codec == codec && this.file == file
    {
      this.codec := codec;
      this.file := file;
      events := earlier;
    }

    method Append(ev: Event)
      requires Valid()
      modifies this
      ensures Valid() && events == old(events) + [ev]
    {
      hide GoodCodec;
      var line := codec.encode(ev) + [NEWLINE];
      file := file + line;
      events := events + [ev];
      assert events[..|events| - 1] == old(events);
    }

    /** Keep the events of one block, last line first, up to the limit. */
    method KeepBlock(before: Option<nat>, limit: nat, ghost seen: seq<Event>, sofar: seq<Event>, lines: seq<seq<byte>>)
      returns (results: seq<Event>)
      requires sofar == Take(limit, seen)
      ensures results == Take(limit, seen + Newest(codec, before, lines))
    {
      hide Kept, Newest;
      results := sofar;
      var k := |lines|;
      NewestOfNone(codec, before);
      assert lines[k..] == [] && seen + [] == seen;
      while k > 0 && |results| < limit
        invariant 0 <= k <= |lines|
        invariant results == Take(limit, seen + Newest(codec, before, lines[k..]))
      {
        k := k - 1;
        NewestCons(codec, before, lines[k], lines[k + 1..]);
        assert lines[k..] == [lines[k]] + lines[k + 1..];
        ghost var newer := seen + Newest(codec, before, lines[k + 1..]);
        var kept := Kept(before, codec.decode(lines[k]));
        KeptAtMostOne(before, codec.decode(lines[k]));
        assert seen + Newest(codec, before, lines[k..]) == newer + kept;
        results := results + kept;
      }
      FullIsFull(limit, seen, before, codec, lines, k);
    }

    /** Newest block first, until the limit is reached. */
    method History(before: Option<nat>, limit: nat) returns (results: seq<Event>)
      requires Valid()
      ensures results == HistoryOf(codec, before, limit, Content(codec, events))
    {
      hide GoodCodec, Lines, Content, Newest, SortDescending, Scan, Take, BlockSize;
      if |file| == 0 {
        EmptyHistory(codec, before, limit);
        return [];
      }
      results := [];
      var pos := |file|;
      assert file[..pos] == file;
      ghost var seen: seq<Event> := [];
      assert [] + Scan(codec, before, file) == Scan(codec, before, file);
      TakeIsShort(limit, seen);
      while pos > 0 && |results| < limit
        invariant 0 <= pos <= |file|
        invariant results == Take(limit, seen)
        invariant Scan(codec, before, file) == seen + Scan(codec, before, file[..pos])
      {
        var chunk := BlockSize(pos);
        LastBlock(codec, before, file, pos);
        pos := pos - chunk;
        var buf := file[pos..pos + chunk];
        var lines := Lines(buf);
        results := KeepBlock(before, limit, seen, results, lines);
        seen := seen + Newest(codec, before, lines);
      }
      NothingToScan(codec, before, file[..pos]);
      TakeMore(limit, seen, Scan(codec, before, file[..pos]));
      results := Take(limit, SortDescending(results));
    }
  }

  /** The block in front of a position. */
  lemma LastBlock(c: Codec, before: Option<nat>, b: seq<byte>, pos: nat)
    requires 0 < pos <= |b|
    ensures 0 < BlockSize(pos) <= pos
    ensures var lo := pos - BlockSize(pos);
            Scan(c, before, b[..pos]) == Newest(c, before, Lines(b[lo..pos])) + Scan(c, before, b[..lo])
  {
    hide Newest, Lines;
    var rest, lo := b[..pos], pos - BlockSize(pos);
    assert rest[lo..] == b[lo..pos] && rest[..lo] == b[..lo];
  }

  lemma NothingToScan(c: Codec, before: Option<nat>, b: seq<byte>)
    ensures b == [] ==> Scan(c, before, b) == []
  {
    hide Newest, Lines;
  }

  lemma EmptyHistory(c: Codec, before: Option<nat>, limit: nat)
    ensures HistoryOf(c, before, limit, []) == []
  {
  }

  lemma NewestOfNone(c: Codec, before: Option<nat>)
    ensures Newest(c, before, []) == []
  {
  }

  lemma KeptAtMostOne(before: Option<nat>, d: Option<Event>)
    ensures |Kept(before, d)| <= 1
  {
  }

  lemma TakeMore<T>(limit: nat, a: seq<T>, b: seq<T>)
    ensures |Take(limit, a)| >= limit || b == [] ==> Take(limit, a + b) == Take(limit, a)
  {
  }

  lemma FullIsFull(limit: nat, seen: seq<Event>, before: Option<nat>, c: Codec, lines: seq<seq<byte>>, k: nat)
    requires k <= |lines|
    requires k == 0 || |Take(limit, seen + Newest(c, before, lines[k..]))| >= limit
    ensures Take(limit, seen + Newest(c, before, lines[k..])) == Take(limit, seen + Newest(c, before, lines))
  {
    NewestConcat(c, before, lines[..k], lines[k..]);
    assert lines[..k] + lines[k..] == lines;
    hide Newest;
    var a, b := seen + Newest(c, before, lines[k..]), Newest(c, before, lines[..k]);
    assert seen + Newest(c, before, lines) == a + b;
    if k == 0 {
      assert lines[0..] == lines;
    } else {
      TakeMore(limit, a, b);
    }
  }
}
