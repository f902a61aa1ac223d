/** The event stream: what the daemon sends (http.rs, one `data:` frame per event
    and comment frames in between) and the incremental reader of the web client
    (daemon.js), which cuts frames out of chunks of any size. */
module EventStream {
  import opened Common
  import opened Text

  /** The JSON reader, None also for a value without a `type` to look at, and the test for a lag notice. */
  datatype Json<!T> = Json(parse: string -> Option<T>, lagged: T -> bool)

  /** The two callbacks, in the order they are made. */
  datatype Callback<+T> = Event(value: T) | Lagged(value: T)

  /** White space and line terminators as `String.prototype.trim` strips them. */
  predicate IsBlank(c: char) {
    var n := c as int;
    9 <= n <= 13 || n == 0x20 || n == 0xA0 || n == 0x1680 || 0x2000 <= n <= 0x200A
    || n == 0x2028 || n == 0x2029 || n == 0x202F || n == 0x205F || n == 0x3000 || n == 0xFEFF
  }

  /** The 25 characters that `trim` strips: the byte order mark among them, the next
      line control U+0085 not. */
  function Blanks(): string {
    "\t\n\U{B}\U{C}\r \U{A0}\U{1680}\U{2000}\U{2001}\U{2002}\U{2003}\U{2004}\U{2005}\U{2006}\U{2007}" +
    "\U{2008}\U{2009}\U{200A}\U{2028}\U{2029}\U{202F}\U{205F}\U{3000}\U{FEFF}"
  }

  lemma BlankCharacters(c: char)
    ensures |Blanks()| == 25 && (IsBlank(c) <==> c in Blanks())
  {
    var w := Blanks();
    assert w[0] == '\t' && w[1] == '\n' && w[2] == '\U{B}' && w[3] == '\U{C}' && w[4] == '\r' && w[5] == ' ';
    assert w[6] == '\U{A0}' && w[7] == '\U{1680}' && w[8] == '\U{2000}' && w[9] == '\U{2001}' && w[10] == '\U{2002}';
    assert w[11] == '\U{2003}' && w[12] == '\U{2004}' && w[13] == '\U{2005}' && w[14] == '\U{2006}';
    assert w[15] == '\U{2007}' && w[16] == '\U{2008}' && w[17] == '\U{2009}' && w[18] == '\U{200A}';
    assert w[19] == '\U{2028}' && w[20] == '\U{2029}' && w[21] == '\U{202F}' && w[22] == '\U{205F}';
    assert w[23] == '\U{3000}' && w[24] == '\U{FEFF}';
  }

  // ---------------------------------------------------------------- cutting on blank lines

  /** The first index at which "\n\n" stands, or the length. */
  function BlankLine(s: string): (i: nat)
    ensures i <= |s|
    ensures i < |s| ==> i + 1 < |s| && s[i] == s[i + 1] == '\n'
    ensures forall j :: 0 <= j < i && j + 1 < |s| ==> !(s[j] == s[j + 1] == '\n')
  {
    if |s| < 2 then |s|
    else if s[0] == s[1] == '\n' then 0
    else 1 + BlankLine(s[1..])
  }

  /** `split('\n\n')`: never empty. */
  function Split(s: string): (parts: seq<string>)
    ensures |parts| > 0
  {
    var i := BlankLine(s);
    if i == |s| then [s] else [s[..i]] + Split(s[i + 2..])
  }

  function Init(parts: seq<string>): seq<string>
    requires |parts| > 0
  {
    parts[..|parts| - 1]
  }

  function Last(parts: seq<string>): string
    requires |parts| > 0
  {
    parts[|parts| - 1]
  }

  // ---------------------------------------------------------------- one frame

  /** `split('\n')` of a block, up to and including its first line starting with
      `data:`, gives the payload of that line. */
  function DataOf(block: string): Option<string>
    decreases |block|
  {
    var i := IndexOf(block, '\n');
    var line := block[..i];
    if |line| >= 5 && line[..5] == "data:" then Some(line[5..])
    else if i == |block| then None
    else DataOf(block[i + 1..])
  }

  function Dispatch<T>(json: Json<T>, block: string): seq<Callback<T>> {
    match DataOf(block)
    case None => []
    case Some(payload) =>
      match json.parse(TrimBy(IsBlank, payload))
      case None => []
      case Some(v) => if json.lagged(v) then [Lagged(v)] else [Event(v)]
  }

  function DispatchTo<T>(json: Json<T>, blocks: seq<string>, n: nat): seq<Callback<T>>
    requires n <= |blocks|
  {
    if n == 0 then [] else DispatchTo(json, blocks, n - 1) + Dispatch(json, blocks[n - 1])
  }

  function DispatchAll<T>(json: Json<T>, blocks: seq<string>): seq<Callback<T>> { DispatchTo(json, blocks, |blocks|) }

  function Concat(chunks: seq<string>): string {
    if chunks == [] then "" else Concat(chunks[..|chunks| - 1]) + chunks[|chunks| - 1]
  }

  // ---------------------------------------------------------------- chunk independence

  lemma {:induction false} BlankLineUnique(s: string, i: nat)
    requires i + 1 < |s| && s[i] == s[i + 1] == '\n'
    requires forall j :: 0 <= j < i ==> !(s[j] == s[j + 1] == '\n')
    ensures BlankLine(s) == i
  {
    if i > 0 {
      assert !(s[0] == s[1] == '\n');
      forall j | 0 <= j < i - 1
        ensures !(s[1..][j] == s[1..][j + 1] == '\n')
      {
        assert !(s[j + 1] == s[j + 2] == '\n');
      }
      BlankLineUnique(s[1..], i - 1);
    }
  }

  lemma BlankLineStays(a: string, b: string)
    requires BlankLine(a) < |a|
    ensures BlankLine(a + b) == BlankLine(a)
  {
    var i, t := BlankLine(a), a + b;
    forall j | 0 <= j < i
      ensures !(t[j] == t[j + 1] == '\n')
    {
      assert t[j] == a[j] && t[j + 1] == a[j + 1];
    }
    BlankLineUnique(t, i);
  }

  /** Cutting more input only ever continues from the last, unfinished part. */
  lemma {:induction false} SplitContinues(a: string, b: string)
    ensures Split(a + b) == Init(Split(a)) + Split(Last(Split(a)) + b)
    decreases |a|
  {
    hide Split, BlankLine, Init, Last;
    var i := BlankLine(a);
    SplitOnce(a);
    if i == |a| {
      OnePart(a);
      assert [] + Split(a + b) == Split(a + b);
    } else {
      BlankLineStays(a, b);
      SplitOnce(a + b);
      var rest := a[i + 2..];
      CutAt(a, b, i);
      SplitContinues(rest, b);
      InitOfCons(a[..i], Split(rest));
      Associates([a[..i]], Init(Split(rest)), Split(Last(Split(rest)) + b));
    }
  }

  lemma OnePart(a: string)
    ensures Init([a]) == [] && Last([a]) == a
  {
  }

  lemma CutAt(a: string, b: string, i: nat)
    requires i + 2 <= |a|
    ensures (a + b)[..i] == a[..i] && (a + b)[i + 2..] == a[i + 2..] + b
  {
  }

  lemma Associates<T>(a: seq<T>, b: seq<T>, c: seq<T>)
    ensures a + (b + c) == (a + b) + c
  {
  }

  lemma SplitOnce(s: string)
    ensures var i := BlankLine(s); Split(s) == if i == |s| then [s] else [s[..i]] + Split(s[i + 2..])
  {
    hide BlankLine;
  }

  lemma InitOfCons(x: string, parts: seq<string>)
    requires |parts| > 0
    ensures Init([x] + parts) == [x] + Init(parts) && Last([x] + parts) == Last(parts)
  {
  }

  predicate StartsData(line: string) { |line| >= 5 && line[..5] == "data:" }

  /** The payload is what follows `data:` on the first line that starts with it... */
  lemma {:induction false} DataOfFirst(others: seq<string>, payload: string, rest: string)
    requires forall k :: 0 <= k < |others| ==> Free(others[k], '\n') && !StartsData(others[k])
    requires Free(payload, '\n')
    ensures DataOf(Unlines(others) + "data:" + payload) == Some(payload)
    ensures DataOf(Unlines(others) + "data:" + payload + "\n" + rest) == Some(payload)
  {
    hide DataOf;
    var line := "data:" + payload;
    if others == [] {
      assert Unlines(others) == "";
      DataLine(payload);
      FirstOfLines(line, rest);
      assert Unlines(others) + "data:" + payload == line;
      assert Unlines(others) + "data:" + payload + "\n" + rest == line + "\n" + rest;
    } else {
      var x, u := others[0], Unlines(others[1..]);
      assert Unlines(others) == x + "\n" + u;
      hide Unlines;
      DataOfFirst(others[1..], payload, rest);
      SkipLine(x, u + "data:" + payload);
      SkipLine(x, u + "data:" + payload + "\n" + rest);
      Regroup(x, u, "data:" + payload, "\n" + rest);
      assert u + "data:" + payload == u + line && u + "data:" + payload + "\n" + rest == u + line + ("\n" + rest);
      assert Unlines(others) + "data:" + payload == x + "\n" + u + line;
      assert Unlines(others) + "data:" + payload + "\n" + rest == x + "\n" + u + line + ("\n" + rest);
    }
  }

  lemma DataLine(payload: string)
    requires Free(payload, '\n')
    ensures var line := "data:" + payload; Free(line, '\n') && StartsData(line) && line[5..] == payload
  {
  }

  lemma Regroup(x: string, u: string, line: string, tail: string)
    ensures x + "\n" + u + line == x + "\n" + (u + line)
    ensures x + "\n" + u + line + tail == x + "\n" + (u + line + tail)
  {
  }

  lemma FirstOfLines(line: string, rest: string)
    requires Free(line, '\n') && StartsData(line)
    ensures DataOf(line) == Some(line[5..]) && DataOf(line + "\n" + rest) == Some(line[5..])
  {
    var t := line + "\n" + rest;
    IndexOfUnique(t, '\n', |line|);
    assert t[..|line|] == line;
    assert IndexOf(line, '\n') == |line| by { if IndexOf(line, '\n') < |line| { assert false; } }
    assert line[..|line|] == line;
  }

  lemma SkipLine(x: string, rest: string)
    requires Free(x, '\n') && !StartsData(x)
    ensures DataOf(x + "\n" + rest) == DataOf(rest)
  {
    var t := x + "\n" + rest;
    IndexOfUnique(t, '\n', |x|);
    assert t[..|x|] == x && t[|x| + 1..] == rest;
  }

  /** ...and a block without such a line has none. */
  lemma {:induction false} DataOfNone(others: seq<string>, last: string)
    requires forall k :: 0 <= k < |others| ==> Free(others[k], '\n') && !StartsData(others[k])
    requires Free(last, '\n') && !StartsData(last)
    ensures DataOf(Unlines(others) + last) == None
  {
    if others == [] {
      assert Unlines(others) + last == last;
      assert IndexOf(last, '\n') == |last| by { if IndexOf(last, '\n') < |last| { assert false; } }
      assert last[..|last|] == last;
    } else {
      hide DataOf;
      DataOfNone(others[1..], last);
      SkipLine(others[0], Unlines(others[1..]) + last);
      assert Unlines(others) + last == others[0] + "\n" + (Unlines(others[1..]) + last);
    }
  }

  lemma {:induction false} DispatchToConcat<T>(json: Json<T>, a: seq<string>, b: seq<string>, n: nat)
    requires n <= |b|
    ensures DispatchTo(json, a + b, |a| + n) == DispatchTo(json, a, |a|) + DispatchTo(json, b, n)
  {
    hide Dispatch;
    if n == 0 {
      DispatchToPrefix(json, a, b, |a|);
    } else {
      DispatchToConcat(json, a, b, n - 1);
      assert (a + b)[|a| + n - 1] == b[n - 1];
    }
  }

  lemma {:induction false} DispatchToPrefix<T>(json: Json<T>, a: seq<string>, b: seq<string>, n: nat)
    requires n <= |a|
    ensures DispatchTo(json, a + b, n) == DispatchTo(json, a, n)
  {
    hide Dispatch;
    if n > 0 { DispatchToPrefix(json, a, b, n - 1); }
  }

  /** Callbacks for the finished blocks of one chunk. */
  method DispatchBlocks<T>(json: Json<T>, blocks: seq<string>) returns (calls: seq<Callback<T>>)
    ensures calls == DispatchAll(json, blocks)
  {
    hide Dispatch;
    calls := [];
    for b := 0 to |blocks|
      invariant calls == DispatchTo(json, blocks, b)
    {
      calls := calls + Dispatch(json, blocks[b]);
    }
  }

  /** The read loop of one connection: whatever the chunks, the callbacks made and
      the text left over are those of one cut of the whole stream. */
  method ReadLoop<T>(json: Json<T>, chunks: seq<string>) returns (calls: seq<Callback<T>>, buffer: string)
    ensures calls == DispatchAll(json, Init(Split(Concat(chunks))))
    ensures buffer == Last(Split(Concat(chunks)))
  {
    hide Dispatch, Split, Concat, DispatchTo;
    calls, buffer := [], "";
    ghost var done: seq<string> := [];
    Beginning(json);
    assert chunks[..0] == [];
    for n := 0 to |chunks|
      invariant Split(Concat(chunks[..n])) == done + [buffer]
      invariant calls == DispatchAll(json, done)
    {
      NextChunk(chunks, n, done, buffer);
      buffer := buffer + chunks[n];
      var blocks := Split(buffer);
      buffer := Last(blocks);
      blocks := Init(blocks);
      var more := DispatchBlocks(json, blocks);
      DispatchToConcat(json, done, blocks, |blocks|);
      calls := calls + more;
      done := done + blocks;
    }
    assert chunks[..|chunks|] == chunks;
    assert Init(done + [buffer]) == done;
  }

  lemma NextChunk(chunks: seq<string>, n: nat, done: seq<string>, buffer: string)
    requires n < |chunks| && Split(Concat(chunks[..n])) == done + [buffer]
    ensures var blocks := Split(buffer + chunks[n]);
            Split(Concat(chunks[..n + 1])) == done + Init(blocks) + [Last(blocks)]
  {
    hide Split;
    assert chunks[..n + 1][..n] == chunks[..n];
    SplitContinues(Concat(chunks[..n]), chunks[n]);
    assert Init(done + [buffer]) == done;
  }

  lemma Beginning<T>(json: Json<T>)
    ensures Split(Concat([])) == [] + [""] && DispatchAll(json, []) == []
  {
  }

  // ---------------------------------------------------------------- the daemon's frames

  datatype Frame = Data(text: string) | Comment(text: string)

  /** One line of text; a JSON text has no blanks at its ends. */
  ghost predicate OneLine(f: Frame) { Free(f.text, '\n') && (f.Data? ==> Tight(IsBlank, f.text)) }

  function Body(f: Frame): string { (if f.Data? then "data: " else ": ") + f.text }

  function Wire(f: Frame): string { Body(f) + "\n\n" }

  function WireAll(fs: seq<Frame>): string { if fs == [] then "" else Wire(fs[0]) + WireAll(fs[1..]) }

  /** What the sender means by a frame. */
  function Meaning<T>(json: Json<T>, f: Frame): seq<Callback<T>> {
    if f.Comment? then []
    else
      match json.parse(f.text)
      case None => []
      case Some(v) => if json.lagged(v) then [Lagged(v)] else [Event(v)]
  }

  function MeaningTo<T>(json: Json<T>, fs: seq<Frame>, n: nat): seq<Callback<T>>
    requires n <= |fs|
  {
    if n == 0 then [] else MeaningTo(json, fs, n - 1) + Meaning(json, fs[n - 1])
  }

  /** The values the client can read from the first n frames, by frame. */
  ghost function Readable<T>(json: Json<T>, fs: seq<Frame>, n: nat): set<nat>
    requires n <= |fs|
  {
    set i: nat | i < n && fs[i].Data? && json.parse(fs[i].text).Some?
  }

  lemma ReadableNext<T>(json: Json<T>, fs: seq<Frame>, n: nat)
    requires 0 < n <= |fs|
    ensures n - 1 !in Readable(json, fs, n - 1)
    ensures Readable(json, fs, n) ==
            Readable(json, fs, n - 1) + (if fs[n - 1].Data? && json.parse(fs[n - 1].text).Some? then {n - 1} else {})
  {
  }

  lemma OneMeaning<T>(json: Json<T>, f: Frame)
    ensures |Meaning(json, f)| == if f.Data? && json.parse(f.text).Some? then 1 else 0
  {
  }

  lemma {:induction false} OneCallbackEach<T>(json: Json<T>, fs: seq<Frame>, n: nat)
    requires n <= |fs|
    ensures |MeaningTo(json, fs, n)| == |Readable(json, fs, n)|
  {
    if n > 0 {
      hide Readable, Meaning;
      OneCallbackEach(json, fs, n - 1);
      ReadableNext(json, fs, n);
      OneMeaning(json, fs[n - 1]);
    }
  }

  /** Every readable frame leads to one callback, behind those of the frames before
      it: the lag callback for a lag notice, the event callback for anything else. */
  lemma {:induction false} CallbackOfFrame<T>(json: Json<T>, fs: seq<Frame>, n: nat, i: nat)
    requires i < n <= |fs| && fs[i].Data? && json.parse(fs[i].text).Some?
    ensures var calls, k, v := MeaningTo(json, fs, n), |Readable(json, fs, i)|, json.parse(fs[i].text).value;
            && k < |calls|
            && (json.lagged(v) ==> calls[k] == Lagged(v)) && (!json.lagged(v) ==> calls[k] == Event(v))
  {
    hide Readable;
    OneCallbackEach(json, fs, n - 1);
    if i < n - 1 {
      hide Meaning;
      CallbackOfFrame(json, fs, n - 1, i);
    }
  }

  function Bodies(fs: seq<Frame>): (bs: seq<string>)
    ensures |bs| == |fs| && forall i :: 0 <= i < |fs| ==> bs[i] == Body(fs[i])
  {
    seq(|fs|, i requires 0 <= i < |fs| => Body(fs[i]))
  }

  lemma BodyIsOneLine(f: Frame)
    requires OneLine(f)
    ensures Free(Body(f), '\n')
  {
    var p := if f.Data? then "data: " else ": ";
    assert Free(p, '\n');
  }

  lemma SplitFrame(body: string, rest: string)
    requires Free(body, '\n')
    ensures Split(body + "\n\n" + rest) == [body] + Split(rest)
  {
    var t := body + "\n\n" + rest;
    assert forall j :: 0 <= j < |body| ==> t[j] == body[j];
    BlankLineUnique(t, |body|);
    assert t[..|body|] == body && t[|body| + 2..] == rest;
  }

  /** A frame that has not ended yet is not cut. */
  lemma SplitUnfinished(f: Frame, q: string)
    requires OneLine(f) && q <= Wire(f) && q != Wire(f)
    ensures Split(q) == [q]
  {
    BodyIsOneLine(f);
    assert forall j :: 0 <= j < |q| && q[j] == '\n' ==> j == |Body(f)|;
  }

  lemma {:induction false} SplitFrames(fs: seq<Frame>, next: Frame, q: string)
    requires (forall i :: 0 <= i < |fs| ==> OneLine(fs[i])) && OneLine(next) && q <= Wire(next) && q != Wire(next)
    ensures Split(WireAll(fs) + q) == Bodies(fs) + [q]
  {
    hide Split, Body;
    if fs == [] {
      SplitUnfinished(next, q);
      assert WireAll(fs) + q == q;
    } else {
      BodyIsOneLine(fs[0]);
      assert WireAll(fs) + q == Body(fs[0]) + "\n\n" + (WireAll(fs[1..]) + q);
      SplitFrame(Body(fs[0]), WireAll(fs[1..]) + q);
      SplitFrames(fs[1..], next, q);
      assert Bodies(fs) == [Body(fs[0])] + Bodies(fs[1..]);
    }
  }

  lemma DispatchFrame<T>(json: Json<T>, f: Frame)
    requires OneLine(f)
    ensures Dispatch(json, Body(f)) == Meaning(json, f)
  {
    var b := Body(f);
    BodyIsOneLine(f);
    assert IndexOf(b, '\n') == |b| by { if IndexOf(b, '\n') < |b| { assert false; } }
    assert b[..|b|] == b;
    if f.Data? {
      assert b[..5] == "data:";
      assert b[5..] == " " + f.text + "";
      TrimPadded(IsBlank, " ", f.text, "");
    } else {
      assert b[0] == ':';
    }
  }

  lemma {:induction false} DispatchFrames<T>(json: Json<T>, fs: seq<Frame>, n: nat)
    requires n <= |fs| && forall i :: 0 <= i < |fs| ==> OneLine(fs[i])
    ensures DispatchTo(json, Bodies(fs), n) == MeaningTo(json, fs, n)
  {
    hide Dispatch, Meaning, Body, OneLine;
    if n > 0 {
      DispatchFrames(json, fs, n - 1);
      DispatchFrame(json, fs[n - 1]);
    }
  }

  /** At any moment of the transfer, after the frames fs and any unfinished part q
      of the next one, cut into chunks in any way: the callbacks are exactly those
      the sender meant, in order, and q waits in the buffer. */
  lemma StreamIsDecoded<T>(json: Json<T>, fs: seq<Frame>, next: Frame, q: string, chunks: seq<string>)
    requires (forall i :: 0 <= i < |fs| ==> OneLine(fs[i])) && OneLine(next) && q <= Wire(next) && q != Wire(next)
    requires Concat(chunks) == WireAll(fs) + q
    ensures DispatchAll(json, Init(Split(Concat(chunks)))) == MeaningTo(json, fs, |fs|)
    ensures Last(Split(Concat(chunks))) == q
  {
    SplitFrames(fs, next, q);
    hide Split, OneLine, DispatchTo, Wire;
    DispatchFrames(json, fs, |fs|);
    assert Init(Bodies(fs) + [q]) == Bodies(fs);
  }
}
