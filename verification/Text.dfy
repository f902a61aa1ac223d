/** The string operations the configuration parser and the event stream reader
    are written with: trimming, first occurrence, lines. */
module Text {
  import opened Common

  function TrimStart(p: char -> bool, s: string): (r: string) {
    if s != "" && p(s[0]) then TrimStart(p, s[1..]) else s
  }

  function TrimEnd(p: char -> bool, s: string): (r: string) {
    if s != "" && p(s[|s| - 1]) then TrimEnd(p, s[..|s| - 1]) else s
  }

  function TrimBy(p: char -> bool, s: string): string { TrimEnd(p, TrimStart(p, s)) }

  /** Neither end would be trimmed. */
  predicate Tight(p: char -> bool, s: string) {
    s == "" || (!p(s[0]) && !p(s[|s| - 1]))
  }

  /** The index of the first occurrence of c, or the length when there is none. */
  function IndexOf(s: string, c: char): (i: nat)
    ensures i <= |s|
    ensures i < |s| ==> s[i] == c
    ensures forall j :: 0 <= j < i ==> s[j] != c
  {
    if s == "" || s[0] == c then 0 else 1 + IndexOf(s[1..], c)
  }

  lemma IndexOfUnique(s: string, c: char, i: nat)
    requires i < |s| && s[i] == c && forall j :: 0 <= j < i ==> s[j] != c
    ensures IndexOf(s, c) == i
  {
  }

  predicate Free(s: string, c: char) { forall i :: 0 <= i < |s| ==> s[i] != c }

  predicate IsAscii(s: string) { forall i :: 0 <= i < |s| ==> s[i] as int < 128 }

  lemma {:induction false} TrimStartEffect(p: char -> bool, s: string)
    ensures var r := TrimStart(p, s);
            && |r| <= |s| && r == s[|s| - |r|..]
            && (r != "" ==> !p(r[0]))
  {
    if s != "" && p(s[0]) { TrimStartEffect(p, s[1..]); }
  }

  lemma {:induction false} TrimEndEffect(p: char -> bool, s: string)
    ensures var r := TrimEnd(p, s);
            && |r| <= |s| && r == s[..|r|]
            && (r != "" ==> !p(r[|r| - 1]))
  {
    if s != "" && p(s[|s| - 1]) { TrimEndEffect(p, s[..|s| - 1]); }
  }

  /** Trimming yields a tight piece of the string. */
  lemma TrimEffect(p: char -> bool, s: string)
    ensures Tight(p, TrimBy(p, s))
    ensures forall c :: Free(s, c) ==> Free(TrimBy(p, s), c)
    ensures IsAscii(s) ==> IsAscii(TrimBy(p, s))
  {
    TrimStartEffect(p, s);
    TrimEndEffect(p, TrimStart(p, s));
  }

  /** A tight string is found again inside any padding. */
  lemma {:induction false} TrimPadded(p: char -> bool, before: string, s: string, after: string)
    requires Tight(p, s)
    requires forall i :: 0 <= i < |before| ==> p(before[i])
    requires forall i :: 0 <= i < |after| ==> p(after[i])
    ensures TrimBy(p, before + s + after) == s
    decreases |before| + |after|
  {
    var t := before + s + after;
    if before != "" {
      assert t[1..] == before[1..] + s + after;
      TrimPadded(p, before[1..], s, after);
    } else if s == "" {
      assert t == after;
      AllTrimmed(p, after);
    } else {
      assert TrimStart(p, t) == t;
      TrimEndPadded(p, s, after);
      assert t == s + after;
    }
  }

  lemma {:induction false} AllTrimmed(p: char -> bool, s: string)
    requires forall i :: 0 <= i < |s| ==> p(s[i])
    ensures TrimStart(p, s) == ""
  {
    if s != "" { AllTrimmed(p, s[1..]); }
  }

  lemma {:induction false} TrimEndPadded(p: char -> bool, s: string, after: string)
    requires s != "" && !p(s[|s| - 1])
    requires forall i :: 0 <= i < |after| ==> p(after[i])
    ensures TrimEnd(p, s + after) == s
    decreases |after|
  {
    if after != "" {
      assert (s + after)[..|s + after| - 1] == s + after[..|after| - 1];
      TrimEndPadded(p, s, after[..|after| - 1]);
    } else {
      assert s + after == s;
    }
  }

  function StripCr(s: string): string {
    if s != "" && s[|s| - 1] == '\r' then s[..|s| - 1] else s
  }

  /** Lines as the Rust standard library cuts them: a final line feed ends the
      last line, and a carriage return before a line feed belongs to it. */
  function Lines(s: string): seq<string>
    decreases |s|
  {
    var i := IndexOf(s, '\n');
    if s == "" then []
    else if i == |s| then [s]
    else [StripCr(s[..i])] + Lines(s[i + 1..])
  }

  /** How a text is cut: behind its first line feed, with one carriage return in front
      of it; what follows the last line feed is a line unless it is empty. */
  lemma FirstLine(x: string, rest: string)
    requires Free(x, '\n')
    ensures Lines(x + "\r\n" + rest) == [x] + Lines(rest)
    ensures (x == "" || x[|x| - 1] != '\r') ==> Lines(x + "\n" + rest) == [x] + Lines(rest)
    ensures Lines(x) == if x == "" then [] else [x]
  {
    var s, t := x + "\r\n" + rest, x + "\n" + rest;
    IndexOfUnique(s, '\n', |x| + 1);
    IndexOfUnique(t, '\n', |x|);
    assert s[..|x| + 1] == x + "\r" && s[|x| + 2..] == rest;
    assert t[..|x|] == x && t[|x| + 1..] == rest;
    assert (x + "\r")[..|x|] == x;
  }

  function Unlines(ls: seq<string>): string {
    if ls == [] then "" else ls[0] + "\n" + Unlines(ls[1..])
  }

  lemma {:induction false} LinesAreFree(s: string)
    ensures forall k :: 0 <= k < |Lines(s)| ==> Free(Lines(s)[k], '\n')
    decreases |s|
  {
    var i := IndexOf(s, '\n');
    if i < |s| { LinesAreFree(s[i + 1..]); }
  }

  lemma {:induction false} LinesAreAscii(s: string)
    requires IsAscii(s)
    ensures forall k :: 0 <= k < |Lines(s)| ==> IsAscii(Lines(s)[k])
    decreases |s|
  {
    var i := IndexOf(s, '\n');
    if i < |s| { LinesAreAscii(s[i + 1..]); }
  }

  /** A line that survives being written out and cut again. */
  predicate Plain(l: string) { Free(l, '\n') && (l != "" ==> l[|l| - 1] != '\r') }

  lemma {:induction false} LinesOfUnlines(ls: seq<string>)
    requires forall k :: 0 <= k < |ls| ==> Plain(ls[k])
    ensures Lines(Unlines(ls)) == ls
  {
    if ls != [] {
      var t := Unlines(ls);
      assert t == ls[0] + ("\n" + Unlines(ls[1..]));
      assert t[|ls[0]|] == '\n';
      IndexOfUnique(t, '\n', |ls[0]|);
      assert t[..|ls[0]|] == ls[0];
      assert t[|ls[0]| + 1..] == Unlines(ls[1..]);
      LinesOfUnlines(ls[1..]);
    }
  }

  lemma {:induction false} UnlinesAppends(ls: seq<string>, l: string)
    ensures Unlines(ls + [l]) == Unlines(ls) + l + "\n"
  {
    if ls != [] {
      assert (ls + [l])[1..] == ls[1..] + [l];
      UnlinesAppends(ls[1..], l);
    } else {
      assert Unlines([l]) == l + "\n" + Unlines([]);
    }
  }

  // ---------------------------------------------------------------- decimal numbers

  predicate IsDigit(c: char) { '0' <= c <= '9' }

  predicate AllDigits(s: string) { forall i :: 0 <= i < |s| ==> IsDigit(s[i]) }

  function DigitChar(d: nat): (c: char)
    requires d < 10
    ensures IsDigit(c) && c as nat - '0' as nat == d
  {
    ('0' as nat + d) as char
  }

  function Decimal(n: nat): (s: string)
    ensures s != "" && forall i :: 0 <= i < |s| ==> IsDigit(s[i])
  {
    if n < 10 then [DigitChar(n)] else Decimal(n / 10) + [DigitChar(n % 10)]
  }

  function DecimalValue(s: string): nat
    requires forall i :: 0 <= i < |s| ==> IsDigit(s[i])
  {
    if s == "" then 0
    else
      assert IsDigit(s[|s| - 1]);
      DecimalValue(s[..|s| - 1]) * 10 + (s[|s| - 1] as nat - '0' as nat)
  }

  /** Unsigned integers below a bound, with an optional plus sign; overflow is an error. */
  function ParseUnsigned(s: string, bound: nat): (r: Option<nat>)
    ensures r.Some? ==> r.value < bound
  {
    var digits := if s != "" && s[0] == '+' then s[1..] else s;
    if digits == "" || !AllDigits(digits) then None
    else if DecimalValue(digits) < bound then Some(DecimalValue(digits))
    else None
  }

  lemma {:induction false} DecimalRoundTrip(n: nat)
    ensures DecimalValue(Decimal(n)) == n
  {
    if n >= 10 {
      DecimalRoundTrip(n / 10);
      var s := Decimal(n);
      assert s[..|s| - 1] == Decimal(n / 10);
    } else {
      assert Decimal(n)[..0] == "";
    }
  }

  function ZeroDigits(k: nat): (s: string)
    ensures |s| == k && forall i :: 0 <= i < k ==> s[i] == '0'
  {
    seq(k, _ => '0')
  }

  lemma {:induction false} LeadingZeros(k: nat, s: string)
    requires AllDigits(s)
    ensures AllDigits(ZeroDigits(k) + s) && DecimalValue(ZeroDigits(k) + s) == DecimalValue(s)
  {
    var t := ZeroDigits(k) + s;
    assert forall i :: 0 <= i < |t| ==> t[i] == if i < k then '0' else s[i - k];
    if s != "" {
      var front := s[..|s| - 1];
      LeadingZeros(k, front);
      assert t[..|t| - 1] == ZeroDigits(k) + front;
    } else {
      ZerosAreZero(k);
      assert t == ZeroDigits(k);
    }
  }

  lemma {:induction false} ZerosAreZero(k: nat)
    ensures DecimalValue(ZeroDigits(k)) == 0
  {
    if k > 0 {
      ZerosAreZero(k - 1);
      assert ZeroDigits(k)[..k - 1] == ZeroDigits(k - 1);
    }
  }

  /** Leading zeros and one plus sign are read over; a number of the bound or more, and
      any text that is not all digits, is no number. */
  lemma NumberReadExactly(n: nat, bound: nat, k: nat, plus: bool)
    ensures var d := ZeroDigits(k) + Decimal(n);
            ParseUnsigned(if plus then "+" + d else d, bound) == if n < bound then Some(n) else None
  {
    DecimalRoundTrip(n);
    LeadingZeros(k, Decimal(n));
    hide Decimal, DecimalValue;
    DigitsAreRead(ZeroDigits(k) + Decimal(n), bound, plus);
  }

  lemma DigitsAreRead(d: string, bound: nat, plus: bool)
    requires d != "" && AllDigits(d)
    ensures ParseUnsigned(if plus then "+" + d else d, bound) ==
            if DecimalValue(d) < bound then Some(DecimalValue(d)) else None
  {
    hide DecimalValue;
    assert IsDigit(d[0]);
    var t := "+" + d;
    assert t[1..] == d;
  }

  lemma NotANumber(t: string, bound: nat)
    requires t == "" || t == "+" || exists i :: 0 <= i < |t| && !IsDigit(t[i]) && !(i == 0 && t[0] == '+')
    ensures ParseUnsigned(t, bound).None?
  {
    if t != "" && t[0] == '+' {
      var digits := t[1..];
      if digits != "" {
        var i :| 0 < i < |t| && !IsDigit(t[i]);
        assert digits[i - 1] == t[i];
        assert !AllDigits(digits);
      }
    } else if t != "" {
      assert !AllDigits(t);
    }
  }

  /** What is printed is read back. */
  lemma NumberRoundTrip(n: nat, bound: nat)
    requires n < bound
    ensures ParseUnsigned(Decimal(n), bound) == Some(n)
  {
    DecimalRoundTrip(n);
    assert IsDigit(Decimal(n)[0]);
  }

  // ---------------------------------------------------------------- letter case of ASCII letters

  function UpperChar(c: char): char { if 'a' <= c <= 'z' then (c as int - 32) as char else c }

  function LowerChar(c: char): char { if 'A' <= c <= 'Z' then (c as int + 32) as char else c }

  function Upper(s: string): (r: string)
    ensures |r| == |s| && forall i :: 0 <= i < |s| ==> r[i] == UpperChar(s[i])
  {
    seq(|s|, i requires 0 <= i < |s| => UpperChar(s[i]))
  }

  function Lower(s: string): (r: string)
    ensures |r| == |s| && forall i :: 0 <= i < |s| ==> r[i] == LowerChar(s[i])
  {
    seq(|s|, i requires 0 <= i < |s| => LowerChar(s[i]))
  }

  // ---------------------------------------------------------------- order

  /** Lexicographic order by code point. */
  predicate Leq(a: string, b: string) {
    a == "" || (b != "" && (a[0] < b[0] || (a[0] == b[0] && Leq(a[1..], b[1..]))))
  }

  /** A text comes before another one when it is a prefix of it or has the smaller
      character where they first differ. */
  lemma {:induction false} LeqMeans(a: string, b: string, i: nat)
    requires i <= |a| && i <= |b| && a[..i] == b[..i]
    requires i == |a| || i == |b| || a[i] != b[i]
    ensures Leq(a, b) <==> i == |a| || (i < |b| && a[i] < b[i])
  {
    if i > 0 {
      assert a[0] == a[..i][0] == b[..i][0] == b[0];
      assert a[1..][..i - 1] == a[..i][1..] == b[..i][1..] == b[1..][..i - 1];
      LeqMeans(a[1..], b[1..], i - 1);
    }
  }

  lemma {:induction false} LeqTotal(a: string, b: string)
    ensures Leq(a, b) || Leq(b, a)
  {
    if a != "" && b != "" { LeqTotal(a[1..], b[1..]); }
  }

  lemma {:induction false} LeqAntisymmetric(a: string, b: string)
    requires Leq(a, b) && Leq(b, a)
    ensures a == b
  {
    if a != "" && b != "" {
      LeqAntisymmetric(a[1..], b[1..]);
      assert a == [a[0]] + a[1..] && b == [b[0]] + b[1..];
    }
  }

  lemma {:induction false} LeqTransitive(a: string, b: string, c: string)
    requires Leq(a, b) && Leq(b, c)
    ensures Leq(a, c)
  {
    if a != "" && a[0] == b[0] == c[0] { LeqTransitive(a[1..], b[1..], c[1..]); }
  }

  lemma LeastExists(s: set<string>) returns (m: string)
    requires s != {}
    ensures m in s && forall x :: x in s ==> Leq(m, x)
  {
    m :| m in s;
    LeqTotal(m, m);
    var rest := s - {m};
    if rest == {} {
      assert forall x :: x in s ==> x == m || x in rest;
    } else {
      var r := LeastExists(rest);
      LeqTotal(m, r);
      var least := if Leq(m, r) then m else r;
      forall x | x in s
        ensures Leq(least, x)
      {
        assert x == m || x in rest;
        if x in rest && Leq(m, r) { LeqTransitive(m, r, x); }
      }
      m := least;
    }
  }
}
