/** String helpers shared by the record renderer, the folder namer and the
    storage back ends: decimal printing as `Int32.ToString()`/`Int64.ToString()`
    do it, zero padding as the `yyyy`/`MM` custom date specifiers do it, joining
    and splitting on a separator, substring and suffix tests, ASCII lower-casing.
    Decimal printing assumes a culture whose negative sign is the ASCII '-'. */
module Text {

  // ---------------------------------------------------------------- digits

  predicate IsDigit(c: char) {
    '0' <= c <= '9'
  }

  predicate AllDigits(s: string) {
    forall i :: 0 <= i < |s| ==> IsDigit(s[i])
  }

  function DigitChar(d: nat): (c: char)
    requires d < 10
    ensures IsDigit(c) && DigitValue(c) == d
  {
    (d + '0' as int) as char
  }

  function DigitValue(c: char): nat
    requires IsDigit(c)
  {
    c as int - '0' as int
  }

  /** Decimal representation of a non-negative number, without leading zeros. */
  function NatToString(n: nat): (s: string)
    ensures 1 <= |s| && AllDigits(s)
    ensures n < 10 <==> |s| == 1
    decreases n
  {
    if n < 10 then [DigitChar(n)] else NatToString(n / 10) + [DigitChar(n % 10)]
  }

  /** Decimal representation of any integer, with a leading '-' when negative. */
  function IntToString(i: int): (s: string)
    ensures 1 <= |s|
    ensures i >= 0 ==> AllDigits(s)
    ensures i < 0 ==> s[0] == '-' && AllDigits(s[1..])
  {
    if i < 0 then "-" + NatToString(-i) else NatToString(i)
  }

  /** Reads a string of decimal digits back into a number (the inverse of NatToString). */
  function ParseNat(s: string): nat
    requires AllDigits(s)
    decreases |s|
  {
    if s == [] then 0 else ParseNat(s[..|s| - 1]) * 10 + DigitValue(s[|s| - 1])
  }

  lemma {:induction false} ParseNatToString(n: nat)
    ensures ParseNat(NatToString(n)) == n
    decreases n
  {
    var s := NatToString(n);
    if n >= 10 {
      ParseNatToString(n / 10);
      assert s[..|s| - 1] == NatToString(n / 10);
    }
  }

  lemma {:induction false} NatToStringLength(n: nat)
    ensures n < 100 ==> |NatToString(n)| <= 2
    ensures n < 10000 ==> |NatToString(n)| <= 4
    ensures 10 <= n < 100 ==> |NatToString(n)| == 2
    ensures 1000 <= n ==> |NatToString(n)| >= 4
    decreases n
  {
    if n >= 10 {
      NatToStringLength(n / 10);
    }
  }

  function Zeros(k: nat): (s: string)
    ensures |s| == k && AllDigits(s)
  {
    seq(k, _ => '0')
  }

  /** `digits` padded on the left with '0' up to `width` characters. */
  function PadLeft(digits: string, width: nat): (s: string)
    requires AllDigits(digits)
    ensures AllDigits(s) && |s| == if |digits| < width then width else |digits|
  {
    if |digits| < width then Zeros(width - |digits|) + digits else digits
  }

  /** `n` printed with at least `width` digits, padded on the left with '0'. */
  function ZeroPad(n: nat, width: nat): (s: string)
    ensures AllDigits(s) && |s| >= width
  {
    PadLeft(NatToString(n), width)
  }

  lemma {:induction false} ParseNatLeadingZeros(k: nat, s: string)
    requires AllDigits(s)
    ensures AllDigits(Zeros(k) + s) && ParseNat(Zeros(k) + s) == ParseNat(s)
    decreases |s|
  {
    var t := Zeros(k) + s;
    if s == [] {
      assert t == Zeros(k);
      ParseNatZeros(k);
    } else {
      ParseNatLeadingZeros(k, s[..|s| - 1]);
      assert t[..|t| - 1] == Zeros(k) + s[..|s| - 1];
    }
  }

  lemma {:induction false} ParseNatZeros(k: nat)
    ensures ParseNat(Zeros(k)) == 0
  {
    if k > 0 {
      ParseNatZeros(k - 1);
      assert Zeros(k)[..k - 1] == Zeros(k - 1);
    }
  }

  lemma ParsePadLeft(digits: string, width: nat)
    requires AllDigits(digits)
    ensures ParseNat(PadLeft(digits, width)) == ParseNat(digits)
  {
    if |digits| < width {
      var k := width - |digits|;
      assert PadLeft(digits, width) == Zeros(k) + digits;
      ParseNatLeadingZeros(k, digits);
    } else {
      assert PadLeft(digits, width) == digits;
    }
  }

  /** Padding loses nothing: the padded digits still read back as `n`. */
  lemma ParseZeroPad(n: nat, width: nat)
    ensures ParseNat(ZeroPad(n, width)) == n
  {
    ParsePadLeft(NatToString(n), width);
    ParseNatToString(n);
  }

  lemma ZeroPadWidth(n: nat, width: nat)
    requires (width == 2 && n < 100) || (width == 4 && n < 10000)
    ensures |ZeroPad(n, width)| == width
  {
    NatToStringLength(n);
  }

  // ------------------------------------------------------ join and split

  /** `Environment.NewLine` of the Windows host the consumer runs on. */
  const NewLine: string := "\r\n"

  /** The parts with `sep` between consecutive ones; no leading or trailing separator. */
  function Join(parts: seq<string>, sep: string): string
  {
    if |parts| == 0 then ""
    else if |parts| == 1 then parts[0]
    else parts[0] + sep + Join(parts[1..], sep)
  }

  lemma Join3(c: string, d: string, e: string, sep: string)
    ensures Join([c, d, e], sep) == c + sep + d + sep + e
  {
    assert [c, d, e][1..] == [d, e];
    assert [d, e][1..] == [e];
    assert Join([d, e], sep) == d + sep + e;
  }

  lemma Join4(b: string, c: string, d: string, e: string, sep: string)
    ensures Join([b, c, d, e], sep) == b + sep + c + sep + d + sep + e
  {
    assert [b, c, d, e][1..] == [c, d, e];
    Join3(c, d, e, sep);
    var rest := c + sep + d + sep + e;
    assert b + sep + rest == b + sep + c + sep + d + sep + e;
  }

  lemma Join5(a: string, b: string, c: string, d: string, e: string, sep: string)
    ensures Join([a, b, c, d, e], sep) == a + sep + b + sep + c + sep + d + sep + e
  {
    assert [a, b, c, d, e][1..] == [b, c, d, e];
    Join4(b, c, d, e, sep);
    var rest := b + sep + c + sep + d + sep + e;
    assert a + sep + rest == a + sep + b + sep + c + sep + d + sep + e;
  }

  lemma Join6(a: string, b: string, c: string, d: string, e: string, f: string, sep: string)
    ensures Join([a, b, c, d, e, f], sep) == a + sep + b + sep + c + sep + d + sep + e + sep + f
  {
    assert [a, b, c, d, e, f][1..] == [b, c, d, e, f];
    Join5(b, c, d, e, f, sep);
    var rest := b + sep + c + sep + d + sep + e + sep + f;
    assert a + sep + rest == a + sep + b + sep + c + sep + d + sep + e + sep + f;
  }

  /** Every line followed by the terminator `term`, the last one included. */
  function Terminated(lines: seq<string>, term: string): string
  {
    if lines == [] then "" else Terminated(lines[..|lines| - 1], term) + lines[|lines| - 1] + term
  }

  function TotalLength(parts: seq<string>): nat
  {
    if parts == [] then 0 else TotalLength(parts[..|parts| - 1]) + |parts[|parts| - 1]|
  }

  function IndexOf(s: string, c: char): (i: nat)
    requires c in s
    ensures i < |s| && s[i] == c && c !in s[..i]
  {
    if s[0] == c then 0 else 1 + IndexOf(s[1..], c)
  }

  /** The pieces of `s` between occurrences of `c` (String.Split with one separator). */
  function Split(s: string, c: char): (parts: seq<string>)
    ensures 1 <= |parts|
    decreases |s|
  {
    if c in s then
      var i := IndexOf(s, c);
      [s[..i]] + Split(s[i + 1..], c)
    else
      [s]
  }

  /** Appending one more part adds exactly one separator before it. */
  lemma {:induction false} JoinSnoc(parts: seq<string>, x: string, sep: string)
    requires 1 <= |parts|
    ensures Join(parts + [x], sep) == Join(parts, sep) + sep + x
    decreases |parts|
  {
    if |parts| > 1 {
      JoinSnoc(parts[1..], x, sep);
      assert (parts + [x])[1..] == parts[1..] + [x];
    }
  }

  /** Joining and splitting on a character that no part contains are inverse. */
  lemma {:induction false} SplitJoin(parts: seq<string>, c: char)
    requires 1 <= |parts|
    requires forall i :: 0 <= i < |parts| ==> c !in parts[i]
    ensures Split(Join(parts, [c]), c) == parts
    decreases |parts|
  {
    var s := Join(parts, [c]);
    if |parts| > 1 {
      var rest := Join(parts[1..], [c]);
      assert s == parts[0] + [c] + rest;
      IndexOfAfter(parts[0], c, rest);
      assert s[..|parts[0]|] == parts[0];
      assert s[|parts[0]| + 1..] == rest;
      SplitJoin(parts[1..], c);
    }
  }

  lemma IndexOfAfter(a: string, c: char, b: string)
    requires c !in a
    ensures c in a + [c] + b && IndexOf(a + [c] + b, c) == |a|
  {
    var s := a + [c] + b;
    assert s[|a|] == c;
    assert forall j :: 0 <= j < |a| ==> s[j] == a[j];
  }

  /** The terminated form is the joined form plus one final terminator. */
  lemma {:induction false} TerminatedIsJoinPlusTerminator(lines: seq<string>, term: string)
    requires 1 <= |lines|
    ensures Terminated(lines, term) == Join(lines, term) + term
    decreases |lines|
  {
    if |lines| > 1 {
      var init := lines[..|lines| - 1];
      TerminatedIsJoinPlusTerminator(init, term);
      JoinSnoc(init, lines[|lines| - 1], term);
      assert init + [lines[|lines| - 1]] == lines;
    }
  }

  /** Terminating two runs of lines one after the other is terminating their concatenation. */
  lemma {:induction false} TerminatedAppend(a: seq<string>, b: seq<string>, term: string)
    ensures Terminated(a + b, term) == Terminated(a, term) + Terminated(b, term)
    decreases |b|
  {
    if b == [] {
      assert a + b == a;
    } else {
      var init := b[..|b| - 1];
      TerminatedAppend(a, init, term);
      assert (a + b)[..|a + b| - 1] == a + init;
    }
  }

  lemma {:induction false} TerminatedLength(lines: seq<string>, term: string)
    ensures |Terminated(lines, term)| == TotalLength(lines) + |lines| * |term|
    decreases |lines|
  {
    if lines != [] {
      TerminatedLength(lines[..|lines| - 1], term);
    }
  }

  /** The number of occurrences of `c` in `s`. */
  function CountChar(s: string, c: char): nat
  {
    if s == [] then 0 else CountChar(s[..|s| - 1], c) + (if s[|s| - 1] == c then 1 else 0)
  }

  lemma {:induction false} CountCharAppend(a: string, b: string, c: char)
    ensures CountChar(a + b, c) == CountChar(a, c) + CountChar(b, c)
    decreases |b|
  {
    if b == [] {
      assert a + b == a;
    } else {
      CountCharAppend(a, b[..|b| - 1], c);
      assert (a + b)[..|a + b| - 1] == a + b[..|b| - 1];
    }
  }

  /** The newline holds exactly one line feed. */
  lemma NewLineHasOneLineFeed()
    ensures CountChar(NewLine, '\n') == 1
  {
    assert NewLine[..1] == "\r" && NewLine[..1][..0] == "";
  }

  /** When no line holds `c` and the terminator holds it once, `c` occurs once per line. */
  lemma {:induction false} TerminatedCount(lines: seq<string>, term: string, c: char)
    requires forall i :: 0 <= i < |lines| ==> CountChar(lines[i], c) == 0
    requires CountChar(term, c) == 1
    ensures CountChar(Terminated(lines, term), c) == |lines|
    decreases |lines|
  {
    if lines != [] {
      var init, last := lines[..|lines| - 1], lines[|lines| - 1];
      assert forall i :: 0 <= i < |init| ==> init[i] == lines[i];
      TerminatedCount(init, term, c);
      CountCharAppend(Terminated(init, term), last, c);
      CountCharAppend(Terminated(init, term) + last, term, c);
    }
  }

  /** When no part holds `c` and the separator holds it once, `c` occurs once
      between each two consecutive parts and nowhere else. */
  lemma JoinCount(parts: seq<string>, sep: string, c: char)
    requires 1 <= |parts|
    requires forall i :: 0 <= i < |parts| ==> CountChar(parts[i], c) == 0
    requires CountChar(sep, c) == 1
    ensures CountChar(Join(parts, sep), c) == |parts| - 1
  {
    TerminatedIsJoinPlusTerminator(parts, sep);
    TerminatedCount(parts, sep, c);
    CountCharAppend(Join(parts, sep), sep, c);
  }

  // ------------------------------------------------ substrings and case

  predicate StartsWith(s: string, prefix: string) {
    |prefix| <= |s| && s[..|prefix|] == prefix
  }

  predicate EndsWith(s: string, suffix: string) {
    |suffix| <= |s| && s[|s| - |suffix|..] == suffix
  }

  /** String.Contains with ordinal comparison. */
  function Contains(s: string, sub: string): bool
    decreases |s|
  {
    if StartsWith(s, sub) then true
    else if s == [] then false
    else Contains(s[1..], sub)
  }

  lemma {:induction false} ContainsAt(s: string, sub: string, i: nat)
    requires i + |sub| <= |s| && s[i..i + |sub|] == sub
    ensures Contains(s, sub)
    decreases i
  {
    if i > 0 && !StartsWith(s, sub) {
      assert s[1..][i - 1..i - 1 + |sub|] == sub;
      ContainsAt(s[1..], sub, i - 1);
    }
  }

  function LowerChar(c: char): char {
    if 'A' <= c <= 'Z' then (c as int + 32) as char else c
  }

  /** Lower-casing of the ASCII letters; every other character is kept. */
  function ToLower(s: string): (r: string)
    ensures |r| == |s|
  {
    seq(|s|, i requires 0 <= i < |s| => LowerChar(s[i]))
  }

  lemma ToLowerIdempotent(s: string)
    ensures ToLower(ToLower(s)) == ToLower(s)
  {
  }
}
