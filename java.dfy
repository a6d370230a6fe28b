/** The parts of the Java library the program relies on, with Java's semantics:
    32-bit int, doubles that may be infinite, and the String operations the
    problem-definition format uses (split, strip, parseInt, %d, equalsIgnoreCase,
    toLowerCase, replace) together with the line splitting of Scanner. */
module Java {
  import opened Wrappers

  /** Java's int. */
  newtype int32 = x: int | -0x8000_0000 <= x < 0x8000_0000

  const IntMin: int32 := -0x8000_0000

  /** Unary minus on int: wraps around at Integer.MIN_VALUE. */
  function Negate(x: int32): (r: int32)
    ensures x != IntMin ==> r as int == -(x as int)
    ensures x == IntMin ==> r == IntMin
  {
    if x == IntMin then IntMin else -x
  }

  /** A double that may be infinite (NaN is not modelled). */
  datatype ExtReal = NegativeInfinity | Finite(r: real) | PositiveInfinity

  /** Math.abs on a whole number (the cast of a double to int is not modelled). */
  function Abs(x: int): (r: nat)
    ensures r == x || r == -x
  {
    if x < 0 then -x else x
  }

  // ---------------------------------------------------------------------------
  // Characters

  /** Character.isWhitespace. */
  predicate IsWhitespace(c: char) {
    || c == ' ' || c == '\t' || c == '\n' || c == '\U{B}' || c == '\U{C}' || c == '\r'
    || ('\U{1C}' <= c <= '\U{1F}')
    || c == '\U{1680}' || ('\U{2000}' <= c <= '\U{2006}') || ('\U{2008}' <= c <= '\U{200A}')
    || c == '\U{2028}' || c == '\U{2029}' || c == '\U{205F}' || c == '\U{3000}'
  }

  predicate IsDigit(c: char) {
    '0' <= c <= '9'
  }

  predicate AllDigits(s: string) {
    forall i :: 0 <= i < |s| ==> IsDigit(s[i])
  }

  /** True when c does not occur in s. */
  predicate Lacks(s: string, c: char) {
    c !in s
  }

  /** Case folding of ASCII letters (the rest of Unicode case mapping is not modelled). */
  function ToLowerChar(c: char): char {
    if 'A' <= c <= 'Z' then (c as int + 32) as char else c
  }

  // ---------------------------------------------------------------------------
  // String.strip and String.isBlank

  function TrimLeft(s: string): string {
    if s != [] && IsWhitespace(s[0]) then TrimLeft(s[1..]) else s
  }

  function TrimRight(s: string): string {
    if s != [] && IsWhitespace(s[|s| - 1]) then TrimRight(s[..|s| - 1]) else s
  }

  /** String.strip: leading and trailing white space removed. */
  function Strip(s: string): string {
    TrimRight(TrimLeft(s))
  }

  /** String.isBlank. */
  predicate IsBlank(s: string) {
    forall i :: 0 <= i < |s| ==> IsWhitespace(s[i])
  }

  /** Neither end of s is white space: strip leaves s as it is. */
  predicate Trimmed(s: string) {
    s == [] || (!IsWhitespace(s[0]) && !IsWhitespace(s[|s| - 1]))
  }

  lemma StripTrimmed(s: string)
    requires Trimmed(s)
    ensures Strip(s) == s
  {
  }

  lemma StripSpaceBefore(s: string)
    requires Trimmed(s)
    ensures Strip(" " + s) == s
  {
    assert (" " + s)[1..] == s;
    assert TrimLeft(" " + s) == TrimLeft(s);
    assert TrimLeft(s) == s;
  }

  lemma StripSpaceAfter(s: string)
    requires Trimmed(s)
    ensures Strip(s + " ") == s
  {
    var t := s + " ";
    assert t[..|t| - 1] == s;
    if s == [] {
      assert TrimLeft(t) == TrimLeft("");
    } else {
      assert t[0] == s[0];
      assert TrimLeft(t) == t;
      assert TrimRight(t) == TrimRight(s);
    }
  }

  // ---------------------------------------------------------------------------
  // String.split with a literal separator

  /** Every piece between occurrences of d, scanning left to right. */
  function SplitAll(s: string, d: string): (pieces: seq<string>)
    requires d != []
    ensures |pieces| >= 1
    decreases |s|
  {
    if |s| < |d| then [s]
    else if s[..|d|] == d then [""] + SplitAll(s[|d|..], d)
    else
      var rest := SplitAll(s[1..], d);
      [[s[0]] + rest[0]] + rest[1..]
  }

  function DropTrailingEmpty(pieces: seq<string>): (r: seq<string>)
    ensures |r| <= |pieces| && r == pieces[..|r|]
    ensures r == [] || r[|r| - 1] != []
  {
    if pieces != [] && pieces[|pieces| - 1] == [] then DropTrailingEmpty(pieces[..|pieces| - 1])
    else pieces
  }

  /** String.split(d) for a separator d without regular-expression meaning: when d
      does not occur the result is the whole string, even the empty one; otherwise
      trailing empty pieces are dropped and leading ones are kept. */
  function Split(s: string, d: string): seq<string>
    requires d != []
  {
    var pieces := SplitAll(s, d);
    if |pieces| == 1 then pieces else DropTrailingEmpty(pieces)
  }

  lemma {:induction false} SplitAllWithout(s: string, d: string)
    requires d != [] && Lacks(s, d[0])
    ensures SplitAll(s, d) == [s]
    decreases |s|
  {
    if |s| >= |d| {
      assert s[..|d|][0] == s[0];
      SplitAllWithout(s[1..], d);
      assert [s[0]] + s[1..] == s;
    }
  }

  /** The first piece ends at the first separator. */
  lemma {:induction false} SplitAllAt(a: string, d: string, b: string)
    requires d != [] && Lacks(a, d[0])
    ensures SplitAll(a + d + b, d) == [a] + SplitAll(b, d)
    decreases |a|
  {
    var s := a + d + b;
    if a == [] {
      assert s[..|d|] == d && s[|d|..] == b;
    } else {
      assert s[..|d|][0] == a[0];
      assert s[1..] == a[1..] + d + b;
      SplitAllAt(a[1..], d, b);
      assert [a[0]] + a[1..] == a;
    }
  }

  lemma SplitTwo(a: string, d: string, b: string)
    requires d != [] && Lacks(a, d[0]) && Lacks(b, d[0]) && b != []
    ensures Split(a + d + b, d) == [a, b]
  {
    SplitAllAt(a, d, b);
    SplitAllWithout(b, d);
  }

  lemma SplitThree(a: string, d: string, b: string, c: string)
    requires d != [] && Lacks(a, d[0]) && Lacks(b, d[0]) && Lacks(c, d[0]) && c != []
    ensures Split(a + d + b + d + c, d) == [a, b, c]
  {
    assert a + d + b + d + c == a + d + (b + d + c);
    SplitAllAt(a, d, b + d + c);
    SplitAllAt(b, d, c);
    SplitAllWithout(c, d);
  }

  lemma SplitNone(s: string, d: string)
    requires d != [] && Lacks(s, d[0])
    ensures Split(s, d) == [s]
  {
    SplitAllWithout(s, d);
  }

  // ---------------------------------------------------------------------------
  // Integer.toString (and %d) and Integer.parseInt

  function DigitChar(d: nat): (c: char)
    requires d < 10
    ensures IsDigit(c)
  {
    ('0' as int + d) as char
  }

  function DigitValue(c: char): nat
    requires IsDigit(c)
  {
    c as int - '0' as int
  }

  function NatToString(n: nat): string
    decreases n
  {
    if n < 10 then [DigitChar(n)] else NatToString(n / 10) + [DigitChar(n % 10)]
  }

  /** Integer.toString, which %d also prints. */
  function IntToString(n: int): string {
    if n < 0 then "-" + NatToString(-n) else NatToString(n)
  }

  function DigitsValue(s: string): nat
    requires AllDigits(s)
  {
    if s == [] then 0 else DigitsValue(s[..|s| - 1]) * 10 + DigitValue(s[|s| - 1])
  }

  /** Integer.parseInt: an optional sign, then one or more decimal digits, within the
      range of int (digits of other scripts, which Java also accepts, are not modelled). */
  function ParseInt(s: string): Option<int32> {
    if s == [] then None
    else
      var digits := if s[0] == '-' || s[0] == '+' then s[1..] else s;
      if digits == [] || !AllDigits(digits) then None
      else
        var v: int := if s[0] == '-' then 0 - DigitsValue(digits) as int else DigitsValue(digits) as int;
        if -0x8000_0000 <= v < 0x8000_0000 then Some(v as int32) else None
  }

  /** "key=%d": a key, '=' and an int as Integer.toString prints it. */
  function Assignment(key: string, n: int): string {
    key + "=" + IntToString(n)
  }

  lemma {:induction false} NatToStringDigits(n: nat)
    ensures NatToString(n) != [] && AllDigits(NatToString(n))
    ensures DigitsValue(NatToString(n)) == n
    decreases n
  {
    if n >= 10 {
      NatToStringDigits(n / 10);
      var s := NatToString(n);
      assert s[..|s| - 1] == NatToString(n / 10);
    }
  }

  /** Integer.parseInt reads back what Integer.toString wrote. */
  lemma ParseIntToString(n: int32)
    ensures ParseInt(IntToString(n as int)) == Some(n)
  {
    NatToStringDigits(Abs(n as int));
    var s := IntToString(n as int);
    if n < 0 {
      assert s[1..] == NatToString(-(n as int));
    }
  }

  /** What a printed int looks like: a '-' or a digit first, digits after. */
  lemma IntToStringChars(n: int)
    ensures IntToString(n) != []
    ensures IsDigit(IntToString(n)[|IntToString(n)| - 1])
    ensures forall i :: 0 <= i < |IntToString(n)| ==> IsDigit(IntToString(n)[i]) || IntToString(n)[i] == '-'
  {
    NatToStringDigits(Abs(n));
  }

  lemma IntToStringTrimmed(n: int)
    ensures Trimmed(IntToString(n))
    ensures forall c :: !IsDigit(c) && c != '-' ==> Lacks(IntToString(n), c)
  {
    IntToStringChars(n);
  }

  // ---------------------------------------------------------------------------
  // String.equalsIgnoreCase, toLowerCase, replace

  predicate EqualsIgnoreCase(a: string, b: string) {
    |a| == |b| && forall i :: 0 <= i < |a| ==> ToLowerChar(a[i]) == ToLowerChar(b[i])
  }

  function ToLower(s: string): (r: string)
    ensures |r| == |s|
  {
    seq(|s|, i requires 0 <= i < |s| => ToLowerChar(s[i]))
  }

  /** String.replace of one character by another, everywhere. */
  function Replace(s: string, from: char, to: char): (r: string)
    ensures |r| == |s|
  {
    seq(|s|, i requires 0 <= i < |s| => if s[i] == from then to else s[i])
  }

  // ---------------------------------------------------------------------------
  // Lines of a text, as Scanner.nextLine hands them out

  /** Each line followed by a line feed, as FileWriter receives them. */
  function JoinLines(lines: seq<string>): string {
    if lines == [] then "" else lines[0] + "\n" + JoinLines(lines[1..])
  }

  /** The lines Scanner.hasNextLine/nextLine yield for a text whose only line
      terminator is the line feed: no line after a final terminator. */
  function Lines(text: string): seq<string> {
    if text == [] then []
    else
      var pieces := SplitAll(text, "\n");
      if pieces[|pieces| - 1] == [] then pieces[..|pieces| - 1] else pieces
  }

  lemma AppendAssoc<T>(a: seq<T>, b: seq<T>, c: seq<T>)
    ensures a + b + c == a + (b + c)
  {
  }

  lemma {:induction false} JoinLinesAppend(a: seq<string>, b: seq<string>)
    ensures JoinLines(a + b) == JoinLines(a) + JoinLines(b)
    decreases |a|
  {
    if a != [] {
      assert (a + b)[0] == a[0] && (a + b)[1..] == a[1..] + b;
      JoinLinesAppend(a[1..], b);
      calc {
        JoinLines(a + b);
        a[0] + "\n" + JoinLines(a[1..] + b);
        a[0] + "\n" + (JoinLines(a[1..]) + JoinLines(b));
        { AppendAssoc(a[0] + "\n", JoinLines(a[1..]), JoinLines(b)); }
        JoinLines(a) + JoinLines(b);
      }
    } else {
      assert a + b == b;
    }
  }

  lemma {:induction false} SplitAllJoinLines(lines: seq<string>)
    requires forall i :: 0 <= i < |lines| ==> Lacks(lines[i], '\n')
    ensures SplitAll(JoinLines(lines), "\n") == lines + [""]
    decreases |lines|
  {
    if lines != [] {
      SplitAllAt(lines[0], "\n", JoinLines(lines[1..]));
      SplitAllJoinLines(lines[1..]);
      assert lines == [lines[0]] + lines[1..];
    }
  }

  /** Reading back the lines that were written gives the same lines. */
  lemma LinesOfJoinLines(lines: seq<string>)
    requires forall i :: 0 <= i < |lines| ==> Lacks(lines[i], '\n')
    ensures Lines(JoinLines(lines)) == lines
  {
    SplitAllJoinLines(lines);
    if lines != [] {
      assert JoinLines(lines) != [];
      assert (lines + [""])[..|lines|] == lines;
    }
  }
}
