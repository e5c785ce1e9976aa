/** The few operations of java.lang.String and java.lang.Integer that the
    modelled code relies on, written out with the library's semantics.
    Strings are sequences of Unicode code points. */
module Text {
  import opened Wrappers

  /** `sub` occurs in `s` at index `i`. */
  predicate OccursAt(s: string, sub: string, i: nat) {
    i + |sub| <= |s| && s[i..i + |sub|] == sub
  }

  /** String.contains */
  predicate Contains(s: string, sub: string) {
    exists i :: 0 <= i <= |s| - |sub| && OccursAt(s, sub, i)
  }

  /** String.indexOf(sub, from): the first occurrence at or after `from`. */
  function IndexOf(s: string, sub: string, from: nat): (r: Option<nat>)
    ensures r.Some? ==> from <= r.value && OccursAt(s, sub, r.value)
    decreases |s| - from
  {
    if from + |sub| > |s| then None
    else if OccursAt(s, sub, from) then Some(from)
    else IndexOf(s, sub, from + 1)
  }

  /** The first occurrence is where `sub` occurs with none before it. */
  lemma IndexOfIs(s: string, sub: string, from: nat, p: nat)
    requires from <= p && OccursAt(s, sub, p)
    requires forall j: nat :: from <= j < p ==> !OccursAt(s, sub, j)
    ensures IndexOf(s, sub, from) == Some(p)
    decreases p - from
  {
    if from < p {
      IndexOfIs(s, sub, from + 1, p);
    }
  }

  /** No occurrence lies between `from` and the one found, nor anywhere
      from `from` on when none is found. */
  lemma {:induction false} IndexOfFirst(s: string, sub: string, from: nat, j: nat)
    requires from <= j
    requires IndexOf(s, sub, from).None? || j < IndexOf(s, sub, from).value
    ensures !OccursAt(s, sub, j)
    decreases |s| - from
  {
    if from + |sub| <= |s| && !OccursAt(s, sub, from) && from < j {
      IndexOfFirst(s, sub, from + 1, j);
    }
  }

  /** String.replace(c, rep) for a one-character target. */
  function ReplaceChar(s: string, c: char, rep: string): (r: string)
    ensures c !in rep ==> c !in r
    ensures c !in s ==> r == s
    decreases |s|
  {
    if |s| == 0 then ""
    else (if s[0] == c then rep else [s[0]]) + ReplaceChar(s[1..], c, rep)
  }

  /** String.trim: drops leading and trailing code points up to U+0020. */
  function Trim(s: string): string {
    TrimEnd(TrimStart(s))
  }

  function TrimStart(s: string): string
    decreases |s|
  {
    if |s| > 0 && s[0] <= ' ' then TrimStart(s[1..]) else s
  }

  function TrimEnd(s: string): string
    decreases |s|
  {
    if |s| > 0 && s[|s| - 1] <= ' ' then TrimEnd(s[..|s| - 1]) else s
  }

  /** Trimming leaves alone a string that starts and ends with visible characters. */
  lemma TrimVisible(s: string)
    requires |s| > 0 && s[0] > ' ' && s[|s| - 1] > ' '
    ensures Trim(s) == s
  {
  }

  /** The pieces of `s` between occurrences of `d`, empty pieces included. */
  function SplitOn(s: string, d: char): (parts: seq<string>)
    ensures |parts| >= 1
    decreases |s|
  {
    if |s| == 0 then [""]
    else
      var rest := SplitOn(s[1..], d);
      if s[0] == d then [""] + rest
      else [[s[0]] + rest[0]] + rest[1..]
  }

  function DropTrailingEmpty(parts: seq<string>): seq<string>
    decreases |parts|
  {
    if |parts| > 0 && parts[|parts| - 1] == "" then DropTrailingEmpty(parts[..|parts| - 1])
    else parts
  }

  /** String.split(d): the whole string when `d` does not occur, otherwise the
      pieces with trailing empty pieces removed. */
  function Split(s: string, d: char): seq<string> {
    var raw := SplitOn(s, d);
    if |raw| == 1 then raw else DropTrailingEmpty(raw)
  }

  /** The pieces joined with `d` between them. */
  function Join(parts: seq<string>, d: char): string
    decreases |parts|
  {
    if |parts| == 0 then ""
    else if |parts| == 1 then parts[0]
    else parts[0] + [d] + Join(parts[1..], d)
  }

  lemma {:induction false} SplitOnAbsent(s: string, d: char)
    requires d !in s
    ensures SplitOn(s, d) == [s]
    decreases |s|
  {
    if |s| > 0 {
      SplitOnAbsent(s[1..], d);
      assert [s[0]] + s[1..] == s;
    }
  }

  lemma {:induction false} SplitOnFirst(p: string, d: char, t: string)
    requires d !in p
    ensures SplitOn(p + [d] + t, d) == [p] + SplitOn(t, d)
    decreases |p|
  {
    var s := p + [d] + t;
    if |p| == 0 {
      assert s[1..] == t;
    } else {
      assert s[1..] == p[1..] + [d] + t;
      SplitOnFirst(p[1..], d, t);
      assert [p[0]] + p[1..] == p;
    }
  }

  /** Splitting undoes joining when no piece contains the separator. */
  lemma {:induction false} SplitJoin(parts: seq<string>, d: char)
    requires |parts| >= 1
    requires forall i :: 0 <= i < |parts| ==> d !in parts[i]
    ensures SplitOn(Join(parts, d), d) == parts
    decreases |parts|
  {
    if |parts| == 1 {
      SplitOnAbsent(parts[0], d);
    } else {
      SplitJoin(parts[1..], d);
      SplitOnFirst(parts[0], d, Join(parts[1..], d));
      assert [parts[0]] + parts[1..] == parts;
    }
  }

  lemma {:induction false} JoinSnoc(parts: seq<string>, d: char, p: string)
    requires |parts| >= 1
    ensures Join(parts + [p], d) == Join(parts, d) + [d] + p
    decreases |parts|
  {
    if |parts| > 1 {
      assert (parts + [p])[1..] == parts[1..] + [p];
      JoinSnoc(parts[1..], d, p);
    }
  }

  predicate IsDigit(c: char) {
    '0' <= c <= '9'
  }

  predicate AllDigits(s: string) {
    forall i :: 0 <= i < |s| ==> IsDigit(s[i])
  }

  function DigitChar(n: nat): (c: char)
    requires n < 10
    ensures IsDigit(c)
  {
    (n + '0' as int) as char
  }

  /** The decimal value of a string of ASCII digits. */
  function DigitsValue(s: string): nat
    requires AllDigits(s)
    decreases |s|
  {
    if |s| == 0 then 0
    else DigitsValue(s[..|s| - 1]) * 10 + (s[|s| - 1] as int - '0' as int)
  }

  /** Decimal text of a natural number, most significant digit first. */
  function NatToString(n: nat): (s: string)
    ensures |s| >= 1 && AllDigits(s)
    decreases n
  {
    if n < 10 then [DigitChar(n)] else NatToString(n / 10) + [DigitChar(n % 10)]
  }

  /** Integer.toString (what StringBuilder.append(int) writes). */
  function IntToString(v: int): string {
    if v < 0 then "-" + NatToString(-v) else NatToString(v)
  }

  const IntMin: int := -0x8000_0000
  const IntMax: int := 0x7FFF_FFFF

  predicate IsInt32(v: int) {
    IntMin <= v <= IntMax
  }

  /** Integer.parseInt: an optional sign, at least one digit, and a value
      that fits in 32 bits; anything else is a NumberFormatException (None). */
  function ParseInt(s: string): (r: Option<int>)
    ensures r.Some? ==> IsInt32(r.value)
  {
    if |s| == 0 then None
    else
      var digits := if s[0] == '-' || s[0] == '+' then s[1..] else s;
      if |digits| == 0 || !AllDigits(digits) then None
      else
        var v: int := if s[0] == '-' then -(DigitsValue(digits) as int) else DigitsValue(digits);
        if IsInt32(v) then Some(v) else None
  }

  lemma {:induction false} DigitsOfNat(n: nat)
    ensures DigitsValue(NatToString(n)) == n
    decreases n
  {
    if n >= 10 {
      var s := NatToString(n);
      assert s[..|s| - 1] == NatToString(n / 10);
      DigitsOfNat(n / 10);
    }
  }

  /** Integer.parseInt reads back what Integer.toString wrote. */
  lemma ParseIntToString(v: int)
    requires IsInt32(v)
    ensures ParseInt(IntToString(v)) == Some(v)
  {
    var s := IntToString(v);
    if v < 0 {
      assert s[1..] == NatToString(-v);
      DigitsOfNat(-v);
    } else {
      assert IsDigit(s[0]);
      DigitsOfNat(v);
    }
  }

  /** Text written for an integer starts with '-' or a digit and ends with a
      digit, and holds no separator the persistence format uses. */
  lemma IntToStringShape(v: int)
    ensures |IntToString(v)| >= 1
    ensures IntToString(v)[|IntToString(v)| - 1] > ' '
    ensures IntToString(v)[0] > ' '
    ensures forall c :: c in IntToString(v) ==> c == '-' || IsDigit(c)
  {
    var s := IntToString(v);
    if v < 0 {
      var t := NatToString(-v);
      assert s == "-" + t;
      assert s[|s| - 1] == t[|t| - 1];
      forall c | c in s ensures c == '-' || IsDigit(c) {
        var k :| 0 <= k < |s| && s[k] == c;
        if k > 0 { assert s[k] == t[k - 1]; }
      }
    } else {
      forall c | c in s ensures IsDigit(c) {
        var k :| 0 <= k < |s| && s[k] == c;
      }
    }
  }
}
