/** Characters, white-space fields and decimal numerals: the text layer under the entry-line language. */
module Text {

  /** The white space that separates tokens (Unicode's White_Space property). */
  predicate IsSpace(c: char) {
    var u := c as int;
    9 <= u <= 13 || u == 0x20 || u == 0x85 || u == 0xA0 || u == 0x1680 || 0x2000 <= u <= 0x200A
    || u == 0x2028 || u == 0x2029 || u == 0x202F || u == 0x205F || u == 0x3000
  }

  predicate IsDigit(c: char) {
    '0' <= c <= '9'
  }

  predicate AllDigits(s: string) {
    forall k :: 0 <= k < |s| ==> IsDigit(s[k])
  }

  /** A token: one non-empty run of non-space characters. */
  predicate IsToken(t: string) {
    t != "" && forall k :: 0 <= k < |t| ==> !IsSpace(t[k])
  }

  predicate AllTokens(ts: seq<string>) {
    forall k :: 0 <= k < |ts| ==> IsToken(ts[k])
  }

  // ----- Fields and Join

  /** Length of the longest space-free prefix. */
  function TokenLength(s: string): (n: nat)
    ensures n <= |s|
    ensures forall k :: 0 <= k < n ==> !IsSpace(s[k])
    ensures n < |s| ==> IsSpace(s[n])
  {
    if s == "" || IsSpace(s[0]) then 0 else 1 + TokenLength(s[1..])
  }

  /** The tokens of a line, in order, as white space separates them. */
  function Fields(s: string): (ts: seq<string>)
    ensures AllTokens(ts)
    decreases |s|
  {
    if s == "" then []
    else if IsSpace(s[0]) then Fields(s[1..])
    else
      var n := TokenLength(s);
      [s[..n]] + Fields(s[n..])
  }

  /** Parts joined by one space. */
  function Join(ts: seq<string>): string {
    if |ts| == 0 then ""
    else if |ts| == 1 then ts[0]
    else ts[0] + " " + Join(ts[1..])
  }

  lemma {:induction false} TokenLengthIs(t: string, rest: string)
    requires forall k :: 0 <= k < |t| ==> !IsSpace(t[k])
    requires rest == "" || IsSpace(rest[0])
    ensures TokenLength(t + rest) == |t|
  {
    if t == "" {
      assert t + rest == rest;
    } else {
      assert (t + rest)[1..] == t[1..] + rest;
      TokenLengthIs(t[1..], rest);
    }
  }

  /** A token at the front of a line is its first field. */
  lemma FieldsOfTokenFirst(t: string, rest: string)
    requires IsToken(t)
    requires rest == "" || IsSpace(rest[0])
    ensures Fields(t + rest) == [t] + Fields(rest)
  {
    TokenLengthIs(t, rest);
    var line := t + rest;
    assert line[0] == t[0];
    assert line[..|t|] == t && line[|t|..] == rest;
  }

  /** What counts as white space, character by character. */
  lemma SpacesAre(c: char)
    ensures IsSpace(c) <==>
            c in "\t\n\U{B}\U{C}\r \U{85}\U{A0}\U{1680}\U{2000}\U{2001}\U{2002}\U{2003}\U{2004}\U{2005}\U{2006}\U{2007}\U{2008}\U{2009}\U{200A}\U{2028}\U{2029}\U{202F}\U{205F}\U{3000}"
  {}

  lemma FieldsOfSpaceFirst(c: char, rest: string)
    requires IsSpace(c)
    ensures Fields([c] + rest) == Fields(rest) && Fields("") == []
  {
    assert ([c] + rest)[1..] == rest;
  }

  /** White space between two lines keeps their tokens apart. */
  lemma {:induction false} FieldsOfSeparated(a: string, c: char, b: string)
    requires IsSpace(c)
    ensures Fields(a + [c] + b) == Fields(a) + Fields(b)
    decreases |a|
  {
    hide IsSpace, Fields;
    if a == "" {
      assert a + [c] + b == [c] + b;
      FieldsOfSpaceFirst(c, b);
    } else if IsSpace(a[0]) {
      assert a + [c] + b == [a[0]] + (a[1..] + [c] + b) && a == [a[0]] + a[1..];
      FieldsOfSeparated(a[1..], c, b);
      FieldsOfSpaceFirst(a[0], a[1..] + [c] + b);
      FieldsOfSpaceFirst(a[0], a[1..]);
    } else {
      var n := TokenLength(a);
      var t, rest := a[..n], a[n..];
      var tail := rest + [c] + b;
      assert a + [c] + b == t + tail && a == t + rest;
      FieldsOfTokenFirst(t, tail);
      FieldsOfTokenFirst(t, rest);
      FieldsOfSeparated(rest, c, b);
    }
  }

  lemma FieldsOfSpaced(a: string, b: string)
    ensures Fields(a + " " + b) == Fields(a) + Fields(b)
  {
    FieldsOfSeparated(a, ' ', b);
  }

  lemma FieldsOfToken(t: string)
    requires IsToken(t)
    ensures Fields(t) == [t]
  {
    assert t + "" == t;
    FieldsOfTokenFirst(t, "");
  }

  /** Splitting undoes joining. */
  lemma {:induction false} FieldsOfJoin(ts: seq<string>)
    requires AllTokens(ts)
    ensures Fields(Join(ts)) == ts
  {
    if |ts| == 1 {
      FieldsOfToken(ts[0]);
    } else if |ts| > 1 {
      FieldsOfSpaced(ts[0], Join(ts[1..]));
      FieldsOfToken(ts[0]);
      FieldsOfJoin(ts[1..]);
    }
  }

  lemma {:induction false} JoinAppend(a: seq<string>, b: seq<string>)
    requires a != [] && b != []
    ensures Join(a + b) == Join(a) + " " + Join(b)
  {
    if |a| == 1 {
      assert (a + b)[1..] == b;
    } else {
      assert (a + b)[1..] == a[1..] + b;
      JoinAppend(a[1..], b);
    }
  }

  lemma JoinNonEmpty(ts: seq<string>)
    requires AllTokens(ts) && ts != []
    ensures Join(ts) != ""
  {}

  // ----- Decimal numerals

  function DigitChar(d: nat): (c: char)
    requires d < 10
    ensures IsDigit(c) && DigitValue(c) == d
  {
    '0' + d as char
  }

  function DigitValue(c: char): (d: nat)
    requires IsDigit(c)
    ensures d < 10
  {
    c as int - '0' as int
  }

  /** The number a digit string denotes; the empty string denotes zero. */
  function Value(s: string): nat
    requires AllDigits(s)
  {
    if s == "" then 0 else Value(s[..|s| - 1]) * 10 + DigitValue(s[|s| - 1])
  }

  /** The decimal numeral of a number, without leading zeros. */
  function Decimal(n: nat): (s: string)
    ensures s != "" && AllDigits(s)
  {
    if n < 10 then [DigitChar(n)] else Decimal(n / 10) + [DigitChar(n % 10)]
  }

  /** A number below 100 as exactly two digits. */
  function TwoDigits(n: nat): (s: string)
    requires n < 100
    ensures |s| == 2 && AllDigits(s)
  {
    [DigitChar(n / 10), DigitChar(n % 10)]
  }

  lemma {:induction false} ValueOfDecimal(n: nat)
    ensures Value(Decimal(n)) == n
  {
    var s := Decimal(n);
    if n < 10 {
      assert s[..0] == "";
    } else {
      ValueOfDecimal(n / 10);
      assert s[..|s| - 1] == Decimal(n / 10);
    }
  }

  lemma ValueOfTwoDigits(n: nat)
    requires n < 100
    ensures Value(TwoDigits(n)) == n
  {
    var s := TwoDigits(n);
    var tens := s[..|s| - 1];
    assert tens == [s[0]] && tens[..|tens| - 1] == "";
    assert Value(tens) == DigitValue(s[0]);
  }

  lemma DecimalLength(n: nat)
    ensures n < 10 ==> |Decimal(n)| == 1
    ensures 10 <= n < 100 ==> |Decimal(n)| == 2
  {}

  function Pow10(k: nat): (p: nat)
    ensures p >= 1
  {
    if k == 0 then 1 else 10 * Pow10(k - 1)
  }

  lemma {:induction false} ValueBound(s: string)
    requires AllDigits(s)
    ensures Value(s) < Pow10(|s|)
  {
    if s != "" {
      ValueBound(s[..|s| - 1]);
    }
  }

  lemma Shift(v: int, p: int, w: int, d: int)
    ensures (v * p + w) * 10 + d == v * (10 * p) + (w * 10 + d)
  {}

  /** Digits written side by side denote the left number shifted past the right one. */
  lemma {:induction false} ValueOfAppend(a: string, b: string)
    requires AllDigits(a) && AllDigits(b)
    ensures Value(a + b) == Value(a) * Pow10(|b|) + Value(b)
  {
    if b == "" {
      assert a + b == a;
    } else {
      var c := b[..|b| - 1];
      ValueOfAppend(a, c);
      assert (a + b)[..|a + b| - 1] == a + c;
      Shift(Value(a), Pow10(|c|), Value(c), DigitValue(b[|b| - 1]));
    }
  }

  /** The digits, and what each is worth at the end of a numeral. */
  lemma DigitsRead(s: string, d: nat)
    requires AllDigits(s) && d < 10
    ensures DigitChar(d) == "0123456789"[d]
    ensures Value(s + ["0123456789"[d]]) == 10 * Value(s) + d
  {
    var t := s + [DigitChar(d)];
    assert t[..|t| - 1] == s;
  }

  /** A numeral without leading zeros is the one its number is written as. */
  lemma {:induction false} DecimalOfValue(s: string)
    requires s != "" && AllDigits(s) && (s == "0" || s[0] != '0')
    ensures Decimal(Value(s)) == s
  {
    var front, d := s[..|s| - 1], DigitValue(s[|s| - 1]);
    assert DigitChar(d) == s[|s| - 1];
    if |s| == 1 {
      assert front == "";
      assert s == [s[0]];
    } else {
      DecimalOfValue(front);
      NoLeadingZero(front);
      assert s == front + [s[|s| - 1]];
      assert Value(s) / 10 == Value(front) && Value(s) % 10 == d;
    }
  }

  lemma {:induction false} NoLeadingZero(s: string)
    requires s != "" && AllDigits(s) && s[0] != '0'
    ensures Value(s) > 0
  {
    if |s| == 1 {
      assert s[..0] == "";
    } else {
      NoLeadingZero(s[..|s| - 1]);
    }
  }
}
