/** Branch names derived from issue titles: slugs that are safe and stable, numbers that never collide. */
module Slug {
  import opened Text

  const SLUG_MAX_LEN := 50

  predicate IsAlnum(c: char) {
    'a' <= c <= 'z' || '0' <= c <= '9'
  }

  /** A lower-casing of characters: whatever it does elsewhere, it keeps lower-case ASCII, digits and hyphens. */
  ghost predicate IsLowering(lower: char -> char) {
    forall c :: IsAlnum(c) || c == '-' ==> lower(c) == c
  }

  function Lowered(lower: char -> char, title: string): (s: string)
    ensures |s| == |title|
  {
    if title == "" then "" else Lowered(lower, title[..|title| - 1]) + [lower(title[|title| - 1])]
  }

  predicate EndsInAlnum(s: string) {
    s != "" && IsAlnum(s[|s| - 1])
  }

  /** The maximal runs of alphanumeric characters, in order. */
  function Words(s: string): (ws: seq<string>)
    ensures EndsInAlnum(s) ==> ws != []
    ensures forall k :: 0 <= k < |ws| ==> ws[k] != "" && forall j :: 0 <= j < |ws[k]| ==> IsAlnum(ws[k][j])
  {
    if s == "" then []
    else
      var front, c := s[..|s| - 1], s[|s| - 1];
      var ws := Words(front);
      if !IsAlnum(c) then ws
      else if EndsInAlnum(front) then ws[..|ws| - 1] + [ws[|ws| - 1] + [c]]
      else ws + [[c]]
  }

  /** Words joined by single hyphens. */
  function Dashed(ws: seq<string>): string {
    if |ws| == 0 then ""
    else if |ws| == 1 then ws[0]
    else Dashed(ws[..|ws| - 1]) + "-" + ws[|ws| - 1]
  }

  function TrimHyphens(s: string): string {
    if s != "" && s[|s| - 1] == '-' then TrimHyphens(s[..|s| - 1]) else s
  }

  /** The slug of a title: its lower-cased words under hyphens, cut to length without a trailing hyphen. */
  function SlugOf(lower: char -> char, title: string): string {
    var slug := Dashed(Words(Lowered(lower, title)));
    if |slug| > SLUG_MAX_LEN then TrimHyphens(slug[..SLUG_MAX_LEN]) else slug
  }

  /** What the scan has written after some characters: the words so far, and a hyphen once they ended. */
  function Written(s: string): string {
    Dashed(Words(s)) + if s != "" && !EndsInAlnum(s) && Words(s) != [] then "-" else ""
  }

  lemma WrittenStep(s: string, c: char)
    ensures Written(s + [c]) ==
            if IsAlnum(c) then Written(s) + [c] else if EndsInAlnum(s) then Written(s) + "-" else Written(s)
  {
    hide Dashed, Words;
    WordsStep(s, c);
    var ws := Words(s);
    if IsAlnum(c) && EndsInAlnum(s) {
      var front, last := ws[..|ws| - 1], ws[|ws| - 1];
      assert ws == front + [last];
      DashedLast(front, last);
      DashedLast(front, last + [c]);
    } else if IsAlnum(c) {
      DashedLast(ws, [c]);
      NoWordsNothing();
    }
    NoWordsInNothing(s);
  }

  lemma WordsStep(s: string, c: char)
    ensures EndsInAlnum(s + [c]) == IsAlnum(c)
    ensures EndsInAlnum(s) ==> Words(s) != []
    ensures Words(s + [c]) ==
            if !IsAlnum(c) then Words(s)
            else if EndsInAlnum(s) then Words(s)[..|Words(s)| - 1] + [Words(s)[|Words(s)| - 1] + [c]]
            else Words(s) + [[c]]
  {
    assert (s + [c])[..|s|] == s;
  }

  lemma NoWordsNothing()
    ensures Dashed([]) == ""
  {}

  lemma NoWordsInNothing(s: string)
    ensures s == "" ==> Words(s) == []
  {}

  lemma DashedLast(front: seq<string>, last: string)
    ensures Dashed(front + [last]) == if front == [] then last else Dashed(front) + "-" + last
  {
    var ws := front + [last];
    assert ws[..|ws| - 1] == front;
  }

  /** Builds a slug in one scan, writing a hyphen only after a written word, then trims and cuts. */
  method MakeSlug(lower: char -> char, title: string) returns (slug: string)
    ensures slug == SlugOf(lower, title)
    ensures var uncut := Uncut(lower, title);
            && Kept(uncut) == Kept(seq(|title|, i requires 0 <= i < |title| => lower(title[i])))
            && slug == if |uncut| <= 50 then uncut else if uncut[49] == '-' then uncut[..49] else uncut[..50]
  {
    UncutKeepsLetters(lower, title);
    SlugIsCut(lower, title);
    hide Words, Dashed, TrimHyphens, Written, Lowered, Kept;
    NothingWritten();
    var lowered := Lowered(lower, title);
    var b := "";
    var prevHyphen := true;
    var k := 0;
    while k < |lowered|
      invariant 0 <= k <= |lowered|
      invariant b == Written(lowered[..k])
      invariant prevHyphen == !EndsInAlnum(lowered[..k])
    {
      var r := lowered[k];
      WrittenStep(lowered[..k], r);
      assert lowered[..k + 1] == lowered[..k] + [r];
      if IsAlnum(r) {
        b := b + [r];
        prevHyphen := false;
      } else if !prevHyphen {
        b := b + "-";
        prevHyphen := true;
      }
      k := k + 1;
    }
    assert lowered[..k] == lowered;
    WrittenTrims(lowered);
    slug := TrimHyphens(b);
    if |slug| > SLUG_MAX_LEN {
      slug := TrimHyphens(slug[..SLUG_MAX_LEN]);
    }
  }

  lemma NothingWritten()
    ensures Written("") == ""
  {}

  lemma WrittenTrims(s: string)
    ensures TrimHyphens(Written(s)) == Dashed(Words(s))
  {
    var d := Dashed(Words(s));
    DashedIsSlug(Words(s));
    assert TrimHyphens(d) == d;
    assert (d + "-")[..|d|] == d;
    assert d + "" == d;
  }

  // ----- What a slug looks like

  /** Lower-case letters, digits and hyphens, no hyphen at either end and no two in a row. */
  ghost predicate IsSlug(s: string) {
    && (forall k :: 0 <= k < |s| ==> 'a' <= s[k] <= 'z' || '0' <= s[k] <= '9' || s[k] == '-')
    && (s != "" ==> s[0] != '-' && s[|s| - 1] != '-')
    && (forall k :: 0 < k < |s| ==> s[k - 1] != '-' || s[k] != '-')
  }

  ghost predicate AreWords(ws: seq<string>) {
    forall k :: 0 <= k < |ws| ==> ws[k] != "" && forall j :: 0 <= j < |ws[k]| ==> IsAlnum(ws[k][j])
  }

  lemma {:induction false} DashedIsSlug(ws: seq<string>)
    requires AreWords(ws)
    ensures IsSlug(Dashed(ws)) && (Dashed(ws) == "" <==> ws == [])
  {
    if |ws| > 1 {
      var front, last := ws[..|ws| - 1], ws[|ws| - 1];
      DashedIsSlug(front);
      var d := Dashed(front);
      var s := d + "-" + last;
      forall k | 0 < k < |s| ensures s[k - 1] != '-' || s[k] != '-' {
        assert k > |d| ==> s[k] == last[k - |d| - 1];
      }
      forall k | 0 <= k < |s| ensures IsAlnum(s[k]) || s[k] == '-' {
        assert k > |d| ==> s[k] == last[k - |d| - 1];
      }
    }
  }

  /** Cutting a slug and trimming leaves a slug. */
  lemma CutSlugIsSlug(s: string, n: nat)
    requires IsSlug(s) && n <= |s|
    ensures IsSlug(TrimHyphens(s[..n])) && |TrimHyphens(s[..n])| <= n
  {
    var cut := s[..n];
    if n > 0 && cut[n - 1] == '-' {
      var shorter := cut[..n - 1];
      assert n > 1 && shorter[n - 2] == s[n - 2] != '-';
      assert TrimHyphens(cut) == shorter;
    }
  }

  lemma SlugIsSlug(lower: char -> char, title: string)
    ensures IsSlug(SlugOf(lower, title)) && |SlugOf(lower, title)| <= 50
  {
    var d := Dashed(Words(Lowered(lower, title)));
    DashedIsSlug(Words(Lowered(lower, title)));
    if |d| > SLUG_MAX_LEN {
      CutSlugIsSlug(d, SLUG_MAX_LEN);
    }
  }

  // ----- What a slug says

  /** A title's slug before it is cut. */
  function Uncut(lower: char -> char, title: string): string {
    Dashed(Words(Lowered(lower, title)))
  }

  function Kept(s: string): string {
    if s == "" then ""
    else if 'a' <= s[0] <= 'z' || '0' <= s[0] <= '9' then [s[0]] + Kept(s[1..])
    else Kept(s[1..])
  }

  lemma {:induction false} LoweredIs(lower: char -> char, title: string)
    ensures Lowered(lower, title) == seq(|title|, i requires 0 <= i < |title| => lower(title[i]))
  {
    if title != "" {
      var front := title[..|title| - 1];
      LoweredIs(lower, front);
    }
  }

  lemma {:induction false} KeptAppend(a: string, b: string)
    ensures Kept(a + b) == Kept(a) + Kept(b)
  {
    if a == "" {
      assert a + b == b;
    } else {
      assert (a + b)[1..] == a[1..] + b;
      KeptAppend(a[1..], b);
    }
  }

  lemma KeptOne(c: char)
    ensures Kept([c]) == if 'a' <= c <= 'z' || '0' <= c <= '9' then [c] else ""
  {
    assert [c][1..] == "";
  }

  lemma {:induction false} WrittenKeeps(s: string)
    ensures Kept(Written(s)) == Kept(s)
  {
    if s == "" {
      NothingWritten();
    } else {
      var front, c := s[..|s| - 1], s[|s| - 1];
      assert s == front + [c];
      hide Written, Kept;
      WrittenKeeps(front);
      WrittenStep(front, c);
      KeptAppend(front, [c]);
      KeptAppend(Written(front), [c]);
      KeptAppend(Written(front), "-");
      KeptOne(c);
      KeptOne('-');
      assert Written(front) + "" == Written(front) && Kept(front) + "" == Kept(front) && Kept(Written(front)) + "" == Kept(Written(front));
    }
  }

  /** The letters and digits of an uncut slug are those of the lower-cased title, in order. */
  lemma UncutKeepsLetters(lower: char -> char, title: string)
    ensures Kept(Uncut(lower, title)) == Kept(seq(|title|, i requires 0 <= i < |title| => lower(title[i])))
  {
    hide Dashed, Words, Kept;
    LoweredIs(lower, title);
    var s := Lowered(lower, title);
    WrittenKeeps(s);
    KeptAppend(Dashed(Words(s)), "-");
    KeptOne('-');
    assert Kept(Dashed(Words(s))) + "" == Kept(Dashed(Words(s))) && Dashed(Words(s)) + "" == Dashed(Words(s));
  }

  lemma {:induction false} DashedAppend(a: seq<string>, b: seq<string>)
    requires a != [] && b != []
    ensures Dashed(a + b) == Dashed(a) + "-" + Dashed(b)
  {
    var front, last := b[..|b| - 1], b[|b| - 1];
    if |b| == 1 {
      assert front == [] && (a + b)[..|a + b| - 1] == a;
    } else {
      DashedAppend(a, front);
      assert (a + b)[..|a + b| - 1] == a + front;
      assert Dashed(a) + "-" + (Dashed(front) + "-" + last) == Dashed(a) + "-" + Dashed(front) + "-" + last;
    }
  }

  lemma {:induction false} WordsAround(x: string, c: char, y: string)
    requires !IsAlnum(c)
    ensures Words(x + [c] + y) == Words(x) + Words(y)
  {
    hide Words, IsAlnum;
    if y == "" {
      WordsStep(x, c);
      NoWordsInNothing(y);
      assert x + [c] + y == x + [c];
    } else {
      var front, d := y[..|y| - 1], y[|y| - 1];
      var u := x + [c] + front;
      assert x + [c] + y == u + [d] && y == front + [d];
      WordsAround(x, c, front);
      assert EndsInAlnum(u) == EndsInAlnum(front) by { assert u[|u| - 1] == if front == "" then c else front[|front| - 1]; }
      WordsExtend(Words(x), u, front, d);
    }
  }

  lemma WordsExtend(ws: seq<string>, u: string, v: string, d: char)
    requires Words(u) == ws + Words(v) && EndsInAlnum(u) == EndsInAlnum(v)
    ensures Words(u + [d]) == ws + Words(v + [d])
  {
    hide Words, EndsInAlnum;
    WordsStep(u, d);
    WordsStep(v, d);
    var b := Words(v);
    if EndsInAlnum(v) {
      assert (ws + b)[..|ws + b| - 1] == ws + b[..|b| - 1];
    }
  }

  /** A character that is no letter or digit breaks a title into two slugs under one hyphen. */
  lemma UncutBreaks(lower: char -> char, x: string, c: char, y: string)
    requires !('a' <= lower(c) <= 'z' || '0' <= lower(c) <= '9')
    ensures var a, b := Uncut(lower, x), Uncut(lower, y);
            Uncut(lower, x + [c] + y) == if a == "" then b else if b == "" then a else a + "-" + b
  {
    hide Dashed, Words, Lowered;
    LoweredAround(lower, x, c, y);
    var u, v := Lowered(lower, x), Lowered(lower, y);
    WordsAround(u, lower(c), v);
    DashedIsSlug(Words(u));
    DashedIsSlug(Words(v));
    assert Words(u) + [] == Words(u) && [] + Words(v) == Words(v);
    if Words(u) != [] && Words(v) != [] {
      DashedAppend(Words(u), Words(v));
    }
  }

  lemma LoweredAround(lower: char -> char, x: string, c: char, y: string)
    ensures Lowered(lower, x + [c] + y) == Lowered(lower, x) + [lower(c)] + Lowered(lower, y)
  {
    LoweredIs(lower, x + [c] + y);
    LoweredIs(lower, x);
    LoweredIs(lower, y);
  }

  /** A title of letters and digits alone is its own uncut slug, lower-cased. */
  lemma UncutWord(lower: char -> char, word: string)
    requires forall c :: c in word ==> 'a' <= lower(c) <= 'z' || '0' <= lower(c) <= '9'
    ensures Uncut(lower, word) == seq(|word|, i requires 0 <= i < |word| => lower(word[i]))
  {
    LoweredIs(lower, word);
    OneWord(Lowered(lower, word));
  }

  lemma {:induction false} OneWord(s: string)
    requires forall k :: 0 <= k < |s| ==> IsAlnum(s[k])
    ensures Words(s) == if s == "" then [] else [s]
  {
    hide Words;
    NoWordsInNothing(s);
    if s != "" {
      var front, c := s[..|s| - 1], s[|s| - 1];
      assert s == front + [c];
      OneWord(front);
      NoWordsInNothing(front);
      WordsStep(front, c);
    }
  }

  /** A slug of at most 50 characters is whole; a longer one is cut to its first 50, less the hyphen that may
      leave at the end. */
  lemma SlugIsCut(lower: char -> char, title: string)
    ensures var uncut := Uncut(lower, title);
            SlugOf(lower, title) ==
              if |uncut| <= 50 then uncut else if uncut[49] == '-' then uncut[..49] else uncut[..50]
  {
    hide Dashed, Words;
    var uncut := Uncut(lower, title);
    DashedIsSlug(Words(Lowered(lower, title)));
    if |uncut| > 50 && uncut[49] == '-' {
      var cut := uncut[..50];
      assert cut[49] == '-' && cut[..49] == uncut[..49];
      assert TrimHyphens(cut) == TrimHyphens(cut[..49]);
      assert cut[..49][48] == uncut[48] != '-';
    }
  }

  /** A lower-casing for the examples: ASCII letters only. */
  function AsciiLower(c: char): char {
    if 'A' <= c <= 'Z' then c + ('a' - 'A') else c
  }

  lemma FixAndBug()
    ensures Uncut(AsciiLower, "Fix") == "fix" && Uncut(AsciiLower, "Bug") == "bug" && Uncut(AsciiLower, "") == ""
  {
    hide Uncut;
    UncutWord(AsciiLower, "Fix");
    UncutWord(AsciiLower, "Bug");
    UncutWord(AsciiLower, "");
    assert seq(3, i requires 0 <= i < 3 => AsciiLower("Fix"[i])) == "fix";
    assert seq(3, i requires 0 <= i < 3 => AsciiLower("Bug"[i])) == "bug";
  }

  lemma FixBugUncut()
    ensures Uncut(AsciiLower, "Fix Bug!") == "fix-bug"
  {
    hide Uncut;
    FixAndBug();
    assert AsciiLower('!') == '!' && AsciiLower(' ') == ' ';
    UncutBreaks(AsciiLower, "Bug", '!', "");
    assert "Bug" + ['!'] + "" == "Bug!";
    UncutBreaks(AsciiLower, "Fix", ' ', "Bug!");
    assert "Fix" + [' '] + "Bug!" == "Fix Bug!";
  }

  lemma QuestionUncut()
    ensures Uncut(AsciiLower, "?") == ""
  {
    hide Uncut;
    UncutWord(AsciiLower, "");
    UncutBreaks(AsciiLower, "", '?', "");
    assert "" + ['?'] + "" == "?";
  }

  /** The branches of issue 7, Fix Bug!, and of issue 12, which has no words. */
  lemma BranchesAreWritten()
    ensures DeriveBranch(AsciiLower, 7, "Fix Bug!") == "afk/7-fix-bug" && DeriveBranch(AsciiLower, 12, "?") == "afk/12"
  {
    hide SlugOf, Uncut, AsciiLower;
    FixBugUncut();
    QuestionUncut();
    SlugIsCut(AsciiLower, "Fix Bug!");
    SlugIsCut(AsciiLower, "?");
    assert Decimal(12) == "12" by { assert Decimal(1) == "1"; }
  }

  // ----- Idempotence

  lemma {:induction false} LoweredKeeps(lower: char -> char, s: string)
    requires IsLowering(lower) && forall k :: 0 <= k < |s| ==> IsAlnum(s[k]) || s[k] == '-'
    ensures Lowered(lower, s) == s
  {
    if s != "" {
      LoweredKeeps(lower, s[..|s| - 1]);
      assert s == s[..|s| - 1] + [s[|s| - 1]];
    }
  }

  /** Scanning text with no leading and no doubled hyphen writes it out again. */
  lemma {:induction false} WrittenAgain(s: string)
    requires forall k :: 0 <= k < |s| ==> IsAlnum(s[k]) || s[k] == '-'
    requires s != "" ==> s[0] != '-'
    requires forall k :: 0 < k < |s| ==> s[k - 1] != '-' || s[k] != '-'
    ensures Written(s) == s
  {
    if s != "" {
      var front, c := s[..|s| - 1], s[|s| - 1];
      WrittenAgain(front);
      assert s == front + [c];
      WrittenStep(front, c);
      if !IsAlnum(c) {
        assert |s| > 1 && front[|front| - 1] == s[|s| - 2];
      }
    }
  }

  /** A slug is its own slug, cut or not. */
  lemma SlugIsIdempotent(lower: char -> char, title: string)
    requires IsLowering(lower)
    ensures SlugOf(lower, SlugOf(lower, title)) == SlugOf(lower, title)
  {
    var s := SlugOf(lower, title);
    SlugIsSlug(lower, title);
    LoweredKeeps(lower, s);
    WrittenAgain(s);
    if s != "" {
      assert EndsInAlnum(s);
      assert Dashed(Words(s)) + "" == Dashed(Words(s));
    }
  }

  // ----- Branches

  function DecimalInt(n: int): string {
    if n < 0 then "-" + Decimal(-n) else Decimal(n)
  }

  /** afk/<n>-<slug>, or afk/<n> for a title with no words. */
  function DeriveBranch(lower: char -> char, number: int, title: string): string {
    var slug := SlugOf(lower, title);
    if slug != "" then "afk/" + DecimalInt(number) + "-" + slug else "afk/" + DecimalInt(number)
  }

  function LeadingDigits(s: string): (n: nat)
    ensures n <= |s|
  {
    if s == "" || !IsDigit(s[0]) then 0 else 1 + LeadingDigits(s[1..])
  }

  lemma {:induction false} LeadingDigitsAre(d: string, tail: string)
    requires AllDigits(d) && (tail == "" || !IsDigit(tail[0]))
    ensures LeadingDigits(d + tail) == |d|
  {
    if d == "" {
      assert d + tail == tail;
    } else {
      assert (d + tail)[1..] == d[1..] + tail;
      LeadingDigitsAre(d[1..], tail);
    }
  }

  /** A numeral can be read off any text that starts with it and goes on with no digit. */
  lemma NumeralReadsOff(m: nat, n: nat, a: string, b: string)
    requires Decimal(m) + a == Decimal(n) + b
    requires (a == "" || !IsDigit(a[0])) && (b == "" || !IsDigit(b[0]))
    ensures m == n
  {
    LeadingDigitsAre(Decimal(m), a);
    LeadingDigitsAre(Decimal(n), b);
    assert Decimal(m) == (Decimal(m) + a)[..|Decimal(m)|];
    assert Decimal(n) == (Decimal(n) + b)[..|Decimal(n)|];
    ValueOfDecimal(m);
    ValueOfDecimal(n);
  }

  function BranchTail(lower: char -> char, title: string): string {
    var slug := SlugOf(lower, title);
    if slug != "" then "-" + slug else ""
  }

  lemma BranchParts(lower: char -> char, number: int, title: string)
    ensures DeriveBranch(lower, number, title) == "afk/" + (DecimalInt(number) + BranchTail(lower, title))
  {
    hide SlugOf;
  }

  lemma SignedNumeralReadsOff(m: int, n: int, a: string, b: string)
    requires DecimalInt(m) + a == DecimalInt(n) + b
    requires (a == "" || !IsDigit(a[0])) && (b == "" || !IsDigit(b[0]))
    ensures m == n
  {
    hide Decimal, DecimalInt;
    SignFirst(m, a);
    SignFirst(n, b);
    if m < 0 {
      SamePrefix("-", Decimal(-m) + a, Decimal(-n) + b);
      NumeralReadsOff(-m, -n, a, b);
    } else {
      NumeralReadsOff(m, n, a, b);
    }
  }

  lemma SignFirst(n: int, a: string)
    ensures var s := DecimalInt(n) + a; s != "" && (s[0] == '-' <==> n < 0)
    ensures DecimalInt(n) + a == if n < 0 then "-" + (Decimal(-n) + a) else Decimal(n) + a
  {
    hide Decimal;
    assert n >= 0 ==> (Decimal(n) + a)[0] == Decimal(n)[0];
  }

  lemma SamePrefix(p: string, x: string, y: string)
    requires p + x == p + y
    ensures x == y
  {
    assert x == (p + x)[|p|..] && y == (p + y)[|p|..];
  }

  /** Two issues with different numbers never share a branch, whatever their titles. */
  lemma BranchesAreDistinct(lower: char -> char, m: int, n: int, a: string, b: string)
    requires DeriveBranch(lower, m, a) == DeriveBranch(lower, n, b)
    ensures m == n
  {
    hide DeriveBranch, SlugOf, DecimalInt;
    BranchParts(lower, m, a);
    BranchParts(lower, n, b);
    SamePrefix("afk/", DecimalInt(m) + BranchTail(lower, a), DecimalInt(n) + BranchTail(lower, b));
    SignedNumeralReadsOff(m, n, BranchTail(lower, a), BranchTail(lower, b));
  }
}
