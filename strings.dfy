/** String operations of JavaScript's standard library, as the content scripts use them. */
module Strings {

  /** JavaScript's `\s` character class; `String.prototype.trim` strips the same set. */
  predicate IsSpace(c: char) {
    c == '\t' || c == '\n' || c == '\U{000B}' || c == '\U{000C}' || c == '\r' || c == ' '
    || c == '\U{00A0}' || c == '\U{1680}' || ('\U{2000}' <= c <= '\U{200A}')
    || c == '\U{2028}' || c == '\U{2029}' || c == '\U{202F}' || c == '\U{205F}'
    || c == '\U{3000}' || c == '\U{FEFF}'
  }

  /** Every character of `s` is white space (the empty string included). */
  predicate Blank(s: string) {
    forall i :: 0 <= i < |s| ==> IsSpace(s[i])
  }

  /** `[^\s]*` matches all of `s`: no white space at all. */
  predicate NoSpace(s: string) {
    forall i :: 0 <= i < |s| ==> !IsSpace(s[i])
  }

  /** The characters of `s` that are not white space, in order. */
  function NonSpace(s: string): (r: string)
    ensures |r| <= |s|
  {
    if s == [] then []
    else if IsSpace(s[0]) then NonSpace(s[1..])
    else [s[0]] + NonSpace(s[1..])
  }

  lemma {:induction false} NonSpaceAppend(a: string, b: string)
    ensures NonSpace(a + b) == NonSpace(a) + NonSpace(b)
  {
    if a == [] {
      assert a + b == b;
    } else {
      assert (a + b)[1..] == a[1..] + b;
      NonSpaceAppend(a[1..], b);
    }
  }

  /** Exactly the blank strings have no characters that are not white space. */
  lemma {:induction false} NonSpaceOfBlank(s: string)
    ensures Blank(s) <==> NonSpace(s) == []
  {
    if s != [] {
      NonSpaceOfBlank(s[1..]);
      assert Blank(s) <==> IsSpace(s[0]) && Blank(s[1..]);
    }
  }

  /** What `NonSpace` keeps is free of white space. */
  lemma {:induction false} NonSpaceHasNoSpace(s: string)
    ensures forall i :: 0 <= i < |NonSpace(s)| ==> !IsSpace(NonSpace(s)[i])
  {
    if s != [] {
      NonSpaceHasNoSpace(s[1..]);
    }
  }

  /** The number of white-space characters `s` starts with. */
  function LeadingSpaces(s: string): (k: nat)
    ensures k <= |s|
  {
    if s != [] && IsSpace(s[0]) then 1 + LeadingSpaces(s[1..]) else 0
  }

  /** `LeadingSpaces` counts the whole white-space run at the start and no more. */
  lemma {:induction false} LeadingSpacesRun(s: string)
    ensures Blank(s[..LeadingSpaces(s)])
    ensures LeadingSpaces(s) == |s| || !IsSpace(s[LeadingSpaces(s)])
  {
    if s != [] && IsSpace(s[0]) {
      LeadingSpacesRun(s[1..]);
      var k := LeadingSpaces(s);
      assert s[..k] == [s[0]] + s[1..][..k - 1];
    }
  }

  /** The number of white-space characters `s` ends with. */
  function TrailingSpaces(s: string): (k: nat)
    ensures k <= |s|
  {
    if s != [] && IsSpace(s[|s| - 1]) then 1 + TrailingSpaces(s[..|s| - 1]) else 0
  }

  /** `TrailingSpaces` counts the whole white-space run at the end and no more. */
  lemma {:induction false} TrailingSpacesRun(s: string)
    ensures Blank(s[|s| - TrailingSpaces(s)..])
    ensures TrailingSpaces(s) == |s| || !IsSpace(s[|s| - TrailingSpaces(s) - 1])
  {
    if s != [] && IsSpace(s[|s| - 1]) {
      var t := s[..|s| - 1];
      TrailingSpacesRun(t);
      var k := TrailingSpaces(s);
      assert s[|s| - k..] == t[|t| - (k - 1)..] + [s[|s| - 1]];
    }
  }

  /** `s` with its leading white space removed (the left half of `trim`). */
  function TrimStart(s: string): (r: string)
    ensures r == [] || !IsSpace(r[0])
  {
    LeadingSpacesRun(s);
    s[LeadingSpaces(s)..]
  }

  /** `s` with its trailing white space removed (the right half of `trim`). */
  function TrimEnd(s: string): (r: string)
    ensures r == [] || !IsSpace(r[|r| - 1])
  {
    TrailingSpacesRun(s);
    s[..|s| - TrailingSpaces(s)]
  }

  /** `String.prototype.trim`: `s` without its leading and trailing white space. */
  function Trim(s: string): (r: string)
    ensures |r| <= |s|
    ensures r == [] || (!IsSpace(r[0]) && !IsSpace(r[|r| - 1]))
  {
    TrimEnd(TrimStart(s))
  }

  /** What `Trim` removes is white space at both ends and nothing else. */
  lemma TrimIsInfix(s: string)
    ensures LeadingSpaces(s) + |Trim(s)| <= |s|
    ensures Trim(s) == s[LeadingSpaces(s)..LeadingSpaces(s) + |Trim(s)|]
    ensures Blank(s[LeadingSpaces(s) + |Trim(s)|..])
  {
    var i := LeadingSpaces(s);
    var t := s[i..];
    var n := |t| - TrailingSpaces(t);
    assert Trim(s) == t[..n];
    TrailingSpacesRun(t);
    SliceOfSuffix(s, i, n);
  }

  lemma SliceOfSuffix(s: string, i: nat, n: nat)
    requires i + n <= |s|
    ensures s[i..][..n] == s[i..i + n] && s[i..][n..] == s[i + n..]
  {
  }

  /** Trimming keeps every character that is not white space. */
  lemma TrimNonSpace(s: string)
    ensures NonSpace(Trim(s)) == NonSpace(s)
  {
    TrimIsInfix(s);
    LeadingSpacesRun(s);
    var i := LeadingSpaces(s);
    var r := Trim(s);
    var tail := s[i + |r|..];
    var head := s[..i];
    assert s == head + r + tail;
    NonSpaceOfPadded(head, r, tail);
  }

  /** White space around a string holds none of its other characters. */
  lemma NonSpaceOfPadded(head: string, r: string, tail: string)
    requires Blank(head) && Blank(tail)
    ensures NonSpace(head + r + tail) == NonSpace(r)
  {
    NonSpaceAppend(head, r + tail);
    NonSpaceAppend(r, tail);
    NonSpaceOfBlank(head);
    NonSpaceOfBlank(tail);
    assert head + r + tail == head + (r + tail);
  }

  /** Trimming yields the empty string exactly for blank strings. */
  lemma TrimEmpty(s: string)
    ensures Trim(s) == [] <==> Blank(s)
  {
    TrimNonSpace(s);
    var r := Trim(s);
    NonSpaceOfBlank(s);
    NonSpaceOfBlank(r);
    if r != [] {
      assert !IsSpace(r[0]);
      assert !Blank(r);
    }
  }

  /** Trimming is idempotent. */
  lemma TrimTrim(s: string)
    ensures Trim(Trim(s)) == Trim(s)
  {
    var r := Trim(s);
    assert r == [] || (!IsSpace(r[0]) && !IsSpace(r[|r| - 1]));
  }

  /** `Trim` leaves a string alone exactly when it neither starts nor ends with white space. */
  lemma TrimOfTrimmed(s: string)
    requires s == [] || (!IsSpace(s[0]) && !IsSpace(s[|s| - 1]))
    ensures Trim(s) == s
  {
  }

  /** `s.slice(0, n)` for a non-negative `n`. */
  function Take(s: string, n: nat): (r: string)
    ensures |r| == if n < |s| then n else |s|
    ensures r == s[..|r|]
  {
    if n < |s| then s[..n] else s
  }

  /** `s.startsWith(p)`. */
  predicate StartsWith(s: string, p: string) {
    |p| <= |s| && s[..|p|] == p
  }

  /** `s.endsWith(p)`. */
  predicate EndsWith(s: string, p: string) {
    |p| <= |s| && s[|s| - |p|..] == p
  }

  /** `s.includes(p)`: `p` occurs in `s` at some position. */
  predicate Contains(s: string, p: string) {
    exists i | 0 <= i <= |s| - |p| :: OccursAt(s, p, i)
  }

  /** `p` occurs in `s` starting at index `i`. */
  predicate OccursAt(s: string, p: string, i: int) {
    0 <= i <= |s| - |p| && s[i..i + |p|] == p
  }

  /** `pieces.join([sep])`. */
  function Join(pieces: seq<string>, sep: char): string {
    if pieces == [] then ""
    else if |pieces| == 1 then pieces[0]
    else pieces[0] + [sep] + Join(pieces[1..], sep)
  }

  /** `s.split(sep)` for a one-character separator. */
  function Split(s: string, sep: char): (r: seq<string>)
    ensures |r| >= 1
    ensures forall k :: 0 <= k < |r| ==> sep !in r[k]
    ensures Join(r, sep) == s
  {
    if s == [] then [""]
    else
      var rest := Split(s[1..], sep);
      if s[0] == sep then
        assert s == [sep] + s[1..];
        [""] + rest
      else
        var r := [[s[0]] + rest[0]] + rest[1..];
        assert r[1..] == rest[1..];
        r
  }

  /** `s.replace(/\s+/g, ' ')`: every maximal run of white space becomes one space. */
  function CollapseSpaces(s: string): (r: string)
    ensures |r| <= |s|
    ensures r == [] <==> s == []
    ensures s != [] && !IsSpace(s[0]) ==> r[0] == s[0]
    decreases |s|
  {
    if s == [] then []
    else if IsSpace(s[0]) then [' '] + CollapseSpaces(s[LeadingSpaces(s)..])
    else [s[0]] + CollapseSpaces(s[1..])
  }

  /** Collapsing white space keeps every other character. */
  lemma {:induction false} CollapseSpacesNonSpace(s: string)
    ensures NonSpace(CollapseSpaces(s)) == NonSpace(s)
    decreases |s|
  {
    if s != [] {
      if IsSpace(s[0]) {
        var k := LeadingSpaces(s);
        var t := s[k..];
        LeadingSpacesRun(s);
        CollapseSpacesNonSpace(t);
        assert s == s[..k] + t;
        NonSpaceAppend(s[..k], t);
        NonSpaceOfBlank(s[..k]);
        NonSpaceAppend([' '], CollapseSpaces(t));
      } else {
        CollapseSpacesNonSpace(s[1..]);
        assert s == [s[0]] + s[1..];
        NonSpaceAppend([s[0]], s[1..]);
        NonSpaceAppend([s[0]], CollapseSpaces(s[1..]));
      }
    }
  }

  /** After collapsing, the only white space left is single plain spaces. */
  lemma {:induction false} CollapseSpacesShape(s: string)
    ensures forall i :: 0 <= i < |CollapseSpaces(s)| && IsSpace(CollapseSpaces(s)[i]) ==> CollapseSpaces(s)[i] == ' '
    ensures forall i :: 0 <= i < |CollapseSpaces(s)| - 1 ==>
      !(IsSpace(CollapseSpaces(s)[i]) && IsSpace(CollapseSpaces(s)[i + 1]))
    decreases |s|
  {
    if s != [] {
      var k := if IsSpace(s[0]) then LeadingSpaces(s) else 1;
      LeadingSpacesRun(s);
      CollapseSpacesShape(s[k..]);
      var r := CollapseSpaces(s);
      var rest := CollapseSpaces(s[k..]);
      assert r == [r[0]] + rest;
      assert rest != [] && IsSpace(r[0]) ==> !IsSpace(rest[0]);
    }
  }

  /** The white-space run at the start of `s + t` stops inside `s` unless all of `s` is white space. */
  lemma {:induction false} LeadingSpacesAppend(s: string, t: string)
    ensures LeadingSpaces(s + t) == if LeadingSpaces(s) < |s| then LeadingSpaces(s) else |s| + LeadingSpaces(t)
  {
    if s == [] {
      assert s + t == t;
    } else if IsSpace(s[0]) {
      assert (s + t)[1..] == s[1..] + t;
      LeadingSpacesAppend(s[1..], t);
    }
  }

  /** A blank string is one white-space run from end to end. */
  lemma {:induction false} LeadingSpacesOfBlank(w: string)
    requires Blank(w)
    ensures LeadingSpaces(w) == |w|
  {
    if w != [] {
      LeadingSpacesOfBlank(w[1..]);
    }
  }

  /** The white-space run at the start of `a` ends before a last character that is not white space. */
  lemma {:induction false} LeadingSpacesBeforeLast(a: string)
    requires a != [] && !IsSpace(a[|a| - 1])
    ensures LeadingSpaces(a) < |a|
  {
    if IsSpace(a[0]) {
      assert a[1..][|a| - 2] == a[|a| - 1];
      LeadingSpacesBeforeLast(a[1..]);
    }
  }

  /** Collapsing distributes over a cut after a character that is not white space. */
  lemma {:induction false} CollapseSpacesAppend(a: string, t: string)
    requires a == [] || !IsSpace(a[|a| - 1])
    ensures CollapseSpaces(a + t) == CollapseSpaces(a) + CollapseSpaces(t)
    decreases |a|
  {
    if a == [] {
      assert a + t == t;
    } else if LeadingSpaces(a) > 0 {
      LeadingSpacesBeforeLast(a);
      var rest := a[LeadingSpaces(a)..];
      assert rest[|rest| - 1] == a[|a| - 1];
      CollapseSpacesAppend(rest, t);
      CollapseSpacesSkipRun(a, t);
      SameHead(CollapseSpaces(a + t), CollapseSpaces(a), [' '], CollapseSpaces(rest + t), CollapseSpaces(rest), CollapseSpaces(t));
    } else {
      var rest := a[1..];
      assert rest == [] || rest[|rest| - 1] == a[|a| - 1];
      CollapseSpacesAppend(rest, t);
      CollapseSpacesSkipChar(a, t);
      SameHead(CollapseSpaces(a + t), CollapseSpaces(a), [a[0]], CollapseSpaces(rest + t), CollapseSpaces(rest), CollapseSpaces(t));
    }
  }

  /**
   * A maximal white-space run `w` between `a` and `b` becomes exactly one space:
   * the rest of the string is collapsed on its own on either side.
   */
  lemma CollapseSpacesRun(a: string, w: string, b: string)
    requires a == [] || !IsSpace(a[|a| - 1])
    requires w != [] && Blank(w)
    requires b == [] || !IsSpace(b[0])
    ensures CollapseSpaces(a + w + b) == CollapseSpaces(a) + [' '] + CollapseSpaces(b)
  {
    calc {
      CollapseSpaces(a + w + b);
      { assert a + w + b == a + (w + b); }
      CollapseSpaces(a + (w + b));
      { CollapseSpacesAppend(a, w + b); }
      CollapseSpaces(a) + CollapseSpaces(w + b);
      { CollapseSpacesLeadingRun(w, b); }
      CollapseSpaces(a) + ([' '] + CollapseSpaces(b));
    }
  }

  /** A string that starts with a whole white-space run `w` collapses it to one space. */
  lemma CollapseSpacesLeadingRun(w: string, b: string)
    requires w != [] && Blank(w)
    requires b == [] || !IsSpace(b[0])
    ensures CollapseSpaces(w + b) == [' '] + CollapseSpaces(b)
  {
    LeadingSpacesOfBlank(w);
    LeadingSpacesAppend(w, b);
    assert (w + b)[0] == w[0];
    assert (w + b)[|w|..] == b;
  }

  /** A first character that is not white space is kept the same way in `a + t`. */
  lemma CollapseSpacesSkipChar(a: string, t: string)
    requires a != [] && LeadingSpaces(a) == 0
    ensures CollapseSpaces(a + t) == [a[0]] + CollapseSpaces(a[1..] + t)
    ensures CollapseSpaces(a) == [a[0]] + CollapseSpaces(a[1..])
  {
    assert (a + t)[0] == a[0];
    assert (a + t)[1..] == a[1..] + t;
  }

  /** A leading run that ends inside `a` is skipped the same way in `a + t`. */
  lemma CollapseSpacesSkipRun(a: string, t: string)
    requires 0 < LeadingSpaces(a) < |a|
    ensures CollapseSpaces(a + t) == [' '] + CollapseSpaces(a[LeadingSpaces(a)..] + t)
    ensures CollapseSpaces(a) == [' '] + CollapseSpaces(a[LeadingSpaces(a)..])
  {
    LeadingSpacesAppend(a, t);
    assert (a + t)[0] == a[0];
    assert (a + t)[LeadingSpaces(a)..] == a[LeadingSpaces(a)..] + t;
  }

  /** Two sequences with the same head whose tails differ by a suffix differ by that suffix. */
  lemma SameHead<T>(whole: seq<T>, part: seq<T>, head: seq<T>, wholeTail: seq<T>, partTail: seq<T>, suffix: seq<T>)
    requires whole == head + wholeTail && part == head + partTail
    requires wholeTail == partTail + suffix
    ensures whole == part + suffix
  {
  }

  /** The decimal digit for `d`. */
  function Digit(d: nat): (c: char)
    requires d < 10
    ensures '0' <= c <= '9'
    ensures DigitValue(c) == d
  {
    ('0' as int + d) as char
  }

  /** The value of a decimal digit. */
  function DigitValue(c: char): (d: nat)
    requires '0' <= c <= '9'
    ensures d < 10
  {
    (c as int - '0' as int) as nat
  }

  /** `String(n)` for a non-negative integer: its decimal notation without leading zeros. */
  function Decimal(n: nat): (r: string)
    ensures |r| >= 1
    ensures forall i :: 0 <= i < |r| ==> '0' <= r[i] <= '9'
    ensures |r| > 1 ==> r[0] != '0'
  {
    if n < 10 then [Digit(n)] else Decimal(n / 10) + [Digit(n % 10)]
  }

  /** Reads a string of decimal digits back as a number. */
  function ParseDecimal(s: string): nat
    requires forall i :: 0 <= i < |s| ==> '0' <= s[i] <= '9'
  {
    if s == [] then 0 else 10 * ParseDecimal(s[..|s| - 1]) + DigitValue(s[|s| - 1])
  }

  /** Decimal notation is read back as the number it was written from. */
  lemma {:induction false} DecimalRoundTrip(n: nat)
    ensures ParseDecimal(Decimal(n)) == n
  {
    if n >= 10 {
      DecimalInit(n);
      DecimalRoundTrip(n / 10);
    }
  }

  /** Dropping the last digit of a number of two or more digits writes the number divided by ten. */
  lemma DecimalInit(n: nat)
    requires n >= 10
    ensures Decimal(n)[..|Decimal(n)| - 1] == Decimal(n / 10)
    ensures Decimal(n)[|Decimal(n)| - 1] == Digit(n % 10)
  {
  }

  /** Different numbers are written differently, so the generated names and URLs never clash. */
  lemma DecimalInjective(m: nat, n: nat)
    requires Decimal(m) == Decimal(n)
    ensures m == n
  {
    DecimalRoundTrip(m);
    DecimalRoundTrip(n);
  }

  // ---------------------------------------------------------------- writing out

  /** A paragraph as the scripts write it out: its trimmed text and a blank line, or nothing if
      blank. */
  function BlockText(text: string): string {
    if Trim(text) == "" then "" else Trim(text) + "\n\n"
  }

  /** The pieces `f` makes of the elements of `xs`, concatenated in order: the shape of every
      `+=` loop of the scripts. */
  function ConcatMap<T>(xs: seq<T>, f: T -> string): string {
    if xs == [] then "" else ConcatMap(xs[..|xs| - 1], f) + f(xs[|xs| - 1])
  }

  /** Dropping the last element of a concatenation with a non-empty right part. */
  lemma InitOfConcat<T>(a: seq<T>, b: seq<T>)
    requires b != []
    ensures (a + b)[..|a + b| - 1] == a + b[..|b| - 1] && (a + b)[|a + b| - 1] == b[|b| - 1]
  {
  }

  lemma ConcatMapSingle<T>(x: T, f: T -> string)
    ensures ConcatMap([x], f) == f(x)
  {
    assert [x][..0] == [];
  }

  /** Consecutive runs contribute independently: the text of `a + b` is that of `a`, then `b`'s. */
  lemma {:induction false} ConcatMapAppend<T>(a: seq<T>, b: seq<T>, f: T -> string)
    ensures ConcatMap(a + b, f) == ConcatMap(a, f) + ConcatMap(b, f)
    decreases |b|
  {
    if b == [] {
      assert a + b == a;
    } else {
      var c := b[..|b| - 1];
      InitOfConcat(a, b);
      ConcatMapAppend(a, c, f);
    }
  }

  /** A paragraph makes nothing exactly when it is blank. */
  lemma BlockTextEmpty(text: string)
    ensures BlockText(text) == "" <==> Blank(text)
  {
    TrimEmpty(text);
  }

  /** Paragraphs written out one after another, blank ones skipped. */
  function Paragraphs(texts: seq<string>): string {
    ConcatMap(texts, BlockText)
  }

  /** One more paragraph written out appends its text, or nothing when it is blank. */
  lemma ParagraphsExtend(texts: seq<string>, i: nat)
    requires i < |texts|
    ensures Paragraphs(texts[..i + 1]) == Paragraphs(texts[..i]) + BlockText(texts[i])
  {
    assert texts[..i + 1][..i] == texts[..i];
  }

  /** Paragraphs written out make nothing exactly when every one of them is blank. */
  lemma {:induction false} BlocksEmpty(texts: seq<string>)
    ensures Paragraphs(texts) == "" <==> forall i :: 0 <= i < |texts| ==> Blank(texts[i])
  {
    if texts != [] {
      var init := texts[..|texts| - 1];
      assert Paragraphs(texts) == Paragraphs(init) + BlockText(texts[|texts| - 1]);
      BlocksEmpty(init);
      BlockTextEmpty(texts[|texts| - 1]);
      assert forall i :: 0 <= i < |init| ==> init[i] == texts[i];
    }
  }
}
