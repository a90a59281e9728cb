/**
 * Text helpers shared by the RAW writer (TraceWidget.get_raw, MainWindow.save_raw)
 * and the readers in resources/get_experiment.py: decimal integers, `str.split(' ')`,
 * `readlines()` and `rstrip('\n')`.
 */
module Text {
  import opened Wrappers

  predicate IsDigit(c: char) { '0' <= c <= '9' }

  predicate AllDigits(s: string) { forall k :: 0 <= k < |s| ==> IsDigit(s[k]) }

  function DigitChar(d: nat): (c: char)
    requires d < 10
    ensures IsDigit(c) && (c as int) - ('0' as int) == d
  {
    (('0' as int) + d) as char
  }

  /** Python's `str()` of a non-negative int: decimal, no leading zeros. */
  function NatToString(n: nat): (s: string)
    ensures |s| >= 1 && AllDigits(s)
    ensures '-' !in s && ' ' !in s && '\n' !in s
    ensures s != "P" && s != "S"
    decreases n
  {
    if n < 10 then [DigitChar(n)] else NatToString(n / 10) + [DigitChar(n % 10)]
  }

  /** The value of a string of decimal digits. */
  function DigitsValue(s: string): nat
    requires AllDigits(s)
    decreases |s|
  {
    if s == [] then 0
    else DigitsValue(s[..|s| - 1]) * 10 + ((s[|s| - 1] as int) - ('0' as int))
  }

  lemma {:induction false} DigitsValueOfNatToString(n: nat)
    ensures DigitsValue(NatToString(n)) == n
    decreases n
  {
    if n >= 10 {
      var s := NatToString(n);
      assert s[..|s| - 1] == NatToString(n / 10);
      DigitsValueOfNatToString(n / 10);
    }
  }

  /**
   * The characters Python's `str.isspace()` accepts (and `int()` strips):
   * tab to carriage return, the four ASCII separators 0x1C-0x1F, the space,
   * and the Unicode spaces and line/paragraph separators.
   */
  predicate IsSpace(c: char) {
    var v := c as int;
    || c == ' ' || 9 <= v <= 13 || 28 <= v <= 31
    || v == 0x85 || v == 0xA0 || v == 0x1680 || 0x2000 <= v <= 0x200A
    || v == 0x2028 || v == 0x2029 || v == 0x202F || v == 0x205F || v == 0x3000
  }

  predicate AllSpace(s: string) { forall k :: 0 <= k < |s| ==> IsSpace(s[k]) }

  /** Leading whitespace removed: the longest suffix that does not start with a space. */
  function TrimStart(s: string): (r: string)
    ensures |r| <= |s|
    ensures r == [] || !IsSpace(r[0])
    decreases |s|
  {
    if s != [] && IsSpace(s[0]) then TrimStart(s[1..]) else s
  }

  /** TrimStart keeps a suffix and what it removes is whitespace. */
  lemma {:induction false} TrimStartShape(s: string)
    ensures TrimStart(s) == s[|s| - |TrimStart(s)|..]
    ensures AllSpace(s[..|s| - |TrimStart(s)|])
    decreases |s|
  {
    if s != [] && IsSpace(s[0]) {
      TrimStartShape(s[1..]);
      var r := TrimStart(s[1..]);
      assert s[..|s| - |r|] == [s[0]] + s[1..][..|s| - 1 - |r|];
    }
  }

  /** Trailing whitespace removed: the longest prefix that does not end with a space. */
  function TrimEnd(s: string): (r: string)
    ensures |r| <= |s|
    ensures r == [] || !IsSpace(r[|r| - 1])
    decreases |s|
  {
    if s != [] && IsSpace(s[|s| - 1]) then TrimEnd(s[..|s| - 1]) else s
  }

  /** TrimEnd keeps a prefix and what it removes is whitespace. */
  lemma {:induction false} TrimEndShape(s: string)
    ensures TrimEnd(s) == s[..|TrimEnd(s)|]
    ensures AllSpace(s[|TrimEnd(s)|..])
    decreases |s|
  {
    if s != [] && IsSpace(s[|s| - 1]) {
      TrimEndShape(s[..|s| - 1]);
      var r := TrimEnd(s[..|s| - 1]);
      assert s[|r|..] == s[..|s| - 1][|r|..] + [s[|s| - 1]];
    }
  }

  /** `str.strip()`: whitespace removed from both ends. */
  function Strip(s: string): (r: string)
    ensures |r| <= |s|
    ensures r == [] || (!IsSpace(r[0]) && !IsSpace(r[|r| - 1]))
  {
    var u := TrimStart(s);
    TrimEndShape(u);
    TrimEnd(u)
  }

  lemma {:induction false} TrimStartPadded(a: string, t: string)
    requires AllSpace(a) && (t == [] || !IsSpace(t[0]))
    ensures TrimStart(a + t) == t
    decreases |a|
  {
    if a != [] {
      assert (a + t)[1..] == a[1..] + t;
      TrimStartPadded(a[1..], t);
    }
  }

  lemma {:induction false} TrimEndPadded(t: string, b: string)
    requires AllSpace(b) && (t == [] || !IsSpace(t[|t| - 1]))
    ensures TrimEnd(t + b) == t
    decreases |b|
  {
    if b != [] {
      assert (t + b)[..|t + b| - 1] == t + b[..|b| - 1];
      TrimEndPadded(t, b[..|b| - 1]);
    }
  }

  /** Whatever surrounds a text with no space at either end, strip() gives back that text. */
  lemma StripPadded(a: string, t: string, b: string)
    requires AllSpace(a) && AllSpace(b)
    requires t == [] || (!IsSpace(t[0]) && !IsSpace(t[|t| - 1]))
    ensures Strip(a + t + b) == t
  {
    if t == [] {
      assert a + t + b == (a + b) + [];
      TrimStartPadded(a + b, []);
      TrimEndPadded([], []);
    } else {
      assert a + t + b == a + (t + b);
      TrimStartPadded(a, t + b);
      TrimEndPadded(t, b);
    }
  }

  /** Decimal digits in which single underscores may separate two digits, as in `1_000`. */
  predicate IsNumeral(s: string) {
    && |s| >= 1 && IsDigit(s[0]) && IsDigit(s[|s| - 1])
    && (forall k :: 0 <= k < |s| ==> IsDigit(s[k]) || s[k] == '_')
    && (forall k :: 0 <= k < |s| - 1 ==> !DoubleUnderscoreAt(s, k))
  }

  predicate DoubleUnderscoreAt(s: string, k: nat)
    requires k + 1 < |s|
  {
    s[k] == '_' && s[k + 1] == '_'
  }

  /** The digits of a numeral with its underscores dropped. */
  function DropUnderscores(s: string): (d: string)
    requires forall k :: 0 <= k < |s| ==> IsDigit(s[k]) || s[k] == '_'
    ensures AllDigits(d) && |d| <= |s|
    ensures |s| >= 1 && IsDigit(s[0]) ==> |d| >= 1
  {
    if s == [] then [] else (if s[0] == '_' then [] else [s[0]]) + DropUnderscores(s[1..])
  }

  lemma {:induction false} DropUnderscoresOfDigits(s: string)
    requires AllDigits(s)
    ensures DropUnderscores(s) == s
  {
    if s != [] {
      DropUnderscoresOfDigits(s[1..]);
    }
  }

  /** `int()` of a token already stripped of whitespace: an optional sign, then a numeral. */
  function ParseToken(t: string): (r: Option<int>)
    ensures r.Some? <==> IsNumeral(t) || (|t| >= 2 && (t[0] == '+' || t[0] == '-') && IsNumeral(t[1..]))
    ensures r.Some? && t[0] != '-' ==> r.value >= 0
    ensures r.Some? && t[0] == '-' ==> r.value <= 0
  {
    if IsNumeral(t) then Some(DigitsValue(DropUnderscores(t)) as int)
    else if |t| >= 2 && t[0] == '+' && IsNumeral(t[1..]) then Some(DigitsValue(DropUnderscores(t[1..])) as int)
    else if |t| >= 2 && t[0] == '-' && IsNumeral(t[1..]) then Some(-(DigitsValue(DropUnderscores(t[1..])) as int))
    else None
  }

  /**
   * Python's `int(token)` in base 10: surrounding whitespace is ignored, an
   * optional `+` or `-` sign comes first, then a numeral; `None` stands for
   * the ValueError it raises on anything else.
   */
  function ParseInt(s: string): (r: Option<int>)
    ensures var t := Strip(s);
      r.Some? <==> IsNumeral(t) || (|t| >= 2 && (t[0] == '+' || t[0] == '-') && IsNumeral(t[1..]))
    ensures r.Some? && Strip(s)[0] != '-' ==> r.value >= 0
    ensures r.Some? && Strip(s)[0] == '-' ==> r.value <= 0
  {
    ParseToken(Strip(s))
  }

  /** A token without space at its ends is its own strip. */
  lemma StripTight(t: string)
    requires t == [] || (!IsSpace(t[0]) && !IsSpace(t[|t| - 1]))
    ensures Strip(t) == t
  {
    StripPadded([], t, []);
    assert [] + t + [] == t;
  }

  /** A run of digits has no space at either end. */
  lemma DigitsTight(s: string)
    requires |s| >= 1 && AllDigits(s)
    ensures !IsSpace(s[0]) && !IsSpace(s[|s| - 1])
  {
  }

  /** A plain run of digits reads as its decimal value. */
  lemma ParseIntOfDigits(s: string)
    requires |s| >= 1 && AllDigits(s)
    ensures ParseInt(s) == Some(DigitsValue(s) as int)
  {
    DigitsTight(s);
    StripTight(s);
    assert IsNumeral(s);
    DropUnderscoresOfDigits(s);
    assert ParseToken(s) == Some(DigitsValue(s) as int);
  }

  /** int() ignores whitespace around a token that has none at its ends. */
  lemma ParseIntPadded(a: string, t: string, b: string)
    requires AllSpace(a) && AllSpace(b)
    requires t == [] || (!IsSpace(t[0]) && !IsSpace(t[|t| - 1]))
    ensures ParseInt(a + t + b) == ParseInt(t)
  {
    StripPadded(a, t, b);
    StripTight(t);
  }

  lemma SignChars()
    ensures !IsSpace('+') && !IsSpace('-') && !IsDigit('+') && !IsDigit('-')
  {
  }

  /** A `+` sign changes nothing and a `-` sign negates, for a plain run of digits. */
  lemma ParseIntSigned(s: string)
    requires |s| >= 1 && AllDigits(s)
    ensures ParseInt("+" + s) == Some(DigitsValue(s) as int)
    ensures ParseInt("-" + s) == Some(-(DigitsValue(s) as int))
  {
    SignChars();
    DigitsTight(s);
    DropUnderscoresOfDigits(s);
    assert IsNumeral(s);
    SignedToken('+', s);
    SignedToken('-', s);
  }

  lemma SignedToken(c: char, s: string)
    requires c == '+' || c == '-'
    requires |s| >= 1 && AllDigits(s) && IsNumeral(s) && DropUnderscores(s) == s
    requires !IsSpace(c) && !IsDigit(c) && !IsSpace(s[|s| - 1])
    ensures ParseInt([c] + s) == Some(if c == '+' then DigitsValue(s) as int else -(DigitsValue(s) as int))
  {
    var t := [c] + s;
    assert t[0] == c && t[|t| - 1] == s[|s| - 1];
    StripTight(t);
    SignedTokenValue(c, s);
  }

  /** The same before stripping: a sign followed by a numeral. */
  lemma SignedTokenValue(c: char, s: string)
    requires c == '+' || c == '-'
    requires IsNumeral(s) && DropUnderscores(s) == s && !IsDigit(c)
    ensures ParseToken([c] + s) == Some(if c == '+' then DigitsValue(s) as int else -(DigitsValue(s) as int))
  {
    var t := [c] + s;
    assert t[0] == c && t[1..] == s;
    assert !IsNumeral(t);
  }

  /** Two runs of digits joined by one underscore form a numeral. */
  lemma UnderscoreNumeral(a: string, b: string)
    requires |a| >= 1 && AllDigits(a) && |b| >= 1 && AllDigits(b)
    ensures IsNumeral(a + "_" + b)
  {
    var t := a + "_" + b;
    forall k | 0 <= k < |t|
      ensures IsDigit(t[k]) || t[k] == '_'
    {
      if k < |a| { assert t[k] == a[k]; } else if k > |a| { assert t[k] == b[k - |a| - 1]; }
    }
    forall k | 0 <= k < |t| - 1
      ensures !DoubleUnderscoreAt(t, k)
    {
      if k < |a| { assert t[k] == a[k]; }
      else if k > |a| { assert t[k] == b[k - |a| - 1]; }
      else { assert t[k + 1] == b[0]; }
    }
  }

  /** Dropping the underscores of two digit runs joined by one gives the runs concatenated. */
  lemma DropOneUnderscore(a: string, b: string)
    requires AllDigits(a) && AllDigits(b)
    ensures forall k :: 0 <= k < |a + "_" + b| ==> IsDigit((a + "_" + b)[k]) || (a + "_" + b)[k] == '_'
    ensures DropUnderscores(a + "_" + b) == a + b
  {
    var u := "_" + b;
    forall k | 0 <= k < |u|
      ensures IsDigit(u[k]) || u[k] == '_'
    {
      if k > 0 { assert u[k] == b[k - 1]; }
    }
    assert u[1..] == b;
    DropUnderscoresOfDigits(b);
    assert DropUnderscores(u) == b;
    var t := a + u;
    forall k | 0 <= k < |t|
      ensures IsDigit(t[k]) || t[k] == '_'
    {
      if k < |a| { assert t[k] == a[k]; } else { assert t[k] == u[k - |a|]; }
    }
    DropUnderscoresAppend(a, u);
    DropUnderscoresOfDigits(a);
    assert a + "_" + b == t;
  }

  /** One underscore between two runs of digits is ignored. */
  lemma ParseIntUnderscore(a: string, b: string)
    requires |a| >= 1 && AllDigits(a) && |b| >= 1 && AllDigits(b)
    ensures ParseInt(a + "_" + b) == Some(DigitsValue(a + b) as int)
  {
    var t := a + "_" + b;
    assert t[0] == a[0] && t[|t| - 1] == b[|b| - 1];
    DigitsTight(a);
    DigitsTight(b);
    StripTight(t);
    UnderscoreNumeral(a, b);
    DropOneUnderscore(a, b);
  }

  lemma {:induction false} DropUnderscoresAppend(a: string, b: string)
    requires forall k :: 0 <= k < |a| ==> IsDigit(a[k]) || a[k] == '_'
    requires forall k :: 0 <= k < |b| ==> IsDigit(b[k]) || b[k] == '_'
    ensures DropUnderscores(a + b) == DropUnderscores(a) + DropUnderscores(b)
    decreases |a|
  {
    if a == [] {
      assert a + b == b;
    } else {
      var ab := a + b;
      assert ab[0] == a[0] && ab[1..] == a[1..] + b;
      DropUnderscoresAppend(a[1..], b);
    }
  }

  lemma ParseIntOfNatToString(n: nat)
    ensures ParseInt(NatToString(n)) == Some(n as int)
  {
    ParseIntOfDigits(NatToString(n));
    DigitsValueOfNatToString(n);
  }

  /** Index of the first occurrence of `c` in `s`. */
  function IndexOf(s: string, c: char): (k: nat)
    requires c in s
    ensures k < |s| && s[k] == c && c !in s[..k]
  {
    if s[0] == c then 0 else 1 + IndexOf(s[1..], c)
  }

  /** Python's `s.split(sep)` for a one-character separator: every occurrence splits. */
  function Split(s: string, sep: char): (r: seq<string>)
    ensures |r| >= 1
    ensures forall k :: 0 <= k < |r| ==> sep !in r[k]
    decreases |s|
  {
    if sep !in s then [s]
    else
      var k := IndexOf(s, sep);
      [s[..k]] + Split(s[k + 1..], sep)
  }

  /** The first separator of `a + [c] + rest` is the one after `a` when `a` has none. */
  lemma {:induction false} IndexOfAfterPrefix(a: string, c: char, rest: string)
    requires c !in a
    ensures IndexOf(a + [c] + rest, c) == |a|
    decreases |a|
  {
    if a != [] {
      assert (a + [c] + rest)[1..] == a[1..] + [c] + rest;
      IndexOfAfterPrefix(a[1..], c, rest);
    }
  }

  lemma SplitCons(a: string, sep: char, rest: string)
    requires sep !in a
    ensures Split(a + [sep] + rest, sep) == [a] + Split(rest, sep)
  {
    var s := a + [sep] + rest;
    assert s[|a|] == sep;
    IndexOfAfterPrefix(a, sep, rest);
    assert s[..|a|] == a;
    assert s[|a| + 1..] == rest;
  }

  /** `s.rstrip('\n')`: every trailing newline removed. */
  function RStripNewlines(s: string): string
    decreases |s|
  {
    if |s| > 0 && s[|s| - 1] == '\n' then RStripNewlines(s[..|s| - 1]) else s
  }

  /** rstrip keeps a prefix that does not end in a newline and drops only newlines. */
  lemma {:induction false} RStripNewlinesShape(s: string)
    ensures var r := RStripNewlines(s);
      && |r| <= |s| && r == s[..|r|]
      && (|r| == 0 || r[|r| - 1] != '\n')
      && forall k :: |r| <= k < |s| ==> s[k] == '\n'
    decreases |s|
  {
    if |s| > 0 && s[|s| - 1] == '\n' {
      RStripNewlinesShape(s[..|s| - 1]);
    }
  }

  /** The text that writing every item followed by a newline produces. */
  function WriteLines(items: seq<string>): string
    decreases |items|
  {
    if items == [] then "" else items[0] + "\n" + WriteLines(items[1..])
  }

  /** Python's `file.readlines()` on a text: each line keeps its newline; a last line may lack one. */
  function ReadLines(text: string): (r: seq<string>)
    ensures forall k :: 0 <= k < |r| ==> |r[k]| > 0
    decreases |text|
  {
    if text == [] then []
    else if '\n' !in text then [text]
    else
      var k := IndexOf(text, '\n');
      [text[..k + 1]] + ReadLines(text[k + 1..])
  }

  predicate NoNewline(items: seq<string>) { forall k :: 0 <= k < |items| ==> '\n' !in items[k] }

  lemma NoNewlineAppend(a: seq<string>, b: seq<string>)
    requires NoNewline(a) && NoNewline(b)
    ensures NoNewline(a + b)
  {
    forall k | 0 <= k < |a + b|
      ensures '\n' !in (a + b)[k]
    {
      if k < |a| {
        assert (a + b)[k] == a[k];
      } else {
        assert (a + b)[k] == b[k - |a|];
      }
    }
  }

  /** Each item with its newline appended. */
  function Lines(items: seq<string>): (r: seq<string>)
    ensures |r| == |items| && forall k :: 0 <= k < |items| ==> r[k] == items[k] + "\n"
  {
    seq(|items|, k requires 0 <= k < |items| => items[k] + "\n")
  }

  lemma LinesOne(s: string)
    ensures Lines([s]) == [s + "\n"]
  {
  }

  lemma LinesAppend(x: seq<string>, y: seq<string>)
    ensures Lines(x + y) == Lines(x) + Lines(y)
  {
    var l := Lines(x + y);
    var r := Lines(x) + Lines(y);
    forall k | 0 <= k < |l|
      ensures l[k] == r[k]
    {
      if k < |x| {
        assert (x + y)[k] == x[k];
      } else {
        assert (x + y)[k] == y[k - |x|];
      }
    }
  }

  lemma PrefixSlices<T>(a: seq<T>, c: T, rest: seq<T>)
    ensures (a + [c] + rest)[..|a| + 1] == a + [c]
    ensures (a + [c] + rest)[|a| + 1..] == rest
  {
  }

  /** `readlines()` splits off a first line that ends in the first newline. */
  lemma ReadLinesCons(a: string, rest: string)
    requires '\n' !in a
    ensures ReadLines(a + "\n" + rest) == [a + "\n"] + ReadLines(rest)
  {
    var text := a + "\n" + rest;
    assert text[|a|] == '\n';
    IndexOfAfterPrefix(a, '\n', rest);
    PrefixSlices(a, '\n', rest);
  }

  lemma LinesCons(items: seq<string>)
    requires items != []
    ensures Lines(items) == [items[0] + "\n"] + Lines(items[1..])
  {
    assert items == [items[0]] + items[1..];
    LinesAppend([items[0]], items[1..]);
    LinesOne(items[0]);
  }

  /** Reading back what was written gives the items, each with its newline. */
  lemma {:induction false} ReadLinesOfWriteLines(items: seq<string>)
    requires NoNewline(items)
    ensures ReadLines(WriteLines(items)) == Lines(items)
    decreases |items|
  {
    if items != [] {
      ReadLinesCons(items[0], WriteLines(items[1..]));
      ReadLinesOfWriteLines(items[1..]);
      LinesCons(items);
    }
  }

  lemma RStripOfLine(s: string)
    requires '\n' !in s
    ensures RStripNewlines(s + "\n") == s
  {
    assert (s + "\n")[..|s|] == s;
  }
}
