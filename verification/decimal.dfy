/**
 * Decimal text for integers as Python writes and reads it: `str(n)` renders,
 * `int(s)` parses. The checkpoint file, the part-file names and the summary
 * lines all go through these two.
 */
module Decimal {
  import opened Common

  predicate IsDigit(c: char) {
    '0' <= c <= '9'
  }

  predicate AllDigits(s: string) {
    forall k :: 0 <= k < |s| ==> IsDigit(s[k])
  }

  function DigitChar(d: nat): (c: char)
    requires d < 10
    ensures IsDigit(c) && c as int - '0' as int == d
  {
    ('0' as int + d) as char
  }

  /** The decimal digits of n, most significant first, with no leading zero. */
  function Digits(n: nat): string
    decreases n
  {
    if n < 10 then [DigitChar(n)] else Digits(n / 10) + [DigitChar(n % 10)]
  }

  /** The number a string of decimal digits denotes. */
  function ValueOf(s: string): nat
    requires AllDigits(s)
    decreases |s|
  {
    if s == [] then 0 else 10 * ValueOf(s[..|s| - 1]) + (s[|s| - 1] as int - '0' as int)
  }

  /** Python's str(n). */
  function Render(n: int): (s: string)
    ensures |s| > 0
  {
    if n < 0 then "-" + Digits(-n) else Digits(n)
  }

  /** The characters str.isspace() accepts, so the ones str.strip() removes. */
  predicate IsSpace(c: char) {
    || c == ' '
    || '\t' <= c <= '\r'
    || '\U{1C}' <= c <= '\U{1F}'
    || c == '\U{85}' || c == '\U{A0}' || c == '\U{1680}'
    || '\U{2000}' <= c <= '\U{200A}'
    || c == '\U{2028}' || c == '\U{2029}' || c == '\U{202F}' || c == '\U{205F}' || c == '\U{3000}'
  }

  function StripLeft(s: string): (r: string)
    ensures |r| > 0 ==> !IsSpace(r[0])
    decreases |s|
  {
    if |s| > 0 && IsSpace(s[0]) then StripLeft(s[1..]) else s
  }

  function StripRight(s: string): (r: string)
    ensures |r| > 0 ==> !IsSpace(r[|r| - 1])
    decreases |s|
  {
    if |s| > 0 && IsSpace(s[|s| - 1]) then StripRight(s[..|s| - 1]) else s
  }

  /** Python's str.strip() with no argument. */
  function Strip(s: string): string {
    StripRight(StripLeft(s))
  }

  /** The digit part int() accepts: digits, each underscore standing between two digits. */
  predicate WellFormedDigits(s: string) {
    && |s| > 0
    && IsDigit(s[0])
    && IsDigit(s[|s| - 1])
    && (forall k :: 0 <= k < |s| ==> IsDigit(s[k]) || s[k] == '_')
    && (forall k :: 0 <= k < |s| - 1 ==> s[k] != '_' || s[k + 1] != '_')
  }

  function DropUnderscores(s: string): (r: string)
    requires forall k :: 0 <= k < |s| ==> IsDigit(s[k]) || s[k] == '_'
    ensures AllDigits(r) && |r| <= |s|
    decreases |s|
  {
    if s == [] then []
    else if s[0] == '_' then DropUnderscores(s[1..])
    else [s[0]] + DropUnderscores(s[1..])
  }

  /** Python's int(s) on a str: surrounding whitespace, an optional sign, then digits. */
  function ParseInt(text: string): Result<int> {
    var s := Strip(text);
    if |s| > 0 && (s[0] == '-' || s[0] == '+') then
      if WellFormedDigits(s[1..]) then
        var v: int := ValueOf(DropUnderscores(s[1..]));
        Success(if s[0] == '-' then -v else v)
      else Failure(ValueError)
    else if WellFormedDigits(s) then Success(ValueOf(DropUnderscores(s)))
    else Failure(ValueError)
  }

  /** The digits are at least one, all decimal, and start with 0 only for 0 itself. */
  lemma {:induction false} DigitsShape(n: nat)
    ensures |Digits(n)| > 0 && AllDigits(Digits(n))
    ensures Digits(n)[0] == '0' ==> n == 0
    decreases n
  {
    if n >= 10 {
      DigitsShape(n / 10);
    }
  }

  lemma {:induction false} DigitsDenote(n: nat)
    ensures AllDigits(Digits(n)) && ValueOf(Digits(n)) == n
    decreases n
  {
    DigitsShape(n);
    if n >= 10 {
      DigitsDenote(n / 10);
      var s := Digits(n);
      assert s[..|s| - 1] == Digits(n / 10);
    }
  }

  lemma {:induction false} DropUnderscoresOfDigits(s: string)
    requires AllDigits(s)
    ensures DropUnderscores(s) == s
    decreases |s|
  {
    if s != [] {
      DropUnderscoresOfDigits(s[1..]);
    }
  }

  /** Every character of str(n) is a digit or the leading minus sign. */
  lemma RenderCharacters(n: int)
    ensures forall k :: 0 <= k < |Render(n)| ==> IsDigit(Render(n)[k]) || (k == 0 && n < 0 && Render(n)[k] == '-')
  {
    DigitsShape(if n < 0 then -n else n);
  }

  /** int(str(n)) == n: the checkpoint file reads back the number written to it. */
  lemma RenderParse(n: int)
    ensures ParseInt(Render(n)) == Success(n)
  {
    var s := Render(n);
    var m: nat := if n < 0 then -n else n;
    var d := Digits(m);
    DigitsShape(m);
    assert s[0] == '-' || IsDigit(s[0]);
    StripNothing(s);
    DigitsDenote(m);
    DigitsWellFormed(d);
    if n < 0 {
      assert s[1..] == d;
    }
  }

  lemma StripNothing(s: string)
    requires |s| > 0 && !IsSpace(s[0]) && !IsSpace(s[|s| - 1])
    ensures Strip(s) == s
  {
  }

  lemma DigitsWellFormed(d: string)
    requires |d| > 0 && AllDigits(d)
    ensures WellFormedDigits(d) && DropUnderscores(d) == d
  {
    DropUnderscoresOfDigits(d);
  }

  /** Distinct numbers have distinct decimal text, so part files never share a name. */
  lemma RenderInjective(a: int, b: int)
    requires Render(a) == Render(b)
    ensures a == b
  {
    RenderParse(a);
    RenderParse(b);
  }

  /** int() ignores whitespace around the number. */
  lemma {:induction false} ParseIgnoresSurroundingSpace(before: string, t: string, after: string)
    requires forall k :: 0 <= k < |before| ==> IsSpace(before[k])
    requires forall k :: 0 <= k < |after| ==> IsSpace(after[k])
    ensures ParseInt(before + t + after) == ParseInt(t)
  {
    StripLeftSpace(before, t + after);
    assert before + t + after == before + (t + after);
    StripLeftKeepsSuffix(t, after);
    StripRightSpace(StripLeft(t), after);
  }

  lemma {:induction false} StripLeftSpace(ws: string, s: string)
    requires forall k :: 0 <= k < |ws| ==> IsSpace(ws[k])
    ensures StripLeft(ws + s) == StripLeft(s)
    decreases |ws|
  {
    if ws != [] {
      assert IsSpace(ws[0]) && (ws + s)[0] == ws[0];
      assert (ws + s)[1..] == ws[1..] + s;
      StripLeftSpace(ws[1..], s);
    } else {
      assert ws + s == s;
    }
  }

  lemma {:induction false} StripLeftKeepsSuffix(t: string, after: string)
    requires forall k :: 0 <= k < |after| ==> IsSpace(after[k])
    ensures StripLeft(t + after) == if StripLeft(t) == [] then [] else StripLeft(t) + after
    decreases |t|
  {
    if t == [] {
      assert t + after == after;
      StripLeftAllSpace(after);
    } else if IsSpace(t[0]) {
      assert (t + after)[0] == t[0];
      assert (t + after)[1..] == t[1..] + after;
      StripLeftKeepsSuffix(t[1..], after);
    }
  }

  lemma {:induction false} StripLeftAllSpace(ws: string)
    requires forall k :: 0 <= k < |ws| ==> IsSpace(ws[k])
    ensures StripLeft(ws) == []
    decreases |ws|
  {
    if ws != [] {
      StripLeftAllSpace(ws[1..]);
    }
  }

  lemma {:induction false} StripRightSpace(s: string, ws: string)
    requires forall k :: 0 <= k < |ws| ==> IsSpace(ws[k])
    ensures StripRight(s + ws) == StripRight(s)
    decreases |ws|
  {
    if ws != [] {
      var w := ws[..|ws| - 1];
      assert (s + ws)[..|s + ws| - 1] == s + w;
      StripRightSpace(s, w);
    } else {
      assert s + ws == s;
    }
  }
}
