/**
 * The few pieces of Python's `str` and `int` behaviour the tool relies on:
 * `strip()`, `split(sep)`, `in` on substrings, `upper()`, `int(text)` and `str(n)`.
 */
module PyText {
  import opened Wrappers

  /** `c.isspace()`: the characters Python treats as white space. */
  predicate IsSpace(c: char) {
    || c == ' '
    || '\t' <= c <= '\r'
    || '\U{1C}' <= c <= '\U{1F}'
    || c == '\U{85}' || c == '\U{A0}' || c == '\U{1680}'
    || '\U{2000}' <= c <= '\U{200A}'
    || c == '\U{2028}' || c == '\U{2029}' || c == '\U{202F}' || c == '\U{205F}' || c == '\U{3000}'
  }

  predicate AllSpace(s: string) {
    forall i | 0 <= i < |s| :: IsSpace(s[i])
  }

  /** A non-blank string with no white space at either end: what `strip` returns. */
  predicate Framed(t: string)
  {
    t != [] && !IsSpace(t[0]) && !IsSpace(t[|t| - 1])
  }

  /**
   * `s.strip()`: leading and then trailing white space removed one character at
   * a time; what is left is empty or framed by non-blank characters.
   */
  function Strip(s: string): (r: string)
    ensures |r| <= |s|
    ensures r != [] ==> Framed(r)
    decreases |s|
  {
    if s == [] then []
    else if IsSpace(s[0]) then Strip(s[1..])
    else if IsSpace(s[|s| - 1]) then Strip(s[..|s| - 1])
    else s
  }

  /** `strip()` leaves nothing exactly when the text is blank. */
  lemma {:induction false} StripBlank(s: string)
    ensures Strip(s) == [] <==> AllSpace(s)
    decreases |s|
  {
    if s != [] {
      if IsSpace(s[0]) {
        StripBlank(s[1..]);
        assert forall i | 1 <= i < |s| :: s[i] == s[1..][i - 1];
      } else if IsSpace(s[|s| - 1]) {
        StripBlank(s[..|s| - 1]);
        assert forall i | 0 <= i < |s| - 1 :: s[i] == s[..|s| - 1][i];
      }
    }
  }

  /** Every character of `strip(s)` comes from `s`. */
  lemma {:induction false} StripWithin(s: string)
    ensures forall c | c in Strip(s) :: c in s
    decreases |s|
  {
    if s != [] {
      if IsSpace(s[0]) {
        StripWithin(s[1..]);
        assert forall c | c in s[1..] :: c in s;
      } else if IsSpace(s[|s| - 1]) {
        StripWithin(s[..|s| - 1]);
        assert forall c | c in s[..|s| - 1] :: c in s;
      }
    }
  }

  /** A string that neither starts nor ends with white space is its own `strip()`. */
  lemma StripFramed(s: string)
    requires Framed(s)
    ensures Strip(s) == s
  {
  }

  /** `sub in s` */
  predicate Contains(s: string, sub: string)
    decreases |s|
  {
    (|sub| <= |s| && s[..|sub|] == sub) || (s != [] && Contains(s[1..], sub))
  }

  /** `sep.join(parts)` for a one-character separator. */
  function Join(parts: seq<string>, sep: char): string
    requires |parts| >= 1
  {
    if |parts| == 1 then parts[0] else parts[0] + [sep] + Join(parts[1..], sep)
  }

  /**
   * `s.split(sep)`: never empty, no piece contains `sep`, joining the pieces back
   * gives `s`, and there is more than one piece exactly when `sep` occurs in `s`.
   */
  function Split(s: string, sep: char): (parts: seq<string>)
    ensures |parts| >= 1
    ensures forall k | 0 <= k < |parts| :: sep !in parts[k]
    ensures Join(parts, sep) == s
    ensures |parts| == 1 <==> sep !in s
  {
    if s == [] then [""]
    else
      var rest := Split(s[1..], sep);
      if s[0] == sep then
        assert ([""] + rest)[1..] == rest;
        [""] + rest
      else
        var parts := [[s[0]] + rest[0]] + rest[1..];
        assert parts[1..] == rest[1..];
        assert s == [s[0]] + s[1..];
        parts
  }

  /** Splitting `a + sep + b` where `a` has no separator peels off `a` as the first piece. */
  lemma {:induction false} SplitAfter(a: string, sep: char, b: string)
    requires sep !in a
    ensures Split(a + [sep] + b, sep) == [a] + Split(b, sep)
  {
    if a == [] {
      assert a + [sep] + b == [sep] + b;
      assert ([sep] + b)[1..] == b;
    } else {
      assert (a + [sep] + b)[1..] == a[1..] + [sep] + b;
      SplitAfter(a[1..], sep, b);
      assert [a[0]] + a[1..] == a;
    }
  }

  /** A string without the separator splits into itself alone. */
  lemma SplitWhole(a: string, sep: char)
    requires sep !in a
    ensures Split(a, sep) == [a]
  {
  }

  /** `s.upper()` for ASCII letters. */
  function UpperAscii(s: string): (r: string)
    ensures |r| == |s|
    ensures forall i | 0 <= i < |s| :: r[i] == if 'a' <= s[i] <= 'z' then (s[i] as int - 32) as char else s[i]
  {
    if s == [] then [] else [if 'a' <= s[0] <= 'z' then (s[0] as int - 32) as char else s[0]] + UpperAscii(s[1..])
  }

  predicate IsDigit(c: char) {
    '0' <= c <= '9'
  }

  /**
   * The digit part Python's `int()` accepts: digits, where a single `_` may stand
   * between two digits (`1_000`).
   */
  predicate DigitsOk(t: string) {
    && |t| > 0 && IsDigit(t[0]) && IsDigit(t[|t| - 1])
    && (forall i | 0 <= i < |t| :: IsDigit(t[i]) || t[i] == '_')
    && (forall i, j | 0 <= i < |t| && i < j < |t| && j == i + 1 :: IsDigit(t[i]) || IsDigit(t[j]))
  }

  /** The decimal value of the digits of `t`, underscores skipped. */
  function DigitsValue(t: string): nat {
    if t == [] then 0
    else if IsDigit(t[|t| - 1]) then 10 * DigitsValue(t[..|t| - 1]) + (t[|t| - 1] as int - '0' as int)
    else DigitsValue(t[..|t| - 1])
  }

  /**
   * `int(s)` for a string: surrounding white space is ignored, one optional sign,
   * then digits; anything else is a `ValueError`, here `None`.
   */
  function ParseInt(s: string): (r: Option<int>)
    ensures AllSpace(s) ==> r.None?
  {
    StripBlank(s);
    var t := Strip(s);
    if t != [] && (t[0] == '+' || t[0] == '-') then
      if DigitsOk(t[1..]) then
        var v: int := DigitsValue(t[1..]);
        Some(if t[0] == '-' then -v else v)
      else
        None
    else if DigitsOk(t) then
      Some(DigitsValue(t))
    else
      None
  }

  function DigitChar(d: nat): (c: char)
    requires d < 10
    ensures IsDigit(c)
  {
    ('0' as int + d) as char
  }

  /** `str(n)` for a natural number: its decimal digits, most significant first. */
  function Show(n: nat): (r: string)
    ensures |r| >= 1
    ensures forall i | 0 <= i < |r| :: IsDigit(r[i])
  {
    if n < 10 then [DigitChar(n)] else Show(n / 10) + [DigitChar(n % 10)]
  }

  /** `str(i)` for any integer. */
  function ShowInt(i: int): (r: string)
    ensures r != [] && r[|r| - 1] != '-'
  {
    if i < 0 then "-" + Show(-i) else Show(i)
  }

  lemma {:induction false} DigitsValueShow(n: nat)
    ensures DigitsValue(Show(n)) == n
  {
    if n >= 10 {
      var s := Show(n);
      assert s[..|s| - 1] == Show(n / 10);
      DigitsValueShow(n / 10);
    }
  }

  lemma ShowDigitsOk(n: nat)
    ensures DigitsOk(Show(n))
  {
    var s := Show(n);
    assert forall i | 0 <= i < |s| :: IsDigit(s[i]);
  }

  /** `int` of a plain digit string is its decimal value. */
  lemma ParseDigits(n: nat)
    ensures ParseInt(Show(n)) == Some(n)
  {
    var d := Show(n);
    ShowDigitsOk(n);
    DigitsValueShow(n);
    assert IsDigit(d[0]) && IsDigit(d[|d| - 1]);
    StripFramed(d);
  }

  /** `int` of a minus sign followed by digits is the negated value. */
  lemma ParseNegative(n: nat)
    ensures ParseInt("-" + Show(n)) == Some(-(n as int))
  {
    var d := Show(n);
    var s := "-" + d;
    ShowDigitsOk(n);
    DigitsValueShow(n);
    assert IsDigit(d[|d| - 1]) && s[|s| - 1] == d[|d| - 1];
    StripFramed(s);
    assert s[1..] == d;
  }

  /** `int(str(i)) == i` */
  lemma ParseIntShow(i: int)
    ensures ParseInt(ShowInt(i)) == Some(i)
  {
    if i < 0 {
      ParseNegative(-i);
    } else {
      ParseDigits(i);
    }
  }

  /** Every piece is blank. */
  predicate AllBlank(parts: seq<string>) {
    forall j | 0 <= j < |parts| :: AllSpace(parts[j])
  }

  lemma AllBlankCons(parts: seq<string>)
    requires parts != []
    ensures AllBlank(parts) <==> AllSpace(parts[0]) && AllBlank(parts[1..])
  {
    assert forall j | 1 <= j < |parts| :: parts[j] == parts[1..][j - 1];
  }

  /**
   * `[p.strip() for p in parts if p.strip()]`: the stripped pieces that are not
   * blank, in their original order.
   */
  function CleanList(parts: seq<string>): seq<string>
  {
    if parts == [] then []
    else
      var head := Strip(parts[0]);
      if head == [] then CleanList(parts[1..]) else [head] + CleanList(parts[1..])
  }

  /** Every kept piece is non-blank and stripped. */
  lemma {:induction false} CleanListFramed(parts: seq<string>)
    ensures forall t | t in CleanList(parts) :: Framed(t)
  {
    if parts != [] {
      CleanListFramed(parts[1..]);
    }
  }

  /** Nothing is kept exactly when every piece is blank. */
  lemma {:induction false} CleanListEmpty(parts: seq<string>)
    ensures CleanList(parts) == [] <==> AllBlank(parts)
  {
    if parts != [] {
      CleanListEmpty(parts[1..]);
      AllBlankCons(parts);
      StripBlank(parts[0]);
    }
  }

  /** A text joined with a white-space separator is blank exactly when every piece is. */
  lemma {:induction false} AllSpaceJoin(parts: seq<string>, sep: char)
    requires |parts| >= 1 && IsSpace(sep)
    ensures AllSpace(Join(parts, sep)) <==> AllBlank(parts)
  {
    if |parts| > 1 {
      AllSpaceJoin(parts[1..], sep);
      var tail := Join(parts[1..], sep);
      var whole := parts[0] + [sep] + tail;
      assert forall i | 0 <= i < |parts[0]| :: whole[i] == parts[0][i];
      assert forall i | 0 <= i < |tail| :: whole[|parts[0]| + 1 + i] == tail[i];
      assert forall j | 1 <= j < |parts| :: parts[j] == parts[1..][j - 1];
      if AllSpace(whole) {
        assert AllSpace(parts[0]);
        assert AllSpace(tail);
      }
    }
  }
}
