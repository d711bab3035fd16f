/**
 * The two `parse_range` helpers that turn a "min-max" style setting into a pair
 * of integers. The scheduler's version separates with `~` and falls back to
 * (1, 1); the multi-account window's version separates with `-` and falls back
 * to (0, 0). Neither ever fails: any text that does not parse gives the fallback.
 */
module Ranges {
  import opened Wrappers
  import opened PyText

  /**
   * The shared shape of both helpers: with the separator present, exactly two
   * pieces that both parse as integers; without it, one integer used twice.
   */
  function ParseRangeWith(text: string, sep: char, fallback: (int, int)): (r: (int, int))
    ensures r != fallback ==> |Split(text, sep)| <= 2
    ensures r != fallback && sep in text ==>
      |Split(text, sep)| == 2 && ParseInt(Split(text, sep)[0]) == Some(r.0) && ParseInt(Split(text, sep)[1]) == Some(r.1)
    ensures r != fallback && sep !in text ==> ParseInt(text) == Some(r.0) && r.0 == r.1
  {
    if sep in text then
      var parts := Split(text, sep);
      if |parts| == 2 && ParseInt(parts[0]).Some? && ParseInt(parts[1]).Some? then
        (ParseInt(parts[0]).value, ParseInt(parts[1]).value)
      else
        fallback
    else
      match ParseInt(text)
      case Some(v) => (v, v)
      case None => fallback
  }

  /** `parse_range` of the multi-account window ("a-b", fallback (0, 0)). */
  function ParseRangeDash(text: string): (int, int)
  {
    ParseRangeWith(text, '-', (0, 0))
  }

  /** `parse_range` of the scheduler ("a~b", fallback (1, 1)). */
  function ParseRangeTilde(text: string): (int, int)
  {
    ParseRangeWith(text, '~', (1, 1))
  }

  /** Whatever the separator, text whose first piece is not an integer gives the fallback. */
  lemma UnparsableGivesFallback(text: string, sep: char, fallback: (int, int))
    requires ParseInt(Split(text, sep)[0]).None? || |Split(text, sep)| > 2
    ensures ParseRangeWith(text, sep, fallback) == fallback
  {
    if sep !in text {
      SplitWhole(text, sep);
    }
  }

  /**
   * The window writes its ranges as f"{min}-{max}" from two spin boxes that never
   * go below 0, and reading them back gives exactly the two bounds.
   */
  lemma DashPair(lo: nat, hi: nat)
    ensures ParseRangeDash(Show(lo) + "-" + Show(hi)) == (lo, hi)
  {
    var text := Show(lo) + "-" + Show(hi);
    assert '-' !in Show(lo) by { assert forall i | 0 <= i < |Show(lo)| :: IsDigit(Show(lo)[i]); }
    assert '-' !in Show(hi) by { assert forall i | 0 <= i < |Show(hi)| :: IsDigit(Show(hi)[i]); }
    assert text == Show(lo) + ['-'] + Show(hi);
    SplitAfter(Show(lo), '-', Show(hi));
    SplitWhole(Show(hi), '-');
    assert text[|Show(lo)|] == '-';
    ParseIntShow(lo);
    ParseIntShow(hi);
  }

  /**
   * A single number in the dash dialect: a non-negative one is used for both
   * bounds, while a negative one is taken apart at its minus sign and gives (0, 0).
   */
  lemma DashLone(v: int)
    ensures ParseRangeDash(ShowInt(v)) == if v >= 0 then (v, v) else (0, 0)
  {
    var text := ShowInt(v);
    if v >= 0 {
      assert forall i | 0 <= i < |text| :: IsDigit(text[i]);
      assert '-' !in text;
      ParseIntShow(v);
    } else {
      assert text == [] + ['-'] + Show(-v);
      SplitAfter([], '-', Show(-v));
      assert Split(text, '-')[0] == [];
      UnparsableGivesFallback(text, '-', (0, 0));
    }
  }

  /** The scheduler's "a~b" reads back as both integers, signs included. */
  lemma TildePair(lo: int, hi: int)
    ensures ParseRangeTilde(ShowInt(lo) + "~" + ShowInt(hi)) == (lo, hi)
  {
    var text := ShowInt(lo) + "~" + ShowInt(hi);
    NoTilde(lo);
    NoTilde(hi);
    assert text == ShowInt(lo) + ['~'] + ShowInt(hi);
    SplitAfter(ShowInt(lo), '~', ShowInt(hi));
    SplitWhole(ShowInt(hi), '~');
    assert text[|ShowInt(lo)|] == '~';
    ParseIntShow(lo);
    ParseIntShow(hi);
  }

  /** A single integer in the scheduler's dialect is used for both bounds. */
  lemma TildeLone(v: int)
    ensures ParseRangeTilde(ShowInt(v)) == (v, v)
  {
    NoTilde(v);
    ParseIntShow(v);
  }

  lemma NoTilde(v: int)
    ensures '~' !in ShowInt(v)
  {
    var d := Show(if v < 0 then -v else v);
    assert forall i | 0 <= i < |d| :: IsDigit(d[i]);
    assert ShowInt(v) == d || ShowInt(v) == "-" + d;
  }
}
