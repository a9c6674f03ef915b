/**
  The amount field of the form is text. Loading a record writes its amount
  with `toString`; submitting reads it back with `parseFloat`. Amounts are
  whole cents here, so the text is a decimal with at most two fraction
  digits: `ShowCents` writes it the way `Number.prototype.toString` writes
  `cents / 100`, and `ParseCents` reads such a text back.
 */
module Amounts {
  import opened Types
  import opened Digits

  /** The fraction part: nothing for whole units, else a dot and one or two digits, no trailing zero. */
  function FractionText(r: nat): (s: string)
    requires r < 100
    ensures s == [] || (2 <= |s| <= 3 && s[0] == '.' && AllDigits(s[1..]))
  {
    if r == 0 then []
    else if r % 10 == 0 then ['.', Digit(r / 10)]
    else ['.', Digit(r / 10), Digit(r % 10)]
  }

  function ShowUnsigned(c: nat): string
  {
    Natural(c / 100) + FractionText(c % 100)
  }

  /** `(cents / 100).toString()`: `1250` is `"12.5"`, `-5` is `"-0.05"`, `1200` is `"12"`. */
  function ShowCents(c: int): (s: string)
    ensures s != [] && (s[0] == '-' <==> c < 0)
  {
    if c < 0 then "-" + ShowUnsigned(-c) else ShowUnsigned(c)
  }

  /** The position of the first `.`, or the length when there is none. */
  function DotIndex(s: string): (i: nat)
    ensures i <= |s| && '.' !in s[..i]
    ensures i < |s| ==> s[i] == '.'
  {
    if s == [] then 0
    else if s[0] == '.' then 0
    else
      var i := 1 + DotIndex(s[1..]);
      assert s[..i] == [s[0]] + s[1..][..i - 1];
      i
  }

  /** Digits, optionally followed by a dot and one or two digits, as cents. */
  function ParseUnsigned(s: string): (r: Option<int>)
    ensures r.Some? ==> r.value >= 0
  {
    var i := DotIndex(s);
    var whole, frac := s[..i], s[i..];
    if whole == [] || !AllDigits(whole) then None
    else if frac == [] then Some(DigitsValue(whole) * 100)
    else if |frac| == 2 && AllDigits(frac[1..]) then Some(DigitsValue(whole) * 100 + DigitsValue(frac[1..]) * 10)
    else if |frac| == 3 && AllDigits(frac[1..]) then Some(DigitsValue(whole) * 100 + DigitsValue(frac[1..]))
    else None
  }

  /**
    The amount a form text denotes, in cents: an optional minus sign, digits,
    and at most two fraction digits. Anything else is `None`.
   */
  function ParseCents(s: string): (r: Option<int>)
    ensures s == [] ==> r == None
    ensures r.Some? && r.value < 0 ==> s[0] == '-'
  {
    if s == [] then None
    else if s[0] == '-' then
      match ParseUnsigned(s[1..])
      case Some(n) => Some(-n)
      case None => None
    else ParseUnsigned(s)
  }

  lemma ShowUnsignedParses(c: nat)
    ensures ParseUnsigned(ShowUnsigned(c)) == Some(c)
  {
    var w, f := Natural(c / 100), FractionText(c % 100);
    var s := w + f;
    assert s[..|w|] == w && s[|w|..] == f;
    assert '.' !in w by {
      assert forall k :: 0 <= k < |w| ==> IsDigit(w[k]);
    }
    DotSplit(w, f);
    NaturalValue(c / 100);
    var r := c % 100;
    if r != 0 {
      var d := f[1..];
      if r % 10 == 0 {
        assert d == [Digit(r / 10)];
        assert d[..0] == [];
      } else {
        assert d == [Digit(r / 10), Digit(r % 10)];
        assert d[..1] == [Digit(r / 10)] && d[..1][..0] == [];
        assert DigitsValue(d[..1]) == r / 10;
        assert DigitsValue(d) == (r / 10) * 10 + r % 10;
      }
    }
  }

  /** The first dot of `w + f` is where `f` starts, when `w` has none and `f` starts with one. */
  lemma {:induction false} DotSplit(w: string, f: string)
    requires '.' !in w
    requires f == [] || f[0] == '.'
    ensures DotIndex(w + f) == |w|
  {
    if w != [] {
      assert (w + f)[1..] == w[1..] + f;
      DotSplit(w[1..], f);
    } else {
      assert w + f == f;
    }
  }

  /** Loading an amount into the form and submitting it gives the same amount back. */
  lemma ShowParseRoundTrip(c: int)
    ensures ParseCents(ShowCents(c)) == Some(c)
  {
    var s := ShowCents(c);
    if c < 0 {
      ShowUnsignedParses(-c);
      assert s[0] == '-' && s[1..] == ShowUnsigned(-c);
      assert ParseCents(s) == Some(-(-c));
    } else {
      ShowUnsignedParses(c);
      assert s[0] != '-' && s == ShowUnsigned(c);
      assert ParseCents(s) == ParseUnsigned(s);
    }
  }

  /** Two amounts that are written alike are equal. */
  lemma ShowCentsInjective(a: int, b: int)
    requires ShowCents(a) == ShowCents(b)
    ensures a == b
  {
    ShowParseRoundTrip(a);
    ShowParseRoundTrip(b);
  }

  /** Worked cases of the format. */
  lemma ShowCentsExamples()
    ensures ShowCents(1250) == "12.5" && ShowCents(1200) == "12" && ShowCents(-5) == "-0.05"
  {
    assert Natural(12) == "12";
  }

  /** Worked cases of the parser: two decimals are read, a third is refused. */
  lemma ParseCentsExamples()
    ensures ParseCents("12.50") == Some(1250) && ParseCents("1.234") == None && ParseCents("") == None
  {
    assert DotIndex("12.50") == 2;
    assert DotIndex("1.234") == 1;
    assert DigitsValue("12") == 12;
    assert DigitsValue("50") == 50 by { assert "50"[..1] == "5"; }
  }
}
