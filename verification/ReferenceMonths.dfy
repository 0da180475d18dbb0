/** `is_reference_month` and how the string order of months relates to the calendar. */
module ReferenceMonths {
  import opened Prelude
  import opened Text

  /** The value of each decimal digit, which `int` reads, and all that `str.isdigit` accepts. */
  datatype DigitTable = DigitTable(decimal: char -> Option<nat>, digit: char -> bool)
  {
    /** Decimals are digits and stand for 0 to 9; in ASCII there are no digits but '0' to '9'. */
    ghost predicate Sound() {
      && (forall c :: decimal(c).Some? ==> digit(c) && decimal(c).value <= 9)
      && (forall c :: c <= '\U{7F}' ==> digit(c) == AsciiDigit(c))
      && (forall c :: AsciiDigit(c) ==> decimal(c) == Some(DigitValue(c)))
    }
  }

  const ASCII_DIGITS: DigitTable :=
    DigitTable(c => if AsciiDigit(c) then Some(DigitValue(c)) else None, c => AsciiDigit(c))

  /** Any version of Unicode will do. */
  type Unicode = t: DigitTable | t.Sound() ghost witness ASCII_DIGITS

  predicate AllDigits(u: Unicode, s: string) {
    s != "" && forall i :: 0 <= i < |s| ==> u.digit(s[i])
  }

  predicate AllDecimal(u: Unicode, s: string) {
    forall i :: 0 <= i < |s| ==> u.decimal(s[i]).Some?
  }

  predicate Ascii(s: string) {
    forall i :: 0 <= i < |s| ==> s[i] <= '\U{7F}'
  }

  function Number(u: Unicode, s: string): nat
    requires AllDecimal(u, s)
  {
    if s == "" then 0 else 10 * Number(u, s[..|s| - 1]) + u.decimal(s[|s| - 1]).value
  }

  datatype MonthError = ValueError

  /** `is_reference_month`; `int(month)` raises for a digit that is no decimal. */
  function IsReferenceMonth(u: Unicode, value: string): Result<bool, MonthError> {
    if |value| != 7 || value[4] != '-' then Ok(false)
    else
      var year, month := value[..4], value[5..];
      if !AllDigits(u, year) || !AllDigits(u, month) then Ok(false)
      else if !AllDecimal(u, month) then Err(ValueError)
      else Ok(1 <= Number(u, month) <= 12)
  }

  /** It raises exactly for a text of the right shape whose month has a digit that is no decimal. */
  lemma RaisesExactlyWhenNoDecimal(u: Unicode, value: string)
    ensures IsReferenceMonth(u, value).Err? <==>
            && |value| == 7 && value[4] == '-' && AllDigits(u, value[..4]) && AllDigits(u, value[5..])
            && (u.decimal(value[5]).None? || u.decimal(value[6]).None?)
  {
    if |value| == 7 {
      var month := value[5..];
      assert month[0] == value[5] && month[1] == value[6];
    }
  }

  /** Any such digit does it: superscripts, subscripts, digits in circles. */
  lemma DigitsThatAreNoDecimalsRaise(u: Unicode, c: char)
    requires u.digit(c) && u.decimal(c).None?
    ensures IsReferenceMonth(u, "2026-0" + [c]) == Err(ValueError)
  {
    var value := "2026-0" + [c];
    assert value[5] == '0' && value[6] == c;
    assert value[..4] == "2026" && value[5..] == ['0', c];
    RaisesExactlyWhenNoDecimal(u, value);
  }

  /** A month whose year is a number too. */
  predicate Dated(u: Unicode, value: string) {
    IsReferenceMonth(u, value) == Ok(true) && AllDecimal(u, value[..4])
  }

  /** Months since year zero. */
  function Calendar(u: Unicode, value: string): nat
    requires Dated(u, value)
  {
    12 * Number(u, value[..4]) + Number(u, value[5..])
  }

  // ------------------------------------------------------------------ string order is calendar order

  lemma {:induction false} LessOnPrefixes(p: string, q: string, x: string, y: string)
    requires |p| == |q|
    ensures Less(p + x, q + y) <==> Less(p, q) || (p == q && Less(x, y))
    decreases |p|
  {
    if p == "" {
      assert p + x == x && q + y == y;
    } else {
      LessOnPrefixes(p[1..], q[1..], x, y);
      assert (p + x)[1..] == p[1..] + x && (q + y)[1..] == q[1..] + y;
      assert p == [p[0]] + p[1..] && q == [q[0]] + q[1..];
    }
  }

  lemma AsciiDecimals(u: Unicode, c: char)
    requires c <= '\U{7F}' && u.decimal(c).Some?
    ensures AsciiDigit(c) && u.decimal(c) == Some(c as int - '0' as int)
  {
  }

  lemma LessByLastCharacter(p: string, q: string, c: char, d: char)
    requires |p| == |q|
    ensures Less(p + [c], q + [d]) <==> Less(p, q) || (p == q && c < d)
  {
    LessOnPrefixes(p, q, [c], [d]);
    LessOnCharacters(c, d);
  }

  lemma {:induction false} NumbersFollowTheStrings(u: Unicode, a: string, b: string)
    requires |a| == |b| && Ascii(a) && Ascii(b) && AllDecimal(u, a) && AllDecimal(u, b)
    ensures Less(a, b) <==> Number(u, a) < Number(u, b)
    ensures a == b <==> Number(u, a) == Number(u, b)
    decreases |a|
  {
    if a == "" {
    } else {
      var n := |a| - 1;
      NumbersFollowTheStrings(u, a[..n], b[..n]);
      assert a == a[..n] + [a[n]] && b == b[..n] + [b[n]];
      LessByLastCharacter(a[..n], b[..n], a[n], b[n]);
      AsciiDecimals(u, a[n]);
      AsciiDecimals(u, b[n]);
    }
  }

  /** On ASCII months, the only ones the warehouse produces, string order is calendar order. */
  lemma AsciiOrderIsCalendarOrder(u: Unicode, a: string, b: string)
    requires Dated(u, a) && Dated(u, b) && Ascii(a) && Ascii(b)
    ensures Less(a, b) <==> Calendar(u, a) < Calendar(u, b)
  {
    NumbersFollowTheStrings(u, a[..4], b[..4]);
    NumbersFollowTheStrings(u, a[5..], b[5..]);
    assert a == a[..4] + a[4..] && b == b[..4] + b[4..];
    assert a[4..] == ['-'] + a[5..] && b[4..] == ['-'] + b[5..];
    LessOnPrefixes(a[..4], b[..4], a[4..], b[4..]);
    LessOnPrefixes(['-'], ['-'], a[5..], b[5..]);
    LessIsIrreflexive(['-']);
  }

  function ToAscii(u: Unicode, c: char): char {
    match u.decimal(c)
    case Some(v) => ('0' as int + v) as char
    case None => c
  }

  function Transliterated(u: Unicode, s: string): string {
    seq(|s|, i requires 0 <= i < |s| => ToAscii(u, s[i]))
  }

  lemma {:induction false} TransliterationKeepsNumbers(u: Unicode, s: string)
    requires AllDecimal(u, s)
    ensures AllDecimal(u, Transliterated(u, s)) && Ascii(Transliterated(u, s))
    ensures Number(u, Transliterated(u, s)) == Number(u, s)
    decreases |s|
  {
    var t := Transliterated(u, s);
    assert forall i :: 0 <= i < |s| ==> t[i] == ToAscii(u, s[i]);
    if s == "" {
    } else {
      TransliterationKeepsNumbers(u, s[..|s| - 1]);
      assert t[..|s| - 1] == Transliterated(u, s[..|s| - 1]);
    }
  }

  lemma ToAsciiIsNotGreater(u: Unicode, c: char)
    ensures ToAscii(u, c) == c || ToAscii(u, c) < c
  {
    if c <= '\U{7F}' && u.decimal(c).Some? { AsciiDecimals(u, c); }
  }

  lemma {:induction false} TransliterationIsNotGreater(u: Unicode, s: string)
    ensures s == Transliterated(u, s) || Less(Transliterated(u, s), s)
    decreases |s|
  {
    if s == "" {
    } else {
      var n := |s| - 1;
      var t := Transliterated(u, s[..n]);
      TransliterationIsNotGreater(u, s[..n]);
      ToAsciiIsNotGreater(u, s[n]);
      LessByLastCharacter(t, s[..n], ToAscii(u, s[n]), s[n]);
      assert Transliterated(u, s) == t + [ToAscii(u, s[n])] && s == s[..n] + [s[n]];
    }
  }

  /** `m` stands in string order where the calendar puts it among the ASCII months. */
  ghost predicate FollowsCalendar(u: Unicode, m: string)
    requires Dated(u, m)
  {
    forall a {:trigger Less(a, m)} :: Dated(u, a) && Ascii(a) ==> (Less(a, m) <==> Calendar(u, a) < Calendar(u, m))
  }

  /**
   * `is_reference_month` also accepts digits of other scripts. A month is ordered as the calendar
   * orders it exactly when it is written in ASCII.
   */
  lemma FollowsCalendarExactlyWhenAscii(u: Unicode, m: string)
    requires Dated(u, m)
    ensures FollowsCalendar(u, m) <==> Ascii(m)
  {
    if Ascii(m) {
      forall a | Dated(u, a) && Ascii(a) ensures Less(a, m) <==> Calendar(u, a) < Calendar(u, m) {
        AsciiOrderIsCalendarOrder(u, a, m);
      }
    } else {
      var a := Transliterated(u, m);
      assert forall i :: 0 <= i < |m| ==> a[i] == ToAscii(u, m[i]);
      assert a[..4] == Transliterated(u, m[..4]) && a[5..] == Transliterated(u, m[5..]);
      TransliterationKeepsNumbers(u, m[..4]);
      TransliterationKeepsNumbers(u, m[5..]);
      TransliterationIsNotGreater(u, m);
      if m == a {
        forall i | 0 <= i < |m| ensures m[i] <= '\U{7F}' {
          assert m[i] == ToAscii(u, m[i]);
          if i < 4 { assert m[i] == m[..4][i]; } else if i > 4 { assert m[i] == m[5..][i - 5]; }
        }
      }
      assert Dated(u, a) && Calendar(u, a) == Calendar(u, m);
      forall i | 0 <= i < |a| ensures a[i] <= '\U{7F}' {
        if i < 4 { assert a[i] == a[..4][i]; } else if i > 4 { assert a[i] == a[5..][i - 5]; }
      }
      assert Less(a, m);
    }
  }

  lemma TwoDigits(u: Unicode, c: char, d: char)
    requires u.decimal(c).Some? && u.decimal(d).Some?
    ensures AllDecimal(u, [c, d]) && Number(u, [c, d]) == 10 * u.decimal(c).value + u.decimal(d).value
  {
    assert [c, d][..1] == [c] && [c][..0] == [];
    assert Number(u, [c]) == u.decimal(c).value;
  }

  /** The Arabic-Indic digits are decimals. */
  ghost predicate KnowsArabicIndic(u: Unicode) {
    forall c :: '\U{660}' <= c <= '\U{669}' ==> u.decimal(c) == Some(c as int - 0x660)
  }

  /** Such a month exists: January 2026 in Arabic-Indic digits sorts behind December 2026. */
  lemma ForeignDigitsAreAccepted(u: Unicode)
    requires KnowsArabicIndic(u)
    ensures var m := ['\U{662}', '\U{660}', '\U{662}', '\U{666}', '-', '\U{660}', '\U{661}'];
            Dated(u, m) && !FollowsCalendar(u, m) && Less("2026-12", m)
  {
    var m := ['\U{662}', '\U{660}', '\U{662}', '\U{666}', '-', '\U{660}', '\U{661}'];
    assert m[5..] == ['\U{660}', '\U{661}'] && m[..4] == ['\U{662}', '\U{660}', '\U{662}', '\U{666}'];
    TwoDigits(u, '\U{660}', '\U{661}');
    FollowsCalendarExactlyWhenAscii(u, m);
    assert m[0] > '\U{7F}';
  }
}
