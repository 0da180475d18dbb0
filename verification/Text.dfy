/** Python's `str` operations the modelled code uses: order, `strip`, `split` on one character, `lower`, `int`. */
module Text {
  import opened Prelude
  import opened Lexicographic

  // ------------------------------------------------------------------ order

  const BY_CODE: (char, char) -> bool := (x: char, y: char) => x < y

  /** `a < b` on strings. */
  predicate Less(a: string, b: string) {
    Precedes(BY_CODE, a, b)
  }

  predicate Leq(a: string, b: string) {
    a == b || Less(a, b)
  }

  lemma LessIsIrreflexive(a: string)
    ensures !Less(a, a)
  {
    PrecedesIsIrreflexive(BY_CODE, a);
  }

  lemma LessIsTransitive(a: string, b: string, c: string)
    requires Less(a, b) && Less(b, c)
    ensures Less(a, c)
  {
    PrecedesIsTransitive(BY_CODE, a, b, c);
  }

  lemma LessIsTotal(a: string, b: string)
    ensures a == b || Less(a, b) || Less(b, a)
  {
    PrecedesIsTotal(BY_CODE, a, b);
  }

  lemma LessIsAsymmetric(a: string, b: string)
    requires Less(a, b)
    ensures !Less(b, a)
  {
    PrecedesIsAsymmetric(BY_CODE, a, b);
  }

  lemma LessOnCharacters(c: char, d: char)
    ensures Less([c], [d]) <==> c < d
  {
    assert [c][1..] == [] && [d][1..] == [];
    assert BY_CODE(c, d) == (c < d);
    assert Less([c], [d]) == (BY_CODE(c, d) || (c == d && Precedes(BY_CODE, [c][1..], [d][1..])));
  }

  // ------------------------------------------------------------------ strip

  /** `str.isspace` for one character. */
  predicate IsSpace(c: char) {
    || '\t' <= c <= '\r' || '\U{1C}' <= c <= ' ' || c == '\U{85}' || c == '\U{A0}' || c == '\U{1680}'
    || '\U{2000}' <= c <= '\U{200A}' || c == '\U{2028}' || c == '\U{2029}' || c == '\U{202F}'
    || c == '\U{205F}' || c == '\U{3000}'
  }

  function StripLeft(s: string): string {
    if s != "" && IsSpace(s[0]) then StripLeft(s[1..]) else s
  }

  function StripRight(s: string): string {
    if s != "" && IsSpace(s[|s| - 1]) then StripRight(s[..|s| - 1]) else s
  }

  function Strip(s: string): string {
    StripRight(StripLeft(s))
  }

  predicate Blank(s: string) {
    Strip(s) == ""
  }

  /** Nothing left to strip. */
  predicate Trimmed(s: string) {
    s == "" || (!IsSpace(s[0]) && !IsSpace(s[|s| - 1]))
  }

  lemma {:induction false} StripRightTrims(s: string)
    ensures StripRight(s) <= s
    ensures StripRight(s) == "" || !IsSpace(StripRight(s)[|StripRight(s)| - 1])
    decreases |s|
  {
    if s != "" && IsSpace(s[|s| - 1]) {
      StripRightTrims(s[..|s| - 1]);
    }
  }

  lemma {:induction false} StripLeftTrims(s: string)
    ensures StripLeft(s) == "" || !IsSpace(StripLeft(s)[0])
    decreases |s|
  {
    if s != "" && IsSpace(s[0]) {
      StripLeftTrims(s[1..]);
    }
  }

  lemma StripTrims(s: string)
    ensures Trimmed(Strip(s))
  {
    StripLeftTrims(s);
    StripRightTrims(StripLeft(s));
  }

  lemma TrimmedIsStripped(s: string)
    requires Trimmed(s)
    ensures Strip(s) == s
  {
  }

  lemma StripIsIdempotent(s: string)
    ensures Strip(Strip(s)) == Strip(s)
  {
    StripTrims(s);
    TrimmedIsStripped(Strip(s));
  }

  predicate AllSpace(s: string) {
    forall i :: 0 <= i < |s| ==> IsSpace(s[i])
  }

  lemma {:induction false} StripLeftBlank(s: string)
    ensures AllSpace(s) ==> StripLeft(s) == ""
    ensures !AllSpace(s) ==> StripLeft(s) != "" && !IsSpace(StripLeft(s)[0])
    decreases |s|
  {
    if s != "" && IsSpace(s[0]) {
      StripLeftBlank(s[1..]);
      assert forall i :: 1 <= i < |s| ==> s[i] == s[1..][i - 1];
    }
  }

  lemma {:induction false} StripRightKeepsHead(s: string)
    requires s != "" && !IsSpace(s[0])
    ensures StripRight(s) != ""
    decreases |s|
  {
    if IsSpace(s[|s| - 1]) {
      StripRightKeepsHead(s[..|s| - 1]);
    }
  }

  lemma BlankMeansAllSpace(s: string)
    ensures Blank(s) <==> AllSpace(s)
  {
    StripLeftBlank(s);
    if !AllSpace(s) {
      StripRightKeepsHead(StripLeft(s));
    }
  }

  lemma {:induction false} StripLeftDropsSpaces(s: string) returns (a: string)
    ensures s == a + StripLeft(s) && AllSpace(a)
    decreases |s|
  {
    a := "";
    if s != "" && IsSpace(s[0]) {
      var rest := StripLeftDropsSpaces(s[1..]);
      a := [s[0]] + rest;
      assert s == [s[0]] + s[1..];
    }
  }

  lemma {:induction false} StripRightDropsSpaces(s: string) returns (b: string)
    ensures s == StripRight(s) + b && AllSpace(b)
    decreases |s|
  {
    b := "";
    if s != "" && IsSpace(s[|s| - 1]) {
      var rest := StripRightDropsSpaces(s[..|s| - 1]);
      b := rest + [s[|s| - 1]];
      assert s == s[..|s| - 1] + [s[|s| - 1]];
    }
  }

  /** With `StripTrims` this determines `Strip`. */
  lemma StripDropsSpaces(s: string) returns (a: string, b: string)
    ensures s == a + Strip(s) + b && AllSpace(a) && AllSpace(b)
  {
    a := StripLeftDropsSpaces(s);
    b := StripRightDropsSpaces(StripLeft(s));
  }

  // ------------------------------------------------------------------ split

  /** `s.split(sep)`. */
  function Split(s: string, sep: char): (parts: seq<string>)
    ensures |parts| >= 1
  {
    if s == "" then [""]
    else if s[0] == sep then [""] + Split(s[1..], sep)
    else
      var rest := Split(s[1..], sep);
      [[s[0]] + rest[0]] + rest[1..]
  }

  lemma {:induction false} SplitJoins(a: string, sep: char, b: string)
    ensures Split(a + [sep] + b, sep) == Split(a, sep) + Split(b, sep)
  {
    if a == "" {
      assert a + [sep] + b == [sep] + b;
      SplitHead(sep, b, sep);
    } else {
      var rest := a[1..];
      SplitJoins(rest, sep, b);
      assert a + [sep] + b == [a[0]] + (rest + [sep] + b) && a == [a[0]] + rest;
      SplitHead(a[0], rest + [sep] + b, sep);
      SplitHead(a[0], rest, sep);
      WithHeadJoins(a[0], sep, Split(rest, sep), Split(b, sep));
    }
  }

  /** What one more character in front does to a split. */
  function WithHead(c: char, sep: char, parts: seq<string>): seq<string>
    requires parts != []
  {
    if c == sep then [""] + parts else [[c] + parts[0]] + parts[1..]
  }

  lemma SplitHead(c: char, s: string, sep: char)
    ensures Split([c] + s, sep) == WithHead(c, sep, Split(s, sep))
  {
    assert ([c] + s)[1..] == s;
  }

  lemma WithHeadJoins(c: char, sep: char, left: seq<string>, right: seq<string>)
    requires left != []
    ensures WithHead(c, sep, left + right) == WithHead(c, sep, left) + right
  {
  }

  lemma {:induction false} SplitWithoutSeparator(s: string, sep: char)
    requires sep !in s
    ensures Split(s, sep) == [s]
  {
    if s == "" {
    } else {
      SplitWithoutSeparator(s[1..], sep);
      assert s == [s[0]] + s[1..];
    }
  }

  lemma BlankIsOnePart(s: string, sep: char)
    requires Blank(s) && !IsSpace(sep)
    ensures Split(s, sep) == [s]
  {
    BlankMeansAllSpace(s);
    forall i | 0 <= i < |s| ensures s[i] != sep { assert IsSpace(s[i]); }
    SplitWithoutSeparator(s, sep);
  }

  // ------------------------------------------------------------------ case and numbers

  /** `str.lower`, on ASCII letters; other characters are left alone. */
  function Lower(s: string): (r: string)
    ensures |r| == |s|
    ensures forall i :: 0 <= i < |s| ==>
              if 'A' <= s[i] <= 'Z' then 'a' <= r[i] <= 'z' && r[i] - s[i] == 'a' - 'A' else r[i] == s[i]
  {
    if s == "" then "" else
      [if 'A' <= s[0] <= 'Z' then (s[0] as int + 32) as char else s[0]] + Lower(s[1..])
  }

  predicate AsciiDigit(c: char) {
    '0' <= c <= '9'
  }

  function DigitValue(c: char): (v: nat)
    requires AsciiDigit(c)
    ensures v <= 9
  {
    c as int - '0' as int
  }

  /** Digits with single underscores between them, most significant first. */
  predicate Digits(s: string) {
    && s != "" && AsciiDigit(s[0])
    && (|s| == 1 || Digits(s[1..]) || (s[1] == '_' && Digits(s[2..])))
  }

  function DigitsValue(s: string, acc: nat): nat {
    if s == "" then acc
    else if AsciiDigit(s[0]) then DigitsValue(s[1..], 10 * acc + DigitValue(s[0]))
    else DigitsValue(s[1..], acc)
  }

  /** `int(text)` on ASCII text; `None` where it raises ValueError. */
  function ParseInt(text: string): Option<int> {
    var s := Strip(text);
    if s != "" && s[0] == '-' then (if Digits(s[1..]) then Some(-(DigitsValue(s[1..], 0) as int)) else None)
    else if s != "" && s[0] == '+' then (if Digits(s[1..]) then Some(DigitsValue(s[1..], 0)) else None)
    else if Digits(s) then Some(DigitsValue(s, 0)) else None
  }

  /** `str(n)`. */
  function Decimal(n: nat): (r: string)
    ensures r != "" && forall i :: 0 <= i < |r| ==> AsciiDigit(r[i])
  {
    var last := ['0' + (n % 10) as char];
    if n < 10 then last else Decimal(n / 10) + last
  }

  function Printed(n: int): string {
    if n < 0 then "-" + Decimal(-n) else Decimal(n)
  }

  lemma {:induction false} AllDigits(s: string)
    requires s != "" && forall i :: 0 <= i < |s| ==> AsciiDigit(s[i])
    ensures Digits(s)
  {
    if |s| > 1 { AllDigits(s[1..]); }
  }

  lemma {:induction false} OneMoreDigit(s: string, c: char, acc: nat)
    requires AsciiDigit(c) && forall i :: 0 <= i < |s| ==> AsciiDigit(s[i])
    ensures DigitsValue(s + [c], acc) == 10 * DigitsValue(s, acc) + DigitValue(c)
  {
    if s == "" {
      assert s + [c] == [c] && [c][1..] == "";
    } else {
      assert (s + [c])[1..] == s[1..] + [c];
      OneMoreDigit(s[1..], c, 10 * acc + DigitValue(s[0]));
    }
  }

  lemma {:induction false} DecimalsReadBack(n: nat)
    ensures Digits(Decimal(n)) && DigitsValue(Decimal(n), 0) == n
  {
    AllDigits(Decimal(n));
    var c := '0' + (n % 10) as char;
    if n < 10 {
      OneMoreDigit("", c, 0);
      assert Decimal(n) == "" + [c];
    } else {
      DecimalsReadBack(n / 10);
      OneMoreDigit(Decimal(n / 10), c, 0);
    }
  }

  /** `int(str(n)) == n`, with spaces around it too. */
  lemma PrintedIntegersReadBack(n: int, text: string)
    requires Strip(text) == Printed(n)
    ensures ParseInt(text) == Some(n)
  {
    if n < 0 {
      DecimalsReadBack(-n);
      assert Printed(n)[1..] == Decimal(-n);
    } else {
      DecimalsReadBack(n);
      assert AsciiDigit(Decimal(n)[0]);
    }
  }

  lemma {:induction false} DigitsAreDigitsOrUnderscores(s: string)
    requires Digits(s)
    ensures forall i :: 0 <= i < |s| ==> AsciiDigit(s[i]) || s[i] == '_'
    decreases |s|
  {
    if |s| == 1 {
    } else if Digits(s[1..]) {
      DigitsAreDigitsOrUnderscores(s[1..]);
      assert s == [s[0]] + s[1..];
    } else {
      DigitsAreDigitsOrUnderscores(s[2..]);
      assert s == [s[0], s[1]] + s[2..];
    }
  }

  /** What is blank, or holds anything but digits and underscores after its sign, is no integer. */
  lemma OtherTextIsNoInteger(text: string, i: nat)
    requires Strip(text) == "" || (i < |Strip(text)| && !AsciiDigit(Strip(text)[i]) && Strip(text)[i] != '_'
                                   && (i == 0 ==> Strip(text)[i] !in {'-', '+'}))
    ensures ParseInt(text) == None
  {
    var s := Strip(text);
    if s != "" {
      var digits := if s[0] == '-' || s[0] == '+' then s[1..] else s;
      if Digits(digits) { DigitsAreDigitsOrUnderscores(digits); }
    }
  }
}

/** `sorted(...)` of a set of strings. */
module SortedKeys {
  import opened Prelude
  import opened Sorting
  import opened Text

  predicate Ascending(s: seq<string>) {
    forall i, j :: 0 <= i < j < |s| ==> Less(s[i], s[j])
  }

  lemma AscendingIsDistinct(s: seq<string>)
    requires Ascending(s)
    ensures Distinct(s)
  {
    forall i, j | 0 <= i < j < |s| ensures s[i] != s[j] { LessIsIrreflexive(s[i]); }
  }

  lemma {:induction false} Least(keys: set<string>) returns (k: string)
    requires keys != {}
    ensures k in keys && forall j :: j in keys ==> Leq(k, j)
    decreases |keys|
  {
    k :| k in keys;
    var rest := keys - {k};
    assert forall j :: j in keys ==> j == k || j in rest;
    if rest == {} {
    } else {
      var m := Least(rest);
      LessIsTotal(k, m);
      if Less(k, m) {
        forall j | j in rest ensures Less(k, j) {
          if m != j { LessIsTransitive(k, m, j); }
        }
      } else {
        k := m;
      }
    }
  }

  const ASCENDING: (string, string) -> bool := (a: string, b: string) => Leq(a, b)

  lemma AscendingIsTotalPreorder()
    ensures TotalPreorder(ASCENDING)
  {
    forall a: string, b: string ensures ASCENDING(a, b) || ASCENDING(b, a) { LessIsTotal(a, b); }
    forall a: string, b: string, c: string | ASCENDING(a, b) && ASCENDING(b, c) ensures ASCENDING(a, c) {
      if a != b && b != c { LessIsTransitive(a, b, c); }
    }
  }

  /** The keys in any order, each once. */
  method Enumerate(keys: set<string>) returns (s: seq<string>)
    ensures Distinct(s) && forall k :: k in s <==> k in keys
  {
    s := [];
    var left := keys;
    while left != {}
      invariant left <= keys && Distinct(s) && forall k :: k in s <==> k in keys && k !in left
    {
      var k :| k in left;
      s := s + [k];
      left := left - {k};
    }
  }

  method Ordered(keys: set<string>) returns (s: seq<string>)
    ensures Ascending(s) && forall k :: k in s <==> k in keys
  {
    var listed := Enumerate(keys);
    s := Sort(listed, ASCENDING);
    AscendingIsTotalPreorder();
    SortSorts(listed, ASCENDING);
    SortKeepsMembers(listed, ASCENDING);
    SortKeepsDistinct(listed, ASCENDING);
    forall i, j | 0 <= i < j < |s| ensures Less(s[i], s[j]) { assert ASCENDING(s[i], s[j]); }
  }
}
