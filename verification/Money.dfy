/** Amounts travel as decimal text and are added in whole cents: the conversions undo each other, rounding errors included. */
module Money {

  /** A `numeric(10,2)` column holds less than this many cents. */
  const COLUMN_CENTS := 10_000_000_000

  function Abs(x: real): real {
    if x < 0.0 then 0.0 - x else x
  }

  /** Far from underflow and overflow. */
  predicate InRange(x: real) {
    x == 0.0 || 0.0001 <= Abs(x) <= 1000000000000.0
  }

  /** The relative error of one operation rounded to nearest is at most 2 to the -53 (IEEE 754-2019, section 4.3.1). */
  predicate IsRounding(exact: real, rounded: real) {
    Abs(rounded - exact) * 9007199254740992.0 <= Abs(exact)
  }

  /** `fl` rounds exact results to floating numbers. */
  ghost predicate Rounds(fl: real -> real) {
    forall x :: InRange(x) ==> IsRounding(x, fl(x))
  }

  function Distance(n: int, x: real): real {
    Abs(n as real - x)
  }

  /** The nearest integer; of two equally near, the larger. */
  function Nearest(x: real): int {
    (x + 0.5).Floor
  }

  lemma NearestIsNearest(x: real, m: int)
    ensures Distance(Nearest(x), x) <= Distance(m, x)
    ensures m > Nearest(x) ==> Distance(Nearest(x), x) < Distance(m, x)
  {
    var n := Nearest(x);
    assert n as real <= x + 0.5 < n as real + 1.0;
    if m > n {
      assert m as real >= n as real + 1.0;
    } else if m < n {
      assert m as real <= n as real - 1.0;
    }
  }

  // ----- Decimal text -----

  function Digit(d: nat): char
    requires d < 10
  {
    ('0' as int + d) as char
  }

  function DigitValue(c: char): nat {
    if '0' <= c <= '9' then c as nat - '0' as nat else 0
  }

  function Digits(n: nat): (s: string)
    ensures s != ""
  {
    if n < 10 then [Digit(n)] else Digits(n / 10) + [Digit(n % 10)]
  }

  function DigitsValue(s: string): nat {
    if s == "" then 0 else 10 * DigitsValue(s[..|s| - 1]) + DigitValue(s[|s| - 1])
  }

  /** Two decimals and a leading zero if needed: the text of a number of hundredths. */
  function Fixed(hundredths: nat): string {
    Digits(hundredths / 100) + "." + [Digit(hundredths / 10 % 10), Digit(hundredths % 10)]
  }

  /** Text of an amount, as the database gives it. */
  function Text(cents: int): string {
    if cents < 0 then "-" + Fixed(0 - cents) else Fixed(cents)
  }

  /** Hundredths that a text with two decimals denotes. */
  function Hundredths(text: string): int {
    if text != "" && text[0] == '-' then 0 - Hundredths(text[1..])
    else if |text| < 3 then 0
    else DigitsValue(text[..|text| - 3] + text[|text| - 2..])
  }

  lemma {:induction false} DigitsReadBack(n: nat)
    ensures DigitsValue(Digits(n)) == n
    ensures forall i :: 0 <= i < |Digits(n)| ==> '0' <= Digits(n)[i] <= '9'
  {
    if n < 10 {
      assert Digits(n)[..0] == "";
    } else {
      DigitsReadBack(n / 10);
      assert Digits(n)[..|Digits(n)| - 1] == Digits(n / 10);
    }
  }

  lemma FixedReadsBack(n: nat)
    ensures Hundredths(Fixed(n)) == n && Fixed(n)[0] != '-'
  {
    var s, units := Fixed(n), Digits(n / 100);
    var tens, ones := Digit(n / 10 % 10), Digit(n % 10);
    DigitsReadBack(n / 100);
    assert s[0] == units[0];
    assert s[..|s| - 3] + s[|s| - 2..] == units + [tens, ones];
    assert (units + [tens, ones])[..|units| + 1] == units + [tens];
    assert (units + [tens])[..|units|] == units;
    assert DigitsValue(units + [tens]) == 10 * (n / 100) + n / 10 % 10;
  }

  /** Different amounts have different texts, and each text gives its amount back. */
  lemma TextReadsBack(cents: int)
    ensures Hundredths(Text(cents)) == cents
  {
    FixedReadsBack(if cents < 0 then 0 - cents else cents);
    if cents < 0 {
      assert Text(cents)[1..] == Fixed(0 - cents);
    }
  }

  // ----- The conversions -----

  /** The text is read as a floating number, multiplied by 100 and rounded. */
  ghost function ToCents(fl: real -> real, text: string): int {
    Nearest(fl(100.0 * fl(Hundredths(text) as real / 100.0)))
  }

  /** `toFixed(2)`: the nearest hundredth of the magnitude, as section 21.1.3.3 of ECMA-262 defines it. */
  function ToFixed(x: real): string {
    if x < 0.0 then "-" + Fixed(Nearest((0.0 - x) * 100.0)) else Fixed(Nearest(x * 100.0))
  }

  ghost function FromCents(fl: real -> real, cents: int): string {
    ToFixed(fl(cents as real / 100.0))
  }

  lemma NearestTo(x: real, n: int)
    requires Abs(x - n as real) < 0.5
    ensures Nearest(x) == n
  {
    assert n as real < x + 0.5 < n as real + 1.0;
  }

  /** Two roundings never move an amount of the column by half a cent. */
  lemma TwoRoundings(cents: int, read: real, product: real)
    requires 0 - COLUMN_CENTS < cents < COLUMN_CENTS
    requires IsRounding(cents as real / 100.0, read) && IsRounding(100.0 * read, product)
    ensures InRange(cents as real / 100.0) && Abs(product - cents as real) < 0.5
  {}

  /** One rounding never moves it by half a cent either, and keeps its sign. */
  lemma OneRounding(cents: int, x: real)
    requires 0 - COLUMN_CENTS < cents < COLUMN_CENTS
    requires IsRounding(cents as real / 100.0, x)
    ensures InRange(cents as real / 100.0) && InRange(100.0 * x) && Abs(x * 100.0 - cents as real) < 0.5
    ensures x < 0.0 <==> cents < 0
  {}

  lemma RoundsAt(fl: real -> real, x: real)
    requires Rounds(fl) && InRange(x)
    ensures IsRounding(x, fl(x))
  {}

  lemma AmountInRange(cents: int)
    requires 0 - COLUMN_CENTS < cents < COLUMN_CENTS
    ensures InRange(cents as real / 100.0)
  {}

  lemma ProductIsNear(fl: real -> real, cents: int)
    requires Rounds(fl) && 0 - COLUMN_CENTS < cents < COLUMN_CENTS
    ensures var product := fl(100.0 * fl(cents as real / 100.0)); Abs(product - cents as real) < 0.5
  {
    AmountInRange(cents);
    var read := fl(cents as real / 100.0);
    RoundsAt(fl, cents as real / 100.0);
    OneRounding(cents, read);
    RoundsAt(fl, 100.0 * read);
    TwoRoundings(cents, read, fl(100.0 * read));
  }

  /** Reading an amount of the column gives exactly its cents. */
  lemma ToCentsIsExact(fl: real -> real, cents: int)
    requires Rounds(fl) && 0 - COLUMN_CENTS < cents < COLUMN_CENTS
    ensures ToCents(fl, Text(cents)) == cents
  {
    TextReadsBack(cents);
    ProductIsNear(fl, cents);
    NearestTo(fl(100.0 * fl(cents as real / 100.0)), cents);
  }

  lemma FixedNearest(x: real, cents: int)
    requires Abs(x * 100.0 - cents as real) < 0.5 && (x < 0.0 <==> cents < 0)
    ensures ToFixed(x) == Text(cents)
  {
    if cents < 0 {
      assert (0.0 - x) * 100.0 == 0.0 - x * 100.0;
      NearestTo((0.0 - x) * 100.0, 0 - cents);
    } else {
      NearestTo(x * 100.0, cents);
    }
  }

  /** Printing cents gives exactly the text of the amount. */
  lemma FromCentsIsExact(fl: real -> real, cents: int)
    requires Rounds(fl) && 0 - COLUMN_CENTS < cents < COLUMN_CENTS
    ensures FromCents(fl, cents) == Text(cents)
  {
    AmountInRange(cents);
    var exact := cents as real / 100.0;
    RoundsAt(fl, exact);
    OneRounding(cents, fl(exact));
    FixedNearest(fl(exact), cents);
  }

  /** The conversions undo each other on every amount of a `numeric(10,2)` column. */
  lemma ConversionsUndoEachOther(fl: real -> real, cents: int)
    requires Rounds(fl) && 0 - COLUMN_CENTS < cents < COLUMN_CENTS
    ensures ToCents(fl, FromCents(fl, cents)) == cents
    ensures FromCents(fl, ToCents(fl, Text(cents))) == Text(cents)
  {
    ToCentsIsExact(fl, cents);
    FromCentsIsExact(fl, cents);
  }
}
