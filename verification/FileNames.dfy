/** Zero-padded decimal file names and their byte-wise order (src/archive.rs, the names of
    checkpoints and backups). */
module FileNames {
  import opened Basics
  import opened Arithmetic
  import opened Sorting
  import opened Calendar

  function Digit(d: nat): char
    requires d < 10
  {
    ('0' as int + d) as char
  }

  /** `{value:0width}`: at least `width` digits, more when the value needs them. */
  function Padded(value: nat, width: nat): (text: string)
    decreases value + width
  {
    if value < 10 && width <= 1 then [Digit(value)]
    else Padded(value / 10, if width == 0 then 0 else width - 1) + [Digit(value % 10)]
  }

  function Pow10(n: nat): (r: nat)
    ensures r >= 1
  {
    if n == 0 then 1 else 10 * Pow10(n - 1)
  }

  /** The number a string of digits spells. */
  function Spelled(text: string): int {
    if text == [] then 0 else 10 * Spelled(text[..|text| - 1]) + (text[|text| - 1] as int - '0' as int)
  }

  lemma {:induction false} PaddedSpells(value: nat, width: nat)
    ensures Spelled(Padded(value, width)) == value
    decreases value + width
  {
    var text := Padded(value, width);
    if value < 10 && width <= 1 {
      assert text[..|text| - 1] == [];
    } else {
      var rest := if width == 0 then 0 else width - 1;
      PaddedSpells(value / 10, rest);
      assert text[..|text| - 1] == Padded(value / 10, rest);
    }
  }

  lemma {:induction false} PaddedLength(value: nat, width: nat)
    requires width >= 1 && value < Pow10(width)
    ensures |Padded(value, width)| == width
    decreases width
  {
    if width == 1 {
      assert Pow10(1) == 10 * Pow10(0);
    } else {
      PaddedLength(value / 10, width - 1);
    }
  }

  /** A number that overflows its width is written the same with one more digit of width. */
  lemma {:induction false} PaddedWider(value: nat, width: nat)
    requires value >= Pow10(width)
    ensures Padded(value, width) == Padded(value, width + 1)
    decreases value
  {
    if width >= 1 {
      assert Pow10(width) == 10 * Pow10(width - 1);
      PaddedWider(value / 10, width - 1);
    }
  }

  /** Texts that differ early are ordered by their front, others by their rest. */
  lemma {:induction false} TextLeSplit(x: string, s: string, y: string, t: string)
    requires |x| == |y|
    ensures TextLe(x + s, y + t) <==> if x == y then TextLe(s, t) else TextLe(x, y)
  {
    if x == [] {
      assert x + s == s && y + t == t;
    } else {
      assert (x + s)[1..] == x[1..] + s && (y + t)[1..] == y[1..] + t;
      TextLeSplit(x[1..], s, y[1..], t);
      assert x == [x[0]] + x[1..] && y == [y[0]] + y[1..];
    }
  }

  lemma DigitOrder(a: nat, b: nat)
    requires a < 10 && b < 10
    ensures TextLe([Digit(a)], [Digit(b)]) <==> a <= b
  {
    assert [Digit(a)][1..] == [] == [Digit(b)][1..];
  }

  lemma PaddedInjective(a: nat, b: nat, width: nat)
    ensures Padded(a, width) == Padded(b, width) <==> a == b
  {
    PaddedSpells(a, width);
    PaddedSpells(b, width);
  }

  /** Numbers of a fixed width sort as text exactly as they sort as numbers. */
  lemma {:induction false} PaddedOrder(a: nat, b: nat, width: nat)
    requires width >= 1 && a < Pow10(width) && b < Pow10(width)
    ensures TextLe(Padded(a, width), Padded(b, width)) <==> a <= b
    decreases width
  {
    if width == 1 {
      assert Pow10(1) == 10 * Pow10(0);
      DigitOrder(a, b);
    } else {
      PaddedOrder(a / 10, b / 10, width - 1);
      PaddedLength(a / 10, width - 1);
      PaddedLength(b / 10, width - 1);
      PaddedInjective(a / 10, b / 10, width - 1);
      AppendDigit(Padded(a / 10, width - 1), a % 10, Padded(b / 10, width - 1), b % 10);
    }
  }

  lemma AppendDigit(x: string, c: nat, y: string, d: nat)
    requires |x| == |y| && c < 10 && d < 10
    ensures TextLe(x + [Digit(c)], y + [Digit(d)]) <==> if x == y then c <= d else TextLe(x, y)
  {
    TextLeSplit(x, [Digit(c)], y, [Digit(d)]);
    DigitOrder(c, d);
  }

  lemma {:induction false} PaddedLonger(u: nat, v: nat, width: nat)
    requires u <= v
    ensures 1 <= |Padded(u, width)| <= |Padded(v, width)|
    decreases u + width
  {
    if !(u < 10 && width <= 1) {
      PaddedLonger(u / 10, v / 10, if width == 0 then 0 else width - 1);
    }
  }

  /** The text of a number is its text at its own length, where it fits. */
  lemma {:induction false} PaddedAtLength(value: nat, width: nat)
    requires width >= 1
    ensures |Padded(value, width)| >= 1 && value < Pow10(|Padded(value, width)|)
    ensures Padded(value, width) == Padded(value, |Padded(value, width)|)
    decreases Max(value - width, 0)
  {
    if value < Pow10(width) {
      PaddedLength(value, width);
    } else {
      BeyondWidth(width);
      PaddedWider(value, width);
      PaddedAtLength(value, width + 1);
    }
  }

  lemma {:induction false} BeyondWidth(width: nat)
    ensures Pow10(width) > width
  {
    if width > 0 {
      BeyondWidth(width - 1);
    }
  }

  /** Numbers of the same length sort before whatever follows them. */
  lemma SameLengthOrder(u: nat, s: string, v: nat, t: string, width: nat)
    requires width >= 1 && |Padded(u, width)| == |Padded(v, width)|
    ensures TextLe(Padded(u, width) + s, Padded(v, width) + t) <==> u < v || (u == v && TextLe(s, t))
  {
    PaddedAtLength(u, width);
    PaddedAtLength(v, width);
    PaddedOrder(u, v, |Padded(u, width)|);
    PaddedInjective(u, v, width);
    TextLeSplit(Padded(u, width), s, Padded(v, width), t);
  }

  lemma LongNumber(value: nat, width: nat)
    requires width >= 1 && |Padded(value, width)| > width
    ensures Padded(value, width) == Padded(value / 10, width) + [Digit(value % 10)]
  {
    if value < Pow10(width) {
      PaddedLength(value, width);
    }
    assert Pow10(width) == 10 * Pow10(width - 1);
    PaddedWider(value / 10, width - 1);
  }

  /** Against a longer number a text is compared with its leading digits; on a tie the first
      character after the shorter number decides. */
  lemma {:induction false} LongerOrder(u: nat, s: string, v: nat, t: string, width: nat)
    requires width >= 1 && |Padded(u, width)| < |Padded(v, width)| && s != ""
    ensures var lead := v / Pow10(|Padded(v, width)| - |Padded(u, width)|);
      && (s[0] < '0' ==> (TextLe(Padded(u, width) + s, Padded(v, width) + t) <==> u <= lead))
      && (s[0] > '9' ==> (TextLe(Padded(u, width) + s, Padded(v, width) + t) <==> u < lead))
    decreases v
  {
    PaddedLonger(0, u, width);
    PaddedAtLeast(u, width);
    LongNumber(v, width);
    var rest := [Digit(v % 10)] + t;
    assert Padded(v, width) + t == Padded(v / 10, width) + rest;
    var d := |Padded(v, width)| - |Padded(u, width)|;
    LeadingDigits(v, d);
    if d == 1 {
      SameLengthOrder(u, s, v / 10, rest, width);
    } else {
      LongerOrder(u, s, v / 10, rest, width);
    }
  }

  lemma {:induction false} PaddedAtLeast(value: nat, width: nat)
    ensures |Padded(value, width)| >= width
    decreases value + width
  {
    if !(value < 10 && width <= 1) && width > 0 {
      PaddedAtLeast(value / 10, width - 1);
    }
  }

  lemma LeadingDigits(v: nat, d: nat)
    requires d >= 1
    ensures v / Pow10(d) == v / 10 / Pow10(d - 1)
  {
    QuotientTwice(v, 10, Pow10(d - 1));
  }

  // ---------- Names ----------

  function PeriodText(m: Month): string
    requires m.year >= 0 && m.month >= 0
  {
    Padded(m.year, 4) + (Padded(m.month, 2) + "M")
  }

  function CheckpointName(period: string, height: nat): string {
    period + ("-h" + (Padded(height, 12) + ".json"))
  }

  function BackupName(period: string): string {
    period + ".jsonl.zst"
  }

  function PartName(period: string, part: nat): string {
    period + ("-part" + (Padded(part, 2) + ".jsonl.zst"))
  }

  predicate Dated(m: Month) {
    m.year >= 0 && 1 <= m.month <= 12
  }

  /** Year and month as one number. */
  function Code(m: Month): nat
    requires Dated(m)
  {
    100 * m.year + m.month
  }

  lemma PeriodIsCode(m: Month)
    requires Dated(m)
    ensures PeriodText(m) == Padded(Code(m), 6) + "M"
  {
    CodeDigits(m.year, m.month);
    MonthDigits(m.month);
    Reassociate(Padded(m.year, 4), Digit(m.month / 10), Digit(m.month % 10), "M");
  }

  lemma CodeDigits(year: nat, month: nat)
    requires month < 100
    ensures Padded(100 * year + month, 6) == (Padded(year, 4) + [Digit(month / 10)]) + [Digit(month % 10)]
  {
    var c := 100 * year + month;
    assert c / 10 == 10 * year + month / 10 && c % 10 == month % 10;
    assert c / 10 / 10 == year && c / 10 % 10 == month / 10;
    assert Padded(c, 6) == Padded(c / 10, 5) + [Digit(c % 10)];
    assert Padded(c / 10, 5) == Padded(year, 4) + [Digit(month / 10)];
  }

  lemma MonthDigits(month: nat)
    requires month < 100
    ensures Padded(month, 2) == [Digit(month / 10)] + [Digit(month % 10)]
  {
    assert Padded(month, 2) == Padded(month / 10, 1) + [Digit(month % 10)];
  }

  lemma Reassociate(a: string, x: char, y: char, b: string)
    ensures ((a + [x]) + [y]) + b == a + (([x] + [y]) + b)
  {
  }

  lemma Powers()
    ensures Pow10(0) == 1 && Pow10(1) == 10 && Pow10(2) == 100
    ensures Pow10(6) == 1_000_000 && Pow10(12) == 1_000_000_000_000
  {
    assert Pow10(4) == 10_000;
    assert Pow10(8) == 100_000_000;
  }

  /** What follows the period in a checkpoint name. */
  function HeightPart(height: nat): string {
    "M-h" + (Padded(height, 12) + ".json")
  }

  lemma NameParts(m: Month, height: nat)
    requires Dated(m)
    ensures CheckpointName(PeriodText(m), height) == Padded(Code(m), 6) + HeightPart(height)
  {
    PeriodIsCode(m);
  }

  /** How many digits the text of the second number has more than that of the first. */
  function Excess(u: nat, v: nat, width: nat): (d: nat)
    requires u <= v
  {
    PaddedLonger(u, v, width);
    |Padded(v, width)| - |Padded(u, width)|
  }

  /** Heights of one month sort as text exactly as long as the shorter number does not exceed
      the leading digits of the longer one. */
  lemma HeightOrder(h: nat, k: nat)
    requires h <= k
    ensures TextLe(HeightPart(h), HeightPart(k)) <==> h <= k / Pow10(Excess(h, k, 12))
  {
    TextLeSplit("M-h", Padded(h, 12) + ".json", "M-h", Padded(k, 12) + ".json");
    PaddedLonger(h, k, 12);
    if Excess(h, k, 12) == 0 {
      SameLengthOrder(h, ".json", k, ".json", 12);
      TextLeTotal(".json", ".json");
    } else {
      LongerOrder(h, ".json", k, ".json", 12);
    }
  }

  predicate Chronological(a: Month, h: nat, b: Month, k: nat) {
    NotAfter(a, b) && (a == b ==> h <= k)
  }

  /** When the later of two checkpoints has the greater name. Within a month this depends on
      the heights; between months of years of different lengths on their leading digits. */
  predicate NamesSortable(a: Month, h: nat, b: Month, k: nat)
    requires Dated(a) && Dated(b) && Chronological(a, h, b, k)
  {
    if a == b then h <= k / Pow10(Excess(h, k, 12))
    else
      var d := Excess(Code(a), Code(b), 6);
      d == 0 || Code(a) < Code(b) / Pow10(d)
  }

  /** For all months and heights, a later checkpoint has the greater name if and only if the
      two are sortable. */
  lemma NamesInOrderIff(a: Month, h: nat, b: Month, k: nat)
    requires Dated(a) && Dated(b) && Chronological(a, h, b, k)
    ensures TextLe(CheckpointName(PeriodText(a), h), CheckpointName(PeriodText(b), k)) <==> NamesSortable(a, h, b, k)
  {
    NameParts(a, h);
    NameParts(b, k);
    if a == b {
      TextLeSplit(Padded(Code(a), 6), HeightPart(h), Padded(Code(a), 6), HeightPart(k));
      HeightOrder(h, k);
    } else {
      CodeOrder(Code(a), HeightPart(h), Code(b), HeightPart(k));
    }
  }

  lemma CodeOrder(x: nat, s: string, y: nat, t: string)
    requires x < y && s != "" && s[0] == 'M'
    ensures TextLe(Padded(x, 6) + s, Padded(y, 6) + t)
       <==> (var d := Excess(x, y, 6); d == 0 || x < y / Pow10(d))
  {
    if Excess(x, y, 6) == 0 {
      SameLengthOrder(x, s, y, t, 6);
    } else {
      LongerOrder(x, s, y, t, 6);
    }
  }

  /** Up to the year 9999 and below height 10^12 all names are sortable. */
  lemma UsualNamesSortable(a: Month, h: nat, b: Month, k: nat)
    requires Dated(a) && Dated(b) && b.year <= 9_999 && k < 1_000_000_000_000 && Chronological(a, h, b, k)
    ensures NamesSortable(a, h, b, k)
  {
    if a == b {
      UsualHeights(h, k);
    } else {
      UsualCodes(Code(a), Code(b));
    }
  }

  lemma UsualHeights(h: nat, k: nat)
    requires h <= k < 1_000_000_000_000
    ensures k / Pow10(Excess(h, k, 12)) == k
  {
    Powers();
    PaddedLength(h, 12);
    PaddedLength(k, 12);
    assert Excess(h, k, 12) == 0;
  }

  lemma UsualCodes(x: nat, y: nat)
    requires x <= y < 1_000_000
    ensures Excess(x, y, 6) == 0
  {
    Powers();
    PaddedLength(x, 6);
    PaddedLength(y, 6);
  }

  /** The limit on heights is sharp: height 10^12 sorts before 10^12 - 1 of the same month. */
  lemma HeightsBreak(m: Month)
    requires Dated(m)
    ensures var last, first := 999_999_999_999, 1_000_000_000_000;
      && !NamesSortable(m, last, m, first)
      && !TextLe(CheckpointName(PeriodText(m), last), CheckpointName(PeriodText(m), first))
  {
    NamesInOrderIff(m, 999_999_999_999, m, 1_000_000_000_000);
    Powers();
    PaddedLength(999_999_999_999, 12);
    ThirteenDigits();
    assert Excess(999_999_999_999, 1_000_000_000_000, 12) == 1;
  }

  /** So is the limit on years: January 10000 sorts before December 9999. */
  lemma YearsBreak(h: nat, k: nat)
    ensures var last, first := Month(9_999, 12), Month(10_000, 1);
      && !NamesSortable(last, h, first, k)
      && !TextLe(CheckpointName(PeriodText(last), h), CheckpointName(PeriodText(first), k))
  {
    NamesInOrderIff(Month(9_999, 12), h, Month(10_000, 1), k);
    Powers();
    SevenDigits();
    assert Excess(999_912, 1_000_001, 6) == 1;
  }

  lemma ThirteenDigits()
    ensures |Padded(1_000_000_000_000, 12)| == 13
  {
    Powers();
    PaddedWider(1_000_000_000_000, 12);
    assert Pow10(13) == 10 * Pow10(12);
    PaddedLength(1_000_000_000_000, 13);
  }

  lemma SevenDigits()
    ensures |Padded(Code(Month(9_999, 12)), 6)| == 6 && |Padded(Code(Month(10_000, 1)), 6)| == 7
  {
    Powers();
    PaddedLength(999_912, 6);
    PaddedWider(1_000_001, 6);
    assert Pow10(7) == 10 * Pow10(6);
    PaddedLength(1_000_001, 7);
  }
}
