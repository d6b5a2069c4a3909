// An instant spelled out: the activity log's timestamps, which sort as text in the order
// they were written, and the stamp in a default export's file name, which never repeats.
module Stamps {
  import opened Calendar

  // ---- Numbers, padded with zeroes ----

  const DIGITS := "0123456789"

  function Decimal(n: nat): (s: string)
    ensures |s| > 0
  {
    if n < 10 then [DIGITS[n]] else Decimal(n / 10) + [DIGITS[n % 10]]
  }

  function Zeroes(n: nat): (s: string)
    ensures |s| == n
  {
    if n == 0 then "" else "0" + Zeroes(n - 1)
  }

  // `{n:0width}`
  function Padded(n: nat, width: nat): string {
    var s := Decimal(n);
    if |s| < width then Zeroes(width - |s|) + s else s
  }

  function DigitOf(c: char): nat {
    if '0' <= c <= '9' then c as nat - '0' as nat else 0
  }

  function ValueOf(s: string): nat {
    if s == "" then 0 else ValueOf(s[..|s| - 1]) * 10 + DigitOf(s[|s| - 1])
  }

  lemma {:induction false} DecimalReads(n: nat)
    ensures ValueOf(Decimal(n)) == n
  {
    assert forall d: nat | d < 10 :: DigitOf(DIGITS[d]) == d;
    if n < 10 {
      assert Decimal(n)[..0] == "";
    } else {
      DecimalReads(n / 10);
      assert Decimal(n)[..|Decimal(n)| - 1] == Decimal(n / 10);
    }
  }

  lemma {:induction false} ZeroesAreNothing(n: nat, s: string)
    ensures ValueOf(Zeroes(n) + s) == ValueOf(s)
    decreases n + |s|
  {
    if s != "" {
      ZeroesAreNothing(n, s[..|s| - 1]);
      assert (Zeroes(n) + s)[..n + |s| - 1] == Zeroes(n) + s[..|s| - 1];
    } else if n > 0 {
      ZeroesAreNothing(n - 1, "");
      ZeroesEnd(n);
      assert Zeroes(n) + s == Zeroes(n) && Zeroes(n - 1) + "" == Zeroes(n - 1);
    }
  }

  lemma {:induction false} ZeroesEnd(n: nat)
    requires n > 0
    ensures Zeroes(n)[..n - 1] == Zeroes(n - 1) && Zeroes(n)[n - 1] == '0'
  {
    if n > 1 {
      ZeroesEnd(n - 1);
      assert Zeroes(n)[..n - 1] == "0" + Zeroes(n - 1)[..n - 2];
    }
  }

  // A padded number reads back as the number.
  lemma PaddedReads(n: nat, width: nat)
    ensures ValueOf(Padded(n, width)) == n
  {
    DecimalReads(n);
    var s := Decimal(n);
    if |s| < width {
      ZeroesAreNothing(width - |s|, s);
    }
  }

  function Power(width: nat): (p: nat)
    ensures p > 0
  {
    if width == 0 then 1 else 10 * Power(width - 1)
  }

  lemma {:induction false} DecimalLength(n: nat, width: nat)
    requires width > 0 && n < Power(width)
    ensures |Decimal(n)| <= width
  {
    if n >= 10 {
      DecimalLength(n / 10, width - 1);
    }
  }

  lemma PaddedLength(n: nat, width: nat)
    requires width > 0 && n < Power(width)
    ensures |Padded(n, width)| == width
  {
    DecimalLength(n, width);
  }

  // ---- The order of text ----

  predicate Splits(s: string, t: string, k: nat) {
    k < |s| && k < |t| && s[..k] == t[..k] && s[k] < t[k]
  }

  predicate SortsBefore(s: string, t: string) {
    exists k: nat :: k < |s| && Splits(s, t, k)
  }

  lemma SortsByHead(a: string, b: string, x: string, y: string)
    requires |a| == |b| && SortsBefore(a, b)
    ensures SortsBefore(a + x, b + y)
  {
    var k: nat :| k < |a| && Splits(a, b, k);
    assert (a + x)[..k] == a[..k] && (b + y)[..k] == b[..k];
    assert Splits(a + x, b + y, k);
  }

  lemma SortsByTail(a: string, x: string, y: string)
    requires SortsBefore(x, y)
    ensures SortsBefore(a + x, a + y)
  {
    var k: nat :| k < |x| && Splits(x, y, k);
    assert (a + x)[..|a| + k] == a + x[..k] && (a + y)[..|a| + k] == a + y[..k];
    assert Splits(a + x, a + y, |a| + k);
  }

  function Digitwise(n: nat, width: nat): (s: string)
    ensures |s| == width
  {
    if width == 0 then "" else Digitwise(n / 10, width - 1) + [DIGITS[n % 10]]
  }

  lemma {:induction false} DigitwiseZero(width: nat)
    ensures Digitwise(0, width) == Zeroes(width)
  {
    if width > 0 {
      DigitwiseZero(width - 1);
      ZeroesEnd(width);
    }
  }

  lemma OneDigitMore(n: nat, width: nat)
    requires n >= 10 && width > 0 && |Decimal(n / 10)| <= width - 1
    ensures Padded(n, width) == Padded(n / 10, width - 1) + [DIGITS[n % 10]]
  {
  }

  lemma {:induction false} PaddedIsDigitwise(n: nat, width: nat)
    requires width > 0 && n < Power(width)
    ensures Padded(n, width) == Digitwise(n, width)
  {
    hide Padded, Decimal;
    if n < 10 {
      OneDigit(n, width);
    } else {
      DecimalLength(n / 10, width - 1);
      OneDigitMore(n, width);
      PaddedIsDigitwise(n / 10, width - 1);
    }
  }

  lemma OneDigit(n: nat, width: nat)
    requires width > 0 && n < 10
    ensures Padded(n, width) == Digitwise(n, width)
  {
    hide Zeroes;
    DigitwiseZero(width - 1);
    assert n / 10 == 0 && n % 10 == n;
    assert Decimal(n) == [DIGITS[n]];
    if width == 1 {
      ZeroesAreEmpty();
    }
    assert Padded(n, width) == Zeroes(width - 1) + [DIGITS[n]];
  }

  lemma ZeroesAreEmpty()
    ensures Zeroes(0) == ""
  {
  }

  lemma {:induction false} DigitwiseSorts(n: nat, m: nat, width: nat)
    requires n < m < Power(width)
    ensures SortsBefore(Digitwise(n, width), Digitwise(m, width))
  {
    if width > 0 {
      var head, other := Digitwise(n / 10, width - 1), Digitwise(m / 10, width - 1);
      if n / 10 < m / 10 {
        DigitwiseSorts(n / 10, m / 10, width - 1);
        SortsByHead(head, other, [DIGITS[n % 10]], [DIGITS[m % 10]]);
      } else {
        assert n % 10 < m % 10;
        assert Splits(Digitwise(n, width), Digitwise(m, width), width - 1);
      }
    }
  }

  lemma PaddedSorts(n: nat, m: nat, width: nat)
    requires width > 0 && n < m < Power(width)
    ensures SortsBefore(Padded(n, width), Padded(m, width))
  {
    PaddedIsDigitwise(n, width);
    PaddedIsDigitwise(m, width);
    DigitwiseSorts(n, m, width);
  }

  // ---- Stamps ----

  // Numbers, each in its width and with its separator after it.
  datatype Field = Field(value: nat, width: nat, after: string)

  function Spelled(fields: seq<Field>): string {
    if fields == [] then ""
    else Padded(fields[0].value, fields[0].width) + (fields[0].after + Spelled(fields[1..]))
  }

  // The same but for the values, which all fit.
  predicate Alike(a: seq<Field>, b: seq<Field>) {
    |a| == |b| && forall i | 0 <= i < |a| ::
      a[i].width == b[i].width > 0 && a[i].after == b[i].after && a[i].value < Power(a[i].width)
          && b[i].value < Power(b[i].width)
  }

  predicate FirstDifference(a: seq<Field>, b: seq<Field>, k: nat) {
    k < |a| && k < |b| && a[..k] == b[..k] && a[k].value < b[k].value
  }

  lemma {:induction false} SpelledSorts(a: seq<Field>, b: seq<Field>, k: nat)
    requires Alike(a, b) && FirstDifference(a, b, k)
    ensures SortsBefore(Spelled(a), Spelled(b))
  {
    var rest, other := a[0].after + Spelled(a[1..]), b[0].after + Spelled(b[1..]);
    PaddedLength(a[0].value, a[0].width);
    PaddedLength(b[0].value, b[0].width);
    if k == 0 {
      PaddedSorts(a[0].value, b[0].value, a[0].width);
      SortsByHead(Padded(a[0].value, a[0].width), Padded(b[0].value, b[0].width), rest, other);
    } else {
      assert a[0] == a[..k][0] == b[..k][0] == b[0];
      assert a[1..][..k - 1] == a[..k][1..] == b[..k][1..] == b[1..][..k - 1];
      SpelledSorts(a[1..], b[1..], k - 1);
      SortsByTail(a[0].after, Spelled(a[1..]), Spelled(b[1..]));
      SortsByTail(Padded(a[0].value, a[0].width), rest, other);
    }
  }

  // An instant is a count of nanoseconds from the Unix epoch; before it, both stamps read
  // the epoch. `as_millis` is cut down to a `u64`.
  function MillisOf(at: int): nat { if at < 0 then 0 else at / 1_000_000 % 0x1_0000_0000_0000_0000 }

  function SecondsAt(at: int): nat { if at < 0 then 0 else at / 1_000_000_000 }

  lemma YearsFrom1970(seconds: nat)
    ensures CivilFromUnix(seconds).date.year >= 1970 && OnTheClock(CivilFromUnix(seconds))
  {
    hide CivilFromUnix;
    CivilFromUnixTicks(0);
    OneSecondLater(seconds);
    if seconds > 0 {
      LaterIsLater(0, seconds);
    }
  }

  // `2026-09-20T08:14:57.123Z`
  function TimestampFields(c: Civil, millis: nat): seq<Field>
    requires OnTheClock(c) && c.date.year >= 0
  {
    [Field(c.date.year, 4, "-"), Field(c.date.month, 2, "-"), Field(c.date.day, 2, "T"),
     Field(c.hour, 2, ":"), Field(c.minute, 2, ":"), Field(c.second, 2, "."), Field(millis, 3, "Z")]
  }

  function Timestamp(at: int): string {
    var millis := MillisOf(at);
    YearsFrom1970(millis / 1_000);
    Spelled(TimestampFields(CivilFromUnix(millis / 1_000), millis % 1_000))
  }

  lemma Powers()
    ensures Power(2) == 100 && Power(3) == 1_000 && Power(4) == 10_000
  {
  }

  lemma FieldsAlike(a: Civil, b: Civil, m: nat, n: nat)
    requires OnTheClock(a) && OnTheClock(b) && 0 <= a.date.year <= b.date.year <= 9_999 && m < 1_000 && n < 1_000
    ensures Alike(TimestampFields(a, m), TimestampFields(b, n))
  {
    Powers();
  }

  lemma WhereTheyDiffer(a: Civil, b: Civil, m: nat, n: nat) returns (k: nat)
    requires OnTheClock(a) && OnTheClock(b) && 0 <= a.date.year && 0 <= b.date.year
    requires Earlier(a, b) || (a == b && m < n)
    ensures FirstDifference(TimestampFields(a, m), TimestampFields(b, n), k)
  {
    k := if a.date.year != b.date.year then 0
         else if a.date.month != b.date.month then 1
         else if a.date.day != b.date.day then 2
         else if a.hour != b.hour then 3
         else if a.minute != b.minute then 4
         else if a.second != b.second then 5
         else 6;
    var x, y := TimestampFields(a, m), TimestampFields(b, n);
    assert forall i | 0 <= i < k :: x[i] == y[i];
  }

  // Until the year 9999 is over, text order is time order, to the millisecond.
  lemma TimestampsSort(a: int, b: int)
    requires MillisOf(a) < MillisOf(b) && CivilFromUnix(MillisOf(b) / 1_000).date.year <= 9_999
    ensures SortsBefore(Timestamp(a), Timestamp(b))
  {
    hide CivilFromUnix, Spelled, MillisOf, SortsBefore, Padded, FirstDifference, Alike, TimestampFields;
    var m, n := MillisOf(a), MillisOf(b);
    var early, late := CivilFromUnix(m / 1_000), CivilFromUnix(n / 1_000);
    YearsFrom1970(m / 1_000);
    YearsFrom1970(n / 1_000);
    if m / 1_000 < n / 1_000 {
      LaterIsLater(m / 1_000, n / 1_000);
    }
    var k := WhereTheyDiffer(early, late, m % 1_000, n % 1_000);
    FieldsAlike(early, late, m % 1_000, n % 1_000);
    SpelledSorts(TimestampFields(early, m % 1_000), TimestampFields(late, n % 1_000), k);
  }

  lemma YearTurns()
    ensures CivilFromUnix(253_402_300_799).date.year == 9_999 && CivilFromUnix(253_402_300_800).date.year == 10_000
  {
    hide CivilFromDays, YearOfEra;
    assert Before(399) == 145_731 && Before(399 + 0) + 305 == 146_036;
    CivilAt(2_932_896, 24, 399, 305);
    CivilAt(2_932_897, 24, 399, 306);
  }

  lemma LeadingDigits()
    ensures Padded(10_000, 4)[0] == '1' && Padded(9_999, 4)[0] == '9'
  {
  }

  lemma StartsWithItsYear(at: int)
    ensures var year := CivilFromUnix(MillisOf(at) / 1_000).date.year;
            year >= 0 && |Padded(year, 4)| > 0 && |Timestamp(at)| > 0 && Timestamp(at)[0] == Padded(year, 4)[0]
  {
  }

  // And no longer: the first timestamp of the year 10000 sorts before the last of 9999.
  lemma FiveDigitsDoNotSort()
    ensures MillisOf(253_402_300_799_999_000_000) == 253_402_300_799_999
    ensures MillisOf(253_402_300_800_000_000_000) == 253_402_300_800_000
    ensures SortsBefore(Timestamp(253_402_300_800_000_000_000), Timestamp(253_402_300_799_999_000_000))
  {
    hide CivilFromUnix, Padded, Timestamp;
    YearTurns();
    LeadingDigits();
    var first, last := Timestamp(253_402_300_800_000_000_000), Timestamp(253_402_300_799_999_000_000);
    StartsWithItsYear(253_402_300_800_000_000_000);
    StartsWithItsYear(253_402_300_799_999_000_000);
    assert Splits(first, last, 0);
  }

  lemma SortsOneWay(s: string, t: string)
    requires SortsBefore(s, t)
    ensures !SortsBefore(t, s)
  {
    var k: nat :| k < |s| && Splits(s, t, k);
    forall j: nat | j < |t| ensures !Splits(t, s, j) {
      if j < k {
        assert s[j] == s[..k][j] == t[..k][j] == t[j];
      } else if j > k && j < |s| && j < |t| {
        assert s[..j][k] == s[k] && t[..j][k] == t[k];
      }
    }
  }

  // Among the instants up to `horizon` milliseconds, text order is time order.
  ghost predicate SortUpTo(horizon: nat) {
    forall a, b | MillisOf(a) < MillisOf(b) <= horizon :: SortsBefore(Timestamp(a), Timestamp(b))
  }

  // How far timestamps sort: to the last millisecond of the year 9999, and no further.
  lemma TextOrderEndsWithFourDigits(horizon: nat)
    ensures SortUpTo(horizon) <==> horizon < 253_402_300_800_000
  {
    hide Timestamp, CivilFromUnix, SortsBefore, MillisOf;
    if horizon < 253_402_300_800_000 {
      forall a, b | MillisOf(a) < MillisOf(b) <= horizon ensures SortsBefore(Timestamp(a), Timestamp(b)) {
        YearsUpTo9999(MillisOf(b) / 1_000);
        TimestampsSort(a, b);
      }
    } else {
      FiveDigitsDoNotSort();
      SortsOneWay(Timestamp(253_402_300_800_000_000_000), Timestamp(253_402_300_799_999_000_000));
    }
  }

  lemma YearsUpTo9999(seconds: nat)
    requires seconds < 253_402_300_800
    ensures CivilFromUnix(seconds).date.year <= 9_999
  {
    hide CivilFromUnix;
    YearTurns();
    if seconds < 253_402_300_799 {
      LaterIsLater(seconds, 253_402_300_799);
    }
  }

  // `20260920-160400`
  function FileStampFields(c: Civil): seq<Field>
    requires OnTheClock(c)
  {
    [Field(c.date.month, 2, ""), Field(c.date.day, 2, "-"), Field(c.hour, 2, ""), Field(c.minute, 2, ""),
     Field(c.second, 2, "")]
  }

  function FileStamp(at: int): string {
    var c := CivilFromUnix(SecondsAt(at));
    YearsFrom1970(SecondsAt(at));
    Padded(c.date.year, 4) + Spelled(FileStampFields(c))
  }

  function Width(fields: seq<Field>): nat {
    if fields == [] then 0 else fields[0].width + |fields[0].after| + Width(fields[1..])
  }

  // Fields that fit are as long as their widths, and read back as they were.
  lemma {:induction false} SpelledReads(a: seq<Field>, b: seq<Field>)
    requires Alike(a, b)
    ensures |Spelled(a)| == Width(a) == |Spelled(b)|
    ensures Spelled(a) == Spelled(b) ==> a == b
  {
    if a != [] {
      SpelledReads(a[1..], b[1..]);
      PaddedLength(a[0].value, a[0].width);
      PaddedLength(b[0].value, b[0].width);
      if Spelled(a) == Spelled(b) {
        Unpaired(Padded(a[0].value, a[0].width), a[0].after + Spelled(a[1..]),
                 Padded(b[0].value, b[0].width), b[0].after + Spelled(b[1..]));
        Unpaired(a[0].after, Spelled(a[1..]), b[0].after, Spelled(b[1..]));
        PaddedReads(a[0].value, a[0].width);
        PaddedReads(b[0].value, b[0].width);
        assert a == [a[0]] + a[1..] && b == [b[0]] + b[1..];
      }
    }
  }

  lemma Unpaired(a: string, x: string, b: string, y: string)
    requires a + x == b + y && (|a| == |b| || |x| == |y|)
    ensures a == b && x == y
  {
    assert a == (a + x)[..|a|] && b == (b + y)[..|b|];
    assert x == (a + x)[|a|..] && y == (b + y)[|b|..];
  }

  // Two exports taken in different seconds never share a default name, in whatever year.
  lemma FileStampsNeverRepeat(a: int, b: int)
    requires FileStamp(a) == FileStamp(b)
    ensures SecondsAt(a) == SecondsAt(b)
  {
    hide CivilFromUnix, Spelled, SecondsOf, SecondsAt, Padded;
    var x, y := CivilFromUnix(SecondsAt(a)), CivilFromUnix(SecondsAt(b));
    YearsFrom1970(SecondsAt(a));
    YearsFrom1970(SecondsAt(b));
    Powers();
    SpelledReads(FileStampFields(x), FileStampFields(y));
    Unpaired(Padded(x.date.year, 4), Spelled(FileStampFields(x)), Padded(y.date.year, 4), Spelled(FileStampFields(y)));
    PaddedReads(x.date.year, 4);
    PaddedReads(y.date.year, 4);
    SameFields(x, y);
    FieldsGiveTheSecondsBack(SecondsAt(a));
    FieldsGiveTheSecondsBack(SecondsAt(b));
  }

  lemma SameFields(x: Civil, y: Civil)
    requires OnTheClock(x) && OnTheClock(y) && x.date.year == y.date.year && FileStampFields(x) == FileStampFields(y)
    ensures x == y
  {
  }

  // ---- Reading stamps ----

  predicate FieldsFit(fields: seq<Field>) {
    forall i | 0 <= i < |fields| :: fields[i].width > 0 && fields[i].value < Power(fields[i].width)
  }

  // `f` is spelled at `from`, its separator after it.
  predicate SpelledAt(s: string, from: int, f: Field) {
    && 0 <= from <= from + f.width <= from + f.width + |f.after| <= |s|
    && ValueOf(s[from..from + f.width]) == f.value
    && s[from + f.width..from + f.width + |f.after|] == f.after
  }

  // Each field is where the widths before it put it, and reads as its value.
  lemma {:induction false} FieldsRead(front: string, fields: seq<Field>, k: nat)
    requires FieldsFit(fields) && k < |fields|
    ensures |front + Spelled(fields)| == |front| + Width(fields)
    ensures SpelledAt(front + Spelled(fields), |front| + Width(fields[..k]), fields[k])
    decreases k
  {
    hide ValueOf, Padded, Power;
    var f, rest := fields[0], Spelled(fields[1..]);
    var digits := Padded(f.value, f.width);
    FirstFits(fields);
    SpelledLength(fields);
    var s := front + Spelled(fields);
    assert s == front + digits + f.after + rest;
    if k == 0 {
      assert s[|front|..|front| + f.width] == digits;
      PaddedReads(f.value, f.width);
      assert s[|front| + f.width..|front| + f.width + |f.after|] == f.after;
      assert fields[..0] == [];
    } else {
      assert fields[..k][1..] == fields[1..][..k - 1] && fields[..k][0] == f;
      FieldsRead(front + digits + f.after, fields[1..], k - 1);
    }
  }

  lemma FirstFits(fields: seq<Field>)
    requires FieldsFit(fields) && fields != []
    ensures |Padded(fields[0].value, fields[0].width)| == fields[0].width && FieldsFit(fields[1..])
  {
    PaddedLength(fields[0].value, fields[0].width);
  }

  lemma {:induction false} SpelledLength(fields: seq<Field>)
    requires FieldsFit(fields)
    ensures |Spelled(fields)| == Width(fields)
  {
    if fields != [] {
      hide Padded;
      FirstFits(fields);
      SpelledLength(fields[1..]);
    }
  }

  lemma {:induction false} WidthOfOneMore(fields: seq<Field>, k: nat)
    requires k < |fields|
    ensures Width(fields[..0]) == 0
    ensures Width(fields[..k + 1]) == Width(fields[..k]) + fields[k].width + |fields[k].after|
  {
    if k > 0 {
      assert fields[..k + 1][1..] == fields[1..][..k] && fields[..k][1..] == fields[1..][..k - 1];
      WidthOfOneMore(fields[1..], k - 1);
    }
  }

  // A field whose widths to the end of the text come to `back` is that far from its end.
  lemma FieldReadsFromEnd(front: string, fields: seq<Field>, k: nat, back: nat, f: Field)
    requires FieldsFit(fields) && k < |fields| && f == fields[k] && Width(fields) == Width(fields[..k]) + back
    ensures var s := front + Spelled(fields); SpelledAt(s, |s| - back, f)
  {
    hide ValueOf, Spelled, Width;
    FieldsRead(front, fields, k);
  }

  // The name of a default export, read from its end: `YYYYMMDD-HHMMSS`.
  lemma FileStampReads(at: int)
    ensures var c, s := CivilFromUnix(SecondsAt(at)), FileStamp(at);
            && |s| >= 15 && ValueOf(s[..|s| - 11]) == c.date.year
            && SpelledAt(s, |s| - 11, Field(c.date.month, 2, "")) && SpelledAt(s, |s| - 9, Field(c.date.day, 2, "-"))
            && SpelledAt(s, |s| - 6, Field(c.hour, 2, "")) && SpelledAt(s, |s| - 4, Field(c.minute, 2, ""))
            && SpelledAt(s, |s| - 2, Field(c.second, 2, ""))
  {
    hide CivilFromUnix, ValueOf, Padded, Spelled, Width, FieldsFit, SpelledAt;
    var c := CivilFromUnix(SecondsAt(at));
    YearsFrom1970(SecondsAt(at));
    var front, fields := Padded(c.date.year, 4), FileStampFields(c);
    FileFieldsFit(c);
    WholeLength(front, fields);
    FrontReads(c.date.year, Spelled(fields));
    FieldReadsFromEnd(front, fields, 0, 11, Field(c.date.month, 2, ""));
    FieldReadsFromEnd(front, fields, 1, 9, Field(c.date.day, 2, "-"));
    FieldReadsFromEnd(front, fields, 2, 6, Field(c.hour, 2, ""));
    FieldReadsFromEnd(front, fields, 3, 4, Field(c.minute, 2, ""));
    FieldReadsFromEnd(front, fields, 4, 2, Field(c.second, 2, ""));
  }

  lemma WholeLength(front: string, fields: seq<Field>)
    requires FieldsFit(fields)
    ensures |front + Spelled(fields)| == |front| + Width(fields)
  {
    SpelledLength(fields);
  }

  lemma FileFieldsFit(c: Civil)
    requires OnTheClock(c)
    ensures FieldsFit(FileStampFields(c)) && Width(FileStampFields(c)) == 11
    ensures var f := FileStampFields(c);
            Width(f[..0]) == 0 && Width(f[..1]) == 2 && Width(f[..2]) == 5 && Width(f[..3]) == 7 && Width(f[..4]) == 9
  {
    Powers();
    hide Width;
    var f := FileStampFields(c);
    WidthOfOneMore(f, 0);
    WidthOfOneMore(f, 1);
    WidthOfOneMore(f, 2);
    WidthOfOneMore(f, 3);
    WidthOfOneMore(f, 4);
    assert f[..5] == f;
  }

  lemma FrontReads(year: nat, rest: string)
    ensures |Padded(year, 4)| >= 4 && ValueOf((Padded(year, 4) + rest)[..|Padded(year, 4)|]) == year
  {
    PaddedReads(year, 4);
    assert (Padded(year, 4) + rest)[..|Padded(year, 4)|] == Padded(year, 4);
  }

  // A timestamp, read from its end: `YYYY-MM-DDTHH:MM:SS.mmmZ`.
  lemma TimestampReads(at: int)
    ensures var c, s := CivilFromUnix(MillisOf(at) / 1_000), Timestamp(at);
            && |s| >= 24 && ValueOf(s[..|s| - 20]) == c.date.year && s[|s| - 20] == '-'
            && SpelledAt(s, |s| - 19, Field(c.date.month, 2, "-")) && SpelledAt(s, |s| - 16, Field(c.date.day, 2, "T"))
            && SpelledAt(s, |s| - 13, Field(c.hour, 2, ":")) && SpelledAt(s, |s| - 10, Field(c.minute, 2, ":"))
            && SpelledAt(s, |s| - 7, Field(c.second, 2, "."))
            && SpelledAt(s, |s| - 4, Field(MillisOf(at) % 1_000, 3, "Z"))
  {
    hide CivilFromUnix, ValueOf, Padded, Width, FieldsFit, MillisOf, SpelledAt, Spelled;
    var c, millis := CivilFromUnix(MillisOf(at) / 1_000), MillisOf(at) % 1_000;
    YearsFrom1970(MillisOf(at) / 1_000);
    var fields := TimestampFields(c, millis)[1..];
    var front := Padded(c.date.year, 4) + "-";
    YearComesFirst(at);
    TimestampFieldsFit(c, millis);
    WholeLength(front, fields);
    FrontReads(c.date.year, "-" + Spelled(fields));
    hide Timestamp;
    FieldReadsFromEnd(front, fields, 0, 19, Field(c.date.month, 2, "-"));
    FieldReadsFromEnd(front, fields, 1, 16, Field(c.date.day, 2, "T"));
    FieldReadsFromEnd(front, fields, 2, 13, Field(c.hour, 2, ":"));
    FieldReadsFromEnd(front, fields, 3, 10, Field(c.minute, 2, ":"));
    FieldReadsFromEnd(front, fields, 4, 7, Field(c.second, 2, "."));
    FieldReadsFromEnd(front, fields, 5, 4, Field(millis, 3, "Z"));
  }

  lemma YearComesFirst(at: int)
    ensures var c := CivilFromUnix(MillisOf(at) / 1_000);
            && c.date.year >= 1970 && OnTheClock(c)
            && var fields := TimestampFields(c, MillisOf(at) % 1_000)[1..];
               && Timestamp(at) == Padded(c.date.year, 4) + "-" + Spelled(fields)
               && Timestamp(at) == Padded(c.date.year, 4) + ("-" + Spelled(fields))
  {
    hide CivilFromUnix, MillisOf, Padded;
    YearsFrom1970(MillisOf(at) / 1_000);
  }

  lemma TimestampFieldsFit(c: Civil, millis: nat)
    requires OnTheClock(c) && c.date.year >= 0 && millis < 1_000
    ensures var f := TimestampFields(c, millis)[1..];
            && FieldsFit(f) && Width(f) == 19
            && Width(f[..0]) == 0 && Width(f[..1]) == 3 && Width(f[..2]) == 6 && Width(f[..3]) == 9
            && Width(f[..4]) == 12 && Width(f[..5]) == 15
  {
    Powers();
    hide Width;
    var f := TimestampFields(c, millis)[1..];
    WidthOfOneMore(f, 0);
    WidthOfOneMore(f, 1);
    WidthOfOneMore(f, 2);
    WidthOfOneMore(f, 3);
    WidthOfOneMore(f, 4);
    WidthOfOneMore(f, 5);
    assert f[..6] == f;
  }
}
