/**
 * The per-cell text derivations of the loader (space.py lines 25-30): fixed-offset
 * slicing of the combined date-time text, splitting of the location on its last
 * ", " and of the detail on its first '|', and parsing of the calendar date.
 * Python's `str` slicing, `str.split(sep, 1)` and `str.rsplit(sep, 1)` are written
 * out here, and `strptime` with the format '%a %b %d, %Y' in its canonical shape.
 */
module Fields {
  import opened Wrappers

  // ---------------------------------------------------------------------------
  // Splitting on the first occurrence of a character: str.split(sep, 1)
  // ---------------------------------------------------------------------------

  /** Position of the first `c` in `s` (Python's `s.find(c)`), or None. */
  function FindFirst(s: string, c: char): (r: Option<nat>)
    ensures r.Some? ==> r.value < |s| && s[r.value] == c && c !in s[..r.value]
    ensures r.None? ==> c !in s
  {
    if s == [] then None
    else if s[0] == c then Some(0)
    else
      assert s == [s[0]] + s[1..];
      match FindFirst(s[1..], c)
      case None => None
      case Some(i) =>
        assert s[..i + 1] == [s[0]] + s[1..][..i];
        Some(i + 1)
  }

  /**
   * `s.split(sep, 1)`: the text before the first `sep` and, when `s` holds one,
   * everything after it. Without a separator the second piece is missing.
   */
  function SplitFirst(s: string, sep: char): (r: (string, Option<string>))
    ensures sep !in r.0
    ensures r.1.None? <==> sep !in s
    ensures r.1.None? ==> r.0 == s
    ensures r.1.Some? ==> r.0 + [sep] + r.1.value == s
  {
    match FindFirst(s, sep)
    case None => (s, None)
    case Some(i) =>
      assert s == s[..i] + [sep] + s[i + 1..];
      (s[..i], Some(s[i + 1..]))
  }

  /** Splitting a joined string on its first separator gives back the two parts. */
  lemma SplitFirstOfJoin(head: string, sep: char, tail: string)
    requires sep !in head
    ensures SplitFirst(head + [sep] + tail, sep) == (head, Some(tail))
  {
    var s := head + [sep] + tail;
    assert s[|head|] == sep;
    var i := FindFirst(s, sep).value;
    if i < |head| {
      assert false;
    } else if i > |head| {
      assert false;
    }
    assert s[..i] == head;
    assert s[i + 1..] == tail;
  }

  // ---------------------------------------------------------------------------
  // Splitting on the last occurrence of a separator: str.rsplit(sep, 1)
  // ---------------------------------------------------------------------------

  /** `sep` occurs in `s` starting at position `i`. */
  predicate OccursAt(s: string, sep: string, i: int)
  {
    0 <= i && i + |sep| <= |s| && s[i..i + |sep|] == sep
  }

  /** `sep` occurs somewhere in `s`. */
  predicate Contains(s: string, sep: string)
  {
    exists i :: 0 <= i <= |s| - |sep| && OccursAt(s, sep, i)
  }

  /** Dropping the last character loses no occurrence, when none ends at the last character. */
  lemma DropLastKeepsOccurrences(s: string, sep: string)
    requires |sep| <= |s| && s[|s| - |sep|..] != sep
    ensures forall j :: OccursAt(s, sep, j) <==> OccursAt(s[..|s| - 1], sep, j)
  {
    forall j
      ensures OccursAt(s, sep, j) <==> OccursAt(s[..|s| - 1], sep, j)
    {
      if 0 <= j && j + |sep| <= |s| - 1 {
        assert s[..|s| - 1][j..j + |sep|] == s[j..j + |sep|];
      }
    }
  }

  /** An occurrence in a suffix of `s` is an occurrence in `s`, shifted. */
  lemma OccursInSuffix(s: string, sep: string, k: nat, j: int)
    requires k <= |s| && OccursAt(s[k..], sep, j)
    ensures OccursAt(s, sep, k + j)
  {
    assert s[k..][j..j + |sep|] == s[k + j..k + j + |sep|];
  }

  /** Start of the last occurrence of `sep` in `s` (Python's `s.rfind(sep)`), or None. */
  function FindLast(s: string, sep: string): (r: Option<nat>)
    ensures r.Some? ==> OccursAt(s, sep, r.value)
    ensures r.Some? ==> forall j :: r.value < j ==> !OccursAt(s, sep, j)
    ensures r.None? ==> forall j :: !OccursAt(s, sep, j)
    decreases |s|
  {
    if |s| < |sep| then None
    else if s[|s| - |sep|..] == sep then Some(|s| - |sep|)
    else
      DropLastKeepsOccurrences(s, sep);
      FindLast(s[..|s| - 1], sep)
  }

  /**
   * `s.rsplit(sep, 1)`: the text before the last `sep` and, when `s` holds one,
   * everything after it. Without a separator the second piece is missing.
   */
  function SplitLast(s: string, sep: string): (r: (string, Option<string>))
    requires sep != []
    ensures r.1.None? <==> !Contains(s, sep)
    ensures r.1.None? ==> r.0 == s
    ensures r.1.Some? ==> r.0 + sep + r.1.value == s && !Contains(r.1.value, sep)
  {
    match FindLast(s, sep)
    case None => (s, None)
    case Some(i) =>
      var k := i + |sep|;
      assert s == s[..i] + sep + s[k..];
      assert forall j :: !OccursAt(s[k..], sep, j) by {
        forall j | OccursAt(s[k..], sep, j)
          ensures false
        {
          OccursInSuffix(s, sep, k, j);
        }
      }
      (s[..i], Some(s[k..]))
  }

  /** The separator the location column is split on. */
  const LocationSeparator: string := ", "

  /** An occurrence of ", " after the joining one lies inside the tail. */
  lemma OccursInJoin(head: string, tail: string, j: int)
    requires OccursAt(head + LocationSeparator + tail, LocationSeparator, j) && j > |head|
    ensures j >= |head| + 2 && OccursAt(tail, LocationSeparator, j - |head| - 2)
  {
    var s := head + LocationSeparator + tail;
    assert s[|head| + 1] == ' ';
    assert s[j] == s[j..j + 2][0] == ',';
    assert s[|head| + 2..] == tail;
    assert tail[j - |head| - 2..j - |head|] == s[j..j + 2];
  }

  /** Splitting a location joined with ", " on its last ", " gives back the two parts. */
  lemma SplitLastOfJoin(head: string, tail: string)
    requires !Contains(tail, LocationSeparator)
    ensures SplitLast(head + LocationSeparator + tail, LocationSeparator) == (head, Some(tail))
  {
    var s := head + LocationSeparator + tail;
    assert s[|head|..|head| + 2] == LocationSeparator;
    assert OccursAt(s, LocationSeparator, |head|);
    var i := FindLast(s, LocationSeparator).value;
    if i > |head| {
      OccursInJoin(head, tail, i);
      assert false;
    }
    assert s[..i] == head;
    assert s[i + 2..] == tail;
  }

  // ---------------------------------------------------------------------------
  // Fixed-offset slicing of the combined date-time text
  // ---------------------------------------------------------------------------

  /** `s[start:stop]` for non-negative bounds: both are clipped to the length of `s`. */
  function Slice(s: string, start: nat, stop: nat): (r: string)
    ensures |r| == if start < stop && start < |s| then Min(stop, |s|) - start else 0
    ensures forall k :: 0 <= k < |r| ==> r[k] == s[start + k]
  {
    if start < stop && start < |s| then s[start..Min(stop, |s|)] else []
  }

  /** The `Date` column: `Datum.str[:16]`. */
  function DatePart(datum: string): (r: string)
    ensures |r| == Min(16, |datum|)
    ensures r <= datum
  {
    Slice(datum, 0, 16)
  }

  /** The `Time` column: `Datum.str[17:22]`. */
  function TimePart(datum: string): (r: string)
    ensures |datum| <= 17 ==> r == []
    ensures |r| == if |datum| <= 17 then 0 else Min(22, |datum|) - 17
    ensures forall k :: 0 <= k < |r| ==> r[k] == datum[17 + k]
  {
    Slice(datum, 17, 22)
  }

  /**
   * A combined date-time text of at least 22 characters is its date part, one
   * separating character, its time part and whatever follows.
   */
  lemma DatumLayout(datum: string)
    requires |datum| >= 22
    ensures datum == DatePart(datum) + [datum[16]] + TimePart(datum) + datum[22..]
  {
    var d, t := DatePart(datum), TimePart(datum);
    assert d == datum[..16];
    assert t == datum[17..22];
  }

  // ---------------------------------------------------------------------------
  // The calendar date in the format '%a %b %d, %Y'
  // ---------------------------------------------------------------------------

  datatype CivilDate = CivilDate(year: int, month: int, day: int)

  const Weekdays: seq<string> := ["Mon", "Tue", "Wed", "Thu", "Fri", "Sat", "Sun"]
  const Months: seq<string> := ["Jan", "Feb", "Mar", "Apr", "May", "Jun",
                                "Jul", "Aug", "Sep", "Oct", "Nov", "Dec"]

  predicate IsLeapYear(y: int)
  {
    y % 4 == 0 && (y % 100 != 0 || y % 400 == 0)
  }

  function DaysInMonth(year: int, month: int): int
    requires 1 <= month <= 12
  {
    if month == 2 then (if IsLeapYear(year) then 29 else 28)
    else if month == 4 || month == 6 || month == 9 || month == 11 then 30
    else 31
  }

  /** A date Python's `datetime` can represent. */
  predicate ValidDate(d: CivilDate)
  {
    1 <= d.year <= 9999 && 1 <= d.month <= 12 && 1 <= d.day <= DaysInMonth(d.year, d.month)
  }

  predicate IsDigit(c: char)
  {
    '0' <= c <= '9'
  }

  predicate AllDigits(s: string)
  {
    forall i :: 0 <= i < |s| ==> IsDigit(s[i])
  }

  /** The value of a string of decimal digits. */
  function Decimal(s: string): nat
    requires AllDigits(s)
  {
    if s == [] then 0 else 10 * Decimal(s[..|s| - 1]) + (s[|s| - 1] as int - '0' as int)
  }

  /** Position of `x` in `names`, or None. */
  function IndexOf(names: seq<string>, x: string): (r: Option<nat>)
    ensures r.Some? ==> r.value < |names| && names[r.value] == x
    ensures r.None? ==> x !in names
  {
    if names == [] then None
    else if names[0] == x then Some(0)
    else match IndexOf(names[1..], x)
      case None => None
      case Some(i) => Some(i + 1)
  }

  /**
   * `strptime(date, '%a %b %d, %Y')` for the canonical shape "Www Mmm DD, YYYY":
   * an English weekday and month abbreviation, a two-digit day that exists in that
   * month and a four-digit year. The weekday is read but, as in `strptime`, not
   * checked against the date. Anything else is None.
   */
  function ParseDate(date: string): (r: Option<CivilDate>)
    ensures r.Some? ==> ValidDate(r.value)
    ensures r.Some? ==> |date| == 16 && date[..3] in Weekdays && date[4..7] == Months[r.value.month - 1]
    ensures r.Some? ==> AllDigits(date[8..10]) && r.value.day == Decimal(date[8..10])
    ensures r.Some? ==> AllDigits(date[12..]) && r.value.year == Decimal(date[12..])
  {
    if |date| != 16 || date[3] != ' ' || date[7] != ' ' || date[10] != ',' || date[11] != ' '
       || !AllDigits(date[8..10]) || !AllDigits(date[12..]) || date[..3] !in Weekdays
    then None
    else
      match IndexOf(Months, date[4..7])
      case None => None
      case Some(m) =>
        var d := CivilDate(Decimal(date[12..]), m + 1, Decimal(date[8..10]));
        if ValidDate(d) then Some(d) else None
  }

  function Digit(n: int): char
    requires 0 <= n <= 9
  {
    ('0' as int + n) as char
  }

  /** Two decimal digits, zero-padded. */
  function Format2(n: nat): string
    requires n < 100
  {
    [Digit(n / 10), Digit(n % 10)]
  }

  /** Four decimal digits, zero-padded: the hundreds, then the rest. */
  function Format4(n: nat): string
    requires n < 10000
  {
    Format2(n / 100) + Format2(n % 100)
  }

  /** The date rendered as '%a %b %d, %Y' with the given weekday name. */
  function FormatDate(weekday: nat, d: CivilDate): string
    requires weekday < 7 && ValidDate(d)
  {
    Weekdays[weekday] + " " + Months[d.month - 1] + " " + Format2(d.day) + ", " + Format4(d.year)
  }

  lemma Format2Decimal(n: nat)
    requires n < 100
    ensures AllDigits(Format2(n)) && Decimal(Format2(n)) == n
  {
    var s := Format2(n);
    assert s[..1] == [Digit(n / 10)];
    assert s[..1][..0] == [];
    assert Decimal(s[..1]) == n / 10;
    assert s[1] as int - '0' as int == n % 10;
  }

  /** Appending two digits multiplies the value by a hundred and adds theirs. */
  lemma DecimalAppend2(a: string, b: string)
    requires AllDigits(a) && AllDigits(b) && |b| == 2
    ensures AllDigits(a + b) && Decimal(a + b) == 100 * Decimal(a) + Decimal(b)
  {
    var s, t := a + b, a + [b[0]];
    assert s[..|s| - 1] == t && t[..|t| - 1] == a;
    assert b[..1] == [b[0]] && [b[0]][..0] == [];
    var d0, d1 := b[0] as int - '0' as int, b[1] as int - '0' as int;
    assert Decimal(t) == 10 * Decimal(a) + d0;
    assert Decimal(s) == 10 * Decimal(t) + d1;
    assert Decimal([b[0]]) == d0;
    assert Decimal(b) == 10 * d0 + d1;
  }

  lemma Format4Decimal(n: nat)
    requires n < 10000
    ensures AllDigits(Format4(n)) && Decimal(Format4(n)) == n
  {
    Format2Decimal(n / 100);
    Format2Decimal(n % 100);
    DecimalAppend2(Format2(n / 100), Format2(n % 100));
  }

  /** A name that no earlier name equals is found at its own position. */
  lemma {:induction false} IndexOfAt(names: seq<string>, i: nat)
    requires i < |names| && forall j :: 0 <= j < i ==> names[j] != names[i]
    ensures IndexOf(names, names[i]) == Some(i)
  {
    if i > 0 {
      assert names[1..][i - 1] == names[i];
      IndexOfAt(names[1..], i - 1);
    }
  }

  lemma MonthsDistinct()
    ensures forall i, j :: 0 <= i < j < |Months| ==> Months[i] != Months[j]
  {
    forall i, j | 0 <= i < j < |Months|
      ensures Months[i] != Months[j]
    {
      var a, b := Months[i], Months[j];
      assert a[0] != b[0] || a[1] != b[1] || a[2] != b[2];
    }
  }

  lemma MonthIndex(m: nat)
    requires m < 12
    ensures IndexOf(Months, Months[m]) == Some(m)
  {
    MonthsDistinct();
    IndexOfAt(Months, m);
  }

  lemma NameLengths()
    ensures forall i :: 0 <= i < |Weekdays| ==> |Weekdays[i]| == 3
    ensures forall i :: 0 <= i < |Months| ==> |Months[i]| == 3
  {
  }

  /** The positions of the fields in a rendered date. */
  lemma FormatDateLayout(weekday: nat, d: CivilDate)
    requires weekday < 7 && ValidDate(d)
    ensures var s := FormatDate(weekday, d);
      && |s| == 16 && s[..3] == Weekdays[weekday] && s[3] == ' ' && s[4..7] == Months[d.month - 1]
      && s[7] == ' ' && s[8..10] == Format2(d.day) && s[10] == ',' && s[11] == ' ' && s[12..] == Format4(d.year)
  {
    NameLengths();
    var w, m, dd, yyyy := Weekdays[weekday], Months[d.month - 1], Format2(d.day), Format4(d.year);
    var s := FormatDate(weekday, d);
    assert s == w + " " + m + " " + dd + ", " + yyyy;
  }

  /** Every valid date, rendered in the format, parses back to itself. */
  lemma ParseFormatDate(weekday: nat, d: CivilDate)
    requires weekday < 7 && ValidDate(d)
    ensures ParseDate(FormatDate(weekday, d)) == Some(d)
  {
    var s := FormatDate(weekday, d);
    FormatDateLayout(weekday, d);
    Format2Decimal(d.day);
    Format4Decimal(d.year);
    MonthIndex(d.month - 1);
    assert Weekdays[weekday] in Weekdays;
  }

  lemma DecimalFormat2(s: string)
    requires |s| == 2 && AllDigits(s)
    ensures Decimal(s) < 100 && Format2(Decimal(s)) == s
  {
    assert s[..1][..0] == [];
    var a, b := s[0] as int - '0' as int, s[1] as int - '0' as int;
    assert Decimal(s[..1]) == a;
    assert Decimal(s) == 10 * a + b;
  }

  lemma DecimalFormat4(s: string)
    requires |s| == 4 && AllDigits(s)
    ensures Decimal(s) < 10000 && Format4(Decimal(s)) == s
  {
    var hi, lo := s[..2], s[2..];
    assert s == hi + lo;
    DecimalFormat2(hi);
    DecimalFormat2(lo);
    DecimalAppend2(hi, lo);
    var n := Decimal(s);
    assert n == 100 * Decimal(hi) + Decimal(lo);
    assert n / 100 == Decimal(hi) && n % 100 == Decimal(lo);
  }

  /** Every text the parser accepts is the rendering of the date it yields: the format is canonical. */
  lemma ParsedDateIsFormatted(s: string, d: CivilDate)
    requires ParseDate(s) == Some(d)
    ensures exists weekday :: weekday < 7 && s == FormatDate(weekday, d)
  {
    var w := IndexOf(Weekdays, s[..3]).value;
    FormatDateLayout(w, d);
    DecimalFormat2(s[8..10]);
    DecimalFormat4(s[12..]);
    var t := FormatDate(w, d);
    assert s[..3] == t[..3] && s[4..7] == t[4..7] && s[8..10] == t[8..10] && s[12..] == t[12..];
    forall k | 0 <= k < 16
      ensures s[k] == t[k]
    {
      if k < 3 {
        assert s[..3][k] == t[..3][k];
      } else if 4 <= k < 7 {
        assert s[4..7][k - 4] == t[4..7][k - 4];
      } else if 8 <= k < 10 {
        assert s[8..10][k - 8] == t[8..10][k - 8];
      } else if 12 <= k {
        assert s[12..][k - 12] == t[12..][k - 12];
      }
    }
    assert s == t;
  }
}
