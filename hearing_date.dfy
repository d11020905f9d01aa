/**
 * The hearing date: `extract_hearing_date` searches the first page's text
 * for the leftmost `<Month> <d or dd>, <yyyy>` and converts it with
 * `strptime`, which rejects dates the calendar does not have; `process_pdf`
 * adds one year with `relativedelta` and writes both dates in ISO form.
 */
module HearingDate {
  import opened Options
  import opened Text

  // ---------------------------------------------------------------------
  // Calendar
  // ---------------------------------------------------------------------

  datatype Date = Date(year: int, month: int, day: int)

  /** The proleptic Gregorian leap-year rule. */
  predicate IsLeapYear(y: int) {
    y % 4 == 0 && (y % 100 != 0 || y % 400 == 0)
  }

  function DaysInMonth(y: int, m: int): int
    requires 1 <= m <= 12
  {
    if m == 2 then (if IsLeapYear(y) then 29 else 28)
    else if m == 4 || m == 6 || m == 9 || m == 11 then 30
    else 31
  }

  /** A date `datetime` accepts: years 1 to 9999, a real month and day. */
  predicate ValidDate(d: Date) {
    && 1 <= d.year <= 9999
    && 1 <= d.month <= 12
    && 1 <= d.day <= DaysInMonth(d.year, d.month)
  }

  // ---------------------------------------------------------------------
  // The date pattern:
  // (January|...|December)\s+\d{1,2},\s+\d{4}
  // ---------------------------------------------------------------------

  const MonthNames: seq<string> := ["January", "February", "March", "April", "May", "June",
    "July", "August", "September", "October", "November", "December"]

  /** Month number `m` (1 to 12) is named at `p`, and its name ends at `q`. */
  predicate MonthOccurs(text: string, p: nat, m: nat, q: nat) {
    1 <= m <= 12 && OccursAt(text, MonthNames[m - 1], p) && q == p + |MonthNames[m - 1]|
  }

  /** The month a match names, and where its name ends. */
  datatype MonthMatch = MonthMatch(month: nat, end: nat)

  /** The alternation tried from month `i + 1` on: the first month whose
      name occurs at `p`. */
  function MonthFrom(text: string, p: nat, i: nat): (r: Option<MonthMatch>)
    requires i <= 12
    ensures r.Some? ==> i < r.value.month && MonthOccurs(text, p, r.value.month, r.value.end) && r.value.end <= |text|
    ensures r.None? <==> forall j :: i <= j < 12 ==> !OccursAt(text, MonthNames[j], p)
    decreases 12 - i
  {
    if i == 12 then None
    else if OccursAt(text, MonthNames[i], p) then Some(MonthMatch(i + 1, p + |MonthNames[i]|))
    else MonthFrom(text, p, i + 1)
  }

  function MonthAt(text: string, p: nat): Option<MonthMatch> {
    MonthFrom(text, p, 0)
  }

  /** The month whose name begins with the three letters `a`. */
  function MonthOfAbbreviation(a: string): int {
    if a == "Jan" then 0 else if a == "Feb" then 1 else if a == "Mar" then 2
    else if a == "Apr" then 3 else if a == "May" then 4 else if a == "Jun" then 5
    else if a == "Jul" then 6 else if a == "Aug" then 7 else if a == "Sep" then 8
    else if a == "Oct" then 9 else if a == "Nov" then 10 else if a == "Dec" then 11
    else -1
  }

  /** Every month name has at least three letters, and the first three
      tell the months apart. */
  lemma MonthPrefixesDistinct()
    ensures forall i :: 0 <= i < 12 ==> |MonthNames[i]| >= 3
    ensures forall i :: 0 <= i < 12 ==> MonthOfAbbreviation(MonthNames[i][..3]) == i
  {
    forall i | 0 <= i < 12
      ensures |MonthNames[i]| >= 3 && MonthOfAbbreviation(MonthNames[i][..3]) == i
    {
      if i == 0 { assert MonthNames[i][..3] == "Jan"; }
      else if i == 1 { assert MonthNames[i][..3] == "Feb"; }
      else if i == 2 { assert MonthNames[i][..3] == "Mar"; }
      else if i == 3 { assert MonthNames[i][..3] == "Apr"; }
      else if i == 4 { assert MonthNames[i][..3] == "May"; }
      else if i == 5 { assert MonthNames[i][..3] == "Jun"; }
      else if i == 6 { assert MonthNames[i][..3] == "Jul"; }
      else if i == 7 { assert MonthNames[i][..3] == "Aug"; }
      else if i == 8 { assert MonthNames[i][..3] == "Sep"; }
      else if i == 9 { assert MonthNames[i][..3] == "Oct"; }
      else if i == 10 { assert MonthNames[i][..3] == "Nov"; }
      else { assert MonthNames[i][..3] == "Dec"; }
    }
  }

  /** At most one month name occurs at any position, so the order of the
      alternation never matters. */
  lemma OneMonthAt(text: string, p: nat, i: nat, j: nat)
    requires i < 12 && j < 12
    requires OccursAt(text, MonthNames[i], p) && OccursAt(text, MonthNames[j], p)
    ensures i == j
  {
    MonthPrefixesDistinct();
    assert MonthNames[i][..3] == text[p..p + 3] == MonthNames[j][..3];
    assert MonthOfAbbreviation(MonthNames[i][..3]) == MonthOfAbbreviation(MonthNames[j][..3]);
  }

  /** The text a match covers: the month number and the digits of the day
      and the year. */
  datatype DateText = DateText(month: nat, day: string, year: string)

  /** After the month name ending at `q`: the first `\s+` takes `c1`
      characters, `\d{1,2}` takes `n`, then the comma, the second `\s+`
      takes `c2`, and `\d{4}` four digits. */
  predicate RestSplit(text: string, q: nat, c1: nat, n: nat, c2: nat) {
    && 1 <= c1 && 1 <= n <= 2 && 1 <= c2
    && q + c1 + n + 1 + c2 + 4 <= |text|
    && (forall k :: q <= k < q + c1 ==> IsSpace(text[k]))
    && (forall k :: q + c1 <= k < q + c1 + n ==> IsDigit(text[k]))
    && text[q + c1 + n] == ','
    && (forall k :: q + c1 + n + 1 <= k < q + c1 + n + 1 + c2 ==> IsSpace(text[k]))
    && (forall k :: q + c1 + n + 1 + c2 <= k < q + c1 + n + 1 + c2 + 4 ==> IsDigit(text[k]))
  }

  /** The day and year digits after a month name ending at `q`. Each `\s+`
      is followed by a digit, so it takes its whole run; `\d{1,2}` takes two
      digits when there are two, and giving one back cannot help since a
      digit is not a comma. */
  function DateAfter(text: string, m: nat, q: nat): Option<DateText>
    requires q <= |text|
  {
    var c1 := SpaceRun(text, q);
    var r := q + c1;
    var n := if DigitRun(text, r) >= 2 then 2 else DigitRun(text, r);
    var u := r + n;
    if c1 >= 1 && n >= 1 && u < |text| && text[u] == ',' then
      var c2 := SpaceRun(text, u + 1);
      var y := u + 1 + c2;
      if c2 >= 1 && DigitRun(text, y) >= 4 then Some(DateText(m, text[r..u], text[y..y + 4]))
      else None
    else None
  }

  /** The match at `p`, if any. */
  function DateAt(text: string, p: nat): Option<DateText>
    requires p <= |text|
  {
    match MonthAt(text, p)
    case None => None
    case Some(mm) => DateAfter(text, mm.month, mm.end)
  }

  /** The runs a split takes are the whole runs DateAfter measures. */
  lemma RestSplitRuns(text: string, q: nat, c1: nat, n: nat, c2: nat)
    requires q <= |text| && RestSplit(text, q, c1, n, c2)
    ensures SpaceRun(text, q) == c1
    ensures (if DigitRun(text, q + c1) >= 2 then 2 else DigitRun(text, q + c1)) == n
    ensures SpaceRun(text, q + c1 + n + 1) == c2
    ensures DigitRun(text, q + c1 + n + 1 + c2) >= 4
  {
    var r := q + c1;
    var y := r + n + 1 + c2;
    assert IsDigit(text[r]);
    SpaceRunIs(text, q, c1);
    assert text[r + n] == ',';
    DayRunIs(text, r, n);
    assert IsDigit(text[y]);
    SpaceRunIs(text, r + n + 1, c2);
    DigitRunMaximal(text, y, 4);
  }

  lemma SpaceRunIs(text: string, i: nat, c: nat)
    requires i + c < |text| && !IsSpace(text[i + c])
    requires forall k :: i <= k < i + c ==> IsSpace(text[k])
    ensures SpaceRun(text, i) == c
  {
    SpaceRunMaximal(text, i, c);
    SpaceRunIsRun(text, i);
  }

  /** `\d{1,2}` followed by a comma takes the whole digit run. */
  lemma DayRunIs(text: string, i: nat, n: nat)
    requires 1 <= n <= 2 && i + n < |text| && text[i + n] == ','
    requires forall k :: i <= k < i + n ==> IsDigit(text[k])
    ensures (if DigitRun(text, i) >= 2 then 2 else DigitRun(text, i)) == n
  {
    DigitRunMaximal(text, i, n);
    DigitRunIsRun(text, i);
    if n == 1 {
      assert !IsDigit(text[i + 1]);
    }
  }

  lemma RestSplitIsDateAfter(text: string, m: nat, q: nat, c1: nat, n: nat, c2: nat)
    requires q <= |text| && RestSplit(text, q, c1, n, c2)
    ensures DateAfter(text, m, q) == Some(DateText(m, text[q + c1..q + c1 + n], text[q + c1 + n + 1 + c2..q + c1 + n + 1 + c2 + 4]))
  {
    RestSplitRuns(text, q, c1, n, c2);
    DateAfterOfRuns(text, m, q, c1, n, c2);
  }

  /** DateAfter, read off the lengths of the runs it measures. */
  lemma DateAfterOfRuns(text: string, m: nat, q: nat, c1: nat, n: nat, c2: nat)
    requires 1 <= c1 && 1 <= n && 1 <= c2 && q + c1 + n + 1 + c2 + 4 <= |text|
    requires text[q + c1 + n] == ','
    requires SpaceRun(text, q) == c1
    requires (if DigitRun(text, q + c1) >= 2 then 2 else DigitRun(text, q + c1)) == n
    requires SpaceRun(text, q + c1 + n + 1) == c2
    requires DigitRun(text, q + c1 + n + 1 + c2) >= 4
    ensures DateAfter(text, m, q) == Some(DateText(m, text[q + c1..q + c1 + n], text[q + c1 + n + 1 + c2..q + c1 + n + 1 + c2 + 4]))
  {
  }

  lemma DateAfterIsSplit(text: string, m: nat, q: nat) returns (c1: nat, n: nat, c2: nat)
    requires q <= |text| && DateAfter(text, m, q).Some?
    ensures RestSplit(text, q, c1, n, c2)
    ensures DateAfter(text, m, q) == Some(DateText(m, text[q + c1..q + c1 + n], text[q + c1 + n + 1 + c2..q + c1 + n + 1 + c2 + 4]))
  {
    c1 := SpaceRun(text, q);
    var r := q + c1;
    var d := DigitRun(text, r);
    n := if d >= 2 then 2 else d;
    var u := r + n;
    assert c1 >= 1 && n >= 1 && u < |text| && text[u] == ',';
    c2 := SpaceRun(text, u + 1);
    var y := u + 1 + c2;
    assert c2 >= 1 && DigitRun(text, y) >= 4;
    SpaceRunIsRun(text, q);
    DigitRunIsRun(text, r);
    SpaceRunIsRun(text, u + 1);
    DigitRunIsRun(text, y);
    DateAfterOfRuns(text, m, q, c1, n, c2);
  }

  /** The pattern matches at `p` with month number `m`, whose name ends at
      `q`, and the rest split as above. */
  predicate DateSplit(text: string, p: nat, m: nat, q: nat, c1: nat, n: nat, c2: nat) {
    MonthOccurs(text, p, m, q) && RestSplit(text, q, c1, n, c2)
  }

  /** A month named at `p` is the one the alternation finds. */
  lemma MonthAtFinds(text: string, p: nat, m: nat, q: nat)
    requires MonthOccurs(text, p, m, q)
    ensures MonthAt(text, p) == Some(MonthMatch(m, q))
  {
    var first := MonthAt(text, p);
    assert OccursAt(text, MonthNames[m - 1], p);
    assert first.Some?;
    var k := first.value;
    assert 1 <= k.month <= 12 && OccursAt(text, MonthNames[k.month - 1], p);
    OneMonthAt(text, p, k.month - 1, m - 1);
    assert k.month == m;
    assert k.end == p + |MonthNames[m - 1]|;
  }

  /** The only way the pattern can match at `p` is the one DateAt finds. */
  lemma DateSplitIsDateAt(text: string, p: nat, m: nat, q: nat, c1: nat, n: nat, c2: nat)
    requires p <= |text| && DateSplit(text, p, m, q, c1, n, c2)
    ensures DateAt(text, p) == Some(DateText(m, text[q + c1..q + c1 + n], text[q + c1 + n + 1 + c2..q + c1 + n + 1 + c2 + 4]))
  {
    MonthAtFinds(text, p, m, q);
    RestSplitIsDateAfter(text, m, q, c1, n, c2);
  }

  /** Whatever DateAt finds is a match of the pattern, and DateAt returns
      its day and year digits. */
  lemma DateAtIsSplit(text: string, p: nat) returns (m: nat, q: nat, c1: nat, n: nat, c2: nat)
    requires p <= |text| && DateAt(text, p).Some?
    ensures DateSplit(text, p, m, q, c1, n, c2)
    ensures DateAt(text, p) == Some(DateText(m, text[q + c1..q + c1 + n], text[q + c1 + n + 1 + c2..q + c1 + n + 1 + c2 + 4]))
  {
    m := MonthAt(text, p).value.month;
    q := MonthAt(text, p).value.end;
    c1, n, c2 := DateAfterIsSplit(text, m, q);
  }

  /** The pattern matches at `p` exactly when DateAt finds something. */
  lemma DateAtIff(text: string, p: nat)
    requires p <= |text|
    ensures DateAt(text, p).Some? <==> exists m: nat, q: nat, c1: nat, n: nat, c2: nat :: DateSplit(text, p, m, q, c1, n, c2)
  {
    if DateAt(text, p).Some? {
      var m, q, c1, n, c2 := DateAtIsSplit(text, p);
    } else {
      forall m: nat, q: nat, c1: nat, n: nat, c2: nat ensures !DateSplit(text, p, m, q, c1, n, c2) {
        if DateSplit(text, p, m, q, c1, n, c2) {
          DateSplitIsDateAt(text, p, m, q, c1, n, c2);
        }
      }
    }
  }

  /** The first position from `from` on that is marked. */
  function FirstFrom(ok: seq<bool>, from: nat): (r: Option<nat>)
    requires from <= |ok|
    ensures r.Some? ==> from <= r.value < |ok| && ok[r.value]
    ensures r.Some? ==> forall q :: from <= q < r.value ==> !ok[q]
    ensures r.None? <==> forall q :: from <= q < |ok| ==> !ok[q]
    decreases |ok| - from
  {
    if from == |ok| then None
    else if ok[from] then Some(from)
    else FirstFrom(ok, from + 1)
  }

  /** `re.search`: the leftmost position at which the pattern matches. */
  function FindDate(text: string): (r: Option<nat>)
    ensures r.Some? ==> r.value <= |text| && DateAt(text, r.value).Some?
    ensures r.Some? ==> forall q :: 0 <= q < r.value ==> DateAt(text, q).None?
    ensures r.None? <==> forall q :: 0 <= q <= |text| ==> DateAt(text, q).None?
  {
    // the positions, from 0 to the end of the text, at which the pattern matches
    var ok := seq(|text| + 1, q requires 0 <= q <= |text| => DateAt(text, q).Some?);
    assert |ok| == |text| + 1;
    assert forall q :: 0 <= q < |ok| ==> (ok[q] <==> DateAt(text, q).Some?);
    FirstFrom(ok, 0)
  }

  // ---------------------------------------------------------------------
  // Conversion with strptime("%B %d, %Y")
  // ---------------------------------------------------------------------

  function DigitValue(c: char): int {
    c as int - '0' as int
  }

  /** The value of a string of decimal digits. */
  function Number(s: string): int {
    if s == [] then 0 else 10 * Number(s[..|s| - 1]) + DigitValue(s[|s| - 1])
  }

  /** The date a match names. */
  function DateOf(t: DateText): Date {
    Date(Number(t.year), t.month, Number(t.day))
  }

  datatype DateOutcome = Found(date: Date) | ConversionFailed | DateNotFound(path: string)

  /** The text of the error `extract_hearing_date` raises. */
  function Message(o: DateOutcome): string
    requires !o.Found?
  {
    match o
    case ConversionFailed => "Could not conver date string to iso format"
    case DateNotFound(path) => "Could not find date in the pdf: " + path
  }

  /** `extract_hearing_date` on the first page's text. */
  function FindHearingDate(text: string, path: string): DateOutcome {
    match FindDate(text)
    case None => DateNotFound(path)
    case Some(p) =>
      var d := DateOf(DateAt(text, p).value);
      if ValidDate(d) then Found(d) else ConversionFailed
  }

  /** The leftmost match alone decides: its date when the calendar has it,
      the conversion error otherwise, whatever later matches say; with no
      match at all the error names the file. */
  lemma LeftmostMatchDecides(text: string, path: string, p: nat)
    requires p <= |text| && DateAt(text, p).Some?
    requires forall q :: 0 <= q < p ==> DateAt(text, q).None?
    ensures var d := DateOf(DateAt(text, p).value);
      FindHearingDate(text, path) == if ValidDate(d) then Found(d) else ConversionFailed
  {
    var r := FindDate(text);
    assert r.Some?;
    if r.value < p {
    } else if r.value > p {
    }
  }

  lemma NoMatchNotFound(text: string, path: string)
    ensures FindHearingDate(text, path) == DateNotFound(path) <==> forall q :: 0 <= q <= |text| ==> DateAt(text, q).None?
    ensures FindHearingDate(text, path).Found? ==> ValidDate(FindHearingDate(text, path).date)
  {
  }

  /** The error names the file exactly when the pattern matches nowhere;
      when it matches but the calendar lacks the leftmost date, the error is
      the conversion error. */
  lemma FailureMessages(text: string, path: string)
    ensures (forall q :: 0 <= q <= |text| ==> DateAt(text, q).None?) ==>
      Message(FindHearingDate(text, path)) == "Could not find date in the pdf: " + path
    ensures (exists q :: 0 <= q <= |text| && DateAt(text, q).Some?) && !FindHearingDate(text, path).Found? ==>
      Message(FindHearingDate(text, path)) == "Could not conver date string to iso format"
  {
    NoMatchNotFound(text, path);
  }

  /** A found date has a day of one or two digits and a year of exactly four. */
  lemma FoundDateDigits(text: string, p: nat)
    requires p <= |text| && DateAt(text, p).Some?
    ensures var t := DateAt(text, p).value;
      1 <= |t.day| <= 2 && AllDigits(t.day) && |t.year| == 4 && AllDigits(t.year) && 1 <= t.month <= 12
  {
    var m, q, c1, n, c2 := DateAtIsSplit(text, p);
  }

  // ---------------------------------------------------------------------
  // Expiration date: date + relativedelta(years=1)
  // ---------------------------------------------------------------------

  /** One year later, the day clamped to the new month's length; `None`
      when the year would pass 9999, where `datetime` raises. */
  function AddOneYear(d: Date): (r: Option<Date>)
    requires ValidDate(d)
    ensures r.None? <==> d.year == 9999
    ensures r.Some? ==> ValidDate(r.value)
    ensures r.Some? ==> r.value.year == d.year + 1 && r.value.month == d.month
    ensures r.Some? ==> r.value.day == if d.month == 2 && d.day == 29 then 28 else d.day
  {
    if d.year == 9999 then None
    else
      var y := d.year + 1;
      var last := DaysInMonth(y, d.month);
      Some(Date(y, d.month, if d.day > last then last else d.day))
  }

  // ---------------------------------------------------------------------
  // ISO form: date.isoformat()
  // ---------------------------------------------------------------------

  function DigitChar(n: int): char
    requires 0 <= n <= 9
  {
    ('0' as int + n) as char
  }

  /** `n` written with exactly `width` digits, zero-padded on the left. */
  function Padded(n: nat, width: nat): (s: string)
    ensures |s| == width
    ensures AllDigits(s)
  {
    if width == 0 then [] else Padded(n / 10, width - 1) + [DigitChar(n % 10)]
  }

  /** `YYYY-MM-DD`. */
  function Iso(d: Date): (s: string)
    requires ValidDate(d)
    ensures |s| == 10 && s[4] == '-' && s[7] == '-'
  {
    Padded(d.year, 4) + "-" + Padded(d.month, 2) + "-" + Padded(d.day, 2)
  }

  function Pow10(k: nat): (r: nat)
    ensures r >= 1
  {
    if k == 0 then 1 else 10 * Pow10(k - 1)
  }

  /** Reading a padded number back gives it, as long as it fits. */
  lemma {:induction false} NumberOfPadded(n: nat, width: nat)
    requires n < Pow10(width)
    ensures Number(Padded(n, width)) == n
  {
    if width > 0 {
      NumberOfPadded(n / 10, width - 1);
      var s := Padded(n, width);
      assert s[..|s| - 1] == Padded(n / 10, width - 1);
    }
  }

  /** `date.fromisoformat` restricted to the `YYYY-MM-DD` shape. */
  function ParseIso(s: string): Option<Date> {
    if |s| == 10 && s[4] == '-' && s[7] == '-' && AllDigits(s[..4]) && AllDigits(s[5..7]) && AllDigits(s[8..]) then
      Some(Date(Number(s[..4]), Number(s[5..7]), Number(s[8..])))
    else None
  }

  /** The ISO form of a date reads back as the same date, so distinct dates
      have distinct ISO forms. */
  lemma IsoRoundTrip(d: Date)
    requires ValidDate(d)
    ensures ParseIso(Iso(d)) == Some(d)
  {
    var s := Iso(d);
    assert s[..4] == Padded(d.year, 4);
    assert s[5..7] == Padded(d.month, 2);
    assert s[8..] == Padded(d.day, 2);
    NumberOfPadded(d.year, 4);
    NumberOfPadded(d.month, 2);
    NumberOfPadded(d.day, 2);
  }

  /** A hearing on 15 January 2024 gives the ISO dates 2024-01-15 and
      2025-01-15. */
  lemma ExpirationExample()
    ensures AddOneYear(Date(2024, 1, 15)) == Some(Date(2025, 1, 15))
    ensures Iso(Date(2024, 1, 15)) == "2024-01-15"
    ensures Iso(Date(2025, 1, 15)) == "2025-01-15"
  {
    PaddedExample();
  }

  lemma PaddedExample()
    ensures Padded(1, 2) == "01" && Padded(15, 2) == "15"
    ensures Padded(2024, 4) == "2024" && Padded(2025, 4) == "2025"
  {
    assert Padded(0, 1) == "0";
    assert Padded(1, 1) == "1";
    assert Padded(2, 1) == "2";
    assert Padded(20, 2) == "20";
    assert Padded(202, 3) == "202";
  }
}
