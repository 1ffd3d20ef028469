/** Certificate expiry: the RFC 3339 text of a timestamp and the comparison of
    two such texts. Timestamps are seconds since 1970-01-01T00:00:00Z; the
    calendar counts from 0000-01-01T00:00:00Z. */
module CertTime {
  import opened Prelude
  import opened Names

  // ----- the calendar -----

  predicate Leap(year: nat) { year % 4 == 0 && (year % 100 != 0 || year % 400 == 0) }

  function YearLength(year: nat): nat { if Leap(year) then 366 else 365 }

  function MonthLength(year: nat, month: nat): nat
    requires 1 <= month <= 12
  {
    if month == 2 then (if Leap(year) then 29 else 28)
    else if month == 4 || month == 6 || month == 9 || month == 11 then 30
    else 31
  }

  /** The months, written out. */
  lemma MonthsAre(year: nat, month: nat)
    requires 1 <= month <= 12
    ensures month in {1, 3, 5, 7, 8, 10, 12} ==> MonthLength(year, month) == 31
    ensures month in {4, 6, 9, 11} ==> MonthLength(year, month) == 30
    ensures month == 2 ==>
      MonthLength(year, month) == if year % 400 == 0 || (year % 4 == 0 && year % 100 != 0) then 29 else 28
  {
    if month == 2 {
      LeapIs(year);
    }
    hide Leap;
  }

  lemma LeapIs(year: nat)
    ensures Leap(year) <==> year % 400 == 0 || (year % 4 == 0 && year % 100 != 0)
  {
    assert year % 400 == 0 ==> year % 4 == 0 by {
      assert year == 400 * (year / 400) + year % 400;
      assert 400 * (year / 400) == 4 * (100 * (year / 400));
    }
  }

  function DaysBeforeYear(year: nat): nat {
    if year == 0 then 0 else DaysBeforeYear(year - 1) + YearLength(year - 1)
  }

  function DaysBeforeMonth(year: nat, month: nat): nat
    requires 1 <= month <= 13
  {
    if month == 1 then 0 else DaysBeforeMonth(year, month - 1) + MonthLength(year, month - 1)
  }

  lemma LeapCountGrows(y: nat)
    ensures (y + 4) / 4 - (y + 100) / 100 + (y + 400) / 400
         == (y + 3) / 4 - (y + 99) / 100 + (y + 399) / 400 + (if Leap(y) then 1 else 0)
  {
    assert (y + 4) / 4 == (y + 3) / 4 + (if y % 4 == 0 then 1 else 0);
    assert (y + 100) / 100 == (y + 99) / 100 + (if y % 100 == 0 then 1 else 0);
    assert (y + 400) / 400 == (y + 399) / 400 + (if y % 400 == 0 then 1 else 0);
    assert y % 400 == 0 ==> y % 100 == 0;
    assert y % 100 == 0 ==> y % 4 == 0;
  }

  /** The count of leap years in closed form. */
  lemma {:induction false} DaysBeforeYearClosedForm(year: nat)
    ensures DaysBeforeYear(year) == 365 * year + (year + 3) / 4 - (year + 99) / 100 + (year + 399) / 400
  {
    if year > 0 {
      DaysBeforeYearClosedForm(year - 1);
      LeapCountGrows(year - 1);
    }
  }

  lemma {:induction false} YearsInOrder(y: nat, z: nat)
    requires y < z
    ensures DaysBeforeYear(y) + YearLength(y) <= DaysBeforeYear(z)
  {
    if y < z - 1 {
      YearsInOrder(y, z - 1);
    }
  }

  lemma {:induction false} MonthsInOrder(year: nat, m: nat, n: nat)
    requires 1 <= m < n <= 13
    ensures DaysBeforeMonth(year, m) + MonthLength(year, m) <= DaysBeforeMonth(year, n)
  {
    if m < n - 1 {
      MonthsInOrder(year, m, n - 1);
    }
  }

  lemma YearIsItsMonths(year: nat)
    ensures DaysBeforeMonth(year, 13) == YearLength(year)
  {
    assert DaysBeforeMonth(year, 2) == DaysBeforeMonth(year, 1) + 31 == 31;
    assert DaysBeforeMonth(year, 3) == 31 + MonthLength(year, 2);
    assert DaysBeforeMonth(year, 5) == DaysBeforeMonth(year, 3) + 61;
    assert DaysBeforeMonth(year, 7) == DaysBeforeMonth(year, 5) + 61;
    assert DaysBeforeMonth(year, 9) == DaysBeforeMonth(year, 7) + 62;
    assert DaysBeforeMonth(year, 11) == DaysBeforeMonth(year, 9) + 61;
    assert DaysBeforeMonth(year, 13) == DaysBeforeMonth(year, 11) + 61;
  }

  // ----- civil time -----

  datatype Civil = Civil(year: nat, month: nat, day: nat, hour: nat, minute: nat, second: nat) {
    predicate Valid() {
      && year <= 9999 && 1 <= month <= 12 && 1 <= day <= MonthLength(year, month)
      && hour < 24 && minute < 60 && second < 60
    }

    function Day(): nat
      requires Valid()
    {
      DaysBeforeYear(year) + DaysBeforeMonth(year, month) + (day - 1)
    }

    function Seconds(): nat
      requires Valid()
    {
      86400 * Day() + 3600 * hour + 60 * minute + second
    }
  }

  predicate Before(a: Civil, b: Civil) {
    || a.year < b.year
    || (a.year == b.year && a.month < b.month)
    || (a.year == b.year && a.month == b.month && a.day < b.day)
    || (a.year == b.year && a.month == b.month && a.day == b.day && a.hour < b.hour)
    || (a.year == b.year && a.month == b.month && a.day == b.day && a.hour == b.hour && a.minute < b.minute)
    || (a.year == b.year && a.month == b.month && a.day == b.day && a.hour == b.hour && a.minute == b.minute
        && a.second < b.second)
  }

  lemma DayWithinYear(a: Civil)
    requires a.Valid()
    ensures DaysBeforeYear(a.year) <= a.Day() < DaysBeforeYear(a.year) + YearLength(a.year)
  {
    MonthsInOrder(a.year, a.month, 13);
    YearIsItsMonths(a.year);
  }

  lemma BeforeIsEarlier(a: Civil, b: Civil)
    requires a.Valid() && b.Valid() && Before(a, b)
    ensures a.Seconds() < b.Seconds()
  {
    if a.year < b.year {
      DayWithinYear(a);
      DayWithinYear(b);
      YearsInOrder(a.year, b.year);
      assert a.Day() < b.Day();
    } else if a.month < b.month {
      MonthsInOrder(a.year, a.month, b.month);
      assert a.Day() < b.Day();
    }
  }

  lemma CivilOrder(a: Civil, b: Civil)
    requires a.Valid() && b.Valid()
    ensures Before(a, b) <==> a.Seconds() < b.Seconds()
    ensures a == b <==> a.Seconds() == b.Seconds()
  {
    if Before(a, b) {
      BeforeIsEarlier(a, b);
    } else if Before(b, a) {
      BeforeIsEarlier(b, a);
    }
  }

  // ----- from seconds to civil time -----

  function SplitYear(days: nat, year: nat): (r: (nat, nat))
    ensures r.0 >= year && r.1 < YearLength(r.0)
    ensures DaysBeforeYear(r.0) + r.1 == DaysBeforeYear(year) + days
    decreases days
  {
    if days < YearLength(year) then (year, days) else SplitYear(days - YearLength(year), year + 1)
  }

  function SplitMonth(year: nat, days: nat, month: nat): (r: (nat, nat))
    requires 1 <= month <= 12 && days + DaysBeforeMonth(year, month) < DaysBeforeMonth(year, 13)
    ensures month <= r.0 <= 12 && r.1 < MonthLength(year, r.0)
    ensures DaysBeforeMonth(year, r.0) + r.1 == DaysBeforeMonth(year, month) + days
    decreases 12 - month
  {
    if days < MonthLength(year, month) || month == 12 then (month, days)
    else SplitMonth(year, days - MonthLength(year, month), month + 1)
  }

  const UNIX_EPOCH := 719528 * 86400
  const YEAR_10000 := 3652425 * 86400

  lemma EpochConstants()
    ensures UNIX_EPOCH == Civil(1970, 1, 1, 0, 0, 0).Seconds()
    ensures YEAR_10000 == 86400 * DaysBeforeYear(10000)
  {
    YearStarts();
  }

  lemma YearStarts()
    ensures DaysBeforeYear(1970) == 719528 && DaysBeforeYear(10000) == 3652425
  {
    hide DaysBeforeYear;
    DaysBeforeYearClosedForm(1970);
    DaysBeforeYearClosedForm(10000);
  }

  /** Timestamps in the years 0000 to 9999. */
  predicate InRange(ts: int) { 0 <= ts + UNIX_EPOCH < YEAR_10000 }

  lemma DateInRange(days: nat)
    requires 86400 * days < YEAR_10000
    ensures SplitYear(days, 0).0 <= 9999
  {
    var year := SplitYear(days, 0).0;
    EpochConstants();
    if year > 10000 {
      YearsInOrder(10000, year);
    }
  }

  function DateOf(days: nat): (c: Civil)
    requires 86400 * days < YEAR_10000
    ensures c.Valid() && c.Day() == days && c.hour == c.minute == c.second == 0
  {
    var (year, rest) := SplitYear(days, 0);
    DateInRange(days);
    YearIsItsMonths(year);
    var (month, day) := SplitMonth(year, rest, 1);
    Civil(year, month, day + 1, 0, 0, 0)
  }

  function CivilOf(ts: int): (c: Civil)
    requires InRange(ts)
    ensures c.Valid() && c.Seconds() == ts + UNIX_EPOCH
  {
    var days, t := (ts + UNIX_EPOCH) / 86400, (ts + UNIX_EPOCH) % 86400;
    var date := DateOf(days);
    var c := date.(hour := t / 3600, minute := t % 3600 / 60, second := t % 3600 % 60);
    assert c.Day() == date.Day();
    c
  }

  // ----- text -----

  /** Byte order of strings. */
  predicate StringLess(a: string, b: string) {
    && b != []
    && (a == [] || a[0] < b[0] || (a[0] == b[0] && StringLess(a[1..], b[1..])))
  }

  lemma {:induction false} StringLessConcat(p: string, q: string, a: string, b: string)
    requires |p| == |q|
    ensures StringLess(p + a, q + b) <==> StringLess(p, q) || (p == q && StringLess(a, b))
    ensures p + a == q + b <==> p == q && a == b
  {
    if p == [] {
      assert p + a == a && q + b == b;
    } else {
      StringLessConcat(p[1..], q[1..], a, b);
      assert (p + a)[1..] == p[1..] + a && (q + b)[1..] == q[1..] + b;
      assert p == [p[0]] + p[1..] && q == [q[0]] + q[1..];
    }
    if p + a == q + b {
      assert p == (p + a)[..|p|] && q == (q + b)[..|q|];
      assert a == (p + a)[|p|..] && b == (q + b)[|q|..];
    }
  }

  function Pad2(n: nat): (s: string)
    requires n < 100
    ensures |s| == 2
  {
    [DigitChar(n / 10), DigitChar(n % 10)]
  }

  function Pad4(n: nat): (s: string)
    requires n < 10000
    ensures |s| == 4
  {
    Pad2(n / 100) + Pad2(n % 100)
  }

  lemma DigitOrder(d: nat, e: nat)
    requires d < 10 && e < 10
    ensures DigitChar(d) < DigitChar(e) <==> d < e
    ensures DigitChar(d) == DigitChar(e) <==> d == e
  {
    assert DigitValue(DigitChar(d)) == d && DigitValue(DigitChar(e)) == e;
  }

  lemma Pad2Order(m: nat, n: nat)
    requires m < 100 && n < 100
    ensures StringLess(Pad2(m), Pad2(n)) <==> m < n
    ensures Pad2(m) == Pad2(n) <==> m == n
  {
    var a, b := Pad2(m), Pad2(n);
    assert a[1..] == [DigitChar(m % 10)] && b[1..] == [DigitChar(n % 10)];
    assert StringLess(a[1..], b[1..]) <==> a[1] < b[1] by {
      assert a[1..][1..] == [] && b[1..][1..] == [];
    }
    DigitOrder(m / 10, n / 10);
    DigitOrder(m % 10, n % 10);
  }

  lemma Pad4Order(m: nat, n: nat)
    requires m < 10000 && n < 10000
    ensures StringLess(Pad4(m), Pad4(n)) <==> m < n
    ensures Pad4(m) == Pad4(n) <==> m == n
  {
    Pad2Order(m / 100, n / 100);
    Pad2Order(m % 100, n % 100);
    StringLessConcat(Pad2(m / 100), Pad2(n / 100), Pad2(m % 100), Pad2(n % 100));
  }

  function TimeText(c: Civil): string
    requires c.Valid()
  {
    Pad2(c.hour) + (":" + (Pad2(c.minute) + (":" + (Pad2(c.second) + "Z"))))
  }

  /** `%Y-%m-%dT%H:%M:%SZ`. */
  function Rfc3339(c: Civil): string
    requires c.Valid()
  {
    Pad4(c.year) + ("-" + (Pad2(c.month) + ("-" + (Pad2(c.day) + ("T" + TimeText(c))))))
  }

  lemma FieldOrder(m: nat, n: nat, sep: string, a: string, b: string)
    requires m < 100 && n < 100
    ensures StringLess(Pad2(m) + (sep + a), Pad2(n) + (sep + b)) <==> m < n || (m == n && StringLess(a, b))
    ensures Pad2(m) + (sep + a) == Pad2(n) + (sep + b) <==> m == n && a == b
  {
    Pad2Order(m, n);
    StringLessConcat(Pad2(m), Pad2(n), sep + a, sep + b);
    StringLessConcat(sep, sep, a, b);
    StringNotLessThanItself(sep);
  }

  lemma {:induction false} StringNotLessThanItself(s: string)
    ensures !StringLess(s, s)
  {
    if s != [] {
      StringNotLessThanItself(s[1..]);
    }
  }

  lemma TimeTextOrder(a: Civil, b: Civil)
    requires a.Valid() && b.Valid()
    ensures StringLess(TimeText(a), TimeText(b))
       <==> || a.hour < b.hour
            || (a.hour == b.hour && (a.minute < b.minute || (a.minute == b.minute && a.second < b.second)))
    ensures TimeText(a) == TimeText(b) <==> a.hour == b.hour && a.minute == b.minute && a.second == b.second
  {
    Pad2Order(a.second, b.second);
    StringLessConcat(Pad2(a.second), Pad2(b.second), "Z", "Z");
    StringNotLessThanItself("Z");
    FieldOrder(a.minute, b.minute, ":", Pad2(a.second) + "Z", Pad2(b.second) + "Z");
    FieldOrder(a.hour, b.hour, ":", Pad2(a.minute) + (":" + (Pad2(a.second) + "Z")),
               Pad2(b.minute) + (":" + (Pad2(b.second) + "Z")));
  }

  lemma Rfc3339Order(a: Civil, b: Civil)
    requires a.Valid() && b.Valid()
    ensures StringLess(Rfc3339(a), Rfc3339(b)) <==> Before(a, b)
    ensures Rfc3339(a) == Rfc3339(b) <==> a == b
  {
    TimeTextOrder(a, b);
    FieldOrder(a.day, b.day, "T", TimeText(a), TimeText(b));
    var da, db := Pad2(a.day) + ("T" + TimeText(a)), Pad2(b.day) + ("T" + TimeText(b));
    FieldOrder(a.month, b.month, "-", da, db);
    var ma, mb := Pad2(a.month) + ("-" + da), Pad2(b.month) + ("-" + db);
    Pad4Order(a.year, b.year);
    StringLessConcat(Pad4(a.year), Pad4(b.year), "-" + ma, "-" + mb);
    StringLessConcat("-", "-", ma, mb);
    StringNotLessThanItself("-");
  }

  // ----- probes -----

  datatype CertProbe = CertProbe(fingerprint: string, notAfter: Option<string>)

  function NotAfterText(ts: int): string
    requires InRange(ts)
  {
    Rfc3339(CivilOf(ts))
  }

  /** A stretch of digits that reads as the number. */
  predicate Reads(s: string, n: nat) { (forall c :: c in s ==> IsDigit(c)) && ValueOf(s) == n }

  lemma Pad2Reads(n: nat)
    requires n < 100
    ensures Reads(Pad2(n), n)
  {
    var s := Pad2(n);
    assert s[..1] == [s[0]] && s[..1][..0] == [];
    assert ValueOf(s[..1]) == 10 * ValueOf([]) + DigitValue(s[0]);
  }

  lemma Pad4Reads(n: nat)
    requires n < 10000
    ensures Reads(Pad4(n), n)
  {
    var s := Pad4(n);
    Pad2Reads(n / 100);
    assert s[..3][..2] == Pad2(n / 100) && s[..3] == s[..3][..2] + [s[2]] && s == s[..3] + [s[3]];
    assert ValueOf(s[..3]) == 10 * ValueOf(Pad2(n / 100)) + DigitValue(s[2]);
  }

  lemma TimeReads(c: Civil)
    requires c.Valid()
    ensures var t := TimeText(c);
      && |t| == 9 && t[2] == ':' && t[5] == ':' && t[8] == 'Z'
      && Reads(t[..2], c.hour) && Reads(t[3..5], c.minute) && Reads(t[6..8], c.second)
  {
    hide Reads, Leap, MonthLength;
    Pad2Reads(c.hour);
    Pad2Reads(c.minute);
    Pad2Reads(c.second);
    hide Pad2;
    var t := TimeText(c);
    assert t[..2] == Pad2(c.hour) && t[3..5] == Pad2(c.minute) && t[6..8] == Pad2(c.second);
  }

  lemma DateReads(c: Civil, time: string)
    requires c.Valid()
    ensures var t := Pad4(c.year) + ("-" + (Pad2(c.month) + ("-" + (Pad2(c.day) + ("T" + time)))));
      && |t| == 11 + |time| && t[11..] == time
      && t[4] == '-' && t[7] == '-' && t[10] == 'T'
      && Reads(t[..4], c.year) && Reads(t[5..7], c.month) && Reads(t[8..10], c.day)
  {
    hide Reads, Leap, MonthLength;
    assert c.month < 100 && c.day < 100 by { DayIsShort(c); }
    Pad4Reads(c.year);
    Pad2Reads(c.month);
    Pad2Reads(c.day);
    hide Pad2, Pad4;
    var t := Pad4(c.year) + ("-" + (Pad2(c.month) + ("-" + (Pad2(c.day) + ("T" + time)))));
    assert t[..4] == Pad4(c.year) && t[5..7] == Pad2(c.month) && t[8..10] == Pad2(c.day);
  }

  lemma DayIsShort(c: Civil)
    requires c.Valid()
    ensures c.month <= 12 && c.day <= 31
  {
  }

  /** The text is `YYYY-MM-DDThh:mm:ssZ`, each field reading as what it stands for. */
  lemma Rfc3339Reads(c: Civil)
    requires c.Valid()
    ensures var t := Rfc3339(c);
      && |t| == 20
      && t[4] == '-' && t[7] == '-' && t[10] == 'T' && t[13] == ':' && t[16] == ':' && t[19] == 'Z'
      && Reads(t[..4], c.year) && Reads(t[5..7], c.month) && Reads(t[8..10], c.day)
      && Reads(t[11..13], c.hour) && Reads(t[14..16], c.minute) && Reads(t[17..19], c.second)
  {
    var t, time := Rfc3339(c), TimeText(c);
    TimeReads(c);
    DateReads(c, time);
    hide Reads, Pad2, Pad4, TimeText, Rfc3339, Leap, MonthLength;
    assert forall k :: 0 <= k < 9 ==> time[k] == t[11..][k] == t[11 + k];
    assert t[11..13] == time[..2] && t[14..16] == time[3..5] && t[17..19] == time[6..8];
    assert t[13] == time[2] && t[16] == time[5] && t[19] == time[8];
  }

  /** Second 0 is the beginning of 1970, and the seconds of the years 0000 to 9999,
      in numbers. */
  lemma EpochIs(ts: int)
    ensures InRange(0) && CivilOf(0) == Civil(1970, 1, 1, 0, 0, 0)
    ensures InRange(ts) <==> -62167219200 <= ts < 253402300800
  {
    EpochConstants();
    CivilOrder(CivilOf(0), Civil(1970, 1, 1, 0, 0, 0));
  }

  lemma NotAfterOrder(s: int, t: int)
    requires InRange(s) && InRange(t)
    ensures StringLess(NotAfterText(s), NotAfterText(t)) <==> s < t
    ensures NotAfterText(s) == NotAfterText(t) <==> s == t
  {
    Rfc3339Order(CivilOf(s), CivilOf(t));
    CivilOrder(CivilOf(s), CivilOf(t));
  }

  predicate CertRenewed(before: Option<CertProbe>, after: Option<CertProbe>) {
    match (before, after)
    case (None, Some(_)) => true
    case (Some(b), Some(a)) =>
      || b.fingerprint != a.fingerprint
      || (match (b.notAfter, a.notAfter)
          case (Some(bn), Some(an)) => StringLess(bn, an)
          case (None, Some(_)) => true
          case _ => false)
    case _ => false
  }

  /** A served certificate: its fingerprint, and its expiry when it parses. */
  datatype Cert = Cert(fingerprint: string, expiry: Option<int>) {
    predicate Valid() { expiry.Some? ==> InRange(expiry.value) }

    function Probe(): CertProbe
      requires Valid()
    {
      CertProbe(fingerprint, if expiry.None? then None else Some(NotAfterText(expiry.value)))
    }
  }

  /** What a prober sees of a host that serves this certificate, or none. */
  function ProbeOf(cert: Option<Cert>): Option<CertProbe>
    requires cert.Some? ==> cert.value.Valid()
  {
    if cert.None? then None else Some(cert.value.Probe())
  }

  /** The comparison of probes says what it should about the certificates: there is
      one now, and there was none before, or another, or one that expires earlier or
      whose expiry could not be read. */
  lemma CertRenewedMeaning(before: Option<Cert>, after: Option<Cert>)
    requires (before.Some? ==> before.value.Valid()) && (after.Some? ==> after.value.Valid())
    ensures CertRenewed(ProbeOf(before), ProbeOf(after))
       <==> && after.Some?
            && (|| before.None?
                || before.value.fingerprint != after.value.fingerprint
                || (after.value.expiry.Some?
                    && (before.value.expiry.None? || before.value.expiry.value < after.value.expiry.value)))
  {
    hide StringLess, NotAfterText;
    if before.Some? && after.Some? && before.value.expiry.Some? && after.value.expiry.Some? {
      NotAfterOrder(before.value.expiry.value, after.value.expiry.value);
    }
  }
}
