/** The two duration parsers: the command line's over unsigned 64-bit numbers,
    the server's over signed ones. Every addition and multiplication in them is
    checked; here the numbers are unbounded and each check is written out. */
module Durations {
  import Names

  const U64_MAX := 0xFFFF_FFFF_FFFF_FFFF
  const I64_MAX := 0x7FFF_FFFF_FFFF_FFFF

  datatype Fault = Empty | Overflow | Unexpected(ch: char) | NoUnit

  datatype Parsed = Seconds(n: nat) | Refused(why: Fault)

  predicate Letter(c: char) { c == 's' || c == 'm' || c == 'h' }

  function Unit(c: char): (u: nat)
    requires Letter(c)
  {
    if c == 's' then 1 else if c == 'm' then 60 else 3600
  }

  // ----- what a string means, without any bound -----

  /** Everything is a digit or a unit. */
  predicate Plain(s: string) {
    forall k :: 0 <= k < |s| ==> Names.IsDigit(s[k]) || Letter(s[k])
  }

  /** The number the trailing digits spell; zero if there are none. */
  function Pending(s: string): nat {
    if s == [] || !Names.IsDigit(s[|s| - 1]) then 0
    else Pending(s[..|s| - 1]) * 10 + (s[|s| - 1] - '0') as nat
  }

  /** The sum of the numbers that carry a unit. */
  function Total(s: string): nat {
    if s == [] then 0
    else
      var init, c := s[..|s| - 1], s[|s| - 1];
      Total(init) + if Letter(c) then Pending(init) * Unit(c) else 0
  }

  /** What ought to be accepted under a bound. */
  predicate Acceptable(s: string, max: nat) {
    s != [] && Plain(s) && Pending(s) == 0 && Total(s) <= max
  }

  // ----- the checked arithmetic, character by character -----

  datatype State = Going(total: nat, current: nat) | Stopped(why: Fault)

  function Take(at: State, c: char, max: nat): State {
    if at.Stopped? then at
    else if Names.IsDigit(c) then
      var next := at.current * 10 + (c - '0') as nat;
      if next <= max then Going(at.total, next) else Stopped(Overflow)
    else if Letter(c) then
      var next := at.total + at.current * Unit(c);
      if next <= max then Going(next, 0) else Stopped(Overflow)
    else Stopped(Unexpected(c))
  }

  function Scan(s: string, max: nat): (r: State)
    ensures r.Stopped? ==> r.why.Overflow? || r.why.Unexpected?
  {
    if s == [] then Going(0, 0) else Take(Scan(s[..|s| - 1], max), s[|s| - 1], max)
  }

  function Verdict(s: string, max: nat): Parsed {
    if s == [] then Refused(Empty)
    else
      match Scan(s, max)
      case Stopped(why) => Refused(why)
      case Going(total, current) => if current > 0 then Refused(NoUnit) else Seconds(total)
  }

  /** The loop both parsers run, leaving at the first fault. */
  method Parse(s: string, max: nat) returns (r: Parsed)
    ensures r == Verdict(s, max)
  {
    if s == "" {
      return Refused(Empty);
    }
    var total: nat, current: nat := 0, 0;
    for i := 0 to |s|
      invariant Scan(s[..i], max) == Going(total, current)
    {
      var c := s[i];
      ghost var next := Take(Going(total, current), c, max);
      assert s[..i + 1][..i] == s[..i];
      assert Scan(s[..i + 1], max) == next;
      if next.Stopped? {
        StaysStopped(s, i + 1, max);
      }
      if Names.IsDigit(c) {
        var shifted := current * 10;
        if shifted > max || shifted + (c - '0') as nat > max {
          return Refused(Overflow);
        }
        current := shifted + (c - '0') as nat;
      } else if Letter(c) {
        var scaled := current * Unit(c);
        if scaled > max || total + scaled > max {
          return Refused(Overflow);
        }
        total, current := total + scaled, 0;
      } else {
        return Refused(Unexpected(c));
      }
    }
    assert s[..|s|] == s;
    if current > 0 {
      return Refused(NoUnit);
    }
    return Seconds(total);
  }

  lemma {:induction false} StaysStopped(s: string, i: nat, max: nat)
    requires i <= |s| && Scan(s[..i], max).Stopped?
    ensures Scan(s, max) == Scan(s[..i], max)
    decreases |s| - i
  {
    if i == |s| {
      assert s[..i] == s;
    } else {
      assert s[..i + 1][..i] == s[..i];
      StaysStopped(s, i + 1, max);
    }
  }

  // ----- exactness -----

  lemma {:induction false} GoingMeans(s: string, max: nat)
    requires Scan(s, max).Going?
    ensures Plain(s) && Scan(s, max) == Going(Total(s), Pending(s))
    ensures Total(s) <= max && Pending(s) <= max
  {
    if s != [] {
      var init := s[..|s| - 1];
      GoingMeans(init, max);
      assert forall k :: 0 <= k < |s| - 1 ==> s[k] == init[k];
    }
  }

  /** A number still waiting for its unit and the sum so far never lose weight,
      so a prefix outgrowing the bound dooms the whole string. */
  lemma {:induction false} FittingGoesOn(s: string, max: nat)
    requires Plain(s) && Total(s) + Pending(s) <= max
    ensures Scan(s, max) == Going(Total(s), Pending(s))
  {
    if s != [] {
      var init, c := s[..|s| - 1], s[|s| - 1];
      assert forall k :: 0 <= k < |init| ==> init[k] == s[k];
      assert Total(init) + Pending(init) <= Total(s) + Pending(s);
      FittingGoesOn(init, max);
    }
  }

  lemma VerdictExact(s: string, max: nat)
    ensures Verdict(s, max).Seconds? <==> Acceptable(s, max)
    ensures Acceptable(s, max) ==> Verdict(s, max) == Seconds(Total(s))
    ensures Verdict(s, max) == Refused(NoUnit) ==> Plain(s) && Pending(s) > 0
  {
    if Acceptable(s, max) {
      FittingGoesOn(s, max);
    } else if Scan(s, max).Going? {
      GoingMeans(s, max);
    }
  }

  // ----- the two parsers -----

  method ParseDuration(s: string) returns (r: Parsed)
    ensures r.Seconds? <==> Acceptable(s, 18_446_744_073_709_551_615)
    ensures r.Seconds? ==> r.n == Total(s)
    ensures r == Verdict(s, U64_MAX)
  {
    r := Parse(s, U64_MAX);
    VerdictExact(s, U64_MAX);
  }

  datatype Since = Instant(t: int) | Rejected(why: Fault)

  /** A signed 64-bit result, wrapped around. */
  function Wrapped(x: int): int { (x + I64_MAX + 1) % (U64_MAX + 1) - I64_MAX - 1 }

  /** The clock's reading is a signed 64-bit number of seconds. */
  method ParseSinceDuration(s: string, now: int) returns (r: Since)
    requires -I64_MAX - 1 <= now <= I64_MAX
    ensures r.Instant? <==> Acceptable(s, 9_223_372_036_854_775_807)
    ensures r.Instant? ==> r.t == Wrapped(now - Total(s))
    ensures r.Instant? && now >= 0 ==> r.t == now - Total(s)
    ensures r.Rejected? ==> Verdict(s, I64_MAX) == Refused(r.why)
  {
    VerdictExact(s, I64_MAX);
    var p := Parse(s, I64_MAX);
    match p
    case Refused(why) => r := Rejected(why);
    case Seconds(n) =>
      NoWrap(now, n);
      r := Instant(Wrapped(now - n));
  }

  lemma NoWrap(now: int, total: nat)
    requires -I64_MAX - 1 <= now <= I64_MAX && total <= I64_MAX
    ensures Wrapped(now - total) == now - total <==> total <= now + I64_MAX + 1
    ensures now >= 0 ==> Wrapped(now - total) == now - total
  {
  }

  /** Whatever the server takes the command line takes as the same number, and
      the server refuses nothing of the command line's that it could hold. */
  lemma ParsersAgree(s: string)
    ensures Verdict(s, I64_MAX).Seconds? ==> Verdict(s, U64_MAX) == Verdict(s, I64_MAX)
    ensures Verdict(s, U64_MAX).Seconds? && Verdict(s, U64_MAX).n <= I64_MAX
            ==> Verdict(s, I64_MAX) == Verdict(s, U64_MAX)
  {
    VerdictExact(s, U64_MAX);
    VerdictExact(s, I64_MAX);
  }

  /** Digits that wait for a unit are refused only when they spell something
      other than zero. */
  lemma ZeroNeedsNoUnit(s: string, max: nat)
    requires Acceptable(s, max)
    ensures Verdict(s + "0", max) == Verdict(s, max)
    ensures Verdict(s + "1", max).Refused?
  {
    assert (s + "0")[..|s|] == s && (s + "1")[..|s|] == s;
    VerdictExact(s, max);
    VerdictExact(s + "0", max);
    VerdictExact(s + "1", max);
  }

  // ----- numbers with units read back -----

  lemma {:induction false} DigitsWait(s: string, t: string)
    requires s == [] || !Names.IsDigit(s[|s| - 1])
    requires forall c :: c in t ==> Names.IsDigit(c)
    ensures Pending(s + t) == Names.ValueOf(t) && Total(s + t) == Total(s)
    ensures Plain(s) ==> Plain(s + t)
  {
    if t == [] {
      assert s + t == s;
    } else {
      var init := t[..|t| - 1];
      DigitsWait(s, init);
      assert (s + t)[..|s + t| - 1] == s + init && (s + t)[|s + t| - 1] == t[|t| - 1];
    }
  }

  /** A printed number and a unit behind a string that ends with a unit, if it is not
      empty: the number counts once, 60 times or 3600 times. */
  lemma UnitsRead(s: string, n: nat, unit: char)
    requires s == [] || !Names.IsDigit(s[|s| - 1])
    requires unit in {'s', 'm', 'h'}
    ensures var t := s + Names.Decimal(n) + [unit];
      && Total(t) == Total(s) + n * (if unit == 's' then 1 else if unit == 'm' then 60 else 3600)
      && Pending(t) == 0 && !Names.IsDigit(t[|t| - 1]) && t != [] && (Plain(s) ==> Plain(t))
  {
    var u := s + Names.Decimal(n);
    DigitsWait(s, Names.Decimal(n));
    Names.DecimalRoundTrip(n);
    assert (u + [unit])[..|u|] == u && (u + [unit])[|u|] == unit;
  }

  /** Hours, minutes and seconds printed and parsed are their number of seconds, if
      that fits, and refused if not. */
  lemma PrintedReadsBack(hours: nat, minutes: nat, seconds: nat, max: nat)
    ensures var t := Names.Decimal(hours) + "h" + Names.Decimal(minutes) + "m" + Names.Decimal(seconds) + "s";
      var n := 3600 * hours + 60 * minutes + seconds;
      if n <= max then Verdict(t, max) == Seconds(n) else Verdict(t, max).Refused?
  {
    hide Names.Decimal, Verdict, Plain;
    var h := [] + Names.Decimal(hours) + "h";
    var m := h + Names.Decimal(minutes) + "m";
    var t := m + Names.Decimal(seconds) + "s";
    EmptyReads();
    UnitsRead([], hours, 'h');
    UnitsRead(h, minutes, 'm');
    UnitsRead(m, seconds, 's');
    assert [] + Names.Decimal(hours) == Names.Decimal(hours);
    VerdictExact(t, max);
  }

  lemma EmptyReads()
    ensures Total([]) == 0 && Plain([])
  {
  }

  // ----- refusals -----

  /** Why a string is refused: it is empty; or its first character that is neither a
      digit nor a unit comes before anything is too large; or some plain beginning
      of it is too large; or, fitting, it ends with digits worth something. */
  lemma RefusedBecause(s: string, max: nat)
    ensures match Verdict(s, max)
      case Seconds(_) => true
      case Refused(Empty) => s == ""
      case Refused(Unexpected(c)) =>
        exists k :: 0 <= k < |s| && s[k] == c && Plain(s[..k]) && !Names.IsDigit(c) && c !in {'s', 'm', 'h'}
      case Refused(Overflow) => exists k :: 0 <= k <= |s| && TooLarge(s, k, max)
      case Refused(NoUnit) => s != "" && Plain(s) && Pending(s) > 0
  {
    if s != [] {
      match Scan(s, max)
      case Stopped(_) => StoppedBecause(s, max);
      case Going(_, _) => GoingMeans(s, max);
    }
  }

  predicate TooLarge(s: string, k: nat, max: nat)
    requires k <= |s|
  {
    Plain(s[..k]) && Total(s[..k]) + Pending(s[..k]) > max
  }

  lemma {:induction false} StoppedBecause(s: string, max: nat)
    requires Scan(s, max).Stopped?
    ensures match Scan(s, max).why
      case Unexpected(c) =>
        exists k :: 0 <= k < |s| && s[k] == c && Plain(s[..k]) && !Names.IsDigit(c) && c !in {'s', 'm', 'h'}
      case Overflow => exists k :: 0 <= k <= |s| && TooLarge(s, k, max)
      case _ => false
  {
    var n := |s| - 1;
    var init := s[..n];
    if Scan(init, max).Stopped? {
      StoppedBecause(init, max);
      if Scan(s, max).why.Overflow? {
        var k :| 0 <= k <= |init| && TooLarge(init, k, max);
        assert s[..k] == init[..k];
        assert TooLarge(s, k, max);
      } else {
        var c := Scan(s, max).why.ch;
        var k :| 0 <= k < |init| && init[k] == c && Plain(init[..k]) && !Names.IsDigit(c) && c !in {'s', 'm', 'h'};
        assert s[k] == c && s[..k] == init[..k];
      }
    } else {
      GoingMeans(init, max);
      if Scan(s, max).why.Overflow? {
        assert s[..|s|] == s;
        assert Plain(s) by {
          assert forall k :: 0 <= k < n ==> s[k] == init[k];
        }
        assert TooLarge(s, |s|, max);
      } else {
        assert s[n] == Scan(s, max).why.ch;
      }
    }
  }
}
