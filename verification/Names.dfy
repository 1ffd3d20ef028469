/** The `/id/...` namespace that routes and TLS policies share, and the other
    string encodings whose injectivity the daemon relies on. */
module Names {
  import opened Prelude

  const WEBHOOK_ID := "slip-deploy-webhook"
  const TLS_PREFIX := "slip-tls-"

  // ----- decimal printing -----

  predicate IsDigit(c: char) { '0' <= c <= '9' }

  function DigitChar(d: nat): (c: char)
    requires d < 10
    ensures IsDigit(c) && DigitValue(c) == d
  {
    '0' + d as char
  }

  function DigitValue(c: char): nat
    requires IsDigit(c)
  {
    c as int - '0' as int
  }

  function Decimal(n: nat): (s: string)
    ensures s != []
    ensures forall c :: c in s ==> IsDigit(c)
  {
    if n < 10 then [DigitChar(n)] else Decimal(n / 10) + [DigitChar(n % 10)]
  }

  function ValueOf(s: string): nat
    requires forall c :: c in s ==> IsDigit(c)
  {
    if s == [] then 0
    else 10 * ValueOf(s[..|s| - 1]) + DigitValue(s[|s| - 1])
  }

  lemma {:induction false} DecimalRoundTrip(n: nat)
    ensures ValueOf(Decimal(n)) == n
  {
    if n < 10 {
      assert Decimal(n)[..0] == [];
    } else {
      DecimalRoundTrip(n / 10);
      assert Decimal(n)[..|Decimal(n)| - 1] == Decimal(n / 10);
    }
  }

  /** The digits, written out. */
  lemma DigitsAre(d: nat)
    requires d < 10
    ensures DigitChar(d) == "0123456789"[d]
  {
  }

  // ----- application names -----

  predicate AppNameChar(c: char) { 'a' <= c <= 'z' || IsDigit(c) || c == '-' }

  predicate ValidAppName(name: string) {
    && name != []
    && |name| <= 63
    && (forall c :: c in name ==> AppNameChar(c))
    && name[0] != '-'
    && name[|name| - 1] != '-'
  }

  /** The rule in numbers: 1 to 63 characters, each of ASCII code 97 to 122, 48 to
      57 or 45, the first and the last not 45. */
  lemma ValidAppNameMeaning(name: string)
    ensures ValidAppName(name)
       <==> && 1 <= |name| <= 63
            && (forall k :: 0 <= k < |name| ==>
                  var c := name[k] as int; 97 <= c <= 122 || 48 <= c <= 57 || c == 45)
            && name[0] as int != 45 && name[|name| - 1] as int != 45
  {
    assert forall k :: 0 <= k < |name| ==> name[k] in name;
  }

  // ----- route identifiers -----

  function RouteId(app: string, index: nat): string {
    "slip-" + app + "-" + Decimal(index)
  }

  /** Position of the last hyphen. */
  function LastHyphen(s: string): (r: Option<nat>)
    ensures r.None? ==> '-' !in s
    ensures r.Some? ==> r.value < |s| && s[r.value] == '-' && '-' !in s[r.value + 1..]
  {
    if s == [] then None
    else if s[|s| - 1] == '-' then Some(|s| - 1)
    else
      var r := LastHyphen(s[..|s| - 1]);
      assert r.Some? ==> s[r.value + 1..] == s[..|s| - 1][r.value + 1..] + [s[|s| - 1]];
      assert s == s[..|s| - 1] + [s[|s| - 1]];
      r
  }

  /** Reads a route identifier back: everything after the last hyphen is the
      index, everything between that and the `slip-` prefix is the application. */
  function DecodeRouteId(id: string): Option<(string, nat)> {
    match LastHyphen(id)
    case None => None
    case Some(k) =>
      var digits := id[k + 1..];
      if k < 5 || id[..5] != "slip-" || digits == [] || exists c :: c in digits && !IsDigit(c) then None
      else if Decimal(ValueOf(digits)) != digits then None
      else Some((id[5..k], ValueOf(digits)))
  }

  lemma {:induction false} LastHyphenSplits(front: string, back: string)
    requires '-' !in back
    ensures LastHyphen(front + "-" + back) == Some(|front|)
  {
    var s := front + "-" + back;
    if back != [] {
      var n := |back| - 1;
      LastHyphenSplits(front, back[..n]);
      assert s[..|s| - 1] == front + "-" + back[..n];
      assert s[|s| - 1] == back[n] && back[n] in back;
    }
  }

  lemma RouteIdDecodes(app: string, index: nat)
    ensures DecodeRouteId(RouteId(app, index)) == Some((app, index))
  {
    var id, front, digits := RouteId(app, index), "slip-" + app, Decimal(index);
    LastHyphenSplits(front, digits);
    assert id == front + "-" + digits;
    assert id[|front| + 1..] == digits;
    assert id[..5] == "slip-" && id[5..|front|] == app;
    DecimalRoundTrip(index);
  }

  lemma DecodeInverts(id: string, app: string, index: nat)
    ensures DecodeRouteId(id) == Some((app, index)) <==> id == RouteId(app, index)
  {
    RouteIdDecodes(app, index);
    if DecodeRouteId(id) == Some((app, index)) {
      var k := LastHyphen(id).value;
      assert id == id[..5] + id[5..k] + [id[k]] + id[k + 1..];
    }
  }

  lemma RouteIdInjective(app: string, index: nat, app': string, index': nat)
    ensures RouteId(app, index) == RouteId(app', index') <==> app == app' && index == index'
  {
    RouteIdDecodes(app, index);
    RouteIdDecodes(app', index');
  }

  lemma RouteIdIsNotTheWebhook(app: string, index: nat)
    ensures RouteId(app, index) != WEBHOOK_ID
  {
    var id, digits := RouteId(app, index), Decimal(index);
    assert id[|id| - 1] == digits[|digits| - 1] && digits[|digits| - 1] in digits;
    assert WEBHOOK_ID[18] == 'k';
  }

  // ----- TLS policy identifiers -----

  predicate IdChar(c: char) {
    'a' <= c <= 'z' || 'A' <= c <= 'Z' || IsDigit(c) || c == '-' || c == '.'
  }

  /** `*` becomes `star`; every other character that is not an ASCII letter,
      digit, hyphen or dot becomes a hyphen. */
  function Sanitize(subject: string): string {
    if subject == [] then []
    else
      var c := subject[0];
      (if c == '*' then "star" else if IdChar(c) then [c] else "-") + Sanitize(subject[1..])
  }

  function TlsId(subject: string): string { TLS_PREFIX + Sanitize(subject) }

  predicate Plain(s: string) { forall c :: c in s ==> IdChar(c) }

  /** A subject as certificates carry it: a plain host name, or one under a
      single leading wildcard label. */
  predicate HostSubject(s: string) { Plain(s) || ("*." <= s && Plain(s[2..])) }

  lemma {:induction false} SanitizePlain(s: string)
    requires Plain(s)
    ensures Sanitize(s) == s
  {
    if s != [] {
      SanitizePlain(s[1..]);
    }
  }

  lemma SanitizeWildcard(s: string)
    requires "*." <= s && Plain(s[2..])
    ensures Sanitize(s) == "star." + s[2..]
  {
    assert s[1..][1..] == s[2..];
    SanitizePlain(s[2..]);
  }

  /** What becomes of a subject without an asterisk: its characters of ASCII code 48
      to 57, 65 to 90, 97 to 122, 45 and 46 stay, every other becomes a hyphen. */
  lemma {:induction false} SanitizeCharwise(s: string)
    requires '*' !in s
    ensures |Sanitize(s)| == |s|
    ensures forall k :: 0 <= k < |s| ==>
      var c := s[k] as int;
      Sanitize(s)[k] == if 48 <= c <= 57 || 65 <= c <= 90 || 97 <= c <= 122 || c == 45 || c == 46 then s[k] else '-'
  {
    if s != [] {
      SanitizeCharwise(s[1..]);
    }
  }

  /** The identifiers of host subjects, written out. */
  lemma TlsIdMeaning(r: string)
    requires Plain(r)
    ensures TlsId(r) == "slip-tls-" + r && TlsId("*." + r) == "slip-tls-star." + r
  {
    assert ("*." + r)[2..] == r;
    assert HostSubject("*." + r);
    SanitizePlain(r);
    SanitizeWildcard("*." + r);
    assert "slip-tls-" + ("star." + r) == "slip-tls-star." + r;
  }

  lemma {:induction false} SanitizeKeepsDots(s: string)
    ensures '.' in Sanitize(s) <==> '.' in s
  {
    if s != [] {
      SanitizeKeepsDots(s[1..]);
      assert s == [s[0]] + s[1..];
    }
  }

  /** Two subjects differ only in writing the wildcard out. */
  predicate WildcardTwins(s: string, t: string) { "*." <= s && "star." <= t && t[5..] == s[2..] }

  lemma TlsIdCollisions(s: string, t: string)
    requires HostSubject(s) && HostSubject(t)
    ensures TlsId(s) == TlsId(t) && s != t <==> WildcardTwins(s, t) || WildcardTwins(t, s)
  {
    assert TlsId(s)[9..] == Sanitize(s) && TlsId(t)[9..] == Sanitize(t);
    var ws, wt := !Plain(s), !Plain(t);
    if ws { SanitizeWildcard(s); } else { SanitizePlain(s); }
    if wt { SanitizeWildcard(t); } else { SanitizePlain(t); }
    assert "*." <= s ==> s[0] == '*' && s == "*." + s[2..] && !Plain(s);
    assert "*." <= t ==> t[0] == '*' && t == "*." + t[2..] && !Plain(t);
    assert "star." <= t ==> t == "star." + t[5..] && t[0] == 's';
    assert "star." <= s ==> s == "star." + s[5..] && s[0] == 's';
    assert ws ==> ("star." + s[2..])[5..] == s[2..];
    assert wt ==> ("star." + t[2..])[5..] == t[2..];
  }

  /** A route identifier is a TLS identifier only for applications called `tls`
      or `tls-...`, and then only for a subject that sanitizes to the rest. */
  lemma RouteIdMeetsTlsId(app: string, index: nat, subject: string)
    ensures RouteId(app, index) == TlsId(subject)
       <==> || (app == "tls" && Sanitize(subject) == Decimal(index))
            || ("tls-" <= app && Sanitize(subject) == app[4..] + "-" + Decimal(index))
  {
    hide Decimal, Sanitize;
    WithoutPrefix(app, index, subject);
    hide RouteId, TlsId;
    var route, tls := app + "-" + Decimal(index), "tls-" + Sanitize(subject);
    if "tls-" <= app {
      assert app == "tls-" + app[4..];
      assert route == "tls-" + (app[4..] + "-" + Decimal(index));
      assert route[4..] == app[4..] + "-" + Decimal(index) && tls[4..] == Sanitize(subject);
    } else if app == "tls" {
      assert route[4..] == Decimal(index) && tls[4..] == Sanitize(subject);
    } else {
      DashIsLast(app, index);
      assert |app| >= 4 ==> route[..4] == app[..4];
      assert |app| == 3 ==> route[..3] == app;
    }
  }

  lemma WithoutPrefix(app: string, index: nat, subject: string)
    ensures RouteId(app, index) == TlsId(subject) <==> app + "-" + Decimal(index) == "tls-" + Sanitize(subject)
  {
    hide Decimal, Sanitize;
    var route, tls := app + "-" + Decimal(index), "tls-" + Sanitize(subject);
    assert RouteId(app, index) == "slip-" + route && RouteId(app, index)[5..] == route;
    assert TlsId(subject) == "slip-" + tls && TlsId(subject)[5..] == tls;
  }

  /** The character after the application name is a hyphen and all after it are digits. */
  lemma DashIsLast(app: string, index: nat)
    ensures var route := app + "-" + Decimal(index);
      route[|app|] == '-' && forall k :: |app| < k < |route| ==> IsDigit(route[k])
  {
    var route := app + "-" + Decimal(index);
    assert forall k :: |app| < k < |route| ==> route[k] == Decimal(index)[k - |app| - 1];
  }

  lemma RouteIdIsNoDottedTlsId(app: string, index: nat, subject: string)
    requires ValidAppName(app) && '.' in subject
    ensures RouteId(app, index) != TlsId(subject)
  {
    SanitizeKeepsDots(subject);
    var k :| 0 <= k < |Sanitize(subject)| && Sanitize(subject)[k] == '.';
    assert TlsId(subject)[9 + k] == '.';
    assert '.' !in RouteId(app, index);
  }

  /** Without a dot in the subject the two families do meet. */
  lemma DotlessSubjectCollides()
    ensures ValidAppName("tls") && RouteId("tls", 0) == TlsId("0")
  {
    SanitizePlain("0");
    assert Decimal(0) == "0";
  }

  // ----- preview keys -----

  function PreviewKey(app: string, preview: string): string { app + ":" + preview }

  /** The teardown scan keeps the keys that start with `app:`; it finds the
      application's own previews and no other's. */
  lemma PreviewScanIsExact(app: string, other: string, preview: string)
    requires ValidAppName(app) && ValidAppName(other)
    ensures app + ":" <= PreviewKey(other, preview) <==> app == other
  {
    var prefix, key := app + ":", PreviewKey(other, preview);
    if prefix <= key {
      assert prefix[|app|] == key[|app|] == ':' && key[|other|] == ':';
      assert forall k :: 0 <= k < |app| ==> key[k] == prefix[k] == app[k] && app[k] in app;
      assert forall k :: 0 <= k < |other| ==> key[k] == other[k] && other[k] in other;
      assert app == key[..|app|] && other == key[..|other|];
    }
  }
}
