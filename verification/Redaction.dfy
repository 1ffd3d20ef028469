/** `redact_external_error`: every match of `[A-Za-z0-9_-]{35,50}` becomes
    `<redacted>`, matches being taken leftmost first and as long as possible. */
module Redaction {
  import opened Prelude

  const LEAST := 35
  const MOST := 50

  function Mark(): string { "<redacted>" }

  predicate IsToken(c: char) {
    'A' <= c <= 'Z' || 'a' <= c <= 'z' || '0' <= c <= '9' || c == '_' || c == '-'
  }

  /** The characters of the pattern by ASCII code. */
  lemma TokensAre(c: char)
    ensures IsToken(c) <==>
      var n := c as int; 48 <= n <= 57 || 65 <= n <= 90 || 97 <= n <= 122 || n == 45 || n == 95
  {
  }

  predicate Tokens(s: string, i: int, j: int)
    requires 0 <= i && j <= |s|
  {
    forall k :: i <= k < j ==> IsToken(s[k])
  }

  /** The pattern matches this stretch. */
  predicate Matches(s: string, i: int, j: int) {
    0 <= i && i + LEAST <= j <= i + MOST && j <= |s| && Tokens(s, i, j)
  }

  datatype Span = Span(start: nat, end: nat)

  function Shifted(m: Option<Span>): Option<Span> {
    if m.None? then None else Some(Span(m.value.start + 1, m.value.end + 1))
  }

  /** Length of the token run at the front. */
  function RunLength(s: string): (n: nat)
    ensures n <= |s|
  {
    if s == [] || !IsToken(s[0]) then 0 else 1 + RunLength(s[1..])
  }

  lemma {:induction false} RunMeaning(s: string)
    ensures Tokens(s, 0, RunLength(s))
    ensures RunLength(s) < |s| ==> !IsToken(s[RunLength(s)])
  {
    if s != [] && IsToken(s[0]) {
      RunMeaning(s[1..]);
    }
  }

  function FirstMatch(s: string): (r: Option<Span>)
    ensures r.Some? ==> r.value.start < r.value.end <= |s|
    decreases |s|
  {
    if s == [] then None
    else if RunLength(s) >= LEAST then Some(Span(0, if RunLength(s) < MOST then RunLength(s) else MOST))
    else Shifted(FirstMatch(s[1..]))
  }

  ghost predicate Leftmost(s: string, p: int, q: int) {
    forall i, j :: Matches(s, i, j) ==> i > p || (i == p && j <= q)
  }

  /** It is the leftmost match, as long as it can be. */
  lemma {:induction false} FirstMatchMeaning(s: string)
    ensures FirstMatch(s).None? ==> forall i, j :: !Matches(s, i, j)
    ensures FirstMatch(s).Some? ==>
              var m := FirstMatch(s).value; Matches(s, m.start, m.end) && Leftmost(s, m.start, m.end)
    decreases |s|
  {
    var n := RunLength(s);
    RunMeaning(s);
    if s != [] && n < LEAST {
      FirstMatchMeaning(s[1..]);
      forall i, j | Matches(s, i, j)
        ensures i > 0 && Matches(s[1..], i - 1, j - 1)
      {
      }
    }
  }

  lemma {:induction false} RunReaches(s: string, j: nat)
    requires j <= |s| && Tokens(s, 0, j)
    ensures j <= RunLength(s)
  {
    if j > 0 {
      RunReaches(s[1..], j - 1);
    }
  }

  function Redact(s: string): string
    decreases |s|
  {
    var m := FirstMatch(s);
    if m.None? then s
    else s[..m.value.start] + Mark() + Redact(s[m.value.end..])
  }

  // ----- nothing long is left -----

  /** Every stretch of token characters has fewer than 35. */
  predicate Short(s: string) {
    forall i, j :: 0 <= i <= j <= |s| && Tokens(s, i, j) ==> j - i < LEAST
  }

  lemma ShortIffNoMatch(s: string)
    ensures Short(s) <==> FirstMatch(s).None?
  {
    FirstMatchMeaning(s);
    if FirstMatch(s).Some? {
      assert Tokens(s, FirstMatch(s).value.start, FirstMatch(s).value.end);
    } else {
      forall i, j | 0 <= i <= j <= |s| && Tokens(s, i, j)
        ensures j - i < LEAST
      {
        assert !Matches(s, i, i + LEAST);
      }
    }
  }

  lemma ShortAcrossMark(a: string, b: string)
    requires Short(a) && Short(b)
    ensures Short(a + Mark() + b)
  {
    var s, n := a + Mark() + b, |a|;
    assert s[n] == '<' && s[n + 9] == '>';
    forall i, j | 0 <= i <= j <= |s| && Tokens(s, i, j)
      ensures j - i < LEAST
    {
      assert !(i <= n < j) && !(i <= n + 9 < j);
      if j <= n {
        assert forall k :: i <= k < j ==> a[k] == s[k];
        assert Tokens(a, i, j);
      } else if i > n + 9 {
        assert forall k :: i - n - 10 <= k < j - n - 10 ==> b[k] == s[n + 10 + k];
        assert Tokens(b, i - n - 10, j - n - 10);
      }
    }
  }

  /** Before the leftmost match nothing matches. */
  lemma ShortBeforeMatch(s: string)
    requires FirstMatch(s).Some?
    ensures Short(s[..FirstMatch(s).value.start])
  {
    hide Mark, Redact;
    FirstMatchMeaning(s);
    var n := FirstMatch(s).value.start;
    forall i, j | 0 <= i <= j <= n && Tokens(s[..n], i, j)
      ensures j - i < LEAST
    {
      assert forall k :: i <= k < j ==> s[k] == s[..n][k];
      assert i + LEAST <= j ==> Matches(s, i, i + LEAST);
    }
  }

  lemma RedactStep(s: string)
    ensures FirstMatch(s).None? ==> Redact(s) == s
    ensures FirstMatch(s).Some? ==>
              Redact(s) == s[..FirstMatch(s).value.start] + Mark() + Redact(s[FirstMatch(s).value.end..])
  {
  }

  lemma {:induction false} RedactedIsShort(s: string)
    ensures Short(Redact(s))
    decreases |s|
  {
    ShortIffNoMatch(s);
    if FirstMatch(s).Some? {
      ShortBeforeMatch(s);
      RedactedIsShort(s[FirstMatch(s).value.end..]);
      ShortAcrossMark(s[..FirstMatch(s).value.start], Redact(s[FirstMatch(s).value.end..]));
    }
  }

  lemma RedactIdempotent(s: string)
    ensures Redact(Redact(s)) == Redact(s)
    ensures Redact(s) == s <==> Short(s)
  {
    RedactedIsShort(s);
    ShortIffNoMatch(s);
    ShortIffNoMatch(Redact(s));
  }

  // ----- run by run -----

  /** A separator splits the work. */
  lemma {:induction false} RedactAtSeparator(a: string, c: char, b: string)
    requires !IsToken(c)
    ensures Redact(a + [c] + b) == Redact(a) + [c] + Redact(b)
    decreases |a| + |b|
  {
    hide FirstMatch, Redact, Mark;
    var s := a + [c] + b;
    FirstMatchAtSeparator(a, c, b);
    RedactStep(s);
    RedactStep(a);
    RedactStep(b);
    if FirstMatch(a).Some? {
      var i, j := FirstMatch(a).value.start, FirstMatch(a).value.end;
      assert s[..i] == a[..i] && s[j..] == a[j..] + [c] + b;
      RedactAtSeparator(a[j..], c, b);
      Reassociate(a[..i] + Mark(), Redact(a[j..]), [c], Redact(b));
    } else if FirstMatch(b).Some? {
      var i, j := FirstMatch(b).value.start, FirstMatch(b).value.end;
      assert s[..|a| + 1 + i] == a + [c] + b[..i] && s[|a| + 1 + j..] == b[j..];
      Reassociate(a + [c], b[..i], Mark(), Redact(b[j..]));
    }
  }

  lemma Reassociate(p: string, q: string, r: string, t: string)
    ensures p + (q + r + t) == p + q + r + t
  {
  }

  lemma {:induction false} RunAtSeparator(a: string, c: char, b: string)
    requires !IsToken(c)
    ensures RunLength(a + [c] + b) == RunLength(a)
  {
    if a != [] {
      assert (a + [c] + b)[1..] == a[1..] + [c] + b;
      RunAtSeparator(a[1..], c, b);
    }
  }

  lemma {:induction false} FirstMatchAtSeparator(a: string, c: char, b: string)
    requires !IsToken(c)
    ensures FirstMatch(a + [c] + b)
         == if FirstMatch(a).Some? then FirstMatch(a)
            else if FirstMatch(b).None? then None
            else Some(Span(|a| + 1 + FirstMatch(b).value.start, |a| + 1 + FirstMatch(b).value.end))
    decreases |a|
  {
    RunAtSeparator(a, c, b);
    assert a == [] ==> RunLength(a) == 0;
    hide RunLength, IsToken, Tokens;
    if a == [] {
      assert (a + [c] + b)[1..] == b;
    } else {
      assert (a + [c] + b)[1..] == a[1..] + [c] + b;
      FirstMatchAtSeparator(a[1..], c, b);
    }
  }

  function Marks(n: nat): string { if n == 0 then "" else Mark() + Marks(n - 1) }

  /** How many marks a run of tokens becomes. */
  function MarkCount(n: nat): nat { n / MOST + (if n % MOST >= LEAST then 1 else 0) }

  /** How much of a run is left as it is, at its end. */
  function Leftover(n: nat): nat { if n % MOST >= LEAST then 0 else n % MOST }

  /** What a run becomes. */
  predicate RunBecomes(t: string) {
    && Leftover(|t|) <= |t|
    && Redact(t) == Marks(MarkCount(|t|)) + t[|t| - Leftover(|t|)..]
  }

  lemma {:induction false} RedactRun(t: string)
    requires Tokens(t, 0, |t|)
    ensures RunBecomes(t)
    decreases |t|
  {
    hide RunBecomes, Tokens;
    if |t| < LEAST {
      ShortRun(t);
    } else {
      var j := if |t| < MOST then |t| else MOST;
      TokensFrom(t, j);
      RedactRun(t[j..]);
      LongRun(t, j);
    }
  }

  lemma ShortRun(t: string)
    requires |t| < LEAST
    ensures RunBecomes(t)
  {
    hide Redact, Mark, FirstMatch;
    RedactIdempotent(t);
    assert Leftover(|t|) == |t| && MarkCount(|t|) == 0;
    hide Leftover, MarkCount;
    assert t[0..] == t && Marks(0) == [] && [] + t == t;
  }

  lemma LongRun(t: string, j: nat)
    requires Tokens(t, 0, |t|) && |t| >= LEAST && j == (if |t| < MOST then |t| else MOST)
    requires RunBecomes(t[j..])
    ensures RunBecomes(t)
  {
    hide Redact, Mark, Marks, MarkCount, Leftover, FirstMatch, RunLength;
    RedactFront(t, j);
    hide Tokens;
    RunCounts(|t|, j);
    Joined(t, j, Marks(MarkCount(|t| - j)), Leftover(|t|));
  }

  lemma Joined(t: string, j: nat, marks: string, left: nat)
    requires left <= |t| - j
    requires Redact(t) == Mark() + Redact(t[j..])
    requires Redact(t[j..]) == marks + t[j..][|t| - j - left..]
    ensures Redact(t) == Mark() + marks + t[|t| - left..]
  {
    hide Redact, Mark;
    assert t[j..][|t| - j - left..] == t[|t| - left..];
  }

  lemma TokensFrom(t: string, j: nat)
    requires j <= |t| && Tokens(t, 0, |t|)
    ensures Tokens(t[j..], 0, |t| - j)
  {
  }

  lemma FirstMatchFront(t: string, j: nat)
    requires Tokens(t, 0, |t|) && |t| >= LEAST && j == if |t| < MOST then |t| else MOST
    ensures FirstMatch(t) == Some(Span(0, j))
  {
    RunReaches(t, |t|);
    hide RunLength, Tokens;
  }

  lemma RedactFront(t: string, j: nat)
    requires Tokens(t, 0, |t|) && |t| >= LEAST && j == if |t| < MOST then |t| else MOST
    ensures Redact(t) == Mark() + Redact(t[j..])
  {
    hide Redact, Mark, FirstMatch, Tokens;
    FirstMatchFront(t, j);
    RedactStep(t);
    assert t[..0] + Mark() == Mark();
  }

  lemma RunCounts(n: nat, j: nat)
    requires n >= LEAST && j == if n < MOST then n else MOST
    ensures MarkCount(n) == MarkCount(n - j) + 1 && Leftover(n) == Leftover(n - j) <= n - j
    ensures Marks(MarkCount(n)) == Mark() + Marks(MarkCount(n - j))
  {
    if n >= MOST {
      assert n / MOST == (n - MOST) / MOST + 1 && n % MOST == (n - MOST) % MOST;
    }
  }

  /** Some character of the stretch is no token character. */
  predicate Broken(s: string, i: nat, j: nat)
    requires j <= |s|
  {
    exists k :: i <= k < j && !IsToken(s[k])
  }

  function Repeated(s: string, n: nat): string { if n == 0 then "" else s + Repeated(s, n - 1) }

  lemma {:induction false} MarksAre(n: nat)
    ensures Marks(n) == Repeated("<redacted>", n)
  {
    if n > 0 {
      MarksAre(n - 1);
    }
  }

  /** The numbers of it: a run of n token characters becomes one mark for every 50,
      and one more for a rest of at least 35; a shorter rest stays. And nowhere are
      35 consecutive token characters left. */
  lemma RedactionIs(t: string)
    ensures (forall k :: 0 <= k < |t| ==> IsToken(t[k])) ==>
              var n := |t|;
              if n % 50 >= 35 then Redact(t) == Repeated("<redacted>", n / 50 + 1)
              else Redact(t) == Repeated("<redacted>", n / 50) + t[n - n % 50..]
    ensures forall i, j :: 0 <= i <= i + 35 <= j <= |Redact(t)| ==> Broken(Redact(t), i, j)
  {
    hide Redact, Marks, FirstMatch, IsToken;
    if forall k :: 0 <= k < |t| ==> IsToken(t[k]) {
      RedactRun(t);
      MarksAre(MarkCount(|t|));
      var marks := Repeated("<redacted>", |t| / 50 + 1);
      assert |t| % 50 >= 35 ==> t[|t|..] == [] && marks + [] == marks;
    }
    RedactedIsShort(t);
    forall i, j | 0 <= i <= i + 35 <= j <= |Redact(t)|
      ensures Broken(Redact(t), i, j)
    {
      assert !Tokens(Redact(t), i, j);
    }
  }
}
