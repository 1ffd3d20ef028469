/** Monotone clocks that go on by what is waited and by a lag that nothing is known
    of. Times are in milliseconds; the k-th look at the clock comes `drift(k)` late. */
module Clocks {

  /** How much longer than asked for everything took. */
  function Lag(drift: nat -> nat, from: nat, to: nat): nat {
    if to <= from then 0 else Lag(drift, from, to - 1) + drift(to - 1)
  }

  /** From the one reading of the clock to the other, so much was waited on purpose;
      the rest is lag. */
  predicate Spent(drift: nat -> nat, now: nat, looks: nat, now': nat, looks': nat, waited: int) {
    looks <= looks' && now' == now + waited + Lag(drift, looks, looks')
  }

  lemma NothingSpent(drift: nat -> nat, now: nat, looks: nat)
    ensures Spent(drift, now, looks, now, looks, 0)
  {
  }

  lemma SpendsMore(drift: nat -> nat, now: nat, looks: nat, now': nat, looks': nat, waited: int, ms: nat)
    requires Spent(drift, now, looks, now', looks', waited)
    ensures Spent(drift, now, looks, now' + ms + drift(looks'), looks' + 1, waited + ms)
  {
  }

  lemma {:induction false} LagJoins(drift: nat -> nat, from: nat, mid: nat, to: nat)
    requires from <= mid <= to
    ensures Lag(drift, from, to) == Lag(drift, from, mid) + Lag(drift, mid, to)
  {
    if mid < to {
      LagJoins(drift, from, mid, to - 1);
    }
  }

  lemma SpentJoins(drift: nat -> nat, now: nat, looks: nat, now': nat, looks': nat, n: int,
                   now'': nat, looks'': nat, m: int)
    requires Spent(drift, now, looks, now', looks', n) && Spent(drift, now', looks', now'', looks'', m)
    ensures Spent(drift, now, looks, now'', looks'', n + m)
  {
    LagJoins(drift, looks, looks', looks'');
  }
}
