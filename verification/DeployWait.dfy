/** `slip deploy --wait`: polling a deploy until it ends, contact is lost or the
    time is up. */
module DeployWait {
  import opened Clocks

  const OK := 0
  const GENERIC := 1
  const DEPLOY_FAILED := 5
  const TIMEOUT := 6

  predicate IsTerminal(status: string) { status == "completed" || status == "failed" }

  function ExitCode(status: string): int {
    if status == "completed" then OK else if status == "failed" then DEPLOY_FAILED else -1
  }

  /** What one request for the status brings: no connection, an error response,
      an unreadable body, or a status. */
  datatype Answer = Lost | Refused | Garbled | Report(status: string)

  /** The daemon and the clock, in milliseconds. Requests and sleeps last
      arbitrarily long; `reply(k)` answers the k-th request. */
  class Daemon {
    const drift: nat -> nat
    const reply: nat -> Answer
    var now: nat
    var asked: nat
    var ticks: nat

    constructor (drift: nat -> nat, reply: nat -> Answer)
      ensures this.drift == drift && this.reply == reply && now == asked == ticks == 0
    {
      this.drift := drift;
      this.reply := reply;
      now, asked, ticks := 0, 0, 0;
    }

    method Sleep(ms: nat)
      modifies this`now, this`ticks
      ensures now == old(now) + ms + drift(old(ticks)) && ticks == old(ticks) + 1
    {
      now := now + ms + drift(ticks);
      ticks := ticks + 1;
    }

    method Get() returns (r: Answer)
      modifies this
      ensures r == reply(old(asked)) && asked == old(asked) + 1
      ensures now == old(now) + drift(old(ticks)) && ticks == old(ticks) + 1
    {
      r := reply(asked);
      asked := asked + 1;
      now := now + drift(ticks);
      ticks := ticks + 1;
    }
  }

  /** The statuses among the answers to requests `from` to `to`. */
  function Observed(reply: nat -> Answer, from: nat, to: nat): seq<string> {
    if to <= from then []
    else Observed(reply, from, to - 1) + match reply(to - 1) case Report(s) => [s] case _ => []
  }

  function LastOf(statuses: seq<string>): string {
    if statuses == [] then "" else statuses[|statuses| - 1]
  }

  /** The status changes printed: every status unlike the one remembered, which
      is the empty string to begin with. */
  function Emitted(statuses: seq<string>): seq<string> {
    if statuses == [] then []
    else
      var init, s := statuses[..|statuses| - 1], LastOf(statuses);
      Emitted(init) + if s != LastOf(init) then [s] else []
  }

  // ----- the waiting -----

  /** How many requests up to the k-th have failed in a row. */
  function Misses(reply: nat -> Answer, from: nat, k: nat): nat {
    if k <= from || !reply(k - 1).Lost? then 0 else Misses(reply, from, k - 1) + 1
  }

  /** How long the command sleeps after the k-th answer: half a second for each
      failure so far, but not after the fourth; two seconds after a status that ends
      nothing; half a second after an answer that says nothing. */
  function SleepAfter(reply: nat -> Answer, from: nat, k: nat): nat {
    match reply(k)
    case Lost => if Misses(reply, from, k + 1) <= 3 then 500 * Misses(reply, from, k + 1) else 0
    case Report(status) => if status == "completed" || status == "failed" then 0 else 2000
    case _ => 500
  }

  function Slept(reply: nat -> Answer, from: nat, to: nat): nat {
    if to <= from then 0 else Slept(reply, from, to - 1) + SleepAfter(reply, from, to - 1)
  }

  lemma SleptOn(reply: nat -> Answer, from: nat, to: nat)
    requires from <= to
    ensures Slept(reply, from, from) == 0 && Misses(reply, from, from) == 0
    ensures Slept(reply, from, to + 1) == Slept(reply, from, to) + SleepAfter(reply, from, to)
    ensures Misses(reply, from, to + 1) == if reply(to).Lost? then Misses(reply, from, to) + 1 else 0
  {
  }

  // ----- the request with its retries -----

  /** Asks again up to three times while the connection fails. */
  method Poll(d: Daemon, ghost now: nat, ghost ticks: nat, ghost from: nat) returns (r: Answer)
    requires from <= d.asked && Misses(d.reply, from, d.asked) == 0
    requires Spent(d.drift, now, ticks, d.now, d.ticks, Slept(d.reply, from, d.asked))
    modifies d
    ensures d.now >= old(d.now)
    ensures old(d.asked) < d.asked <= old(d.asked) + 4
    ensures r == d.reply(d.asked - 1)
    ensures forall k :: old(d.asked) <= k < d.asked - 1 ==> d.reply(k).Lost?
    ensures r.Lost? ==> d.asked == old(d.asked) + 4 && SleepAfter(d.reply, from, d.asked - 1) == 0
    ensures Spent(d.drift, now, ticks, d.now, d.ticks, Slept(d.reply, from, d.asked - 1))
  {
    hide Spent, Slept, Misses;
    SpendsMore(d.drift, now, ticks, d.now, d.ticks, Slept(d.reply, from, d.asked), 0);
    SleptOn(d.reply, from, d.asked);
    r := d.Get();
    var attempt := 1;
    while r.Lost? && attempt <= 3
      invariant 1 <= attempt <= 4 && d.asked == old(d.asked) + attempt
      invariant r == d.reply(d.asked - 1) && d.now >= old(d.now)
      invariant forall k :: old(d.asked) <= k < d.asked - 1 ==> d.reply(k).Lost?
      invariant r.Lost? ==> Misses(d.reply, from, d.asked) == attempt
      invariant Spent(d.drift, now, ticks, d.now, d.ticks, Slept(d.reply, from, d.asked - 1))
    {
      ghost var slept := Slept(d.reply, from, d.asked - 1);
      SleptOn(d.reply, from, d.asked - 1);
      SpendsMore(d.drift, now, ticks, d.now, d.ticks, slept, 500 * attempt);
      d.Sleep(500 * attempt);
      SpendsMore(d.drift, now, ticks, d.now, d.ticks, slept + 500 * attempt, 0);
      SleptOn(d.reply, from, d.asked);
      r := d.Get();
      attempt := attempt + 1;
    }
  }

  lemma {:induction false} LostAnswersShowNothing(reply: nat -> Answer, from: nat, mid: nat, to: nat)
    requires from <= mid <= to && forall k :: mid <= k < to ==> reply(k).Lost?
    ensures Observed(reply, from, to) == Observed(reply, from, mid)
  {
    if mid < to {
      LostAnswersShowNothing(reply, from, mid, to - 1);
    }
  }

  /** None of the statuses ends a deploy. */
  predicate NoneEnds(statuses: seq<string>) {
    forall k :: 0 <= k < |statuses| ==> statuses[k] != "completed" && statuses[k] != "failed"
  }

  function AllButLast(statuses: seq<string>): seq<string> {
    if statuses == [] then [] else statuses[..|statuses| - 1]
  }

  lemma OneMore(seen: seq<string>, status: string)
    ensures Emitted(seen + [status]) == Emitted(seen) + if status != LastOf(seen) then [status] else []
    ensures LastOf(seen + [status]) == status && AllButLast(seen + [status]) == seen
    ensures NoneEnds(seen) && status != "completed" && status != "failed" ==> NoneEnds(seen + [status])
    ensures NoneEnds(seen) ==> NoneEnds(AllButLast(seen)) && LastOf(seen) != "completed" && LastOf(seen) != "failed"
  {
    assert (seen + [status])[..|seen|] == seen;
  }

  /** What a poll adds to the statuses seen. */
  lemma AfterPoll(reply: nat -> Answer, from: nat, mid: nat, to: nat)
    requires from <= mid < to && forall k :: mid <= k < to - 1 ==> reply(k).Lost?
    ensures Observed(reply, from, to)
         == if reply(to - 1).Report? then Observed(reply, from, mid) + [reply(to - 1).status]
            else Observed(reply, from, mid)
  {
    LostAnswersShowNothing(reply, from, mid, to - 1);
  }

  lemma EndsMeans(status: string)
    ensures IsTerminal(status) <==> status == "completed" || status == "failed"
  {
  }

  method Conclude(status: string) returns (code: int)
    requires status == "completed" || status == "failed"
    ensures code == if status == "completed" then 0 else 5
  {
    if status == "completed" {
      return OK;
    }
    return DEPLOY_FAILED;
  }

  /** `deploy_wait_exit_code` gives the code with which waiting ends, and -1 for what
      does not end it. */
  lemma ExitCodesAre(status: string)
    ensures ExitCode(status) == if status == "completed" then 0 else if status == "failed" then 5 else -1
    ensures IsTerminal(status) <==> ExitCode(status) != -1
  {
  }

  /** Exit code and the changes printed on the way. The request count is bounded:
      a round costs at least half a second and at most four requests. */
  method Wait(d: Daemon, timeout: nat) returns (code: int, emitted: seq<string>)
    modifies d
    ensures emitted == Emitted(Observed(d.reply, old(d.asked), d.asked))
    ensures NoneEnds(AllButLast(Observed(d.reply, old(d.asked), d.asked)))
    ensures var end := LastOf(Observed(d.reply, old(d.asked), d.asked));
      && (code == 0 <==> end == "completed")
      && (code == 5 <==> end == "failed")
      && (code == 1 <==> end != "completed" && end != "failed"
                         && d.asked > old(d.asked) && d.reply(d.asked - 1).Lost?)
      && code in {0, 1, 5, 6}
    ensures code == 1 ==> d.asked >= old(d.asked) + 4
                          && forall k :: d.asked - 4 <= k < d.asked ==> d.reply(k).Lost?
    ensures code == 6 ==> d.now >= old(d.now) + timeout
    ensures 125 * (d.asked - old(d.asked)) <= timeout + 499
    ensures Spent(d.drift, old(d.now), old(d.ticks), d.now, d.ticks, Slept(d.reply, old(d.asked), d.asked))
  {
    hide Emitted, Observed, LastOf, AllButLast, NoneEnds, IsTerminal, Spent, Slept, Misses;
    var start, last := d.now, "";
    ghost var first, ticks, rounds := d.asked, d.ticks, 0;
    ghost var seen: seq<string> := [];
    emitted := [];
    NothingYet(d.reply, first);
    SleptOn(d.reply, first, first);
    NothingSpent(d.drift, start, ticks);
    while true
      invariant start == old(d.now) && ticks == old(d.ticks) && first == old(d.asked) <= d.asked
      invariant d.now >= start + 500 * rounds && d.asked - first <= 4 * rounds
      invariant 500 * rounds <= timeout + 499
      invariant seen == Observed(d.reply, first, d.asked)
      invariant emitted == Emitted(seen) && last == LastOf(seen) && NoneEnds(seen)
      invariant d.asked > first ==> !d.reply(d.asked - 1).Lost?
      invariant Misses(d.reply, first, d.asked) == 0
      invariant Spent(d.drift, start, ticks, d.now, d.ticks, Slept(d.reply, first, d.asked))
      decreases start + timeout - d.now
    {
      OneMore(seen, "");
      if d.now - start >= timeout {
        return TIMEOUT, emitted;
      }
      ghost var before := d.asked;
      var r := Poll(d, start, ticks, first);
      AfterPoll(d.reply, first, before, d.asked);
      SleptOn(d.reply, first, d.asked - 1);
      if r.Lost? {
        return GENERIC, emitted;
      }
      ghost var slept := Slept(d.reply, first, d.asked - 1);
      if r.Report? {
        OneMore(seen, r.status);
        EndsMeans(r.status);
        seen := seen + [r.status];
        if r.status != last {
          emitted := emitted + [r.status];
          last := r.status;
        }
        if IsTerminal(r.status) {
          code := Conclude(r.status);
          return code, emitted;
        }
        SpendsMore(d.drift, start, ticks, d.now, d.ticks, slept, 2000);
        d.Sleep(2000);
      } else {
        SpendsMore(d.drift, start, ticks, d.now, d.ticks, slept, 500);
        d.Sleep(500);
      }
      rounds := rounds + 1;
    }
  }

  lemma NothingYet(reply: nat -> Answer, first: nat)
    ensures Observed(reply, first, first) == [] && Emitted([]) == [] && LastOf([]) == "" && NoneEnds([])
  {
  }

  // ----- the printed changes -----

  /** Consecutive repeats removed. */
  function Collapsed(s: seq<string>): seq<string> {
    if |s| <= 1 then s
    else Collapsed(s[..|s| - 1]) + if s[|s| - 1] == s[|s| - 2] then [] else [s[|s| - 1]]
  }

  predicate NoRepeats(s: seq<string>) {
    forall k :: 0 < k < |s| ==> s[k - 1] != s[k]
  }

  lemma {:induction false} CollapsedMeaning(s: seq<string>)
    ensures NoRepeats(Collapsed(s))
    ensures s != [] ==> Collapsed(s) != [] && Collapsed(s)[0] == s[0] && LastOf(Collapsed(s)) == LastOf(s)
    ensures Collapsed(s) == s <==> NoRepeats(s)
    ensures |Collapsed(s)| <= |s|
  {
    if |s| > 1 {
      var init := s[..|s| - 1];
      CollapsedMeaning(init);
      assert NoRepeats(s) ==> NoRepeats(init) by {
        assert forall k :: 0 <= k < |init| ==> init[k] == s[k];
      }
      if NoRepeats(s) {
        assert s == init + [s[|s| - 1]];
      }
    }
  }

  /** The changes are the statuses, an unseen empty one in front, without
      consecutive repeats and without that front. */
  lemma {:induction false} EmittedIsCollapsed(statuses: seq<string>)
    ensures [""] + Emitted(statuses) == Collapsed([""] + statuses)
  {
    if statuses != [] {
      var n := |statuses|;
      var init := statuses[..n - 1];
      EmittedIsCollapsed(init);
      var s := [""] + statuses;
      assert s[..|s| - 1] == [""] + init;
      assert s[|s| - 2] == LastOf(init);
    }
  }

  lemma {:induction false} CollapsedFront(statuses: seq<string>)
    requires statuses != []
    ensures Collapsed([""] + statuses)
         == if statuses[0] == "" then Collapsed(statuses) else [""] + Collapsed(statuses)
  {
    var s, n := [""] + statuses, |statuses|;
    if n > 1 {
      assert s[..n] == [""] + statuses[..n - 1];
      CollapsedFront(statuses[..n - 1]);
    } else {
      assert s[..1] == [""] && Collapsed([""]) == [""];
    }
  }

  /** The changes are the statuses without their consecutive repeats unless the
      first status is empty, which is then not printed. */
  lemma {:induction false} EmittedExactlyWhen(statuses: seq<string>)
    ensures Emitted(statuses) == Collapsed(statuses) <==> statuses == [] || statuses[0] != ""
    ensures statuses != [] && statuses[0] == "" ==> [""] + Emitted(statuses) == Collapsed(statuses)
  {
    EmittedIsCollapsed(statuses);
    if statuses != [] {
      CollapsedFront(statuses);
      if statuses[0] == "" {
        assert |Emitted(statuses)| + 1 == |Collapsed(statuses)|;
      } else {
        assert Emitted(statuses) == ([""] + Emitted(statuses))[1..];
        assert Collapsed(statuses) == ([""] + Collapsed(statuses))[1..];
      }
    }
  }
}
