/** Worlds that runs of renewals and upserts reach, segment by segment. */
module Reachable {
  import opened Prelude
  import opened Names
  import opened CaddyServer
  import U = TlsUpsert
  import R = Renewal
  import opened Restoration
  import opened SharedCaddy
  import opened Settling

  ghost predicate AllKnown(labels: seq<Label>, targets: map<string, nat>) {
    forall l :: l in labels ==> Known(l, targets)
  }

  /** A run of renewals of the targets; if so required, one with clear windows. */
  ghost predicate Allowed(w: World, labels: seq<Label>, targets: map<string, nat>, clear: bool) {
    AllKnown(labels, targets) && (clear ==> ClearRun(w, labels))
  }

  predicate Beginning(w: World) { w.tasks == map[] && w.locks == map[] }

  // ----- segments -----

  ghost predicate Reaches(w: World, w': World, targets: map<string, nat>, clear: bool) {
    exists labels :: Allowed(w, labels, targets, clear) && Run(w, labels) == w'
  }

  lemma {:induction false} RunConcat(w: World, xs: seq<Label>, ys: seq<Label>)
    ensures Run(w, xs + ys) == Run(Run(w, xs), ys)
    ensures ClearRun(w, xs + ys) <==> ClearRun(w, xs) && ClearRun(Run(w, xs), ys)
    decreases |xs|
  {
    hide Act, Clear;
    if xs == [] {
      assert xs + ys == ys;
    } else {
      assert (xs + ys)[1..] == xs[1..] + ys;
      RunConcat(Act(w, xs[0]), xs[1..], ys);
    }
  }

  lemma ARun(w: World, w': World, targets: map<string, nat>, clear: bool) returns (labels: seq<Label>)
    requires Reaches(w, w', targets, clear)
    ensures Allowed(w, labels, targets, clear) && Run(w, labels) == w'
  {
    labels :| Allowed(w, labels, targets, clear) && Run(w, labels) == w';
  }

  lemma Stays(w: World, targets: map<string, nat>, clear: bool)
    ensures Reaches(w, w, targets, clear)
  {
    assert Allowed(w, [], targets, clear) && Run(w, []) == w;
  }

  lemma Onward(w: World, w': World, w'': World, targets: map<string, nat>, clear: bool)
    requires Reaches(w, w', targets, clear) && Reaches(w', w'', targets, clear)
    ensures Reaches(w, w'', targets, clear)
  {
    var xs := ARun(w, w', targets, clear);
    var ys := ARun(w', w'', targets, clear);
    RunConcat(w, xs, ys);
    assert Allowed(w, xs + ys, targets, clear);
  }

  lemma OneAct(w: World, l: Label, targets: map<string, nat>, clear: bool)
    requires Known(l, targets) && (clear ==> Clear(w, l))
    ensures Reaches(w, Act(w, l), targets, clear)
  {
    hide Act, Clear;
    assert [l][1..] == [];
    assert Run(w, [l]) == Run(Act(w, l), []) && (ClearRun(w, [l]) <==> Clear(w, l));
    assert Allowed(w, [l], targets, clear);
  }

  /** The world with one task and the server moved on. */
  function Moved(w: World, tid: nat, t: R.Task, s: Server): World {
    w.(server := s, tasks := w.tasks[tid := t],
       locks := if t.pc.Ended? then w.locks[t.host := None] else w.locks)
  }

  lemma Moves(w: World, tid: nat, a: Answer, v: R.Verdict, t: R.Task, s: Server, targets: map<string, nat>, clear: bool)
    requires Active(w, tid) && R.Step(w.tasks[tid], w.server, a, v) == (t, s)
    requires clear ==> Fresh(w.tasks[tid], w.server)
    ensures Reaches(w, Moved(w, tid, t, s), targets, clear)
  {
    OneAct(w, Advance(tid, a, v), targets, clear);
  }

  lemma MovedTwice(w: World, tid: nat, t: R.Task, s: Server, t': R.Task, s': Server)
    requires !t.pc.Ended?
    ensures Moved(Moved(w, tid, t, s), tid, t', s') == Moved(w, tid, t', s')
  {
    assert w.tasks[tid := t][tid := t'] == w.tasks[tid := t'];
  }

  /** One more move of a task that has moved before. */
  lemma MovesOn(w: World, tid: nat, t: R.Task, s: Server, a: Answer, v: R.Verdict, t': R.Task, s': Server,
                targets: map<string, nat>, clear: bool)
    requires Reaches(w, Moved(w, tid, t, s), targets, clear) && !t.pc.Ended?
    requires R.Step(t, s, a, v) == (t', s') && Fresh(t, s)
    ensures Reaches(w, Moved(w, tid, t', s'), targets, clear)
  {
    hide R.Step, Reaches;
    Moves(Moved(w, tid, t, s), tid, a, v, t', s', targets, clear);
    MovedTwice(w, tid, t, s, t', s');
    Onward(w, Moved(w, tid, t, s), Moved(w, tid, t', s'), targets, clear);
  }

  /** A ratio write, everything delivered: by identifier, or by index if the
      identifier names nothing. */
  lemma Writes(w: World, tid: nat, t: R.Task, s: Server, stage: R.Stage, i: nat, targets: map<string, nat>, clear: bool)
    requires Reaches(w, Moved(w, tid, t, s), targets, clear) && t.pc == R.WriteById(stage)
    requires s.keyExists && Aligned(s.policies, t.host, i)
    ensures var s' := WithTarget(s, i, R.Target(t, stage));
      Reaches(w, Moved(w, tid, t.(pc := R.ReadConfig(stage)), s'), targets, clear)
  {
    hide Reaches;
    var v, done, s' := R.NO_VERDICT, t.(pc := R.ReadConfig(stage)), WithTarget(s, i, R.Target(t, stage));
    if IndexOfId(s.policies, TlsId(t.host)).Some? {
      MovesOn(w, tid, t, s, Deliver, v, done, s', targets, clear);
    } else {
      var finding, at := t.(pc := R.Finding(stage)), t.(pc := R.WriteAt(stage, i));
      MovesOn(w, tid, t, s, Deliver, v, finding, s, targets, clear);
      MovesOn(w, tid, finding, s, Deliver, v, at, s, targets, clear);
      MovesOn(w, tid, at, s, Deliver, v, done, s', targets, clear);
    }
  }

  /** Up to the reading of its first reload. The check for a certificate manager is
      refused, which counts as "not managed". */
  function Bumped(w: World, tid: nat, host: string, i: nat): World
    requires i < |w.server.policies|
  {
    var s := WithTarget(w.server, i, Some(1.0));
    var t := R.Task(host, w.server.policies[i].body.ratio, R.NO_VERDICT, R.PostConfig(R.Bumping, s));
    Moved(w.(locks := w.locks[host := Some(tid)]), tid, t, s)
  }

  lemma BumpsAndReads(w: World, tid: nat, host: string, i: nat, targets: map<string, nat>, clear: bool)
    requires tid !in w.tasks && Free(w, host) && host in targets
    requires w.server.keyExists && Aligned(w.server.policies, host, i)
    ensures Reaches(w, Bumped(w, tid, host, i), targets, clear)
  {
    hide Reaches;
    var s, v, original := WithTarget(w.server, i, Some(1.0)), R.NO_VERDICT, w.server.policies[i].body.ratio;
    var w1 := w.(locks := w.locks[host := Some(tid)]);
    var t := R.Task(host, None, v, R.Checking);
    OneAct(w, Arrive(tid, host), targets, clear);
    var start := Moved(w1, tid, t, w.server);
    assert Act(w, Arrive(tid, host)) == start;
    assert start.tasks[tid := t] == start.tasks;
    assert Moved(start, tid, t, w.server) == start;
    Stays(start, targets, clear);
    MovesOn(start, tid, t, w.server, Refuse, v, t.(pc := R.Capturing), w.server, targets, clear);
    var t1 := t.(original := original, pc := R.WriteById(R.Bumping));
    MovesOn(start, tid, t.(pc := R.Capturing), w.server, Deliver, v, t1, w.server, targets, clear);
    Writes(start, tid, t1, w.server, R.Bumping, i, targets, clear);
    MovesOn(start, tid, t1.(pc := R.ReadConfig(R.Bumping)), s, Deliver, v,
            t1.(pc := R.PostConfig(R.Bumping, s)), s, targets, clear);
    MovedTwice(w1, tid, t, w.server, t1.(pc := R.PostConfig(R.Bumping, s)), s);
    Onward(w, start, Bumped(w, tid, host, i), targets, clear);
  }

  /** The same, and on through its first reload. */
  function Polls(w: World, tid: nat, host: string, i: nat): World
    requires i < |w.server.policies|
  {
    var b := Bumped(w, tid, host, i);
    Moved(b, tid, b.tasks[tid].(pc := R.Polling), b.server)
  }

  lemma BumpsAndPolls(w: World, tid: nat, host: string, i: nat, targets: map<string, nat>, clear: bool)
    requires tid !in w.tasks && Free(w, host) && host in targets
    requires w.server.keyExists && Aligned(w.server.policies, host, i)
    ensures Reaches(w, Polls(w, tid, host, i), targets, clear)
  {
    assert i < |w.server.policies|;
    hide Reaches, Aligned;
    var b := Bumped(w, tid, host, i);
    BumpsAndReads(w, tid, host, i, targets, clear);
    Moves(b, tid, Deliver, R.NO_VERDICT, b.tasks[tid].(pc := R.Polling), b.server, targets, clear);
    Onward(w, b, Polls(w, tid, host, i), targets, clear);
  }

  const RENEWED := R.Verdict(true, false)

  function Successful(t: R.Task): R.Task { t.(verdict := RENEWED, pc := R.Ended(R.Outcome.Success)) }

  /** From polling to a verified restoration. */
  lemma RestoresAndSucceeds(w: World, tid: nat, i: nat, targets: map<string, nat>, clear: bool)
    requires tid in w.tasks && w.tasks[tid].pc == R.Polling
    requires w.server.keyExists && Aligned(w.server.policies, w.tasks[tid].host, i)
    ensures var t := w.tasks[tid];
      Reaches(w, Moved(w, tid, Successful(t), WithTarget(w.server, i, t.original)), targets, clear)
  {
    hide Reaches;
    var t, s := w.tasks[tid], w.server;
    var s', t1 := WithTarget(s, i, t.original), t.(verdict := RENEWED);
    assert w.tasks[tid := t] == w.tasks && Moved(w, tid, t, s) == w;
    Stays(w, targets, clear);
    MovesOn(w, tid, t, s, Deliver, RENEWED, t1.(pc := R.WriteById(R.Restoring)), s, targets, clear);
    Writes(w, tid, t1.(pc := R.WriteById(R.Restoring)), s, R.Restoring, i, targets, clear);
    SameSkeleton(s.policies, s'.policies, t.host);
    Verifies(w, tid, t1, s', Deliver, targets, clear);
  }

  /** The reload after the restore, and a verification that finds the ratio or is
      lost. */
  lemma Verifies(w: World, tid: nat, t: R.Task, s: Server, a: Answer, targets: map<string, nat>, clear: bool)
    requires Reaches(w, Moved(w, tid, t.(pc := R.ReadConfig(R.Restoring)), s), targets, clear)
    requires t.verdict == RENEWED && s.keyExists
    requires a.Lose? || (a.Deliver? && FirstCover(s.policies, t.host).Some?
                         && s.policies[FirstCover(s.policies, t.host).value].body.ratio == t.original)
    ensures Reaches(w, Moved(w, tid, Successful(t), s), targets, clear)
  {
    hide Reaches, FirstCover;
    MovesOn(w, tid, t.(pc := R.ReadConfig(R.Restoring)), s, Deliver, RENEWED,
            t.(pc := R.PostConfig(R.Restoring, s)), s, targets, clear);
    MovesOn(w, tid, t.(pc := R.PostConfig(R.Restoring, s)), s, Deliver, RENEWED,
            t.(pc := R.Verifying), s, targets, clear);
    MovesOn(w, tid, t.(pc := R.Verifying), s, a, RENEWED, Successful(t), s, targets, clear);
  }

  lemma StillAligned(s: Server, i: nat, ratio: Option<real>, host: string, k: nat)
    requires i < |s.policies| && Aligned(s.policies, host, k)
    ensures Aligned(WithTarget(s, i, ratio).policies, host, k)
  {
    assert RatioOnly(s, WithTarget(s, i, ratio), i);
    RatioOnlyKeepsAligned(s, WithTarget(s, i, ratio), i, host, k);
  }

  /** The world with one upsert and the server moved on. */
  function Ticked(w: World, k: nat, pc: U.Pc, s: Server): World
    requires k < |w.upserts|
  {
    w.(server := s, upserts := w.upserts[k := w.upserts[k].(pc := pc)])
  }

  /** One more request of an upsert that has sent some before. */
  lemma TicksOn(w: World, k: nat, pc: U.Pc, s: Server, a: Answer, pc': U.Pc, s': Server,
                targets: map<string, nat>, clear: bool)
    requires k < |w.upserts| && Reaches(w, Ticked(w, k, pc, s), targets, clear)
    requires U.Step(w.upserts[k].(pc := pc), s, a) == (w.upserts[k].(pc := pc'), s')
    ensures Reaches(w, Ticked(w, k, pc', s'), targets, clear)
  {
    hide Reaches, U.Step;
    var w' := Ticked(w, k, pc, s);
    OneAct(w', Tick(k, a), targets, clear);
    assert w'.upserts[k := w.upserts[k].(pc := pc')] == w.upserts[k := w.upserts[k].(pc := pc')];
    assert Act(w', Tick(k, a)) == Ticked(w, k, pc', s');
    Onward(w, w', Ticked(w, k, pc', s'), targets, clear);
  }

  const DONE: U.Pc := U.Finished(U.Upserted)

  function Appended(s: Server, p: Policy): Server { s.(policies := s.policies + [p]) }

  /** An upsert that has not ended can append its policy: if it has yet to read, by
      a refused read. */
  lemma Appends(w: World, k: nat, targets: map<string, nat>, clear: bool)
    requires k < |w.upserts| && w.server.keyExists && !w.upserts[k].pc.Finished?
    requires w.upserts[k].pc.Replacing? ==> IndexOfId(w.server.policies, U.OwnId(w.upserts[k].desired)).None?
    ensures Reaches(w, Ticked(w, k, DONE, Appended(w.server, U.Stamped(w.upserts[k].desired))), targets, clear)
  {
    hide Reaches;
    var c, s := w.upserts[k], w.server;
    assert Ticked(w, k, c.pc, s) == w;
    Stays(w, targets, clear);
    if c.pc.Reading? {
      TicksOn(w, k, c.pc, s, Refuse, U.Creating, s, targets, clear);
      TicksOn(w, k, U.Creating, s, Deliver, U.Appending, s, targets, clear);
    } else if c.pc.Creating? || c.pc.Replacing? {
      TicksOn(w, k, c.pc, s, Deliver, U.Appending, s, targets, clear);
    }
    TicksOn(w, k, U.Appending, s, Deliver, DONE, Appended(s, U.Stamped(c.desired)), targets, clear);
  }

  function Replaced(s: Server, i: nat, p: Policy): Server
    requires i < |s.policies|
  {
    s.(policies := s.policies[i := p])
  }

  /** Everything delivered, an upsert of a policy that is there puts it in place. */
  lemma Replaces(w: World, k: nat, i: nat, targets: map<string, nat>, clear: bool)
    requires k < |w.upserts| && w.server.keyExists && Writer(w.upserts[k].pc)
    requires IndexOfId(w.server.policies, U.OwnId(w.upserts[k].desired)) == Some(i)
    ensures Reaches(w, Ticked(w, k, DONE, Replaced(w.server, i, U.Stamped(w.upserts[k].desired))), targets, clear)
  {
    hide Reaches;
    var c, s := w.upserts[k], w.server;
    var s' := Replaced(s, i, U.Stamped(c.desired));
    assert Ticked(w, k, c.pc, s) == w;
    Stays(w, targets, clear);
    if c.pc.Reading? {
      if s.policies[i].body == c.desired {
        assert s.policies[i] == U.Stamped(c.desired) && s' == s;
        TicksOn(w, k, c.pc, s, Deliver, DONE, s, targets, clear);
        return;
      }
      TicksOn(w, k, c.pc, s, Deliver, U.Replacing, s, targets, clear);
    }
    TicksOn(w, k, U.Replacing, s, Deliver, DONE, s', targets, clear);
  }
}
