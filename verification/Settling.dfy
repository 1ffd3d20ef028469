/** What renewals and upserts, interleaved, do to the policy of one renewed host,
    upserts of that very policy included. A policy is settled when it shows a
    body and a ratio that somebody wants: the start's, or an upsert's. The
    temporary ratio of a renewal is on its way out unless a task has reported
    that it may have left it. */
module Settling {
  import opened Prelude
  import opened Names
  import opened CaddyServer
  import U = TlsUpsert
  import R = Renewal
  import opened Restoration
  import opened SharedCaddy

  // ----- what somebody wants -----

  /** The client may still replace a policy. */
  predicate Writer(pc: U.Pc) { pc.Reading? || pc.Replacing? }

  /** The upsert goes by the identifier of the policy at `i`. */
  predicate Owns(start: World, k: nat, i: nat) {
    && k < |start.upserts| && i < |start.server.policies|
    && start.server.policies[i].id == Some(U.OwnId(start.upserts[k].desired))
  }

  /** The policy of the start, or that of an upsert that may replace it. */
  ghost predicate Wanted(start: World, i: nat, p: Policy)
    requires i < |start.server.policies|
  {
    || p == start.server.policies[i]
    || exists k: nat :: Owns(start, k, i) && Writer(start.upserts[k].pc) && p == U.Stamped(start.upserts[k].desired)
  }

  ghost predicate WantedRatio(start: World, i: nat, ratio: Option<real>)
    requires i < |start.server.policies|
  {
    exists p :: Wanted(start, i, p) && p.body.ratio == ratio
  }

  /** Some wanted policy, ratio aside. */
  ghost predicate Shaped(start: World, i: nat, p: Policy)
    requires i < |start.server.policies|
  {
    exists q :: Wanted(start, i, q) && p == WithRatio(q, p.body.ratio)
  }

  ghost predicate Settled(start: World, i: nat, p: Policy)
    requires i < |start.server.policies|
  {
    Shaped(start, i, p) && WantedRatio(start, i, p.body.ratio)
  }

  /** Settled, but for the temporary ratio. */
  ghost predicate Passable(start: World, i: nat, p: Policy)
    requires i < |start.server.policies|
  {
    Shaped(start, i, p) && (WantedRatio(start, i, p.body.ratio) || p.body.ratio == Some(1.0))
  }

  lemma WantedIsSettled(start: World, i: nat, p: Policy)
    requires i < |start.server.policies| && Wanted(start, i, p)
    ensures Settled(start, i, p) && Passable(start, i, p)
  {
    assert p == WithRatio(p, p.body.ratio);
  }

  lemma RatioWritten(start: World, i: nat, p: Policy, ratio: Option<real>)
    requires i < |start.server.policies| && Passable(start, i, p)
    ensures WantedRatio(start, i, ratio) ==> Settled(start, i, WithRatio(p, ratio))
    ensures WantedRatio(start, i, ratio) || ratio == Some(1.0) ==> Passable(start, i, WithRatio(p, ratio))
  {
    var q :| Wanted(start, i, q) && p == WithRatio(q, p.body.ratio);
    assert WithRatio(p, ratio) == WithRatio(q, ratio);
  }

  lemma SettledMeans(start: World, i: nat, p: Policy)
    requires i < |start.server.policies|
    ensures Settled(start, i, p) ==> Passable(start, i, p) && WantedRatio(start, i, p.body.ratio)
    ensures Passable(start, i, p) && WantedRatio(start, i, Some(1.0)) ==> Settled(start, i, p)
  {
  }

  // ----- where writes land -----

  /** An upsert that has not ended could append a policy with the identifier of a
      host that has none yet; the host's ratio writes would then go there. */
  predicate Stray(start: World, host: string) {
    && IndexOfId(start.server.policies, TlsId(host)).None?
    && exists k :: 0 <= k < |start.upserts| && Strays(start.upserts[k], host)
  }

  predicate Strays(c: U.Upsert, host: string) { !c.pc.Finished? && U.OwnId(c.desired) == TlsId(host) }

  /** The identifier of the policy is that of an upsert that had not ended. */
  ghost predicate Late(start: World, p: Policy) {
    exists k :: 0 <= k < |start.upserts| && !start.upserts[k].pc.Finished?
             && p.id == Some(U.OwnId(start.upserts[k].desired))
  }

  /** Every subject list an identifier of an upsert stands for is the upsert's. */
  predicate Faithful(start: World, ps: seq<Policy>) {
    forall k, i :: 0 <= k < |start.upserts| && 0 <= i < |ps| && ps[i].id == Some(U.OwnId(start.upserts[k].desired))
      ==> ps[i].body.subjects == start.upserts[k].desired.subjects
  }

  /** The array has only grown since the start, by policies of late upserts. */
  ghost predicate Grown(start: World, s: Server) {
    && s.keyExists && Extends(start.server.policies, s.policies) && Faithful(start, s.policies)
    && forall j :: |start.server.policies| <= j < |s.policies| ==> Late(start, s.policies[j])
  }

  /** The host goes by policy `i`; its identifier names that one, none, or one that
      came later than the first `n`. */
  predicate Near(ps: seq<Policy>, host: string, i: nat, n: nat) {
    && i < n <= |ps| && FirstCover(ps, host) == Some(i)
    && (IndexOfId(ps, TlsId(host)).Some? ==>
          IndexOfId(ps, TlsId(host)).value == i || IndexOfId(ps, TlsId(host)).value >= n)
  }

  lemma {:induction false} IdIndexStays(ps: seq<Policy>, qs: seq<Policy>, id: string)
    requires Extends(ps, qs)
    ensures IndexOfId(ps, id).Some? ==> IndexOfId(qs, id) == IndexOfId(ps, id)
    ensures IndexOfId(ps, id).None? && IndexOfId(qs, id).Some? ==> IndexOfId(qs, id).value >= |ps|
  {
    if ps != [] {
      IdIndexStays(ps[1..], qs[1..], id);
    }
  }

  lemma GrownNear(start: World, s: Server, targets: map<string, nat>, h: string)
    requires Apart(start, targets) && Grown(start, s) && h in targets
    ensures s.keyExists && Near(s.policies, h, targets[h], |start.server.policies|)
    ensures !Stray(start, h) && IndexOfId(s.policies, TlsId(h)).Some? ==>
              IndexOfId(s.policies, TlsId(h)).value == targets[h]
  {
    assert Aligned(start.server.policies, h, targets[h]);
    FirstCoverExtends(start.server.policies, s.policies, h);
    IdIndexStays(start.server.policies, s.policies, TlsId(h));
    var r := IndexOfId(s.policies, TlsId(h));
    if r.Some? && r.value >= |start.server.policies| {
      assert Late(start, s.policies[r.value]);
      var k :| 0 <= k < |start.upserts| && !start.upserts[k].pc.Finished?
            && s.policies[r.value].id == Some(U.OwnId(start.upserts[k].desired));
      assert Strays(start.upserts[k], h);
    }
  }

  function WithTarget(s: Server, i: nat, ratio: Option<real>): Server
    requires i < |s.policies|
  {
    s.(policies := s.policies[i := WithRatio(s.policies[i], ratio)])
  }

  /** The policy a ratio write would go to. */
  function Landing(t: R.Task, s: Server): Option<nat> {
    if t.pc.WriteAt? then Some(t.pc.index) else IndexOfId(s.policies, TlsId(t.host))
  }

  /** A step of a renewal, its reloads fresh or stale: nothing, a ratio, or what the
      reload had read. */
  lemma StepEffect(t: R.Task, s: Server, a: Answer, v: R.Verdict, j: nat, n: nat)
    requires s.keyExists && Near(s.policies, t.host, j, n) && (t.pc.WriteAt? ==> t.pc.index == j)
    ensures var (t', s') := R.Step(t, s, a, v);
      && t'.host == t.host
      && (t'.pc.WriteAt? ==> t'.pc.index == j)
      && (t'.pc.PostConfig? ==> t'.pc.snapshot == s == s' || t' == t)
      && (|| s' == s
          || (Writing(t.pc) && Landing(t, s).Some? && Landing(t, s).value < |s.policies|
              && s' == WithTarget(s, Landing(t, s).value, R.Target(t, t.pc.stage)))
          || (t.pc.PostConfig? && s' == t.pc.snapshot))
  {
    hide FirstCover, Covers, TlsId;
  }

  lemma RatioKeepsGrown(start: World, s: Server, i: nat, ratio: Option<real>)
    requires Grown(start, s) && i < |s.policies|
    ensures Grown(start, WithTarget(s, i, ratio))
  {
    var s' := WithTarget(s, i, ratio);
    forall j | |start.server.policies| <= j < |s'.policies|
      ensures Late(start, s'.policies[j])
    {
      assert Late(start, s.policies[j]);
    }
  }

  /** A client as it can have become of what it was. */
  predicate Follows(c: U.Upsert, c': U.Upsert) {
    c'.desired == c.desired && (c.pc.Finished? ==> c' == c) && (Writer(c'.pc) ==> Writer(c.pc))
  }

  predicate Lasting(start: World, w: World) {
    |w.upserts| == |start.upserts| && forall k :: 0 <= k < |w.upserts| ==> Follows(start.upserts[k], w.upserts[k])
  }

  /** A step of an upsert: nothing, its policy at the end, or its policy in place of
      the first that carries its identifier. */
  lemma UpsertEffect(c: U.Upsert, s: Server, a: Answer)
    requires s.keyExists
    ensures var (c', s') := U.Step(c, s, a);
      && Follows(c, c')
      && (|| s' == s
          || (!c.pc.Finished? && s' == s.(policies := s.policies + [U.Stamped(c.desired)]))
          || (Writer(c.pc) && IndexOfId(s.policies, U.OwnId(c.desired)).Some?
              && var i := IndexOfId(s.policies, U.OwnId(c.desired)).value;
                 s' == s.(policies := s.policies[i := U.Stamped(c.desired)])))
  {
    hide U.Decide, U.OwnId;
  }

  lemma AppendKeepsGrown(start: World, s: Server, k: nat)
    requires Tidy(start) && Grown(start, s) && k < |start.upserts| && !start.upserts[k].pc.Finished?
    ensures Grown(start, s.(policies := s.policies + [U.Stamped(start.upserts[k].desired)]))
  {
    hide U.OwnId;
    var p := U.Stamped(start.upserts[k].desired);
    var qs := s.policies + [p];
    assert Late(start, p);
    forall j | |start.server.policies| <= j < |qs|
      ensures Late(start, qs[j])
    {
      assert j < |s.policies| ==> Late(start, s.policies[j]);
    }
  }

  lemma ReplaceKeepsGrown(start: World, s: Server, k: nat, i: nat)
    requires Tidy(start) && Grown(start, s) && k < |start.upserts|
    requires i < |s.policies| && s.policies[i].id == Some(U.OwnId(start.upserts[k].desired))
    ensures Grown(start, s.(policies := s.policies[i := U.Stamped(start.upserts[k].desired)]))
  {
    hide U.OwnId;
    var qs := s.policies[i := U.Stamped(start.upserts[k].desired)];
    forall j | |start.server.policies| <= j < |qs|
      ensures Late(start, qs[j])
    {
      assert Late(start, s.policies[j]);
    }
  }

  lemma TickGrows(start: World, s: Server, c: U.Upsert, k: nat, a: Answer)
    requires Tidy(start) && Grown(start, s) && k < |start.upserts| && Follows(start.upserts[k], c)
    ensures Grown(start, U.Step(c, s, a).1)
  {
    hide Tidy, Late, U.Step, Faithful;
    UpsertEffect(c, s, a);
    var s', p := U.Step(c, s, a).1, U.Stamped(c.desired);
    if s' != s && s' == s.(policies := s.policies + [p]) {
      AppendKeepsGrown(start, s, k);
    } else if s' != s {
      ReplaceKeepsGrown(start, s, k, IndexOfId(s.policies, U.OwnId(c.desired)).value);
    }
  }

  /** A policy of the start stays or becomes wanted. */
  lemma TickKeeps(start: World, s: Server, c: U.Upsert, k: nat, a: Answer, i: nat)
    requires Grown(start, s) && i < |start.server.policies|
    requires k < |start.upserts| && Follows(start.upserts[k], c)
    ensures var s' := U.Step(c, s, a).1;
      && i < |s.policies| && i < |s'.policies|
      && (s'.policies[i] == s.policies[i] || Wanted(start, i, s'.policies[i]))
  {
    hide Late, U.Step, Faithful;
    UpsertEffect(c, s, a);
    var r := IndexOfId(s.policies, U.OwnId(c.desired));
    if Writer(c.pc) && r == Some(i) {
      assert Owns(start, k, i);
      assert Wanted(start, i, U.Stamped(c.desired));
    }
  }

  // ----- the invariant -----

  ghost predicate Lawful(start: World, t: R.Task, targets: map<string, nat>) {
    && t.host in targets
    && (t.pc.WriteAt? ==> t.pc.index == targets[t.host])
    && (t.pc.PostConfig? ==> Grown(start, t.pc.snapshot))
  }

  ghost predicate Grounded(start: World, w: World, targets: map<string, nat>) {
    && LocksHeld(w) && Lasting(start, w) && Grown(start, w.server)
    && forall tid :: Active(w, tid) ==> Lawful(start, w.tasks[tid], targets)
  }

  lemma GroundedAdvance(start: World, w: World, l: Label, targets: map<string, nat>)
    requires Apart(start, targets) && Grounded(start, w, targets) && l.Advance? && Active(w, l.tid)
    ensures Grounded(start, Act(w, l), targets)
  {
    hide Grown, LocksHeld, Apart, Near;
    var t, j := w.tasks[l.tid], targets[w.tasks[l.tid].host];
    LocksStep(w, l);
    GrownNear(start, w.server, targets, t.host);
    StepEffect(t, w.server, l.answer, l.verdict, j, |start.server.policies|);
    hide R.Step;
    var landing := Landing(t, w.server);
    if Writing(t.pc) && landing.Some? && landing.value < |w.server.policies| {
      RatioKeepsGrown(start, w.server, landing.value, R.Target(t, t.pc.stage));
    }
    forall tid | Active(Act(w, l), tid)
      ensures Lawful(start, Act(w, l).tasks[tid], targets)
    {
      assert Active(w, tid);
    }
  }

  lemma GroundedOtherwise(start: World, w: World, l: Label, targets: map<string, nat>)
    requires Tidy(start) && Grounded(start, w, targets) && Known(l, targets) && !l.Advance?
    ensures Grounded(start, Act(w, l), targets)
  {
    hide Grown, LocksHeld, Tidy, U.Step, Follows;
    LocksStep(w, l);
    if l.Tick? && l.client < |w.upserts| {
      TickGrows(start, w.server, w.upserts[l.client], l.client, l.answer);
      FollowsOn(start.upserts[l.client], w.upserts[l.client], w.server, l.answer);
    }
    forall tid | Active(Act(w, l), tid)
      ensures Lawful(start, Act(w, l).tasks[tid], targets)
    {
      assert tid in w.tasks ==> Active(w, tid);
    }
  }

  lemma FollowsOn(c: U.Upsert, c': U.Upsert, s: Server, a: Answer)
    requires Follows(c, c')
    ensures Follows(c, U.Step(c', s, a).0)
  {
    hide U.Decide, U.OwnId;
  }

  lemma GroundedStep(start: World, w: World, l: Label, targets: map<string, nat>)
    requires Tidy(start) && Apart(start, targets) && Grounded(start, w, targets) && Known(l, targets)
    ensures Grounded(start, Act(w, l), targets)
  {
    hide Grounded, Tidy, Apart;
    if l.Advance? && Active(w, l.tid) {
      GroundedAdvance(start, w, l, targets);
    } else if !l.Advance? {
      GroundedOtherwise(start, w, l, targets);
    }
  }

  /** Before its bump and after its restore, a task finds the policy settled. */
  predicate Quiet(pc: R.Pc) {
    match pc
    case Checking => true
    case Capturing => true
    case WriteById(stage) => stage.Bumping?
    case Finding(stage) => stage.Bumping?
    case WriteAt(stage, _) => stage.Bumping?
    case ReadConfig(stage) => stage.Restoring?
    case PostConfig(stage, _) => stage.Restoring?
    case Polling => false
    case Verifying => true
    case Ended(outcome) => !MayLeaveBumped(outcome)
  }

  /** The host's own task and its policy. */
  ghost predicate OnCourse(start: World, i: nat, t: R.Task, s: Server)
    requires i < |start.server.policies|
  {
    && i < |s.policies| && Passable(start, i, s.policies[i])
    && (Quiet(t.pc) ==> Settled(start, i, s.policies[i]))
    && (t.pc.Checking? || t.pc.Capturing? || t.pc.Ended? || WantedRatio(start, i, t.original))
    && (t.pc.PostConfig? ==>
          && i < |t.pc.snapshot.policies| && Passable(start, i, t.pc.snapshot.policies[i])
          && (Quiet(t.pc) ==> Settled(start, i, t.pc.snapshot.policies[i])))
  }

  /** The ratio write of the host's own task goes to the policy, or it does not
      matter where it goes. */
  ghost predicate Lands(start: World, i: nat, t: R.Task, s: Server)
    requires i < |start.server.policies|
  {
    IndexOfId(s.policies, TlsId(t.host)) in {None, Some(i)} || WantedRatio(start, i, Some(1.0))
  }

  lemma OwnStep(start: World, t: R.Task, s: Server, a: Answer, v: R.Verdict, i: nat)
    requires s.keyExists && i < |start.server.policies| && Near(s.policies, t.host, i, |start.server.policies|)
    requires (t.pc.WriteAt? ==> t.pc.index == i) && OnCourse(start, i, t, s) && Lands(start, i, t, s) && !t.pc.Ended?
    ensures var (t', s') := R.Step(t, s, a, v); OnCourse(start, i, t', s')
  {
    hide FirstCover, Covers, TlsId, Settled, Passable, WantedRatio;
    RatioWritten(start, i, s.policies[i], Some(1.0));
    RatioWritten(start, i, s.policies[i], t.original);
    var s' := R.Step(t, s, a, v).1;
    SettledMeans(start, i, s.policies[i]);
    SettledMeans(start, i, s'.policies[i]);
  }

  /** Somebody else changes nothing of the policy, or settles it. */
  lemma OnCourseFrame(start: World, i: nat, t: R.Task, s: Server, s': Server)
    requires i < |start.server.policies| && OnCourse(start, i, t, s) && i < |s'.policies|
    requires s'.policies[i] == s.policies[i] || Settled(start, i, s'.policies[i])
    ensures OnCourse(start, i, t, s')
  {
    hide Shaped, WantedRatio;
    SettledMeans(start, i, s'.policies[i]);
  }

  /** What a task keeps of one policy whatever has gone wrong before. */
  ghost predicate Harmless(start: World, i: nat, host: string, t: R.Task)
    requires i < |start.server.policies|
  {
    && (t.pc.PostConfig? ==> i < |t.pc.snapshot.policies| && Passable(start, i, t.pc.snapshot.policies[i]))
    && (t.host == host && !t.pc.Checking? && !t.pc.Capturing? && !t.pc.Ended? ==>
          WantedRatio(start, i, t.original) || t.original == Some(1.0))
  }

  ghost predicate Settles(start: World, w: World, host: string, i: nat)
    requires i < |start.server.policies|
  {
    && i < |w.server.policies| && Passable(start, i, w.server.policies[i])
    && (forall tid :: Active(w, tid) ==> Harmless(start, i, host, w.tasks[tid]))
    && (!Spoiled(w, host) ==>
          && (Free(w, host) ==> Settled(start, i, w.server.policies[i]))
          && forall tid :: Active(w, tid) && w.tasks[tid].host == host ==> OnCourse(start, i, w.tasks[tid], w.server))
  }

  /** Steps after which the policy keeps settling: no stale reload, or none of
      another host, or none that could bring an unwanted ratio back. */
  ghost predicate Mild(start: World, w: World, l: Label, targets: map<string, nat>, host: string, i: nat)
    requires i < |start.server.policies|
  {
    Clear(w, l) || targets.Keys == {host} || WantedRatio(start, i, Some(1.0))
  }

  ghost predicate Sure(start: World, host: string, i: nat)
    requires i < |start.server.policies|
  {
    !Stray(start, host) || WantedRatio(start, i, Some(1.0))
  }

  /** Any step of a renewal leaves the policy passable; of another host, as it is or
      as the reload had read it. */
  lemma StaysPassable(start: World, t: R.Task, s: Server, a: Answer, v: R.Verdict, j: nat, host: string, i: nat)
    requires s.keyExists && Near(s.policies, t.host, j, |start.server.policies|) && (t.pc.WriteAt? ==> t.pc.index == j)
    requires i < |start.server.policies| && Passable(start, i, s.policies[i]) && Harmless(start, i, host, t)
    requires !t.pc.Ended? && (t.host == host <==> i == j)
    requires t.pc.PostConfig? ==> i < |t.pc.snapshot.policies|
    ensures var (t', s') := R.Step(t, s, a, v);
      && i < |s'.policies| && Passable(start, i, s'.policies[i]) && Harmless(start, i, host, t')
      && (t.host != host ==> s'.policies[i] == s.policies[i] || (t.pc.PostConfig? && s' == t.pc.snapshot))
  {
    StepEffect(t, s, a, v, j, |start.server.policies|);
    var original := R.Step(t, s, a, v).0.original;
    assert original == t.original || (t.pc.Capturing? && original == s.policies[j].body.ratio) by {
      hide FirstCover, Covers, TlsId;
    }
    assert (t.pc.Checking? || t.pc.Capturing?) ==>
      var pc := R.Step(t, s, a, v).0.pc;
      pc.Ended? || pc.Capturing? || (t.pc.Capturing? && original == s.policies[j].body.ratio);
    hide R.Step, WantedRatio, Shaped;
    if Writing(t.pc) {
      RatioWritten(start, i, s.policies[i], R.Target(t, t.pc.stage));
    }
  }

  lemma SettlingOwn(start: World, w: World, l: Label, targets: map<string, nat>, host: string)
    requires Apart(start, targets) && Grounded(start, w, targets) && l.Advance? && Active(w, l.tid)
    requires host in targets && w.tasks[l.tid].host == host
    requires targets[host] < |start.server.policies| && Settles(start, w, host, targets[host])
    requires Sure(start, host, targets[host])
    ensures Settles(start, Act(w, l), host, targets[host])
  {
    hide Grown, Apart, Near, WantedRatio, Passable, Settled;
    var w', i, t := Act(w, l), targets[host], w.tasks[l.tid];
    GrownNear(start, w.server, targets, host);
    StaysPassable(start, t, w.server, l.answer, l.verdict, i, host, i);
    assert w.locks[host] == Some(l.tid);
    assert forall tid :: Active(w, tid) && w.tasks[tid].host == host ==> tid == l.tid;
    if Spoiled(w, host) {
      SpoiledStays(w, l, host);
    } else {
      LandsSurely(start, t, w.server, i);
      OwnStep(start, t, w.server, l.answer, l.verdict, i);
      hide R.Step;
      var t' := w'.tasks[l.tid];
      if t'.pc.Ended? && MayLeaveBumped(t'.pc.outcome) {
        assert Spoiled(w', host);
      }
    }
    hide R.Step, LocksHeld, Stray;
    forall tid | Active(w', tid)
      ensures Harmless(start, i, host, w'.tasks[tid])
    {
      assert Active(w, tid);
    }
  }

  lemma LandsSurely(start: World, t: R.Task, s: Server, i: nat)
    requires i < |start.server.policies| && Near(s.policies, t.host, i, |start.server.policies|)
    requires !Stray(start, t.host) && IndexOfId(s.policies, TlsId(t.host)).Some? ==>
               IndexOfId(s.policies, TlsId(t.host)).value == i
    requires Sure(start, t.host, i)
    ensures Lands(start, i, t, s)
  {
  }

  lemma SpoiledStays(w: World, l: Label, host: string)
    requires Spoiled(w, host)
    ensures Spoiled(Act(w, l), host)
  {
    var tid :| tid in w.tasks && w.tasks[tid].host == host && w.tasks[tid].pc.Ended?
            && MayLeaveBumped(w.tasks[tid].pc.outcome);
    assert Act(w, l).tasks[tid] == w.tasks[tid];
  }

  /** A step of another host's task whose reload is fresh or cannot bring an unwanted
      ratio. */
  lemma OtherStep(start: World, t: R.Task, s: Server, a: Answer, v: R.Verdict, j: nat, host: string, i: nat)
    requires s.keyExists && Near(s.policies, t.host, j, |start.server.policies|) && (t.pc.WriteAt? ==> t.pc.index == j)
    requires i < |start.server.policies| && Passable(start, i, s.policies[i]) && Harmless(start, i, host, t)
    requires !t.pc.Ended? && t.host != host && i != j
    requires Fresh(t, s) || WantedRatio(start, i, Some(1.0))
    ensures var (t', s') := R.Step(t, s, a, v);
      && t'.host == t.host && Harmless(start, i, host, t')
      && i < |s'.policies| && Passable(start, i, s'.policies[i])
      && (s'.policies[i] == s.policies[i] || Settled(start, i, s'.policies[i]))
  {
    StaysPassable(start, t, s, a, v, j, host, i);
    StepEffect(t, s, a, v, j, |start.server.policies|);
    hide R.Step, Near, Passable, Settled, WantedRatio;
    SettledMeans(start, i, R.Step(t, s, a, v).1.policies[i]);
  }

  lemma SettlingOther(start: World, w: World, l: Label, targets: map<string, nat>, host: string)
    requires Apart(start, targets) && Grounded(start, w, targets) && l.Advance? && Active(w, l.tid)
    requires host in targets && w.tasks[l.tid].host != host
    requires targets[host] < |start.server.policies| && Settles(start, w, host, targets[host])
    requires Mild(start, w, l, targets, host, targets[host])
    ensures Settles(start, Act(w, l), host, targets[host])
  {
    var i, t := targets[host], w.tasks[l.tid];
    assert Lawful(start, t, targets) && Harmless(start, i, host, t) && targets[t.host] != i;
    hide R.Step, Apart, OnCourse, Grown, Near, WantedRatio, Passable, Settled, LocksHeld, Harmless, Stray;
    GrownNear(start, w.server, targets, t.host);
    OtherStep(start, t, w.server, l.answer, l.verdict, targets[t.host], host, i);
    SettlingFrame(start, w, l, host, i);
  }

  /** A step of somebody else. */
  lemma SettlingFrame(start: World, w: World, l: Label, host: string, i: nat)
    requires i < |start.server.policies| && Settles(start, w, host, i)
    requires l.Advance? ==> Active(w, l.tid) && w.tasks[l.tid].host != host
    requires var w' := Act(w, l);
      && i < |w'.server.policies| && Passable(start, i, w'.server.policies[i])
      && (w'.server.policies[i] == w.server.policies[i] || Settled(start, i, w'.server.policies[i]))
      && (l.Advance? ==> w'.tasks[l.tid].host != host && Harmless(start, i, host, w'.tasks[l.tid]))
    ensures Settles(start, Act(w, l), host, i)
  {
    hide Passable, Settled, OnCourse, Harmless, R.Step, U.Step;
    var w' := Act(w, l);
    if Spoiled(w, host) {
      SpoiledStays(w, l, host);
    }
    forall tid | Active(w', tid)
      ensures Harmless(start, i, host, w'.tasks[tid])
      ensures !Spoiled(w', host) && w'.tasks[tid].host == host ==> OnCourse(start, i, w'.tasks[tid], w'.server)
    {
      if tid !in w.tasks {
        NewTask(start, i, host, w'.tasks[tid], w'.server);
      } else {
        assert Active(w, tid);
        if !Spoiled(w', host) && w'.tasks[tid].host == host {
          OnCourseFrame(start, i, w.tasks[tid], w.server, w'.server);
        }
      }
    }
  }

  lemma NewTask(start: World, i: nat, host: string, t: R.Task, s: Server)
    requires i < |start.server.policies| && i < |s.policies| && Passable(start, i, s.policies[i]) && t.pc.Checking?
    ensures Harmless(start, i, host, t)
    ensures Settled(start, i, s.policies[i]) ==> OnCourse(start, i, t, s)
  {
  }

  lemma SettlingStep(start: World, w: World, l: Label, targets: map<string, nat>, host: string)
    requires Tidy(start) && Apart(start, targets) && Grounded(start, w, targets) && Known(l, targets)
    requires host in targets && targets[host] < |start.server.policies| && Settles(start, w, host, targets[host])
    requires Mild(start, w, l, targets, host, targets[host]) && Sure(start, host, targets[host])
    ensures Settles(start, Act(w, l), host, targets[host])
  {
    hide Tidy, Apart, Settles, Mild, Sure, Settled, Passable;
    var i := targets[host];
    if l.Advance? && Active(w, l.tid) {
      if w.tasks[l.tid].host == host {
        SettlingOwn(start, w, l, targets, host);
      } else {
        SettlingOther(start, w, l, targets, host);
      }
    } else if !l.Advance? {
      SettlingOtherwise(start, w, l, host, i);
    }
  }

  lemma SettlingOtherwise(start: World, w: World, l: Label, host: string, i: nat)
    requires Grown(start, w.server) && Lasting(start, w) && !l.Advance?
    requires i < |start.server.policies| && Settles(start, w, host, i)
    ensures Settles(start, Act(w, l), host, i)
  {
    hide Grown, Settled, Passable, U.Step;
    if l.Tick? && l.client < |w.upserts| {
      var s' := U.Step(w.upserts[l.client], w.server, l.answer).1;
      TickKeeps(start, w.server, w.upserts[l.client], l.client, l.answer, i);
      if Wanted(start, i, s'.policies[i]) {
        WantedIsSettled(start, i, s'.policies[i]);
      }
    }
    SettlingFrame(start, w, l, host, i);
  }
}
