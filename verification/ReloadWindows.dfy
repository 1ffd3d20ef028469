/** Renewals and upserts against one Caddy over whole runs. A reload brings back
    what it read, so a write that falls between its read and its load is undone.
    For runs with clear reload windows and for all runs alike, the lemmas here say
    exactly when a renewed host's policy ends up settled and exactly when it ends
    up as it was. */
module ReloadWindows {
  import opened Prelude
  import opened Names
  import opened CaddyServer
  import U = TlsUpsert
  import R = Renewal
  import opened Restoration
  import opened SharedCaddy
  import opened Settling
  import opened Reachable

  /** No task of the host is under way, and none has reported that it may have left
      the temporary ratio. */
  predicate AtRest(w: World, host: string) { Free(w, host) && !Spoiled(w, host) }

  /** Whenever the host is at rest its policy shows what somebody wants. */
  ghost predicate AlwaysSettled(w: World, targets: map<string, nat>, host: string, clear: bool)
    requires host in targets && targets[host] < |w.server.policies|
  {
    forall labels :: Allowed(w, labels, targets, clear) ==>
      var w', i := Run(w, labels), targets[host];
      AtRest(w', host) ==> i < |w'.server.policies| && Settled(w, i, w'.server.policies[i])
  }

  /** Whenever the host is at rest its policy is the one of the start. */
  ghost predicate AlwaysRestored(w: World, targets: map<string, nat>, host: string, clear: bool)
    requires host in targets && targets[host] < |w.server.policies|
  {
    forall labels :: Allowed(w, labels, targets, clear) ==>
      var w', i := Run(w, labels), targets[host];
      AtRest(w', host) ==> i < |w'.server.policies| && w'.server.policies[i] == w.server.policies[i]
  }

  // ----- four runs -----

  /** `host` restores its policy, verifies it and ends; then another host's reload
      loads what it had read before that. */
  function Undone(w: World, host: string, other: string, i: nat, j: nat): World
    requires i < |w.server.policies| && j < |w.server.policies|
  {
    var m := Bumped(Polls(w, 1, host, i), 0, other, j);
    var u := Moved(m, 1, Successful(m.tasks[1]), WithTarget(m.server, i, m.tasks[1].original));
    Moved(u, 0, u.tasks[0].(pc := R.Polling), m.server)
  }

  lemma BothBump(w: World, targets: map<string, nat>, host: string, other: string, i: nat, j: nat)
    requires Beginning(w) && w.server.keyExists && host in targets && other in targets && host != other
    requires Aligned(w.server.policies, host, i) && Aligned(w.server.policies, other, j)
    ensures var m := Bumped(Polls(w, 1, host, i), 0, other, j);
      Reaches(w, m, targets, true) && Aligned(m.server.policies, host, i)
  {
    hide Reaches;
    var p := Polls(w, 1, host, i);
    BumpsAndPolls(w, 1, host, i, targets, true);
    StillAligned(w.server, i, Some(1.0), other, j);
    BumpsAndReads(p, 0, other, j, targets, true);
    Onward(w, p, Bumped(p, 0, other, j), targets, true);
    StillAligned(w.server, i, Some(1.0), host, i);
    StillAligned(p.server, j, Some(1.0), host, i);
  }

  lemma UndoneSteps(w: World, targets: map<string, nat>, host: string, other: string) returns (u: World)
    requires Beginning(w) && Apart(w, targets) && host in targets && other in targets && host != other
    ensures targets[host] < |w.server.policies| && targets[other] < |w.server.policies|
    ensures Reaches(w, u, targets, true)
    ensures var s := Undone(w, host, other, targets[host], targets[other]).server;
      Active(u, 0) && u.tasks[0].pc == R.PostConfig(R.Bumping, s)
    ensures Act(u, Advance(0, Deliver, R.NO_VERDICT)) == Undone(w, host, other, targets[host], targets[other])
    ensures targets[host] < |u.server.policies|
    ensures u.server.policies[targets[host]].body.ratio == w.server.policies[targets[host]].body.ratio
  {
    var i, j := targets[host], targets[other];
    assert Aligned(w.server.policies, host, i) && Aligned(w.server.policies, other, j);
    hide Reaches, Apart;
    var m := Bumped(Polls(w, 1, host, i), 0, other, j);
    BothBump(w, targets, host, other, i, j);
    hide Aligned;
    RestoresAndSucceeds(m, 1, i, targets, true);
    u := Moved(m, 1, Successful(m.tasks[1]), WithTarget(m.server, i, m.tasks[1].original));
    Onward(w, m, u, targets, true);
  }

  lemma UndoneIsLeft(w: World, host: string, other: string, i: nat, j: nat)
    requires w.tasks == map[] && i < |w.server.policies| && j < |w.server.policies| && i != j && host != other
    ensures var w' := Undone(w, host, other, i, j);
      && w'.tasks.Keys == {0, 1} && AtRest(w', host)
      && w'.tasks[1].host == host && w'.tasks[1].pc == R.Ended(R.Outcome.Success)
      && i < |w'.server.policies| && w'.server.policies[i].body.ratio == Some(1.0)
  {
  }

  /** The failure, from a start with no task and no lock: `host` restores its
      policy, verifies it and reports success; then the other host's reload loads
      what it had read, and the policy shows the temporary ratio with no task
      left that knows. */
  lemma StaleReloadUndoesARestore(w: World, targets: map<string, nat>, host: string, other: string)
    returns (labels: seq<Label>)
    requires Beginning(w) && Apart(w, targets) && host in targets && other in targets && host != other
    requires targets[host] < |w.server.policies| && w.server.policies[targets[host]].body.ratio != Some(1.0)
    ensures AllKnown(labels, targets) && !ClearRun(w, labels)
    ensures var w', i := Run(w, labels), targets[host];
      && 1 in w'.tasks && w'.tasks[1].host == host && w'.tasks[1].pc == R.Ended(R.Outcome.Success)
      && AtRest(w', host)
      && i < |w'.server.policies| && w'.server.policies[i].body.ratio == Some(1.0)
  {
    var u := UndoneSteps(w, targets, host, other);
    UndoneIsLeft(w, host, other, targets[host], targets[other]);
    hide Apart, Undone, AtRest;
    var xs := ARun(w, u, targets, true);
    var load := Advance(0, Deliver, R.NO_VERDICT);
    labels := xs + [load];
    RunConcat(w, xs, [load]);
    var w' := Undone(w, host, other, targets[host], targets[other]);
    assert u.server != w'.server && !Clear(u, load);
    hide Clear, Act;
    assert [load][1..] == [];
    assert Run(u, [load]) == Run(w', []) == w' && (ClearRun(u, [load]) <==> Clear(u, load));
  }

  /** The renewal polls, and a policy with the host's identifier has been appended. */
  function StrayedMid(w: World, host: string, i: nat, k: nat): World
    requires i < |w.server.policies| && k < |w.upserts|
  {
    var p := Polls(w, 0, host, i);
    Ticked(p, k, DONE, Appended(p.server, U.Stamped(w.upserts[k].desired)))
  }

  lemma StraysMid(w: World, targets: map<string, nat>, host: string, k: nat, clear: bool)
    requires Beginning(w) && Apart(w, targets) && host in targets
    requires k < |w.upserts| && Strays(w.upserts[k], host) && IndexOfId(w.server.policies, TlsId(host)).None?
    ensures targets[host] < |w.server.policies|
    ensures Reaches(w, StrayedMid(w, host, targets[host], k), targets, clear)
    ensures var q, i, n := StrayedMid(w, host, targets[host], k), targets[host], |w.server.policies|;
      && q.server.keyExists && IndexOfId(q.server.policies, TlsId(host)) == Some(n) && i < n < |q.server.policies|
      && q.server.policies[i].body.ratio == Some(1.0)
      && q.tasks.Keys == {0} && q.tasks[0].host == host && q.tasks[0].pc == R.Polling
  {
    var i := targets[host];
    assert Aligned(w.server.policies, host, i);
    hide Reaches, TlsId;
    var p := Polls(w, 0, host, i);
    BumpsAndPolls(w, 0, host, i, targets, clear);
    SameSkeleton(w.server.policies, p.server.policies, host);
    hide Aligned, Apart;
    Appends(p, k, targets, clear);
    Onward(w, p, StrayedMid(w, host, i, k), targets, clear);
    AppendedIsNamed(p.server.policies, U.Stamped(w.upserts[k].desired), TlsId(host));
  }

  /** From polling to success with the restore by identifier going to policy `n` and
      the verification lost. */
  lemma RestoresElsewhere(w: World, tid: nat, n: nat, targets: map<string, nat>, clear: bool)
    requires tid in w.tasks && w.tasks[tid].pc == R.Polling && w.server.keyExists
    requires IndexOfId(w.server.policies, TlsId(w.tasks[tid].host)) == Some(n)
    ensures var t := w.tasks[tid];
      Reaches(w, Moved(w, tid, Successful(t), WithTarget(w.server, n, t.original)), targets, clear)
  {
    hide Reaches, TlsId;
    var t, s := w.tasks[tid], WithTarget(w.server, n, w.tasks[tid].original);
    var t1 := t.(verdict := RENEWED);
    assert w.tasks[tid := t] == w.tasks && Moved(w, tid, t, w.server) == w;
    Stays(w, targets, clear);
    MovesOn(w, tid, t, w.server, Deliver, RENEWED, t1.(pc := R.WriteById(R.Restoring)), w.server, targets, clear);
    MovesOn(w, tid, t1.(pc := R.WriteById(R.Restoring)), w.server, Deliver, RENEWED,
            t1.(pc := R.ReadConfig(R.Restoring)), s, targets, clear);
    Verifies(w, tid, t1, s, Lose, targets, clear);
  }

  /** A policy with the host's identifier is appended between the bump, which went
      by index, and the restore, which now goes by identifier. The verification is
      lost, and the cycle reports success. */
  lemma StrayRun(w: World, targets: map<string, nat>, host: string, clear: bool) returns (w': World)
    requires Beginning(w) && Apart(w, targets) && host in targets && Stray(w, host)
    ensures Reaches(w, w', targets, clear) && AtRest(w', host)
    ensures targets[host] < |w'.server.policies| && w'.server.policies[targets[host]].body.ratio == Some(1.0)
  {
    var i, n := targets[host], |w.server.policies|;
    var k :| 0 <= k < |w.upserts| && Strays(w.upserts[k], host);
    StraysMid(w, targets, host, k, clear);
    hide Reaches, Apart, TlsId, StrayedMid, Stray, AtRest;
    var q := StrayedMid(w, host, i, k);
    RestoresElsewhere(q, 0, n, targets, clear);
    w' := Moved(q, 0, Successful(q.tasks[0]), WithTarget(q.server, n, q.tasks[0].original));
    Onward(w, q, w', targets, clear);
    AloneAtRest(q, 0, host, WithTarget(q.server, n, q.tasks[0].original));
    assert w'.server.policies[i] == q.server.policies[i];
  }

  /** The only task has ended with success. */
  lemma AloneAtRest(w: World, tid: nat, host: string, s: Server)
    requires w.tasks.Keys == {tid} && w.tasks[tid].host == host
    ensures AtRest(Moved(w, tid, Successful(w.tasks[tid]), s), host)
  {
    assert Moved(w, tid, Successful(w.tasks[tid]), s).tasks.Keys == {tid};
  }

  lemma {:induction false} AppendedIsNamed(ps: seq<Policy>, p: Policy, id: string)
    requires IndexOfId(ps, id).None? && p.id == Some(id)
    ensures IndexOfId(ps + [p], id) == Some(|ps|)
  {
    var qs := ps + [p];
    assert forall j :: 0 <= j < |ps| ==> qs[j] == ps[j];
    assert qs[|ps|].id == Some(id);
  }

  /** Only an upsert moves. */
  lemma WriterRun(w: World, targets: map<string, nat>, host: string, k: nat, clear: bool) returns (w': World)
    requires Beginning(w) && Tidy(w) && Apart(w, targets) && host in targets && Owns(w, k, targets[host])
    requires Writer(w.upserts[k].pc)
    ensures Reaches(w, w', targets, clear) && AtRest(w', host)
    ensures targets[host] < |w'.server.policies|
    ensures w'.server.policies[targets[host]] == U.Stamped(w.upserts[k].desired)
  {
    FirstOwned(w, targets, host, k);
    Replaces(w, k, targets[host], targets, clear);
    w' := Ticked(w, k, DONE, Replaced(w.server, targets[host], U.Stamped(w.upserts[k].desired)));
  }

  /** The first policy with an identifier is the first that covers its subjects. */
  lemma FirstOwned(w: World, targets: map<string, nat>, host: string, k: nat)
    requires Tidy(w) && Apart(w, targets) && host in targets && Owns(w, k, targets[host])
    ensures IndexOfId(w.server.policies, U.OwnId(w.upserts[k].desired)) == Some(targets[host])
  {
    var ps, i := w.server.policies, targets[host];
    assert Aligned(ps, host, i);
    var j := IndexOfId(ps, U.OwnId(w.upserts[k].desired)).value;
    assert ps[j].body.subjects == ps[i].body.subjects;
    assert Covers(ps[j], host);
  }

  // ----- what every run keeps -----

  lemma BeginningSettles(w: World, targets: map<string, nat>, host: string)
    requires Beginning(w) && Tidy(w) && Apart(w, targets) && host in targets
    ensures targets[host] < |w.server.policies|
    ensures Grounded(w, w, targets) && Settles(w, w, host, targets[host])
  {
    assert Aligned(w.server.policies, host, targets[host]);
    WantedIsSettled(w, targets[host], w.server.policies[targets[host]]);
  }

  lemma {:induction false} SettlingRun(start: World, w: World, labels: seq<Label>, targets: map<string, nat>,
                                       host: string)
    requires Tidy(start) && Apart(start, targets) && Grounded(start, w, targets) && AllKnown(labels, targets)
    requires host in targets && targets[host] < |start.server.policies| && Settles(start, w, host, targets[host])
    requires Sure(start, host, targets[host])
    requires ClearRun(w, labels) || targets.Keys == {host} || WantedRatio(start, targets[host], Some(1.0))
    ensures Settles(start, Run(w, labels), host, targets[host])
    decreases |labels|
  {
    hide Tidy, Apart, Grounded, Settles, Sure, Clear, Act, WantedRatio;
    if labels != [] {
      GroundedStep(start, w, labels[0], targets);
      SettlingStep(start, w, labels[0], targets, host);
      SettlingRun(start, Act(w, labels[0]), labels[1..], targets, host);
    }
  }

  lemma {:induction false} GroundedRun(start: World, w: World, labels: seq<Label>, targets: map<string, nat>)
    requires Tidy(start) && Apart(start, targets) && Grounded(start, w, targets) && AllKnown(labels, targets)
    ensures Grounded(start, Run(w, labels), targets)
    decreases |labels|
  {
    hide Tidy, Apart, Grounded, Act;
    if labels != [] {
      GroundedStep(start, w, labels[0], targets);
      GroundedRun(start, Act(w, labels[0]), labels[1..], targets);
    }
  }

  // ----- exactly when -----

  /** Renewals and upserts of anything, in any order. A host at rest always shows a
      policy somebody wants, if and only if no upsert could still give the host's
      identifier a first policy, and reload windows are clear or no other host can
      be renewed; or the temporary ratio is itself wanted. A certificate manager on
      the other host's policy does not help: the check for it counts a refused read
      as "not managed". */
  lemma SettledExactlyWhen(w: World, targets: map<string, nat>, host: string, clear: bool)
    requires Beginning(w) && Tidy(w) && Apart(w, targets) && host in targets
    ensures targets[host] < |w.server.policies|
    ensures AlwaysSettled(w, targets, host, clear)
       <==> || WantedRatio(w, targets[host], Some(1.0))
            || (!Stray(w, host) && (clear || targets.Keys == {host}))
  {
    hide Tidy, Apart, Stray, Settles, Reaches, Settled;
    BeginningSettles(w, targets, host);
    var i := targets[host];
    if WantedRatio(w, i, Some(1.0)) || (!Stray(w, host) && (clear || targets.Keys == {host})) {
      forall labels | Allowed(w, labels, targets, clear)
        ensures var w' := Run(w, labels);
          AtRest(w', host) ==> i < |w'.server.policies| && Settled(w, i, w'.server.policies[i])
      {
        SettlingRun(w, w, labels, targets, host);
        SettlingAtRest(w, Run(w, labels), host, i);
      }
    } else {
      var w' := Unsettles(w, targets, host, clear);
      var labels := ARun(w, w', targets, clear);
      SettledMeans(w, i, w'.server.policies[i]);
    }
  }

  lemma SettlingAtRest(start: World, w: World, host: string, i: nat)
    requires i < |start.server.policies| && Settles(start, w, host, i)
    ensures AtRest(w, host) ==> i < |w.server.policies| && Settled(start, i, w.server.policies[i])
  {
  }

  /** A run that leaves the temporary ratio. */
  lemma Unsettles(w: World, targets: map<string, nat>, host: string, clear: bool) returns (w': World)
    requires Beginning(w) && Apart(w, targets) && host in targets && targets[host] < |w.server.policies|
    requires Stray(w, host) || (!clear && targets.Keys != {host})
    requires w.server.policies[targets[host]].body.ratio != Some(1.0)
    ensures Reaches(w, w', targets, clear) && AtRest(w', host)
    ensures targets[host] < |w'.server.policies| && w'.server.policies[targets[host]].body.ratio == Some(1.0)
  {
    if Stray(w, host) {
      w' := StrayRun(w, targets, host, clear);
    } else {
      var other :| other in targets && other != host;
      var labels := StaleReloadUndoesARestore(w, targets, host, other);
      w' := Run(w, labels);
      assert Allowed(w, labels, targets, clear);
    }
  }

  /** Every upsert that may still replace the policy desires it as it is. */
  predicate OwnersAgree(w: World, i: nat)
    requires i < |w.server.policies|
  {
    forall k :: 0 <= k < |w.upserts| ==>
      (Owns(w, k, i) && Writer(w.upserts[k].pc) ==> U.Stamped(w.upserts[k].desired) == w.server.policies[i])
  }

  /** What the guarantees below come down to; it can be checked at the start. */
  predicate Reliable(w: World, targets: map<string, nat>, host: string, clear: bool)
    requires host in targets && targets[host] < |w.server.policies|
  {
    && OwnersAgree(w, targets[host])
    && (w.server.policies[targets[host]].body.ratio == Some(1.0)
        || (!Stray(w, host) && (clear || targets.Keys == {host})))
  }

  lemma AgreedIsSettled(w: World, i: nat)
    requires i < |w.server.policies| && OwnersAgree(w, i)
    ensures forall p :: Settled(w, i, p) <==> p == w.server.policies[i]
    ensures forall ratio :: WantedRatio(w, i, ratio) <==> ratio == w.server.policies[i].body.ratio
  {
    var start := w.server.policies[i];
    assert forall p :: Wanted(w, i, p) <==> p == start;
    WantedIsSettled(w, i, start);
    forall ratio
      ensures WantedRatio(w, i, ratio) <==> ratio == start.body.ratio
    {
      assert Wanted(w, i, start);
    }
    forall p
      ensures Settled(w, i, p) <==> p == start
    {
      assert WithRatio(start, start.body.ratio) == start;
    }
  }

  lemma RestoredExactlyWhen(w: World, targets: map<string, nat>, host: string, clear: bool)
    requires Beginning(w) && Tidy(w) && Apart(w, targets) && host in targets
    ensures targets[host] < |w.server.policies|
    ensures AlwaysRestored(w, targets, host, clear) <==> Reliable(w, targets, host, clear)
  {
    hide Tidy, Apart, Stray, Reaches, Settled, WantedRatio;
    SettledExactlyWhen(w, targets, host, clear);
    if OwnersAgree(w, targets[host]) {
      AgreedIsSettled(w, targets[host]);
    } else {
      var k: nat :| Owns(w, k, targets[host]) && Writer(w.upserts[k].pc)
                 && U.Stamped(w.upserts[k].desired) != w.server.policies[targets[host]];
      var w' := WriterRun(w, targets, host, k, clear);
      var labels := ARun(w, w', targets, clear);
    }
  }

  /** Certificate managers on both hosts' policies are no protection. */
  lemma ManagersAreNoProtection(w: World, targets: map<string, nat>, host: string, other: string)
    requires Beginning(w) && Tidy(w) && Apart(w, targets)
    requires host in targets && other in targets && host != other
    requires targets[host] < |w.server.policies| && targets[other] < |w.server.policies|
    requires w.server.policies[targets[host]].body.managed && w.server.policies[targets[other]].body.managed
    requires w.server.policies[targets[host]].body.ratio != Some(1.0)
    ensures !AlwaysRestored(w, targets, host, false)
  {
    RestoredExactlyWhen(w, targets, host, false);
  }

  /** With clear windows, renewals of any hosts among upserts of anything: at rest a
      host's policy is what somebody wants, if and only if no upsert could still
      give the host's identifier a first policy, or the temporary ratio is wanted;
      and a host's lock is free exactly when no task of it is under way. */
  lemma ConcurrentRenewals(w: World, targets: map<string, nat>, host: string)
    requires Beginning(w) && Tidy(w) && Apart(w, targets) && host in targets
    ensures targets[host] < |w.server.policies|
    ensures AlwaysSettled(w, targets, host, true)
       <==> WantedRatio(w, targets[host], Some(1.0)) || !Stray(w, host)
    ensures forall labels :: AllKnown(labels, targets) ==>
      var w' := Run(w, labels);
      Free(w', host) <==> forall tid :: Active(w', tid) ==> w'.tasks[tid].host != host
  {
    SettledExactlyWhen(w, targets, host, true);
    hide Tidy, Apart, Settled, Stray, WantedRatio, Act;
    forall labels | AllKnown(labels, targets)
      ensures var w' := Run(w, labels);
        Free(w', host) <==> forall tid :: Active(w', tid) ==> w'.tasks[tid].host != host
    {
      OneTaskPerHost(w, labels, 0, 0);
    }
  }
}
