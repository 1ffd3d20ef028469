/** Upserts and renewals that meet at one policy: how slip itself brings about the
    misalignment under which a renewal is not honest, what becomes of a policy that
    is upserted while it is being renewed, and exactly when a successful upsert can
    be relied on. */
module UpsertAndRenewal {
  import opened Prelude
  import opened Names
  import opened CaddyServer
  import U = TlsUpsert
  import R = Renewal
  import opened Restoration
  import opened SharedCaddy
  import opened Settling
  import opened Reachable
  import opened ReloadWindows
  import C = Convergence

  // ----- a misalignment of slip's own making -----

  /** Two upserts, of `*.r` and then of a host under it, into an empty array. Their
      subjects are not equal, so the second is appended behind the first, which
      covers its host. */
  lemma UpsertsMisalign(s: Server, d: Body, e: Body, name: string, r: string)
    requires s.Valid() && s.policies == [] && Plain(name) && Plain(r) && name != "star"
    requires d.subjects == ["*." + r] && e.subjects == [name + "." + r]
    ensures C.Pass(s, [d, e]) == Server(true, [U.Stamped(d), U.Stamped(e)])
    ensures Misaligned(C.Pass(s, [d, e]), name + "." + r, 0, 1)
  {
    var wild, host := "*." + r, name + "." + r;
    var p, q := U.Stamped(d), U.Stamped(e);
    IdsDiffer(name, r);
    C.UpsertAlone(d, s);
    var s1 := Server(true, [p]);
    assert [] + [p] == [p];
    assert host[0] != '*' && wild[0] == '*' && !U.Overlaps(p, e);
    C.UpsertAlone(e, s1);
    var s2 := Server(true, [p, q]);
    assert C.Installed([p], e) == [p] + [q] == [p, q];
    assert [d, e][1..] == [e] && [e][1..] == [];
    assert C.Pass(s1, [e]) == C.Pass(s2, []) == s2;
    WildcardMatchMeaning(r, host);
    assert Covers(p, host);
    assert FirstCover(s2.policies, host) == Some(0);
    assert s2.policies[1].id == Some(TlsId(host)) && s2.policies[0].id != Some(TlsId(host));
    assert IndexOfId(s2.policies, TlsId(host)) == Some(1);
  }

  lemma IdsDiffer(name: string, r: string)
    requires Plain(name) && Plain(r) && name != "star"
    ensures TlsId("*." + r) != TlsId(name + "." + r) && '*' !in name + "." + r
  {
    hide Sanitize, TlsId;
    var wild, host := "*." + r, name + "." + r;
    HostIsPlain(name, r);
    assert wild[2..] == r;
    SanitizePlain(host);
    SanitizeWildcard(wild);
    SameIdSameText(host, wild);
    hide Plain;
    assert host == name + ("." + r) && "star." + r == "star" + ("." + r);
    SuffixCancels(name, "star", "." + r);
  }

  lemma HostIsPlain(name: string, r: string)
    requires Plain(name) && Plain(r)
    ensures Plain(name + "." + r) && '*' !in name + "." + r
  {
  }

  lemma SameIdSameText(s: string, t: string)
    ensures TlsId(s) == TlsId(t) ==> Sanitize(s) == Sanitize(t)
  {
    hide Sanitize;
    assert TlsId(s)[9..] == Sanitize(s) && TlsId(t)[9..] == Sanitize(t);
  }

  lemma SuffixCancels(a: string, b: string, c: string)
    ensures a + c == b + c ==> a == b
  {
    assert |a| == |b| ==> (a + c)[..|a|] == a && (b + c)[..|b|] == b;
  }

  /** So slip by itself reaches a configuration in which a renewal may report
      success and leave a policy changed: always, unless both were upserted with
      a ratio of 1. */
  lemma MisalignedByItself(s: Server, d: Body, e: Body, name: string, r: string)
    requires s.Valid() && s.policies == [] && Plain(name) && Plain(r) && name != "star"
    requires d.subjects == ["*." + r] && e.subjects == [name + "." + r]
    ensures FirstCover(C.Pass(s, [d, e]).policies, name + "." + r).Some?
    ensures (exists script, v :: !Honest(C.Pass(s, [d, e]), name + "." + r, script, v))
       <==> !(d.ratio == e.ratio == Some(1.0))
  {
    UpsertsMisalign(s, d, e, name, r);
    HonestExactlyWhen(C.Pass(s, [d, e]), name + "." + r, 0);
  }

  // ----- upserts of a renewed host's policy -----

  /** Whenever the host is at rest and the upsert has reported success, the host's
      policy is the desired one. */
  ghost predicate AlwaysTakesHold(w: World, targets: map<string, nat>, host: string, k: nat, clear: bool)
    requires host in targets && k < |w.upserts|
  {
    forall labels :: Allowed(w, labels, targets, clear) ==>
      var w', i := Run(w, labels), targets[host];
      AtRest(w', host) && k < |w'.upserts| && w'.upserts[k].pc == U.Finished(U.Upserted) ==>
        i < |w'.server.policies| && w'.server.policies[i] == U.Stamped(w.upserts[k].desired)
  }

  /** The renewal has bumped and read for its reload; the upsert reads, replaces and
      reports success; the reload loads what it had read; the cycle restores and
      reports success. All requests but the check for a manager were delivered, and
      nothing is left of the upsert, whatever it desired. */
  lemma UpsertLostInWindow(w: World, targets: map<string, nat>, host: string, k: nat) returns (w': World)
    requires Beginning(w) && Tidy(w) && Apart(w, targets) && host in targets
    requires Owns(w, k, targets[host]) && w.upserts[k].pc.Reading?
    ensures Reaches(w, w', targets, false) && AtRest(w', host)
    ensures 0 in w'.tasks && w'.tasks[0].host == host && w'.tasks[0].pc == R.Ended(R.Outcome.Success)
    ensures w'.upserts == w.upserts[k := w.upserts[k].(pc := DONE)] && w'.server == w.server
  {
    var i := targets[host];
    assert Aligned(w.server.policies, host, i);
    FirstOwned(w, targets, host, k);
    hide Reaches, Tidy, Apart, TlsId, U.OwnId;
    var b := Bumped(w, 0, host, i);
    BumpsAndReads(w, 0, host, i, targets, false);
    OwnerStays(w.server, i, Some(1.0), U.OwnId(w.upserts[k].desired), i);
    Replaces(b, k, i, targets, false);
    var c := Ticked(b, k, DONE, Replaced(b.server, i, U.Stamped(w.upserts[k].desired)));
    Onward(w, b, c, targets, false);
    var d := Moved(c, 0, c.tasks[0].(pc := R.Polling), b.server);
    Moves(c, 0, Deliver, RENEWED, c.tasks[0].(pc := R.Polling), b.server, targets, false);
    Onward(w, c, d, targets, false);
    StillAligned(w.server, i, Some(1.0), host, i);
    hide Aligned;
    RestoresAndSucceeds(d, 0, i, targets, false);
    w' := Moved(d, 0, Successful(d.tasks[0]), WithTarget(d.server, i, d.tasks[0].original));
    Onward(w, d, w', targets, false);
    assert w'.tasks.Keys == {0};
    assert w'.server.policies == w.server.policies;
  }

  lemma OwnerStays(s: Server, i: nat, ratio: Option<real>, id: string, j: nat)
    requires i < |s.policies| && IndexOfId(s.policies, id) == Some(j)
    ensures IndexOfId(WithTarget(s, i, ratio).policies, id) == Some(j)
  {
    IdIndexStays(s.policies, WithTarget(s, i, ratio).policies, id);
  }

  /** With clear windows too: an upsert while the renewal polls takes hold but for
      its ratio, which the restore overwrites; both report success. */
  lemma UpsertWhileRenewing(w: World, targets: map<string, nat>, host: string, k: nat) returns (w': World)
    requires Beginning(w) && Tidy(w) && Apart(w, targets) && host in targets
    requires Owns(w, k, targets[host]) && w.upserts[k].pc.Reading?
    ensures Reaches(w, w', targets, true) && AtRest(w', host)
    ensures 0 in w'.tasks && w'.tasks[0].host == host && w'.tasks[0].pc == R.Ended(R.Outcome.Success)
    ensures targets[host] < |w.server.policies|
    ensures w'.upserts == w.upserts[k := w.upserts[k].(pc := DONE)]
    ensures var ratio, p := w.server.policies[targets[host]].body.ratio, U.Stamped(w.upserts[k].desired);
      && w'.server == Replaced(w.server, targets[host], WithRatio(p, ratio))
      && (WithRatio(p, ratio) == p <==> w.upserts[k].desired.ratio == ratio)
  {
    var i, p := targets[host], U.Stamped(w.upserts[k].desired);
    assert Aligned(w.server.policies, host, i);
    FirstOwned(w, targets, host, k);
    SameSubjects(w, k, i);
    hide Reaches, Tidy, Apart, TlsId, U.OwnId;
    var b := Polls(w, 0, host, i);
    BumpsAndPolls(w, 0, host, i, targets, true);
    OwnerStays(w.server, i, Some(1.0), U.OwnId(w.upserts[k].desired), i);
    Replaces(b, k, i, targets, true);
    var c := Ticked(b, k, DONE, Replaced(b.server, i, p));
    Onward(w, b, c, targets, true);
    assert c.server.policies == w.server.policies[i := p];
    ReplacedAligned(w.server.policies, i, p, host);
    hide Aligned;
    RestoresAndSucceeds(c, 0, i, targets, true);
    w' := Moved(c, 0, Successful(c.tasks[0]), WithTarget(c.server, i, c.tasks[0].original));
    Onward(w, c, w', targets, true);
    assert w'.tasks.Keys == {0};
    assert w'.server.policies == w.server.policies[i := WithRatio(p, c.tasks[0].original)];
  }

  lemma SameSubjects(w: World, k: nat, i: nat)
    requires Tidy(w) && Owns(w, k, i)
    ensures w.server.policies[i].id == U.Stamped(w.upserts[k].desired).id
    ensures w.server.policies[i].body.subjects == w.upserts[k].desired.subjects
  {
  }

  lemma ReplacedAligned(ps: seq<Policy>, i: nat, p: Policy, host: string)
    requires Aligned(ps, host, i) && p.id == ps[i].id && p.body.subjects == ps[i].body.subjects
    ensures Aligned(ps[i := p], host, i)
  {
    SameSkeleton(ps, ps[i := p], host);
  }

  /** An upsert of a renewed host's policy can be relied on to have taken hold, once
      it has reported success and the host is at rest, if and only if it had
      nothing to change and the policy is always restored. */
  lemma TakesHoldExactlyWhen(w: World, targets: map<string, nat>, host: string, k: nat, clear: bool)
    requires Beginning(w) && Tidy(w) && Apart(w, targets) && host in targets
    requires Owns(w, k, targets[host]) && w.upserts[k].pc.Reading?
    ensures AlwaysTakesHold(w, targets, host, k, clear)
       <==> && w.server.policies[targets[host]].body == w.upserts[k].desired
            && Reliable(w, targets, host, clear)
  {
    hide Tidy, Apart, Reaches, Reliable, AtRest;
    var i, p := targets[host], U.Stamped(w.upserts[k].desired);
    if w.server.policies[i].body != w.upserts[k].desired {
      var w' := IgnoresByRefusal(w, targets, host, k, clear);
      var labels := ARun(w, w', targets, clear);
    } else if Reliable(w, targets, host, clear) {
      RestoredExactlyWhen(w, targets, host, clear);
      assert w.server.policies[i] == p;
    } else {
      var labels := TakesNoHold(w, targets, host, k, clear);
    }
  }

  /** The case of one host and the upsert of its own policy: it can be relied on if
      and only if it had nothing to change, with clear windows or without. */
  lemma OwnUpsertTakesHoldExactlyWhen(w: World, host: string, i: nat, d: Body, clear: bool)
    requires Beginning(w) && Tidy(w) && w.server.keyExists && w.upserts == [U.Upsert(d, U.Reading)]
    requires d.subjects == [host]
    requires FirstCover(w.server.policies, host) == Some(i) && IndexOfId(w.server.policies, TlsId(host)) == Some(i)
    ensures AlwaysTakesHold(w, map[host := i], host, 0, clear) <==> w.server.policies[i].body == d
  {
    hide Tidy;
    assert U.OwnId(d) == TlsId(host);
    TakesHoldExactlyWhen(w, map[host := i], host, 0, clear);
  }

  /** No renewal at all: the read is refused, the policy appended, success reported,
      and the host's policy is as before. */
  lemma IgnoresByRefusal(w: World, targets: map<string, nat>, host: string, k: nat, clear: bool) returns (w': World)
    requires Beginning(w) && Apart(w, targets) && host in targets
    requires Owns(w, k, targets[host]) && w.upserts[k].pc.Reading?
    ensures Reaches(w, w', targets, clear) && AtRest(w', host)
    ensures k < |w'.upserts| && w'.upserts[k].pc == DONE
    ensures targets[host] < |w'.server.policies|
    ensures w'.server.policies[targets[host]] == w.server.policies[targets[host]]
  {
    Appends(w, k, targets, clear);
    w' := Ticked(w, k, DONE, Appended(w.server, U.Stamped(w.upserts[k].desired)));
  }

  /** The upsert finds nothing to change and reports success; what then unsettles the
      policy unsettles it all the same. */
  lemma TakesNoHold(w: World, targets: map<string, nat>, host: string, k: nat, clear: bool) returns (labels: seq<Label>)
    requires Beginning(w) && Tidy(w) && Apart(w, targets) && host in targets
    requires Owns(w, k, targets[host]) && w.upserts[k].pc.Reading?
    requires w.server.policies[targets[host]].body == w.upserts[k].desired && !Reliable(w, targets, host, clear)
    ensures Allowed(w, labels, targets, clear)
    ensures var w', i := Run(w, labels), targets[host];
      && AtRest(w', host) && k < |w'.upserts| && w'.upserts[k].pc == DONE
      && (i < |w'.server.policies| ==> w'.server.policies[i] != w.server.policies[i])
  {
    var i := targets[host];
    FirstOwned(w, targets, host, k);
    var w1 := Ticked(w, k, DONE, w.server);
    Replaces(w, k, i, targets, clear);
    assert Replaced(w.server, i, U.Stamped(w.upserts[k].desired)) == w.server;
    StillUnreliable(w, targets, host, k, clear);
    RestoredExactlyWhen(w1, targets, host, clear);
    hide Reaches, AtRest, Tidy, Apart;
    var ys: seq<Label> :| Allowed(w1, ys, targets, clear) && AtRest(Run(w1, ys), host)
      && (i < |Run(w1, ys).server.policies| ==> Run(w1, ys).server.policies[i] != w1.server.policies[i]);
    var xs := ARun(w, w1, targets, clear);
    labels := xs + ys;
    RunConcat(w, xs, ys);
    BeginningSettles(w1, targets, host);
    GroundedRun(w1, w1, ys, targets);
  }

  lemma StillUnreliable(w: World, targets: map<string, nat>, host: string, k: nat, clear: bool)
    requires Tidy(w) && Apart(w, targets) && host in targets && Owns(w, k, targets[host])
    requires w.server.policies[targets[host]].body == w.upserts[k].desired && !Reliable(w, targets, host, clear)
    ensures var w1 := Ticked(w, k, DONE, w.server);
      Tidy(w1) && Apart(w1, targets) && !Reliable(w1, targets, host, clear)
  {
    var w1, i := Ticked(w, k, DONE, w.server), targets[host];
    assert forall m :: 0 <= m < |w.upserts| ==> w1.upserts[m].desired == w.upserts[m].desired;
    assert forall m :: 0 <= m < |w.upserts| && m != k ==> w1.upserts[m] == w.upserts[m];
    assert Tidy(w1) && Apart(w1, targets);
    hide Tidy, Apart, U.OwnId, TlsId;
    if Stray(w, host) {
      var m :| 0 <= m < |w.upserts| && Strays(w.upserts[m], host);
      assert m != k;
      assert Strays(w1.upserts[m], host);
    }
    if !OwnersAgree(w, i) {
      var m :| 0 <= m < |w.upserts| && Owns(w, m, i) && Writer(w.upserts[m].pc)
            && U.Stamped(w.upserts[m].desired) != w.server.policies[i];
      assert m != k && Owns(w1, m, i);
    }
  }

  // ----- upserts of other policies -----

  /** Whenever the upsert has reported success, some policy carries its identifier. */
  ghost predicate AlwaysThere(w: World, targets: map<string, nat>, k: nat)
    requires k < |w.upserts|
  {
    forall labels :: AllKnown(labels, targets) ==>
      var w' := Run(w, labels);
      k < |w'.upserts| && w'.upserts[k].pc == DONE ==>
        IndexOfId(w'.server.policies, U.OwnId(w.upserts[k].desired)).Some?
  }

  /** An upsert that has reported success is still there over all runs if and only
      if its identifier was there at the start, or no host can be renewed. */
  lemma ThereExactlyWhen(w: World, targets: map<string, nat>, k: nat)
    requires Beginning(w) && Tidy(w) && Apart(w, targets)
    requires k < |w.upserts| && w.upserts[k].pc.Reading?
    ensures AlwaysThere(w, targets, k)
       <==> IndexOfId(w.server.policies, U.OwnId(w.upserts[k].desired)).Some? || targets == map[]
  {
    assert w.server.keyExists;
    hide Tidy, Apart, U.OwnId;
    if IndexOfId(w.server.policies, U.OwnId(w.upserts[k].desired)).Some? {
      forall labels | AllKnown(labels, targets)
        ensures IndexOfId(Run(w, labels).server.policies, U.OwnId(w.upserts[k].desired)).Some?
      {
        BeginningGrounded(w, targets);
        GroundedRun(w, w, labels, targets);
        IdIndexStays(w.server.policies, Run(w, labels).server.policies, U.OwnId(w.upserts[k].desired));
      }
    } else if targets == map[] {
      forall labels | AllKnown(labels, targets)
        ensures Thereabouts(Run(w, labels), k) && Run(w, labels).upserts[k].desired == w.upserts[k].desired
      {
        ThereWithoutRenewals(w, labels, k);
      }
    } else {
      var host :| host in targets;
      var w' := DropsAppended(w, targets, host, k);
      var labels := ARun(w, w', targets, false);
    }
  }

  lemma BeginningGrounded(w: World, targets: map<string, nat>)
    requires Beginning(w) && Tidy(w) && Apart(w, targets)
    ensures Grounded(w, w, targets)
  {
  }

  ghost predicate Thereabouts(w: World, k: nat) {
    k < |w.upserts| && w.server.keyExists
    && (w.upserts[k].pc == DONE ==> IndexOfId(w.server.policies, U.OwnId(w.upserts[k].desired)).Some?)
  }

  lemma {:induction false} ThereWithoutRenewals(w: World, labels: seq<Label>, k: nat)
    requires w.tasks == map[] && AllKnown(labels, map[]) && Thereabouts(w, k)
    ensures Thereabouts(Run(w, labels), k) && Run(w, labels).upserts[k].desired == w.upserts[k].desired
    decreases |labels|
  {
    hide Thereabouts;
    if labels != [] {
      var l := labels[0];
      assert Known(l, map[]);
      if l.Tick? {
        ThereTick(w, l, k);
      }
      ThereWithoutRenewals(Act(w, l), labels[1..], k);
    }
  }

  lemma ThereTick(w: World, l: Label, k: nat)
    requires l.Tick? && Thereabouts(w, k)
    ensures Thereabouts(Act(w, l), k) && Act(w, l).upserts[k].desired == w.upserts[k].desired
  {
    if l.client < |w.upserts| {
      SuccessIsThere(w.upserts[l.client], w.server, l.answer, U.OwnId(w.upserts[k].desired));
    }
  }

  /** A request of an upsert drops no identifier; and if it is the one to report
      success, its identifier is there. */
  lemma SuccessIsThere(c: U.Upsert, s: Server, a: Answer, id: string)
    requires s.keyExists
    ensures var (c', s') := U.Step(c, s, a);
      && s'.keyExists && c'.desired == c.desired
      && (IndexOfId(s.policies, id).Some? ==> IndexOfId(s'.policies, id).Some?)
      && (!c.pc.Finished? && c'.pc == DONE ==> IndexOfId(s'.policies, U.OwnId(c.desired)).Some?)
  {
    UpsertEffect(c, s, a);
    IdentifiersStay(c, s, a, id);
    if !c.pc.Finished? && U.Step(c, s, a).0.pc == DONE {
      EndsThere(c, s, a);
    }
  }

  lemma IdentifiersStay(c: U.Upsert, s: Server, a: Answer, id: string)
    requires s.keyExists
    ensures IndexOfId(s.policies, id).Some? ==> IndexOfId(U.Step(c, s, a).1.policies, id).Some?
  {
    hide U.OwnId, U.Step;
    UpsertEffect(c, s, a);
    var r := IndexOfId(s.policies, id);
    assert r.Some? ==> U.Step(c, s, a).1.policies[r.value].id == Some(id);
  }

  lemma EndsThere(c: U.Upsert, s: Server, a: Answer)
    requires s.keyExists && !c.pc.Finished? && U.Step(c, s, a).0.pc == DONE
    ensures IndexOfId(U.Step(c, s, a).1.policies, U.OwnId(c.desired)).Some?
  {
    hide U.OwnId;
    var ps, id := U.Step(c, s, a).1.policies, U.OwnId(c.desired);
    var at := if c.pc.Appending? then |s.policies| else IndexOfId(s.policies, id).value;
    assert ps[at].id == Some(id);
  }

  /** The renewal has bumped and read for its reload; the upsert appends its policy
      and reports success; the reload drops it. */
  lemma DropsAppended(w: World, targets: map<string, nat>, host: string, k: nat) returns (w': World)
    requires Beginning(w) && Apart(w, targets) && host in targets
    requires k < |w.upserts| && w.upserts[k].pc.Reading?
    requires IndexOfId(w.server.policies, U.OwnId(w.upserts[k].desired)).None?
    ensures Reaches(w, w', targets, false) && k < |w'.upserts| && w'.upserts[k].pc == DONE
    ensures IndexOfId(w'.server.policies, U.OwnId(w.upserts[k].desired)).None?
  {
    var i := targets[host];
    assert Aligned(w.server.policies, host, i);
    var b := Bumped(w, 0, host, i);
    BumpsAndReads(w, 0, host, i, targets, false);
    assert forall j :: 0 <= j < |w.server.policies| ==> b.server.policies[j].id == w.server.policies[j].id;
    assert IndexOfId(b.server.policies, U.OwnId(w.upserts[k].desired)).None?;
    hide Reaches, Aligned, Apart, U.OwnId;
    Appends(b, k, targets, false);
    var c := Ticked(b, k, DONE, Appended(b.server, U.Stamped(w.upserts[k].desired)));
    Onward(w, b, c, targets, false);
    Moves(c, 0, Deliver, RENEWED, c.tasks[0].(pc := R.Polling), b.server, targets, false);
    w' := Moved(c, 0, c.tasks[0].(pc := R.Polling), b.server);
    Onward(w, c, w', targets, false);
  }
}
