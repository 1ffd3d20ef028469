/** Upserts, renewals and the edits of others against one Caddy. A renewal may
    write the ratio of a policy that is not slip's; apart from ratios, what slip
    does not own ends up as if slip had not been there, as long as nobody writes
    between the read and the load of a reload. */
module Neighbours {
  import opened Prelude
  import opened Sublists
  import opened CaddyServer
  import R = Renewal
  import F = ForeignPolicies
  import Restoration
  import S = SharedCaddy
  import W = Reachable

  datatype Label = Slip(step: S.Label) | Meddle(meddling: F.Meddling)

  function Act(w: S.World, l: Label): S.World {
    match l
    case Slip(step) => S.Act(w, step)
    case Meddle(m) => w.(server := F.Meddled(w.server, m))
  }

  function Run(w: S.World, labels: seq<Label>): S.World
    decreases |labels|
  {
    if labels == [] then w else Run(Act(w, labels[0]), labels[1..])
  }

  predicate ClearRun(w: S.World, labels: seq<Label>)
    decreases |labels|
  {
    labels == [] || ((labels[0].Slip? ==> S.Clear(w, labels[0].step)) && ClearRun(Act(w, labels[0]), labels[1..]))
  }

  /** What the others alone would have made of their policies. */
  function WithoutSlip(fs: seq<Policy>, labels: seq<Label>): seq<Policy>
    decreases |labels|
  {
    if labels == [] then fs
    else WithoutSlip(if labels[0].Meddle? then F.MeddledAlone(fs, labels[0].meddling) else fs, labels[1..])
  }

  predicate AllValid(labels: seq<Label>) { forall l :: l in labels && l.Meddle? ==> l.meddling.Valid() }

  // ----- ratios aside -----

  function Bare(ps: seq<Policy>): (qs: seq<Policy>)
    ensures |qs| == |ps| && forall i :: 0 <= i < |ps| ==> qs[i] == WithRatio(ps[i], None)
  {
    seq(|ps|, i requires 0 <= i < |ps| => WithRatio(ps[i], None))
  }

  lemma {:induction false} BareForeign(ps: seq<Policy>)
    ensures Bare(F.Foreign(ps)) == F.Foreign(Bare(ps))
  {
    if ps != [] {
      BareForeign(ps[1..]);
      assert Bare(ps)[1..] == Bare(ps[1..]);
      assert F.IsForeign(Bare(ps)[0]) == F.IsForeign(ps[0]);
    }
  }

  lemma RatioWriteIsBare(ps: seq<Policy>, j: nat, ratio: Option<real>)
    requires j < |ps|
    ensures Bare(F.Foreign(ps[j := WithRatio(ps[j], ratio)])) == Bare(F.Foreign(ps))
  {
    BareForeign(ps);
    BareForeign(ps[j := WithRatio(ps[j], ratio)]);
    assert Bare(ps[j := WithRatio(ps[j], ratio)]) == Bare(ps);
  }

  lemma TouchesAgree(fs: seq<Policy>, gs: seq<Policy>, e: Edit<Policy>)
    requires |fs| == |gs| && forall i :: 0 <= i < |fs| ==> WithRatio(fs[i], None) == WithRatio(gs[i], None)
    ensures Bare(EditAlone(fs, e)) == Bare(EditAlone(gs, e))
  {
    hide WithRatio;
    var k, hs, ks := e.rank, EditAlone(fs, e), EditAlone(gs, e);
    assert |hs| == |ks|;
    forall i | 0 <= i < |hs|
      ensures WithRatio(hs[i], None) == WithRatio(ks[i], None)
    {
      assert hs[i] == ks[i] || exists j :: 0 <= j < |fs| && hs[i] == fs[j] && ks[i] == gs[j] by {
        var j := if i < k then i else if e.Insert? then i - 1 else if e.Remove? && k < |fs| then i + 1 else i;
        assert hs[i] == ks[i] || (0 <= j < |fs| && hs[i] == fs[j] && ks[i] == gs[j]);
      }
    }
  }

  /** Edits by rank do not look at ratios. */
  lemma EditsAgree(fs: seq<Policy>, gs: seq<Policy>, m: F.Meddling)
    requires Bare(fs) == Bare(gs)
    ensures Bare(F.MeddledAlone(fs, m)) == Bare(F.MeddledAlone(gs, m))
  {
    assert |fs| == |Bare(fs)| == |gs|;
    assert forall i :: 0 <= i < |fs| ==> WithRatio(fs[i], None) == Bare(fs)[i] == WithRatio(gs[i], None);
    if m.Touch? {
      TouchesAgree(fs, gs, m.edit);
    }
  }

  // ----- one step -----

  /** Whatever a renewal does when its reload is fresh: at most one ratio. */
  lemma RenewalWritesARatio(t: R.Task, s: Server, a: Answer, v: R.Verdict)
    requires Restoration.Fresh(t, s)
    ensures var s' := R.Step(t, s, a, v).1;
      && s'.keyExists == s.keyExists
      && (|| s'.policies == s.policies
          || exists j, ratio ::
               0 <= j < |s.policies| && s'.policies == s.policies[j := WithRatio(s.policies[j], ratio)])
  {
    if !Restoration.Writing(t.pc) {
      Restoration.StepReads(t, s, a, v);
    }
  }

  lemma SlipKeepsForeign(w: S.World, l: S.Label)
    requires w.server.Valid() && S.Clear(w, l)
    ensures var s' := S.Act(w, l).server;
      s'.Valid() && Bare(F.Foreign(s'.policies)) == Bare(F.Foreign(w.server.policies))
  {
    if l.Advance? && S.Active(w, l.tid) {
      var s' := S.Act(w, l).server;
      RenewalWritesARatio(w.tasks[l.tid], w.server, l.answer, l.verdict);
      if s'.policies != w.server.policies {
        var j, ratio :| 0 <= j < |w.server.policies|
                     && s'.policies == w.server.policies[j := WithRatio(w.server.policies[j], ratio)];
        RatioWriteIsBare(w.server.policies, j, ratio);
      }
    } else if l.Tick? && l.client < |w.upserts| {
      F.StepKeepsForeign(w.upserts[l.client], w.server, l.answer);
    }
  }

  /** Over every interleaving with clear reload windows. */
  lemma {:induction false} ForeignKept(w: S.World, labels: seq<Label>, fs: seq<Policy>)
    requires w.server.Valid() && AllValid(labels) && ClearRun(w, labels)
    requires Bare(F.Foreign(w.server.policies)) == Bare(fs)
    ensures Bare(F.Foreign(Run(w, labels).server.policies)) == Bare(WithoutSlip(fs, labels))
    decreases |labels|
  {
    if labels != [] {
      match labels[0] {
        case Slip(step) =>
          SlipKeepsForeign(w, step);
          ForeignKept(S.Act(w, step), labels[1..], fs);
        case Meddle(m) =>
          F.MeddlingCommutes(w.server, m);
          EditsAgree(F.Foreign(w.server.policies), fs, m);
          ForeignKept(Act(w, labels[0]), labels[1..], F.MeddledAlone(fs, m));
      }
    }
  }

  // ----- exactly when over all runs -----

  ghost predicate AlwaysKept(w: S.World, targets: map<string, nat>) {
    forall labels :: AllValid(labels) && AllKnown(labels, targets) ==>
      Bare(F.Foreign(Run(w, labels).server.policies)) == Bare(WithoutSlip(F.Foreign(w.server.policies), labels))
  }

  predicate AllKnown(labels: seq<Label>, targets: map<string, nat>) {
    forall l :: l in labels && l.Slip? ==> S.Known(l.step, targets)
  }

  function Slipped(steps: seq<S.Label>): (ls: seq<Label>)
    ensures |ls| == |steps| && forall i :: 0 <= i < |steps| ==> ls[i] == Slip(steps[i])
  {
    seq(|steps|, i requires 0 <= i < |steps| => Slip(steps[i]))
  }

  lemma {:induction false} RunSlipped(w: S.World, steps: seq<S.Label>, rest: seq<Label>)
    ensures Run(w, Slipped(steps) + rest) == Run(S.Run(w, steps), rest)
    ensures forall fs :: WithoutSlip(fs, Slipped(steps) + rest) == WithoutSlip(fs, rest)
    decreases |steps|
  {
    if steps == [] {
      assert Slipped(steps) + rest == rest;
    } else {
      assert (Slipped(steps) + rest)[1..] == Slipped(steps[1..]) + rest;
      RunSlipped(S.Act(w, steps[0]), steps[1..], rest);
    }
  }

  /** From a task about to load what it has read: another administrator appends a
      policy, then the reload drops it. */
  lemma DropsInWindow(w: S.World, tid: nat, fs: seq<Policy>, p: Policy) returns (rest: seq<Label>)
    requires S.Active(w, tid) && w.tasks[tid].pc == R.PostConfig(R.Bumping, w.server) && F.IsForeign(p)
    ensures Run(w, rest).server == w.server && WithoutSlip(fs, rest) == fs + [p]
    ensures AllValid(rest) && forall l :: l in rest && l.Slip? ==> l.step.Advance?
  {
    var insert, load := Meddle(F.Touch(Insert(|fs|, p))), Slip(S.Advance(tid, Deliver, R.NO_VERDICT));
    rest := [insert, load];
    assert rest[1..] == [load] && [load][1..] == [];
    assert WithoutSlip(fs, rest) == WithoutSlip(fs + [p], [load]) == WithoutSlip(fs + [p], []);
    var w' := Act(w, insert);
    assert Run(w, rest) == Run(w', [load]) == Run(Act(w', load), []);
    assert Act(w', load).server == w.server;
  }

  /** The failure, from a start with no task and no lock. */
  lemma StaleReloadDropsForeign(w: S.World, targets: map<string, nat>, host: string) returns (labels: seq<Label>)
    requires w.tasks == map[] && w.locks == map[] && S.Apart(w, targets) && host in targets
    ensures AllValid(labels) && AllKnown(labels, targets)
    ensures |F.Foreign(Run(w, labels).server.policies)| < |WithoutSlip(F.Foreign(w.server.policies), labels)|
  {
    var i := targets[host];
    assert Restoration.Aligned(w.server.policies, host, i);
    W.BumpsAndReads(w, 0, host, i, targets, false);
    hide W.Reaches, S.Apart, Restoration.Aligned;
    var w' := W.Bumped(w, 0, host, i);
    var s := w'.server;
    var steps := W.ARun(w, w', targets, false);
    var fs := F.Foreign(w.server.policies);
    var rest := DropsInWindow(w', 0, fs, Policy(None, Body([], None, false, "")));
    labels := Slipped(steps) + rest;
    RunSlipped(w, steps, rest);
    RatioWriteIsBare(w.server.policies, i, Some(1.0));
    assert |F.Foreign(s.policies)| == |Bare(F.Foreign(s.policies))| == |fs|;
  }

  lemma {:induction false} NoTasksNoWindows(w: S.World, labels: seq<Label>, targets: map<string, nat>)
    requires w.tasks == map[] && targets == map[] && AllKnown(labels, targets)
    ensures ClearRun(w, labels)
    decreases |labels|
  {
    if labels != [] {
      assert labels[0].Slip? ==> S.Known(labels[0].step, targets);
      NoTasksNoWindows(Act(w, labels[0]), labels[1..], targets);
    }
  }

  /** Over all runs, whatever falls into the windows: the others' policies are,
      ratios aside, always what they alone would have made of them, if and only
      if no host can be renewed. */
  lemma ForeignKeptExactlyWhen(w: S.World, targets: map<string, nat>)
    requires w.tasks == map[] && w.locks == map[] && w.server.Valid() && S.Apart(w, targets)
    ensures AlwaysKept(w, targets) <==> targets == map[]
  {
    if targets == map[] {
      forall labels | AllValid(labels) && AllKnown(labels, targets)
        ensures Bare(F.Foreign(Run(w, labels).server.policies))
             == Bare(WithoutSlip(F.Foreign(w.server.policies), labels))
      {
        NoTasksNoWindows(w, labels, targets);
        ForeignKept(w, labels, F.Foreign(w.server.policies));
      }
    } else {
      var host :| host in targets;
      var labels := StaleReloadDropsForeign(w, targets, host);
      assert |Bare(F.Foreign(Run(w, labels).server.policies))|
          != |Bare(WithoutSlip(F.Foreign(w.server.policies), labels))|;
    }
  }
}
