/** Any number of upserts and renewals against one Caddy, one request at a time
    in any order. Renewals of one host exclude each other by a lock whose entry
    is never removed and which the detached task holds until it ends.

    A reload reads the configuration and posts it back, so a write that falls
    between the two is undone. A run is clear when every reload posts what is
    still current. */
module SharedCaddy {
  import opened Prelude
  import opened Names
  import opened CaddyServer
  import U = TlsUpsert
  import R = Renewal
  import opened Restoration

  datatype World = World(server: Server, locks: map<string, Option<nat>>,
                         tasks: map<nat, R.Task>, upserts: seq<U.Upsert>)

  datatype Label =
    | Arrive(tid: nat, host: string)
    | Advance(tid: nat, answer: Answer, verdict: R.Verdict)
    | Tick(client: nat, answer: Answer)

  predicate Active(w: World, tid: nat) { tid in w.tasks && !w.tasks[tid].pc.Ended? }

  predicate Free(w: World, host: string) { host in w.locks ==> w.locks[host].None? }

  function Act(w: World, l: Label): World {
    match l
    case Arrive(tid, host) =>
      if tid in w.tasks then w
      else if Free(w, host) then
        w.(locks := w.locks[host := Some(tid)], tasks := w.tasks[tid := R.Task(host, None, R.NO_VERDICT, R.Checking)])
      else w
    case Advance(tid, a, v) =>
      if Active(w, tid) then
        var (t, s) := R.Step(w.tasks[tid], w.server, a, v);
        w.(server := s, tasks := w.tasks[tid := t], locks := if t.pc.Ended? then w.locks[t.host := None] else w.locks)
      else w
    case Tick(k, a) =>
      if k < |w.upserts| then
        var (c, s) := U.Step(w.upserts[k], w.server, a);
        w.(server := s, upserts := w.upserts[k := c])
      else w
  }

  function Run(w: World, labels: seq<Label>): World
    decreases |labels|
  {
    if labels == [] then w else Run(Act(w, labels[0]), labels[1..])
  }

  /** No write falls into the window of a reload. */
  predicate Clear(w: World, l: Label) { l.Advance? && Active(w, l.tid) ==> Fresh(w.tasks[l.tid], w.server) }

  predicate ClearRun(w: World, labels: seq<Label>)
    decreases |labels|
  {
    labels == [] || (Clear(w, labels[0]) && ClearRun(Act(w, labels[0]), labels[1..]))
  }

  // ----- stable indices -----

  predicate Extends(ps: seq<Policy>, qs: seq<Policy>) {
    && |ps| <= |qs|
    && forall i :: 0 <= i < |ps| ==> qs[i].id == ps[i].id && qs[i].body.subjects == ps[i].body.subjects
  }

  /** An identifier stands for one list of subjects, among the upserts and in
      the array. */
  predicate Tidy(w: World) {
    && w.server.Valid()
    && (forall j, k :: 0 <= j < |w.upserts| && 0 <= k < |w.upserts|
          && U.OwnId(w.upserts[j].desired) == U.OwnId(w.upserts[k].desired)
          ==> w.upserts[j].desired.subjects == w.upserts[k].desired.subjects)
    && (forall k, i :: 0 <= k < |w.upserts| && 0 <= i < |w.server.policies|
          && w.server.policies[i].id == Some(U.OwnId(w.upserts[k].desired))
          ==> w.server.policies[i].body.subjects == w.upserts[k].desired.subjects)
  }

  lemma FirstCoverExtends(ps: seq<Policy>, qs: seq<Policy>, host: string)
    requires Extends(ps, qs)
    ensures FirstCover(ps, host).Some? ==> FirstCover(qs, host) == FirstCover(ps, host)
  {
    assert forall j :: 0 <= j < |ps| ==> (Covers(ps[j], host) <==> Covers(qs[j], host));
    hide Covers;
    var p, q := FirstCover(ps, host), FirstCover(qs, host);
    assert p.Some? ==> Covers(qs[p.value], host);
  }

  lemma RenewalStepExtends(t: R.Task, s: Server, a: Answer, v: R.Verdict)
    requires Fresh(t, s)
    ensures var s' := R.Step(t, s, a, v).1;
      && s'.keyExists == s.keyExists && |s'.policies| == |s.policies| && Extends(s.policies, s'.policies)
  {
    if !Writing(t.pc) {
      StepReads(t, s, a, v);
    }
  }

  lemma TidyStep(w: World, l: Label)
    requires Tidy(w) && Clear(w, l)
    ensures Tidy(Act(w, l)) && Extends(w.server.policies, Act(w, l).server.policies)
  {
    var w' := Act(w, l);
    match l {
      case Arrive(_, _) =>
      case Advance(tid, a, v) =>
        if Active(w, tid) {
          RenewalStepExtends(w.tasks[tid], w.server, a, v);
        }
      case Tick(k, a) =>
        if k < |w.upserts| {
          U.StepTouchesOnlyItsOwn(w.upserts[k], w.server, a);
          assert forall j :: 0 <= j < |w.upserts| ==> w'.upserts[j].desired == w.upserts[j].desired;
        }
    }
  }

  /** Slip's own operations never shorten or reorder the array, and the first
      policy that covers a host stays the first. */
  lemma {:induction false} IndexStability(w: World, labels: seq<Label>, host: string)
    requires Tidy(w) && ClearRun(w, labels)
    ensures var ps, qs := w.server.policies, Run(w, labels).server.policies;
      Extends(ps, qs) && (FirstCover(ps, host).Some? ==> FirstCover(qs, host) == FirstCover(ps, host))
    decreases |labels|
  {
    if labels != [] {
      var w' := Act(w, labels[0]);
      TidyStep(w, labels[0]);
      IndexStability(w', labels[1..], host);
      FirstCoverExtends(w.server.policies, Run(w, labels).server.policies, host);
    }
  }

  /** One host name without a literal `star.` at its front. */
  predicate Single(subjects: seq<string>) {
    |subjects| == 1 && HostSubject(subjects[0]) && !("star." <= subjects[0])
  }

  /** Under the scheme of identifiers, upserts of single host names are tidy, among
      themselves and in an array in which a TLS identifier of slip's form is that
      of the policy's own single subject. */
  lemma DistinctSubjectsAreTidy(w: World)
    requires w.server.Valid()
    requires forall k :: 0 <= k < |w.upserts| ==> Single(w.upserts[k].desired.subjects)
    requires forall i :: 0 <= i < |w.server.policies| ==> var p := w.server.policies[i];
      p.id.Some? && TLS_PREFIX <= p.id.value ==> Single(p.body.subjects) && p.id.value == TlsId(p.body.subjects[0])
    ensures Tidy(w)
  {
    forall k, subjects: seq<string> | 0 <= k < |w.upserts| && Single(subjects)
                                      && TlsId(subjects[0]) == U.OwnId(w.upserts[k].desired)
      ensures subjects == w.upserts[k].desired.subjects
    {
      TlsIdCollisions(subjects[0], w.upserts[k].desired.subjects[0]);
    }
    forall k, i | 0 <= k < |w.upserts| && 0 <= i < |w.server.policies|
                  && w.server.policies[i].id == Some(U.OwnId(w.upserts[k].desired))
      ensures w.server.policies[i].body.subjects == w.upserts[k].desired.subjects
    {
      assert TLS_PREFIX <= w.server.policies[i].id.value;
    }
  }

  // ----- concurrent renewals -----

  /** Every lock is held by the one active task of its host. */
  ghost predicate LocksHeld(w: World) {
    && (forall tid :: Active(w, tid) ==> w.tasks[tid].host in w.locks && w.locks[w.tasks[tid].host] == Some(tid))
    && (forall h :: h in w.locks && w.locks[h].Some? ==>
          Active(w, w.locks[h].value) && w.tasks[w.locks[h].value].host == h)
  }

  /** The hosts that may be renewed, each with a first covering policy of its own
      that its identifier names, if it names any. */
  predicate Apart(w: World, targets: map<string, nat>) {
    && w.server.keyExists
    && (forall h :: h in targets ==> Aligned(w.server.policies, h, targets[h]))
    && (forall g, h :: g in targets && h in targets && g != h ==> targets[g] != targets[h])
  }

  /** Some task of the host has reported that it may have left the bump. */
  predicate Spoiled(w: World, host: string) {
    exists tid :: tid in w.tasks && w.tasks[tid].host == host && w.tasks[tid].pc.Ended?
               && MayLeaveBumped(w.tasks[tid].pc.outcome)
  }

  predicate Known(l: Label, targets: map<string, nat>) { l.Arrive? ==> l.host in targets }

  lemma LocksStep(w: World, l: Label)
    requires LocksHeld(w)
    ensures LocksHeld(Act(w, l)) && w.locks.Keys <= Act(w, l).locks.Keys
  {
    var w' := Act(w, l);
    if l.Advance? && Active(w, l.tid) {
      var t := w'.tasks[l.tid];
      assert t.host == w.tasks[l.tid].host;
      forall tid | Active(w', tid)
        ensures w'.tasks[tid].host in w'.locks && w'.locks[w'.tasks[tid].host] == Some(tid)
      {
        if tid != l.tid {
          assert Active(w, tid);
        }
      }
    } else if l.Arrive? && w' != w {
      forall tid | Active(w', tid)
        ensures w'.tasks[tid].host in w'.locks && w'.locks[w'.tasks[tid].host] == Some(tid)
      {
        if tid != l.tid {
          assert Active(w, tid);
        }
      }
    } else {
      assert forall tid :: Active(w', tid) == Active(w, tid);
    }
  }

  /** In every run at most one task of a host is under way, and lock entries stay. */
  lemma {:induction false} OneTaskPerHost(w: World, labels: seq<Label>, tid: nat, other: nat)
    requires LocksHeld(w)
    ensures LocksHeld(Run(w, labels)) && w.locks.Keys <= Run(w, labels).locks.Keys
    ensures var w' := Run(w, labels);
      Active(w', tid) && Active(w', other) && w'.tasks[tid].host == w'.tasks[other].host ==> tid == other
    decreases |labels|
  {
    hide Act;
    if labels != [] {
      LocksStep(w, labels[0]);
      OneTaskPerHost(Act(w, labels[0]), labels[1..], tid, other);
    }
  }

  /** How often the task gets to move. */
  function Turns(labels: seq<Label>, tid: nat): nat
    decreases |labels|
  {
    if labels == [] then 0
    else (if labels[0].Advance? && labels[0].tid == tid then 1 else 0) + Turns(labels[1..], tid)
  }

  /** A task ends after at most as many moves as its program counter has ahead of
      it, whatever the answers and whatever happens in between; so every lock is
      given back. */
  lemma {:induction false} EveryTaskEnds(w: World, labels: seq<Label>, tid: nat)
    requires tid in w.tasks && Turns(labels, tid) >= R.Rank(w.tasks[tid].pc)
    ensures tid in Run(w, labels).tasks && Run(w, labels).tasks[tid].pc.Ended?
    decreases |labels|
  {
    hide R.Step, U.Step;
    if labels != [] {
      var l := labels[0];
      if l.Advance? && Active(w, l.tid) {
        R.StepDescends(w.tasks[l.tid], w.server, l.answer, l.verdict);
      }
      EveryTaskEnds(Act(w, l), labels[1..], tid);
    }
  }
}
