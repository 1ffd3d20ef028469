/** What a renewal leaves behind. Everything rests on one fact about a host: the
    policy its identifier names, if there is one, is the first that covers it.
    Then every write of the task lands on that one policy. */
module Restoration {
  import opened Prelude
  import opened Names
  import opened CaddyServer
  import opened Renewal

  /** The identifier of the host names no policy, or its first covering one. */
  predicate Aligned(ps: seq<Policy>, host: string, i: nat) {
    && FirstCover(ps, host) == Some(i)
    && (IndexOfId(ps, TlsId(host)).None? || IndexOfId(ps, TlsId(host)) == Some(i))
  }

  /** The ratio a target may show while the task is at `pc`. */
  predicate RatioFits(pc: Pc, ratio: Option<real>, original: Option<real>) {
    match pc
    case Checking => ratio == original
    case Capturing => ratio == original
    case WriteById(stage) => ratio == if stage.Bumping? then original else Some(1.0)
    case Finding(stage) => ratio == if stage.Bumping? then original else Some(1.0)
    case WriteAt(stage, _) => ratio == if stage.Bumping? then original else Some(1.0)
    case ReadConfig(stage) => ratio == if stage.Bumping? then Some(1.0) else original
    case PostConfig(stage, _) => ratio == if stage.Bumping? then Some(1.0) else original
    case Polling => ratio == Some(1.0)
    case Verifying => ratio == original
    case Ended(outcome) => ratio == original || (MayLeaveBumped(outcome) && ratio == Some(1.0))
  }

  predicate MayLeaveBumped(outcome: Outcome) { outcome.RestorationFailed? || outcome.ReloadFailed? }

  /** A task and its target policy agree. */
  predicate InPhase(t: Task, s: Server, i: nat, original: Option<real>) {
    && s.keyExists && Aligned(s.policies, t.host, i)
    && (t.pc.Checking? || t.pc.Capturing? || t.pc.Ended? || t.original == original)
    && (t.pc.WriteAt? ==> t.pc.index == i)
    && RatioFits(t.pc, s.policies[i].body.ratio, original)
  }

  /** The two configurations differ at most in the ratio of one policy. */
  predicate RatioOnly(s: Server, s': Server, i: nat) {
    && s.keyExists == s'.keyExists && |s.policies| == |s'.policies| && i < |s.policies|
    && s'.policies == s.policies[i := WithRatio(s.policies[i], s'.policies[i].body.ratio)]
  }

  /** A configuration read for a reload is still the current one. */
  predicate Fresh(t: Task, s: Server) { t.pc.PostConfig? ==> t.pc.snapshot == s }

  lemma {:induction false} SameSkeleton(ps: seq<Policy>, qs: seq<Policy>, host: string)
    requires |ps| == |qs|
    requires forall j :: 0 <= j < |ps| ==> ps[j].id == qs[j].id && ps[j].body.subjects == qs[j].body.subjects
    ensures FirstCover(ps, host) == FirstCover(qs, host)
    ensures IndexOfId(ps, TlsId(host)) == IndexOfId(qs, TlsId(host))
  {
    hide TlsId;
    if ps != [] {
      SameSkeleton(ps[1..], qs[1..], host);
      assert Covers(ps[0], host) <==> Covers(qs[0], host);
      hide Covers;
    }
  }

  lemma RatioOnlyKeepsAligned(s: Server, s': Server, i: nat, host: string, k: nat)
    requires RatioOnly(s, s', i)
    ensures Aligned(s'.policies, host, k) <==> Aligned(s.policies, host, k)
  {
    SameSkeleton(s.policies, s'.policies, host);
  }

  predicate Writing(pc: Pc) { pc.WriteById? || pc.WriteAt? }

  lemma StepReads(t: Task, s: Server, a: Answer, v: Verdict)
    requires !Writing(t.pc) && Fresh(t, s)
    ensures var (t', s') := Step(t, s, a, v); s' == s && Fresh(t', s) && t'.host == t.host
  {
  }

  lemma ReadInPhase(t: Task, s: Server, a: Answer, v: Verdict, i: nat, original: Option<real>)
    requires InPhase(t, s, i, original) && Fresh(t, s) && !Writing(t.pc)
    ensures InPhase(Step(t, s, a, v).0, s, i, original)
  {
    hide FirstCover, IndexOfId, Covers, TlsId;
    var t', ratio := Step(t, s, a, v).0, s.policies[i].body.ratio;
    assert Aligned(s.policies, t'.host, i);
    match t.pc {
      case Checking =>
      case Capturing => assert t'.pc.Ended? || (t'.pc == WriteById(Bumping) && t'.original == ratio);
      case Finding(stage) => assert t'.pc == WriteFailed(stage) || t'.pc == WriteAt(stage, i);
      case ReadConfig(stage) => assert t'.pc == PostConfig(stage, s) || t'.pc == Reloaded(stage, false);
      case PostConfig(stage, _) => assert t'.pc == Reloaded(stage, true) || t'.pc == Reloaded(stage, false);
      case Polling =>
      case Verifying => assert t'.pc.Ended?;
      case Ended(_) =>
    }
    assert RatioFits(t'.pc, ratio, original);
  }

  lemma WriteInPhase(t: Task, s: Server, a: Answer, v: Verdict, i: nat, original: Option<real>)
    requires InPhase(t, s, i, original) && Writing(t.pc)
    ensures var (t', s') := Step(t, s, a, v);
      && t'.host == t.host && !t'.pc.PostConfig? && !t'.pc.WriteAt? && (t'.pc.Ended? || t'.original == original)
      && s' == s.(policies := s.policies[i := WithRatio(s.policies[i], s'.policies[i].body.ratio)])
      && RatioFits(t'.pc, s'.policies[i].body.ratio, original)
  {
    assert s.policies[i := WithRatio(s.policies[i], s.policies[i].body.ratio)] == s.policies;
  }

  /** One step of a task whose reloads are fresh. */
  lemma StepInPhase(t: Task, s: Server, a: Answer, v: Verdict, i: nat, original: Option<real>)
    requires InPhase(t, s, i, original) && Fresh(t, s)
    ensures var (t', s') := Step(t, s, a, v);
      && t'.host == t.host && RatioOnly(s, s', i) && InPhase(t', s', i, original) && Fresh(t', s')
  {
    if Writing(t.pc) {
      WriteInPhase(t, s, a, v, i, original);
      RatioOnlyKeepsAligned(s, Step(t, s, a, v).1, i, t.host, i);
    } else {
      StepReads(t, s, a, v);
      ReadInPhase(t, s, a, v, i, original);
    }
  }

  lemma {:induction false} DriveInPhase(t: Task, s: Server, script: seq<Answer>, v: Verdict,
                                        i: nat, original: Option<real>)
    requires InPhase(t, s, i, original) && Fresh(t, s)
    ensures var e := Drive(t, s, script, v);
      && RatioOnly(s, e.server, i)
      && RatioFits(Ended(e.outcome), e.server.policies[i].body.ratio, original)
    decreases Rank(t.pc)
  {
    if !t.pc.Ended? {
      hide Step, Aligned, Rank;
      var (t', s') := Step(t, s, Next(script), v);
      StepDescends(t, s, Next(script), v);
      StepInPhase(t, s, Next(script), v, i, original);
      DriveInPhase(t', s', Rest(t, script), v, i, original);
    }
  }

  /** The renewal task as the handler starts it, left alone, under any answers:
      unless it reports a failed restoration or a failed reload, the
      configuration is exactly what it was; in those two cases it differs at
      most in that the host's policy shows a ratio of 1. */
  lemma RestoredUnderEveryFailure(s: Server, host: string, i: nat, script: seq<Answer>, v: Verdict)
    requires s.keyExists && Aligned(s.policies, host, i)
    ensures var e := Drive(Task(host, None, NO_VERDICT, Checking), s, script, v);
      && (!MayLeaveBumped(e.outcome) ==> e.server == s)
      && (e.server == s || e.server == s.(policies := s.policies[i := WithRatio(s.policies[i], Some(1.0))]))
  {
    var original := s.policies[i].body.ratio;
    DriveInPhase(Task(host, None, NO_VERDICT, Checking), s, script, v, i, original);
    assert s.policies[i := WithRatio(s.policies[i], original)] == s.policies;
  }

  // ----- exactly when -----

  function Cycle(s: Server, host: string, script: seq<Answer>, v: Verdict): End
    requires FirstCover(s.policies, host).Some?
  {
    var original := s.policies[FirstCover(s.policies, host).value].body.ratio;
    Drive(Task(host, original, NO_VERDICT, WriteById(Bumping)), s, script, v)
  }

  ghost predicate Honest(s: Server, host: string, script: seq<Answer>, v: Verdict)
    requires FirstCover(s.policies, host).Some?
  {
    var e := Cycle(s, host, script, v);
    e.outcome in {Outcome.Success, Timeout, NotProven} ==> e.server == s
  }

  /** Both policies already show the bumped ratio, so no write changes anything. */
  predicate BothBumped(ps: seq<Policy>, host: string) {
    var f, k := FirstCover(ps, host), IndexOfId(ps, TlsId(host));
    f.Some? && k.Some? && ps[f.value].body.ratio == ps[k.value].body.ratio == Some(1.0)
  }

  /** The states of a task that can only rewrite ratios of 1. */
  predicate Idle(t: Task, s: Server) {
    && s.keyExists && BothBumped(s.policies, t.host) && Fresh(t, s) && t.original == Some(1.0)
    && (t.pc.WriteAt? ==> FirstCover(s.policies, t.host) == Some(t.pc.index))
    && !t.pc.Checking? && !t.pc.Capturing?
  }

  lemma RewriteChangesNothing(s: Server, a: Answer, j: nat)
    requires j < |s.policies| && s.policies[j].body.ratio == Some(1.0)
    ensures WriteRatioAt(s, a, j, Some(1.0)).1 == s
    ensures forall id :: IndexOfId(s.policies, id) == Some(j) ==> WriteRatioById(s, a, id, Some(1.0)).1 == s
  {
    assert s.policies[j := WithRatio(s.policies[j], Some(1.0))] == s.policies;
  }

  lemma IdleStep(t: Task, s: Server, a: Answer, v: Verdict)
    requires Idle(t, s)
    ensures var (t', s') := Step(t, s, a, v); s' == s && Idle(t', s)
  {
    if Writing(t.pc) {
      RewriteChangesNothing(s, a, FirstCover(s.policies, t.host).value);
      RewriteChangesNothing(s, a, IndexOfId(s.policies, TlsId(t.host)).value);
    } else {
      StepReads(t, s, a, v);
    }
  }

  lemma {:induction false} NothingToChange(t: Task, s: Server, script: seq<Answer>, v: Verdict)
    requires Idle(t, s)
    ensures Drive(t, s, script, v).server == s
    decreases Rank(t.pc)
  {
    if !t.pc.Ended? {
      hide Step, Idle, Rank;
      StepDescends(t, s, Next(script), v);
      IdleStep(t, s, Next(script), v);
      NothingToChange(Step(t, s, Next(script), v).0, s, Rest(t, script), v);
    }
  }

  /** A ratio write with its reload, all delivered, when the identifier names
      policy `k`. */
  lemma DeliveredById(t: Task, s: Server, script: seq<Answer>, v: Verdict, stage: Stage, k: nat)
    requires IndexOfId(s.policies, TlsId(t.host)) == Some(k)
    requires Next(script) == Next(Later(script)) == Next(Later(Later(script))) == Deliver
    ensures Drive(t.(pc := WriteById(stage)), s, script, v)
         == Drive(t.(pc := Reloaded(stage, true)),
                  s.(policies := s.policies[k := WithRatio(s.policies[k], Target(t, stage))]),
                  Later(Later(Later(script))), v)
  {
    var s' := s.(policies := s.policies[k := WithRatio(s.policies[k], Target(t, stage))]);
    var script' := Later(script);
    assert Drive(t.(pc := WriteById(stage)), s, script, v) == Drive(t.(pc := ReadConfig(stage)), s', script', v);
    assert Drive(t.(pc := ReadConfig(stage)), s', script', v)
        == Drive(t.(pc := PostConfig(stage, s')), s', Later(script'), v);
  }

  /** The same when the write by identifier is refused and the rest delivered. */
  lemma DeliveredByIndex(t: Task, s: Server, v: Verdict, stage: Stage, f: nat)
    requires s.keyExists && FirstCover(s.policies, t.host) == Some(f)
    ensures Drive(t.(pc := WriteById(stage)), s, [Refuse], v)
         == Drive(t.(pc := Reloaded(stage, true)),
                  s.(policies := s.policies[f := WithRatio(s.policies[f], Target(t, stage))]), [], v)
  {
    var s' := s.(policies := s.policies[f := WithRatio(s.policies[f], Target(t, stage))]);
    assert Drive(t.(pc := WriteById(stage)), s, [Refuse], v) == Drive(t.(pc := Finding(stage)), s, [], v);
    assert Drive(t.(pc := Finding(stage)), s, [], v) == Drive(t.(pc := WriteAt(stage, f)), s, [], v);
    assert Drive(t.(pc := WriteAt(stage, f)), s, [], v) == Drive(t.(pc := ReadConfig(stage)), s', [], v);
    assert Drive(t.(pc := ReadConfig(stage)), s', [], v) == Drive(t.(pc := PostConfig(stage, s')), s', [], v);
  }

  /** The cycle after a bump that went through by identifier. */
  lemma BumpedById(s: Server, host: string, script: seq<Answer>, v: Verdict, k: nat)
    requires FirstCover(s.policies, host).Some? && IndexOfId(s.policies, TlsId(host)) == Some(k)
    requires Next(script) == Next(Later(script)) == Next(Later(Later(script))) == Deliver
    ensures var original := s.policies[FirstCover(s.policies, host).value].body.ratio;
      Cycle(s, host, script, v)
        == Drive(Task(host, original, v, WriteById(Restoring)),
                 s.(policies := s.policies[k := WithRatio(s.policies[k], Some(1.0))]), Later(Later(Later(script))), v)
  {
    hide Drive;
    var original := s.policies[FirstCover(s.policies, host).value].body.ratio;
    var t := Task(host, original, NO_VERDICT, WriteById(Bumping));
    var s', after := s.(policies := s.policies[k := WithRatio(s.policies[k], Some(1.0))]), Later(Later(Later(script)));
    DeliveredById(t, s, script, v, Bumping, k);
    AfterPolling(t, s', after, v);
  }

  lemma VerifiedEnds(t: Task, s: Server, v: Verdict, f: nat)
    requires s.keyExists && FirstCover(s.policies, t.host) == Some(f) && s.policies[f].body.ratio == t.original
    requires t.verdict.renewed
    ensures Drive(t.(pc := Verifying), s, [], v) == End(Outcome.Success, s, [])
  {
    assert Step(t.(pc := Verifying), s, Deliver, v) == (t.(pc := Ended(Outcome.Success)), s);
  }

  predicate Misaligned(s: Server, host: string, f: nat, k: nat) {
    s.keyExists && FirstCover(s.policies, host) == Some(f) && IndexOfId(s.policies, TlsId(host)) == Some(k) && f != k
  }

  /** Everything delivered: the identifier's policy ends with the other's ratio. */
  lemma OverwritesById(s: Server, host: string, f: nat, k: nat, v: Verdict)
    requires Misaligned(s, host, f, k) && v.renewed && s.policies[k].body.ratio != s.policies[f].body.ratio
    ensures !Honest(s, host, [], v)
  {
    var original := s.policies[f].body.ratio;
    var t := Task(host, original, v, WriteById(Restoring));
    BumpedById(s, host, [], v, k);
    var s1 := s.(policies := s.policies[k := WithRatio(s.policies[k], Some(1.0))]);
    SameSkeleton(s.policies, s1.policies, host);
    DeliveredById(t, s1, [], v, Restoring, k);
    var s2 := s1.(policies := s1.policies[k := WithRatio(s1.policies[k], original)]);
    SameSkeleton(s1.policies, s2.policies, host);
    VerifiedEnds(t, s2, v, f);
    assert s2.policies[k].body.ratio == original;
  }

  /** The restoring write by identifier is refused: it goes to the other policy. */
  lemma RestoresTheOther(s: Server, host: string, f: nat, k: nat, v: Verdict)
    requires Misaligned(s, host, f, k) && v.renewed && s.policies[k].body.ratio != Some(1.0)
    ensures !Honest(s, host, [Deliver, Deliver, Deliver, Refuse], v)
  {
    hide Drive, Step, Covers;
    var original, script := s.policies[f].body.ratio, [Deliver, Deliver, Deliver, Refuse];
    var t := Task(host, original, v, WriteById(Restoring));
    assert Later(script) == [Deliver, Deliver, Refuse] && Later(Later(script)) == [Deliver, Refuse]
        && Later(Later(Later(script))) == [Refuse];
    BumpedById(s, host, script, v, k);
    var s1 := s.(policies := s.policies[k := WithRatio(s.policies[k], Some(1.0))]);
    SameSkeleton(s.policies, s1.policies, host);
    DeliveredByIndex(t, s1, v, Restoring, f);
    var s2 := s1.(policies := s1.policies[f := WithRatio(s1.policies[f], original)]);
    SameSkeleton(s1.policies, s2.policies, host);
    VerifiedEnds(t, s2, v, f);
    assert s2.policies[k].body.ratio == Some(1.0);
  }

  /** The cycle tells the truth under every schedule exactly when the host is
      aligned or both policies already show the bumped ratio. */
  lemma HonestExactlyWhen(s: Server, host: string, f: nat)
    requires s.keyExists && FirstCover(s.policies, host) == Some(f)
    ensures (forall script, v :: Honest(s, host, script, v))
       <==> Aligned(s.policies, host, f) || BothBumped(s.policies, host)
  {
    var k := IndexOfId(s.policies, TlsId(host));
    if Aligned(s.policies, host, f) {
      forall script, v
        ensures Honest(s, host, script, v)
      {
        var t := Task(host, s.policies[f].body.ratio, NO_VERDICT, WriteById(Bumping));
        DriveInPhase(t, s, script, v, f, s.policies[f].body.ratio);
        assert s.policies[f := WithRatio(s.policies[f], s.policies[f].body.ratio)] == s.policies;
      }
    } else if BothBumped(s.policies, host) {
      forall script, v
        ensures Honest(s, host, script, v)
      {
        NothingToChange(Task(host, Some(1.0), NO_VERDICT, WriteById(Bumping)), s, script, v);
      }
    } else {
      var v := Verdict(true, false);
      if s.policies[k.value].body.ratio != s.policies[f].body.ratio {
        OverwritesById(s, host, f, k.value, v);
      } else {
        RestoresTheOther(s, host, f, k.value, v);
      }
    }
  }
}
