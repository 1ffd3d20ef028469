/** What a renewal reports, exactly, under every schedule of answers: a reading of
    the outcome that goes by the writes and reloads as wholes. */
module RenewalOutcome {
  import opened Prelude
  import opened Names
  import opened CaddyServer
  import opened Renewal
  import opened Restoration

  /** A stretch of requests: whether it came through, and the answers left over. */
  datatype Leg = Leg(ok: bool, rest: seq<Answer>)

  /** A ratio write. `named`: the host's identifier names a policy. Lost by
      identifier, it has failed; otherwise, if it did not go through, it goes by
      index, which takes a listing and another write. */
  function WriteLeg(named: bool, script: seq<Answer>): Leg {
    var listing, second := Next(Later(script)), Next(Later(Later(script)));
    if Next(script).Lose? then Leg(false, Later(script))
    else if named && Next(script).Deliver? then Leg(true, Later(script))
    else if !listing.Deliver? then Leg(false, Later(Later(script)))
    else Leg(second.Deliver?, Later(Later(Later(script))))
  }

  function ReloadLeg(script: seq<Answer>): Leg {
    if !Next(script).Deliver? then Leg(false, Later(script))
    else Leg(Next(Later(script)).Deliver?, Later(Later(script)))
  }

  function Written(s: Server, i: nat, ratio: Option<real>): Server
    requires i < |s.policies|
  {
    s.(policies := s.policies[i := WithRatio(s.policies[i], ratio)])
  }

  predicate IsNamed(s: Server, host: string) { IndexOfId(s.policies, TlsId(host)).Some? }

  lemma WriteRuns(t: Task, s: Server, script: seq<Answer>, v: Verdict, stage: Stage, i: nat)
    requires s.keyExists && Aligned(s.policies, t.host, i)
    ensures var leg := WriteLeg(IsNamed(s, t.host), script);
      Drive(t.(pc := WriteById(stage)), s, script, v)
        == if leg.ok then Drive(t.(pc := ReadConfig(stage)), Written(s, i, Target(t, stage)), leg.rest, v)
           else Drive(t.(pc := WriteFailed(stage)), s, leg.rest, v)
  {
    hide TlsId, FirstCover, Covers;
    var t1 := t.(pc := WriteById(stage));
    if Next(script).Refuse? || (Next(script).Deliver? && !IsNamed(s, t.host)) {
      assert Drive(t1, s, script, v) == Drive(t.(pc := Finding(stage)), s, Later(script), v);
      IndexRuns(t, s, Later(script), v, stage, i);
    }
  }

  /** The same from the listing on. */
  lemma IndexRuns(t: Task, s: Server, script: seq<Answer>, v: Verdict, stage: Stage, i: nat)
    requires s.keyExists && FirstCover(s.policies, t.host) == Some(i)
    ensures var end := Drive(t.(pc := Finding(stage)), s, script, v);
      if !Next(script).Deliver? then end == Drive(t.(pc := WriteFailed(stage)), s, Later(script), v)
      else if !Next(Later(script)).Deliver? then end == Drive(t.(pc := WriteFailed(stage)), s, Later(Later(script)), v)
      else end == Drive(t.(pc := ReadConfig(stage)), Written(s, i, Target(t, stage)), Later(Later(script)), v)
  {
    hide FirstCover, Covers;
    if Next(script).Deliver? {
      assert Drive(t.(pc := Finding(stage)), s, script, v)
          == Drive(t.(pc := WriteAt(stage, i)), s, Later(script), v);
    }
  }

  lemma ReloadRuns(t: Task, s: Server, script: seq<Answer>, v: Verdict, stage: Stage)
    ensures var leg := ReloadLeg(script);
      Drive(t.(pc := ReadConfig(stage)), s, script, v) == Drive(t.(pc := Reloaded(stage, leg.ok)), s, leg.rest, v)
  {
    if Next(script).Deliver? {
      assert Drive(t.(pc := ReadConfig(stage)), s, script, v)
          == Drive(t.(pc := PostConfig(stage, s)), s, Later(script), v);
    }
  }

  lemma WrittenAligned(s: Server, i: nat, ratio: Option<real>, host: string)
    requires Aligned(s.policies, host, i)
    ensures Aligned(Written(s, i, ratio).policies, host, i) && IsNamed(Written(s, i, ratio), host) == IsNamed(s, host)
  {
    SameSkeleton(s.policies, Written(s, i, ratio).policies, host);
  }

  /** The end of the cycle, from the restoring write on. */
  lemma RestoreOutcome(t: Task, s: Server, script: seq<Answer>, v: Verdict, i: nat)
    requires s.keyExists && Aligned(s.policies, t.host, i)
    ensures var write := WriteLeg(IsNamed(s, t.host), script);
      var verification := Next(ReloadLeg(write.rest).rest);
      var outcome := Drive(t.(pc := WriteById(Restoring)), s, script, v).outcome;
      && (outcome == RestorationFailed <==> !write.ok || verification.Refuse?)
      && (outcome == Outcome.Success <==> write.ok && !verification.Refuse? && t.verdict.renewed)
      && (outcome == Timeout <==>
            write.ok && !verification.Refuse? && !t.verdict.renewed && t.verdict.timedOut)
      && outcome in {RestorationFailed, Outcome.Success, Timeout, NotProven}
  {
    hide TlsId;
    var write := WriteLeg(IsNamed(s, t.host), script);
    WriteRuns(t, s, script, v, Restoring, i);
    if write.ok {
      var s' := Written(s, i, t.original);
      WrittenAligned(s, i, t.original, t.host);
      ReloadRuns(t, s', write.rest, v, Restoring);
      VerificationEnds(t, s', ReloadLeg(write.rest).rest, v, i);
    }
  }

  lemma VerificationEnds(t: Task, s: Server, script: seq<Answer>, v: Verdict, i: nat)
    requires s.keyExists && FirstCover(s.policies, t.host) == Some(i) && s.policies[i].body.ratio == t.original
    ensures Drive(t.(pc := Verifying), s, script, v).outcome
         == if Next(script).Refuse? then RestorationFailed
            else if t.verdict.renewed then Outcome.Success
            else if t.verdict.timedOut then Timeout else NotProven
  {
    var (t', s') := Step(t.(pc := Verifying), s, Next(script), v);
    assert Drive(t.(pc := Verifying), s, script, v) == Drive(t', s', Later(script), v);
  }

  /** The whole cycle of a host with an aligned policy. It reports a failed bump, a
      failed reload, or a failed restoration exactly when those requests failed; a
      restoration is also reported as failed if the verification was refused, but
      not if it was lost. Otherwise it reports success if the renewal was proved and
      a time-out if the time was up. */
  lemma CycleOutcomeExactly(s: Server, host: string, i: nat, script: seq<Answer>, v: Verdict)
    requires s.keyExists && Aligned(s.policies, host, i)
    ensures var t := Task(host, s.policies[i].body.ratio, NO_VERDICT, WriteById(Bumping));
      var outcome := Drive(t, s, script, v).outcome;
      var bump := WriteLeg(IsNamed(s, host), script);
      var reload := ReloadLeg(bump.rest);
      var restore := WriteLeg(IsNamed(s, host), reload.rest);
      var verification := Next(ReloadLeg(restore.rest).rest);
      var polled := bump.ok && reload.ok;
      var restored := polled && restore.ok && !verification.Refuse?;
      && (outcome == BumpFailed <==> !bump.ok)
      && (outcome == ReloadFailed <==> bump.ok && !reload.ok)
      && (outcome == RestorationFailed <==> polled && !restored)
      && (outcome == Outcome.Success <==> restored && v.renewed)
      && (outcome == Timeout <==> restored && !v.renewed && v.timedOut)
  {
    hide TlsId;
    var t := Task(host, s.policies[i].body.ratio, NO_VERDICT, WriteById(Bumping));
    var bump := WriteLeg(IsNamed(s, host), script);
    WriteRuns(t, s, script, v, Bumping, i);
    if bump.ok {
      var s', reload := Written(s, i, Some(1.0)), ReloadLeg(bump.rest);
      WrittenAligned(s, i, Some(1.0), host);
      ReloadRuns(t, s', bump.rest, v, Bumping);
      if reload.ok {
        AfterPolling(t, s', reload.rest, v);
        RestoreOutcome(t.(verdict := v), s', reload.rest, v, i);
      } else {
        UnwindingEnds(t, s', reload.rest, v, i);
      }
    }
  }

  lemma UnwindingEnds(t: Task, s: Server, script: seq<Answer>, v: Verdict, i: nat)
    requires s.keyExists && Aligned(s.policies, t.host, i)
    ensures Drive(t.(pc := WriteById(Unwinding)), s, script, v).outcome == ReloadFailed
  {
    hide TlsId;
    var write := WriteLeg(IsNamed(s, t.host), script);
    WriteRuns(t, s, script, v, Unwinding, i);
    if write.ok {
      ReloadRuns(t, Written(s, i, Target(t, Unwinding)), write.rest, v, Unwinding);
    }
  }

  /** Everything delivered: success if the renewal was proved, else a time-out, and
      the configuration as it was. */
  lemma DeliveredCycleEnds(s: Server, host: string, i: nat, v: Verdict)
    requires s.keyExists && Aligned(s.policies, host, i) && (v.renewed || v.timedOut)
    ensures Drive(Task(host, s.policies[i].body.ratio, NO_VERDICT, WriteById(Bumping)), s, [], v)
         == End(if v.renewed then Outcome.Success else Timeout, s, [])
  {
    var original := s.policies[i].body.ratio;
    var t := Task(host, original, NO_VERDICT, WriteById(Bumping));
    CycleOutcomeExactly(s, host, i, [], v);
    assert InPhase(t, s, i, original);
    hide Step, Drive, Aligned, InPhase, WriteLeg, ReloadLeg, IsNamed;
    AllComesThrough(IsNamed(s, host));
    DriveInPhase(t, s, [], v, i, original);
    NoAnswersLeft(t, s, v);
    assert s.policies[i := WithRatio(s.policies[i], original)] == s.policies;
  }

  lemma AllComesThrough(named: bool)
    ensures WriteLeg(named, []) == Leg(true, []) && ReloadLeg([]) == Leg(true, [])
  {
  }

  lemma {:induction false} NoAnswersLeft(t: Task, s: Server, v: Verdict)
    ensures Drive(t, s, [], v).script == []
    decreases Rank(t.pc)
  {
    hide Step;
    if !t.pc.Ended? {
      StepDescends(t, s, Deliver, v);
      NoAnswersLeft(Step(t, s, Deliver, v).0, Step(t, s, Deliver, v).1, v);
    }
  }

  /** What precedes the cycle. A host whose first covering policy lists a manager is
      left alone if the check was answered. Otherwise the policy is looked up: lost,
      the query has failed; refused or without a covering policy, there is none. */
  lemma RequestOutcomeExactly(s: Server, host: string, script: seq<Answer>, v: Verdict)
    requires s.Valid()
    ensures var end := Drive(Task(host, None, NO_VERDICT, Checking), s, script, v);
      var found, check, query := FirstCover(s.policies, host), Next(script), Next(Later(script));
      if found.Some? && s.policies[found.value].body.managed && check.Deliver? then
        end == End(TailscaleManaged, s, Later(script))
      else if query.Lose? then end == End(QueryFailed, s, Later(Later(script)))
      else if query.Refuse? || found.None? then end == End(NoPolicy, s, Later(Later(script)))
      else end == Drive(Task(host, s.policies[found.value].body.ratio, NO_VERDICT, WriteById(Bumping)),
                        s, Later(Later(script)), v)
  {
    var t := Task(host, None, NO_VERDICT, Checking);
    var (t1, s1) := Step(t, s, Next(script), v);
    assert Drive(t, s, script, v) == Drive(t1, s1, Later(script), v);
    if t1.pc.Capturing? {
      var (t2, s2) := Step(t1, s, Next(Later(script)), v);
      assert Drive(t1, s, Later(script), v) == Drive(t2, s2, Later(Later(script)), v);
    }
  }
}
