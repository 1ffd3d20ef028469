/** `POST /v1/tls/renew`: bump a policy's `renewal_window_ratio`, reload, wait
    for a new certificate, and always restore. A task is a program counter over
    the admin requests it sends; polling touches no configuration and enters as
    a verdict. */
module Renewal {
  import opened Prelude
  import opened Names
  import opened CertTime
  import opened CaddyServer
  import opened Clocks

  /** Why the ratio is being written: the bump, the restore at the end, or the
      restore after a failed reload. */
  datatype Stage = Bumping | Restoring | Unwinding

  datatype Outcome =
    | Success | NotProven | Timeout | RestorationFailed
    | BumpFailed | ReloadFailed | TailscaleManaged | NoPolicy | QueryFailed

  datatype Pc =
    | Checking                                    // GET: managed by Tailscale?
    | Capturing                                   // GET: the ratio to restore
    | WriteById(stage: Stage)                     // PATCH or DELETE by @id
    | Finding(stage: Stage)                       // GET: the first covering index
    | WriteAt(stage: Stage, index: nat)           // PATCH or DELETE by index
    | ReadConfig(stage: Stage)                    // reload: GET
    | PostConfig(stage: Stage, snapshot: Server)  // reload: POST what was read
    | Polling
    | Verifying                                   // GET: is the ratio back?
    | Ended(outcome: Outcome)

  datatype Verdict = Verdict(renewed: bool, timedOut: bool)

  datatype Task = Task(host: string, original: Option<real>, verdict: Verdict, pc: Pc)

  const NO_VERDICT := Verdict(false, false)

  /** The ratio a stage writes; `None` deletes the field. */
  function Target(t: Task, stage: Stage): Option<real> {
    if stage == Bumping then Some(1.0) else t.original
  }

  function WriteFailed(stage: Stage): Pc {
    match stage
    case Bumping => Ended(BumpFailed)
    case Restoring => Ended(RestorationFailed)
    case Unwinding => Ended(ReloadFailed)
  }

  function Reloaded(stage: Stage, ok: bool): Pc {
    match stage
    case Bumping => if ok then Polling else WriteById(Unwinding)
    case Restoring => Verifying
    case Unwinding => Ended(ReloadFailed)
  }

  function Conclusion(v: Verdict): Outcome {
    if v.renewed then Outcome.Success else if v.timedOut then Timeout else NotProven
  }

  /** `verify_ratio_restored` and what the cycle makes of it. An unreachable
      endpoint is not held against the restore. */
  function Verified(t: Task, reply: Reply<seq<Policy>>): Outcome {
    match reply
    case Unreachable => Conclusion(t.verdict)
    case Success(ps) =>
      (match FirstCover(ps, t.host)
       case None => RestorationFailed
       case Some(i) => if ps[i].body.ratio == t.original then Conclusion(t.verdict) else RestorationFailed)
    case _ => RestorationFailed
  }

  function Step(t: Task, s: Server, a: Answer, v: Verdict): (Task, Server) {
    match t.pc
    case Checking =>
      var reply := GetPolicies(s, a);
      var managed := reply.Success? && var i := FirstCover(reply.value, t.host);
                     i.Some? && reply.value[i.value].body.managed;
      (t.(pc := if managed then Ended(TailscaleManaged) else Capturing), s)
    case Capturing =>
      (match GetPolicies(s, a)
       case Unreachable => (t.(pc := Ended(QueryFailed)), s)
       case Success(ps) =>
         (match FirstCover(ps, t.host)
          case None => (t.(pc := Ended(NoPolicy)), s)
          case Some(i) => (t.(original := ps[i].body.ratio, pc := WriteById(Bumping)), s))
       case _ => (t.(pc := Ended(NoPolicy)), s))
    case WriteById(stage) =>
      var (reply, s') := WriteRatioById(s, a, TlsId(t.host), Target(t, stage));
      (t.(pc := if reply.Success? then ReadConfig(stage)
                else if reply.Unreachable? then WriteFailed(stage) else Finding(stage)), s')
    case Finding(stage) =>
      var reply := GetPolicies(s, a);
      (t.(pc := if reply.Success? && FirstCover(reply.value, t.host).Some?
                then WriteAt(stage, FirstCover(reply.value, t.host).value) else WriteFailed(stage)), s)
    case WriteAt(stage, i) =>
      var (reply, s') := WriteRatioAt(s, a, i, Target(t, stage));
      (t.(pc := if reply.Success? then ReadConfig(stage) else WriteFailed(stage)), s')
    case ReadConfig(stage) =>
      (match GetConfig(s, a)
       case Success(config) => (t.(pc := PostConfig(stage, config)), s)
       case _ => (t.(pc := Reloaded(stage, false)), s))
    case PostConfig(stage, snapshot) =>
      var (reply, s') := LoadConfig(s, a, snapshot);
      (t.(pc := Reloaded(stage, reply.Success?)), s')
    case Polling => (t.(verdict := v, pc := WriteById(Restoring)), s)
    case Verifying => (t.(pc := Ended(Verified(t, GetPolicies(s, a)))), s)
    case Ended(_) => (t, s)
  }

  // ----- a task that is left alone -----

  function StageRank(stage: Stage): nat {
    match stage case Bumping => 14 case Restoring => 8 case Unwinding => 1
  }

  function Rank(pc: Pc): nat {
    match pc
    case Checking => 21
    case Capturing => 20
    case WriteById(stage) => StageRank(stage) + 4
    case Finding(stage) => StageRank(stage) + 3
    case WriteAt(stage, _) => StageRank(stage) + 2
    case ReadConfig(stage) => StageRank(stage) + 1
    case PostConfig(stage, _) => StageRank(stage)
    case Polling => 13
    case Verifying => 7
    case Ended(_) => 0
  }

  lemma StepDescends(t: Task, s: Server, a: Answer, v: Verdict)
    requires !t.pc.Ended?
    ensures Rank(Step(t, s, a, v).0.pc) < Rank(t.pc)
  {
  }

  datatype End = End(outcome: Outcome, server: Server, script: seq<Answer>)

  /** Polling sends no admin request, so it takes nothing from the script. */
  function Rest(t: Task, script: seq<Answer>): seq<Answer> {
    if t.pc.Polling? then script else Later(script)
  }

  function Drive(t: Task, s: Server, script: seq<Answer>, v: Verdict): End
    decreases Rank(t.pc)
  {
    if t.pc.Ended? then End(t.pc.outcome, s, script)
    else
      var (t', s') := Step(t, s, Next(script), v);
      StepDescends(t, s, Next(script), v);
      Drive(t', s', Rest(t, script), v)
  }

  lemma AfterPolling(t: Task, s: Server, script: seq<Answer>, v: Verdict)
    ensures Drive(t.(pc := Polling), s, script, v) == Drive(t.(verdict := v, pc := WriteById(Restoring)), s, script, v)
  {
  }

  // ----- polling -----

  /** What a probe of the host sees. */
  datatype Sighting = Served(cert: CertProbe) | Nothing | ProbeError

  function Seen(r: Sighting): Option<CertProbe> { if r.Served? then Some(r.cert) else None }

  predicate Proves(before: Option<CertProbe>, r: Sighting) { r.Served? && CertRenewed(before, Seen(r)) }

  const POLL_TIMEOUT := 120_000
  const POLL_INTERVAL := 5_000

  /** The clock, in milliseconds, and the host as the prober sees it. Looking at
      the clock takes an arbitrary time, so it is only known to be monotone. */
  class Surroundings {
    const drift: nat -> nat
    const sight: nat -> Sighting
    var now: nat
    var looks: nat
    var probes: nat

    constructor (drift: nat -> nat, sight: nat -> Sighting)
      ensures this.drift == drift && this.sight == sight && now == looks == probes == 0
    {
      this.drift := drift;
      this.sight := sight;
      now, looks, probes := 0, 0, 0;
    }

    method Sleep(ms: nat) returns (t: nat)
      modifies this`now, this`looks
      ensures now == old(now) + ms + drift(old(looks)) && looks == old(looks) + 1 && t == now
    {
      now := now + ms + drift(looks);
      looks := looks + 1;
      t := now;
    }

    method Probe() returns (r: Sighting)
      modifies this`probes
      ensures r == sight(old(probes)) && probes == old(probes) + 1
    {
      r := sight(probes);
      probes := probes + 1;
    }
  }

  /** One polling loop. At most 24 probes; it stops at the first that proves the
      renewal, and otherwise it has timed out. All the time that passes, but for
      the lag, is spent waiting five seconds for each probe. */
  method PollForProof(w: Surroundings, before: Option<CertProbe>)
    returns (renewed: bool, timedOut: bool, after: Option<CertProbe>)
    modifies w
    ensures old(w.probes) <= w.probes <= old(w.probes) + 24
    ensures renewed ==> w.probes > old(w.probes) && Proves(before, w.sight(w.probes - 1))
    ensures after == if renewed then Seen(w.sight(w.probes - 1)) else None
    ensures forall k :: old(w.probes) <= k < w.probes - (if renewed then 1 else 0) ==> !Proves(before, w.sight(k))
    ensures timedOut <==> !renewed
    ensures !renewed ==> w.now >= old(w.now) + 120_000
    ensures Spent(w.drift, old(w.now), old(w.looks), w.now, w.looks, 5_000 * (w.probes - old(w.probes)))
  {
    hide Spent, Proves, Seen;
    renewed, timedOut, after := false, false, None;
    ghost var now, looks, probes := w.now, w.looks, w.probes;
    NothingSpent(w.drift, now, looks);
    SpendsMore(w.drift, now, looks, now, looks, 0, 0);
    var t := w.Sleep(0);
    var deadline := t + POLL_TIMEOUT;
    SpendsMore(w.drift, now, looks, w.now, w.looks, 0, 0);
    t := w.Sleep(0);
    ghost var waited: nat := 0;
    while t < deadline
      invariant !renewed && after.None?
      invariant probes <= w.probes && t == w.now && deadline >= now + POLL_TIMEOUT
      invariant waited == 5_000 * (w.probes - probes) && deadline - POLL_TIMEOUT + waited <= t
      invariant w.probes <= probes + 24
      invariant Spent(w.drift, now, looks, w.now, w.looks, waited)
      invariant forall k :: probes <= k < w.probes ==> !Proves(before, w.sight(k))
      decreases deadline - t
    {
      SpendsMore(w.drift, now, looks, w.now, w.looks, waited, POLL_INTERVAL);
      t := w.Sleep(POLL_INTERVAL);
      waited := waited + POLL_INTERVAL;
      var r := w.Probe();
      if Proves(before, r) {
        renewed, after := true, Seen(r);
        return;
      }
      SpendsMore(w.drift, now, looks, w.now, w.looks, waited, 0);
      t := w.Sleep(0);
    }
    SpendsMore(w.drift, now, looks, w.now, w.looks, waited, 0);
    t := w.Sleep(0);
    timedOut := t >= deadline;
  }

  /** The first loop, and the second after a restart that works. */
  method PollTwice(w: Surroundings, before: Option<CertProbe>, again: bool)
    returns (renewed: bool, timedOut: bool, after: Option<CertProbe>)
    modifies w
    ensures old(w.probes) <= w.probes <= old(w.probes) + if again then 48 else 24
    ensures renewed <==> exists k :: old(w.probes) <= k < w.probes && Proves(before, w.sight(k))
    ensures renewed || timedOut
    ensures !renewed ==> w.now >= old(w.now) + 120_000 * if again then 2 else 1
    ensures Spent(w.drift, old(w.now), old(w.looks), w.now, w.looks, 5_000 * (w.probes - old(w.probes)))
  {
    hide Spent, Proves, Seen;
    renewed, timedOut, after := PollForProof(w, before);
    if !renewed && again {
      ghost var now, looks, probes := w.now, w.looks, w.probes;
      var timedOut';
      renewed, timedOut', after := PollForProof(w, before);
      timedOut := timedOut || timedOut';
      SpentJoins(w.drift, old(w.now), old(w.looks), now, looks, 5_000 * (probes - old(w.probes)),
                 w.now, w.looks, 5_000 * (w.probes - probes));
    }
  }

  // ----- the cycle in the client's form -----

  /** Between the two moments the machine, left alone, gets from the one state
      to the other. */
  ghost predicate Leads(t: Task, s: Server, script: seq<Answer>, t': Task, s': Server, script': seq<Answer>) {
    forall v :: Drive(t, s, script, v) == Drive(t', s', script', v)
  }

  /** `patch_tls_policy_ratio` and, for `None`, `delete_tls_policy_ratio`: by
      identifier, else by the index of the first covering policy. */
  method WriteTlsPolicyRatio(admin: CaddyAdmin, host: string, ratio: Option<real>, ghost t: Task, ghost stage: Stage)
    returns (ok: bool)
    requires t.host == host && Target(t, stage) == ratio
    modifies admin
    ensures Leads(t.(pc := WriteById(stage)), old(admin.server), old(admin.script),
                  t.(pc := if ok then ReadConfig(stage) else WriteFailed(stage)), admin.server, admin.script)
  {
    var reply := admin.RatioById(TlsId(host), ratio);
    if reply.Success? {
      return true;
    }
    if reply.Unreachable? {
      return false;
    }
    ghost var script := admin.script;
    var listing := admin.Get();
    if !listing.Success? {
      assert Leads(t.(pc := Finding(stage)), admin.server, script,
                   t.(pc := WriteFailed(stage)), admin.server, admin.script);
      return false;
    }
    var index := FirstCover(listing.value, host);
    assert Leads(t.(pc := Finding(stage)), admin.server, script,
                 t.(pc := if index.Some? then WriteAt(stage, index.value) else WriteFailed(stage)),
                 admin.server, admin.script);
    if index.None? {
      return false;
    }
    ghost var script' := admin.script;
    var written := admin.RatioAt(index.value, ratio);
    ok := written.Success?;
    assert Leads(t.(pc := WriteAt(stage, index.value)), old(admin.server), script',
                 t.(pc := if ok then ReadConfig(stage) else WriteFailed(stage)), admin.server, admin.script);
  }

  /** Reads the whole configuration and posts it back. */
  method Reload(admin: CaddyAdmin, ghost t: Task, ghost stage: Stage) returns (ok: bool)
    modifies admin
    ensures Leads(t.(pc := ReadConfig(stage)), old(admin.server), old(admin.script),
                  t.(pc := Reloaded(stage, ok)), admin.server, admin.script)
  {
    var config := admin.Config();
    if !config.Success? {
      return false;
    }
    ghost var script := admin.script;
    var loaded := admin.Load(config.value);
    ok := loaded.Success?;
    assert Leads(t.(pc := PostConfig(stage, config.value)), old(admin.server), script,
                 t.(pc := Reloaded(stage, ok)), admin.server, admin.script);
  }

  method RestoreRatio(admin: CaddyAdmin, host: string, original: Option<real>, ghost t: Task, ghost stage: Stage)
    returns (ok: bool)
    requires t.host == host && t.original == original && !stage.Bumping?
    modifies admin
    ensures Leads(t.(pc := WriteById(stage)), old(admin.server), old(admin.script),
                  t.(pc := if ok then Reloaded(stage, true) else WriteFailed(stage)), admin.server, admin.script)
  {
    ok := WriteTlsPolicyRatio(admin, host, original, t, stage);
    if ok {
      var _ := Reload(admin, t, stage);
    }
  }

  /** `verify_ratio_restored`; `None` when the policies cannot be read. */
  method VerifyRatioRestored(admin: CaddyAdmin, host: string, expected: Option<real>, ghost t: Task)
    returns (ok: Option<bool>)
    requires t.host == host && t.original == expected
    modifies admin`script
    ensures Leads(t.(pc := Verifying), admin.server, old(admin.script),
                  t.(pc := Ended(if ok == Some(false) then RestorationFailed else Conclusion(t.verdict))),
                  admin.server, admin.script)
  {
    var listing := admin.Get();
    if listing.Unreachable? {
      return None;
    }
    var index := if listing.Success? then FirstCover(listing.value, host) else None;
    ok := Some(index.Some? && listing.value[index.value].body.ratio == expected);
  }

  /** The end of the cycle: the ratio is written back and read again. */
  method RestoreAndVerify(admin: CaddyAdmin, host: string, original: Option<real>, ghost t: Task) returns (ok: bool)
    requires t.host == host && t.original == original
    modifies admin
    ensures Leads(t.(pc := WriteById(Restoring)), old(admin.server), old(admin.script),
                  t.(pc := Ended(if ok then Conclusion(t.verdict) else RestorationFailed)), admin.server, admin.script)
  {
    hide Step, Drive;
    var restored := RestoreRatio(admin, host, original, t, Restoring);
    if !restored {
      return false;
    }
    var verified := VerifyRatioRestored(admin, host, original, t);
    ok := verified != Some(false);
  }

  /** The whole cycle. Its outcome and the configuration it leaves are those of
      the step machine, under a verdict that the probes justify. */
  method RunRenewalCycle(admin: CaddyAdmin, w: Surroundings, host: string, restartCaddy: bool,
                         restartWorks: bool, original: Option<real>)
    returns (outcome: Outcome, ghost v: Verdict)
    modifies admin, w
    ensures End(outcome, admin.server, admin.script)
         == Drive(Task(host, original, NO_VERDICT, WriteById(Bumping)), old(admin.server), old(admin.script), v)
    ensures old(w.probes) < w.probes <= old(w.probes) + 49
    ensures outcome == Outcome.Success ==>
      exists k :: old(w.probes) < k < w.probes && Proves(Seen(w.sight(old(w.probes))), w.sight(k))
    ensures outcome != NotProven
    ensures v.renewed <==> exists k :: old(w.probes) < k < w.probes && Proves(Seen(w.sight(old(w.probes))), w.sight(k))
    ensures outcome !in {BumpFailed, ReloadFailed} ==> v.renewed || v.timedOut
    ensures !v.renewed && outcome !in {BumpFailed, ReloadFailed} ==>
              w.now >= old(w.now) + 120_000 * if restartCaddy && restartWorks then 2 else 1
    ensures Spent(w.drift, old(w.now), old(w.looks), w.now, w.looks, 5_000 * (w.probes - old(w.probes) - 1))
    ensures !(restartCaddy && restartWorks) ==> w.probes <= old(w.probes) + 25
  {
    hide Step, Proves, Seen, Spent;
    NothingSpent(w.drift, w.now, w.looks);
    var first := w.Probe();
    var before := Seen(first);
    ghost var t := Task(host, original, NO_VERDICT, WriteById(Bumping));
    v := NO_VERDICT;

    var bumped := WriteTlsPolicyRatio(admin, host, Some(1.0), t, Bumping);
    if !bumped {
      return BumpFailed, v;
    }
    var reloaded := Reload(admin, t, Bumping);
    if !reloaded {
      var _ := RestoreRatio(admin, host, original, t, Unwinding);
      return ReloadFailed, v;
    }

    var renewed, timedOut, after := PollTwice(w, before, restartCaddy && restartWorks);

    v := Verdict(renewed, timedOut);
    t := t.(verdict := v);
    AfterPolling(t.(verdict := NO_VERDICT), admin.server, admin.script, v);
    var restored := RestoreAndVerify(admin, host, original, t);
    if !restored {
      return RestorationFailed, v;
    }
    outcome := if renewed then Outcome.Success else if timedOut then Timeout else NotProven;
  }
}
