/** `upsert_tls_policy`: read the policy array, decide, then replace in place,
    create and append, append, or give up. One client is a program counter; it
    holds nothing of what it read but the decision, so between two of its
    requests anyone may edit the array. */
module TlsUpsert {
  import opened Prelude
  import opened Names
  import opened CaddyServer

  datatype Outcome = Upserted | Conflict | Failed

  datatype Pc = Reading | Creating | Replacing | Appending | Finished(outcome: Outcome)

  datatype Upsert = Upsert(desired: Body, pc: Pc)

  /** The identifier slip owns for a policy: that of its first subject. */
  function OwnId(desired: Body): string {
    TlsId(if desired.subjects == [] then "unknown" else desired.subjects[0])
  }

  function Stamped(desired: Body): Policy { Policy(Some(OwnId(desired)), desired) }

  predicate Overlaps(p: Policy, desired: Body) {
    exists s :: s in p.body.subjects && s in desired.subjects
  }

  function Decide(desired: Body, ps: seq<Policy>): Pc {
    match IndexOfId(ps, OwnId(desired))
    case Some(i) => if ps[i].body == desired then Finished(Upserted) else Replacing
    case None =>
      if exists p :: p in ps && Overlaps(p, desired) then Finished(Conflict)
      else if ps == [] then Creating
      else Appending
  }

  /** One request of the client and the decision that follows it. Every
      unsuccessful status of the read counts as "no policies yet". */
  function Step(c: Upsert, s: Server, a: Answer): (Upsert, Server) {
    match c.pc
    case Reading =>
      (match GetPolicies(s, a)
       case Unreachable => (c.(pc := Finished(Failed)), s)
       case Success(ps) => (c.(pc := Decide(c.desired, ps)), s)
       case _ => (c.(pc := Decide(c.desired, [])), s))
    case Creating =>
      var (reply, s') := PutPolicies(s, a);
      (c.(pc := if reply.Success? || reply.Exists? then Appending else Finished(Failed)), s')
    case Replacing =>
      var (reply, s') := PatchPolicy(s, a, OwnId(c.desired), Stamped(c.desired));
      (c.(pc := if reply.Success? then Finished(Upserted)
                else if reply.NotFound? then Appending else Finished(Failed)), s')
    case Appending =>
      var (reply, s') := PostPolicy(s, a, Stamped(c.desired));
      (c.(pc := Finished(if reply.Success? then Upserted else Failed)), s')
    case Finished(_) => (c, s)
  }

  /** What a step may do to the array: nothing, replace an element that carries
      the client's own identifier, or append one that does. */
  lemma StepTouchesOnlyItsOwn(c: Upsert, s: Server, a: Answer)
    requires s.Valid()
    ensures var (c', s') := Step(c, s, a);
      && s'.Valid() && c'.desired == c.desired && (s.keyExists ==> s'.keyExists)
      && (|| s'.policies == s.policies
          || s'.policies == s.policies + [Stamped(c.desired)]
          || (exists i :: 0 <= i < |s.policies| && s.policies[i].id == Some(OwnId(c.desired))
                       && s'.policies == s.policies[i := Stamped(c.desired)]))
  {
    if c.pc.Replacing? && a.Deliver? {
      var r := IndexOfId(s.policies, OwnId(c.desired));
      if r.Some? {
        assert s.policies[r.value].id == Some(OwnId(c.desired));
      }
    }
  }

  // ----- a client that is left alone -----

  datatype Final = Final(outcome: Outcome, server: Server, script: seq<Answer>)

  function Rank(pc: Pc): nat {
    match pc
    case Reading => 3
    case Creating => 2
    case Replacing => 2
    case Appending => 1
    case Finished(_) => 0
  }

  /** Runs a client to its end with no other writer. */
  function Drive(c: Upsert, s: Server, script: seq<Answer>): Final
    decreases Rank(c.pc)
  {
    if c.pc.Finished? then Final(c.pc.outcome, s, script)
    else
      var (c', s') := Step(c, s, Next(script));
      Drive(c', s', Later(script))
  }

  method AppendTlsPolicy(admin: CaddyAdmin, desired: Body) returns (outcome: Outcome)
    modifies admin
    ensures Final(outcome, admin.server, admin.script)
         == Drive(Upsert(desired, Appending), old(admin.server), old(admin.script))
  {
    var reply := admin.Post(Stamped(desired));
    outcome := if reply.Success? then Upserted else Failed;
  }

  method PatchTlsPolicyInPlace(admin: CaddyAdmin, desired: Body) returns (outcome: Outcome)
    modifies admin
    ensures Final(outcome, admin.server, admin.script)
         == Drive(Upsert(desired, Replacing), old(admin.server), old(admin.script))
  {
    var reply := admin.Patch(OwnId(desired), Stamped(desired));
    if reply.Success? {
      return Upserted;
    }
    if reply.NotFound? {
      outcome := AppendTlsPolicy(admin, desired);
    } else {
      outcome := Failed;
    }
  }

  method UpsertTlsPolicy(admin: CaddyAdmin, desired: Body) returns (outcome: Outcome)
    modifies admin
    ensures Final(outcome, admin.server, admin.script)
         == Drive(Upsert(desired, Reading), old(admin.server), old(admin.script))
  {
    var start := Upsert(desired, Reading);
    var reply := admin.Get();
    if reply.Unreachable? {
      return Failed;
    }
    var policies := if reply.Success? then reply.value else [];

    var owned: Option<Policy>, foreign := None, false;
    var i := 0;
    while i < |policies|
      invariant 0 <= i <= |policies|
      invariant owned.None? && (forall j :: 0 <= j < i ==> policies[j].id != Some(OwnId(desired)))
      invariant foreign <==> exists j :: 0 <= j < i && Overlaps(policies[j], desired)
    {
      if policies[i].id == Some(OwnId(desired)) {
        owned := Some(policies[i]);
        break;
      }
      if Overlaps(policies[i], desired) {
        foreign := true;
      }
      i := i + 1;
    }
    assert owned.Some? ==> IndexOfId(policies, OwnId(desired)) == Some(i) && owned.value == policies[i];
    assert owned.None? ==> IndexOfId(policies, OwnId(desired)) == None;
    assert owned.None? ==> (foreign <==> exists p :: p in policies && Overlaps(p, desired));
    ghost var pc := Decide(desired, policies);
    assert Step(start, old(admin.server), Next(old(admin.script))) == (Upsert(desired, pc), old(admin.server));
    assert Drive(start, old(admin.server), old(admin.script))
        == Drive(Upsert(desired, pc), old(admin.server), Later(old(admin.script)));

    if owned.Some? {
      if owned.value.body == desired {
        return Upserted;
      }
      outcome := PatchTlsPolicyInPlace(admin, desired);
      return;
    }
    if foreign {
      return Conflict;
    }
    if policies == [] {
      var put := admin.Put();
      if !put.Success? && !put.Exists? {
        assert Drive(Upsert(desired, Creating), old(admin.server), Later(old(admin.script)))
            == Final(Failed, admin.server, admin.script);
        return Failed;
      }
    }
    outcome := AppendTlsPolicy(admin, desired);
  }
}
