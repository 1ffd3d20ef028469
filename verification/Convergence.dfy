/** Upserts with no other writer: what one does to the array, what a whole
    reconcile pass converges to, and what a failed read costs. */
module Convergence {
  import opened Prelude
  import opened Names
  import opened Sublists
  import opened CaddyServer
  import opened TlsUpsert

  /** The array with the desired policy in it: in place of the one that carries
      the identifier, else at the end. */
  function Installed(ps: seq<Policy>, d: Body): seq<Policy> {
    match IndexOfId(ps, OwnId(d))
    case Some(i) => ps[i := Stamped(d)]
    case None => ps + [Stamped(d)]
  }

  lemma UpsertAlone(d: Body, s: Server)
    requires s.Valid()
    ensures Drive(Upsert(d, Reading), s, [])
         == if IndexOfId(s.policies, OwnId(d)).None? && (exists p :: p in s.policies && Overlaps(p, d))
            then Final(Conflict, s, [])
            else Final(Upserted, Server(true, Installed(s.policies, d)), [])
  {
    hide OwnId;
    var c := Upsert(d, Decide(d, s.policies));
    ReadsAndDecides(d, s);
    match c.pc
    case Creating =>
      assert Drive(c, s, []) == Drive(Upsert(d, Appending), Server(true, []), []);
      AppendsAlone(d, Server(true, []));
    case Replacing =>
      assert Drive(c, s, []) == Drive(Upsert(d, Finished(Upserted)), Server(true, Installed(s.policies, d)), []);
    case Appending => AppendsAlone(d, s);
    case Finished(_) =>
      if c.pc == Finished(Upserted) {
        var i := IndexOfId(s.policies, OwnId(d)).value;
        assert s.policies[i] == Stamped(d) && s.policies[i := Stamped(d)] == s.policies;
      }
    case Reading =>
  }

  lemma ReadsAndDecides(d: Body, s: Server)
    requires s.Valid()
    ensures Drive(Upsert(d, Reading), s, []) == Drive(Upsert(d, Decide(d, s.policies)), s, [])
  {
    hide OwnId, Decide;
    assert Step(Upsert(d, Reading), s, Deliver) == (Upsert(d, Decide(d, s.policies)), s);
  }

  lemma AppendsAlone(d: Body, s: Server)
    requires s.keyExists
    ensures Drive(Upsert(d, Appending), s, []) == Final(Upserted, Server(true, s.policies + [Stamped(d)]), [])
  {
    hide OwnId;
    var s' := Server(true, s.policies + [Stamped(d)]);
    assert Drive(Upsert(d, Appending), s, []) == Drive(Upsert(d, Finished(Upserted)), s', []);
  }

  /** The identifier an upsert goes by, and what it writes. */
  lemma OwnIdMeaning(d: Body)
    ensures OwnId(d) == if d.subjects == [] then "slip-tls-unknown" else TlsId(d.subjects[0])
    ensures Stamped(d).id == Some(OwnId(d)) && Stamped(d).body == d
  {
    TlsIdMeaning("unknown");
  }

  /** Undisturbed and delivered, an upsert reports a conflict exactly when no policy
      carries its identifier and some policy has a subject in common with it. */
  lemma ConflictsExactlyWhen(d: Body, s: Server)
    requires s.Valid()
    ensures Drive(Upsert(d, Reading), s, []).outcome == Conflict
       <==> && (forall p :: p in s.policies ==> p.id != Some(OwnId(d)))
            && exists p, subject :: p in s.policies && subject in p.body.subjects && subject in d.subjects
  {
    hide Drive, OwnId, Installed;
    UpsertAlone(d, s);
    if exists p, subject :: p in s.policies && subject in p.body.subjects && subject in d.subjects {
      var p, subject :| p in s.policies && subject in p.body.subjects && subject in d.subjects;
      assert Overlaps(p, d);
    }
  }

  /** Undisturbed, under any answers: success means that the policy is in place, or
      at the end if the read was refused; anything else that no policy was changed.
      A conflict is reported exactly on a delivered reading that shows one; and
      success exactly if the reading was not lost, shows none, and the request for a
      replacement, the one for an append, or, with nothing read, the two for a
      creation and an append were delivered. */
  lemma UpsertUnderAnyAnswers(d: Body, s: Server, script: seq<Answer>)
    requires s.Valid()
    ensures var end := Drive(Upsert(d, Reading), s, script);
      && end.outcome in {Upserted, Conflict, Failed}
      && (end.outcome == Upserted ==>
            end.server == Server(true, if Next(script).Refuse? then s.policies + [Stamped(d)]
                                       else Installed(s.policies, d)))
      && (end.outcome != Upserted ==> end.server.policies == s.policies)
      && (end.outcome == Conflict <==>
            && Next(script).Deliver? && IndexOfId(s.policies, OwnId(d)).None?
            && exists p :: p in s.policies && Overlaps(p, d))
    ensures var outcome := Drive(Upsert(d, Reading), s, script).outcome;
      var read, second, third := Next(script), Next(Later(script)), Next(Later(Later(script)));
      var found := IndexOfId(s.policies, OwnId(d));
      outcome == Upserted <==>
        && !read.Lose? && outcome != Conflict
        && if read.Deliver? && found.Some? then s.policies[found.value].body == d || second.Deliver?
           else if read.Deliver? && s.policies != [] then second.Deliver?
           else second.Deliver? && third.Deliver?
  {
    hide OwnId;
    var c := Step(Upsert(d, Reading), s, Next(script)).0;
    assert Drive(Upsert(d, Reading), s, script) == Drive(c, s, Later(script));
    match c.pc
    case Creating => CreateUnderAnyAnswers(d, s, Later(script));
    case Replacing => ReplaceUnderAnyAnswers(d, s, Later(script));
    case Appending => AppendUnderAnyAnswers(d, s, Later(script));
    case Finished(_) =>
      if c.pc == Finished(Upserted) {
        var i := IndexOfId(s.policies, OwnId(d)).value;
        assert s.policies[i] == Stamped(d) && s.policies[i := Stamped(d)] == s.policies;
      }
  }

  lemma AppendUnderAnyAnswers(d: Body, s: Server, script: seq<Answer>)
    ensures var end := Drive(Upsert(d, Appending), s, script);
      && end.outcome in {Upserted, Failed}
      && (end.outcome == Upserted <==> s.keyExists && Next(script).Deliver?)
      && (end.outcome == Upserted ==> end.server == Server(true, s.policies + [Stamped(d)]))
      && (end.outcome == Failed ==> end.server == s)
  {
    var (c, s') := Step(Upsert(d, Appending), s, Next(script));
    assert Drive(Upsert(d, Appending), s, script) == Drive(c, s', Later(script));
  }

  lemma CreateUnderAnyAnswers(d: Body, s: Server, script: seq<Answer>)
    requires s.Valid()
    ensures var end := Drive(Upsert(d, Creating), s, script);
      && end.outcome in {Upserted, Failed}
      && (end.outcome == Upserted <==> Next(script).Deliver? && Next(Later(script)).Deliver?)
      && (end.outcome == Upserted ==> end.server == Server(true, s.policies + [Stamped(d)]))
      && (end.outcome == Failed ==> end.server.policies == s.policies)
  {
    var (c, s') := Step(Upsert(d, Creating), s, Next(script));
    assert Drive(Upsert(d, Creating), s, script) == Drive(c, s', Later(script));
    AppendUnderAnyAnswers(d, s', Later(script));
  }

  lemma ReplaceUnderAnyAnswers(d: Body, s: Server, script: seq<Answer>)
    requires s.keyExists
    ensures var end := Drive(Upsert(d, Replacing), s, script);
      && end.outcome in {Upserted, Failed}
      && (IndexOfId(s.policies, OwnId(d)).Some? ==> (end.outcome == Upserted <==> Next(script).Deliver?))
      && (end.outcome == Upserted ==> end.server == Server(true, Installed(s.policies, d)))
      && (end.outcome == Failed ==> end.server == s)
  {
    var (c, s') := Step(Upsert(d, Replacing), s, Next(script));
    assert Drive(Upsert(d, Replacing), s, script) == Drive(c, s', Later(script));
    AppendUnderAnyAnswers(d, s', Later(script));
  }

  // ----- a pass over many policies -----

  function Pass(s: Server, ds: seq<Body>): Server
    decreases |ds|
  {
    if ds == [] then s else Pass(Drive(Upsert(ds[0], Reading), s, []).server, ds[1..])
  }

  ghost predicate Wants(ds: seq<Body>, p: Policy) { exists d :: d in ds && p.id == Some(OwnId(d)) }

  /** One policy with the identifier, and it is the desired one. */
  ghost predicate Holds(ps: seq<Policy>, d: Body, i: nat) {
    && i < |ps| && ps[i] == Stamped(d)
    && forall j :: 0 <= j < |ps| && ps[j].id == Some(OwnId(d)) ==> j == i
  }

  ghost predicate Placed(ps: seq<Policy>, d: Body) { exists i: nat :: Holds(ps, d, i) }

  ghost predicate Distinct(ds: seq<Body>) {
    && (forall d :: d in ds ==> |d.subjects| == 1)
    && (forall i, j :: 0 <= i < j < |ds| ==> OwnId(ds[i]) != OwnId(ds[j]))
  }

  /** The array is fit for the pass: no policy of another identifier overlaps a
      desired one, and no desired identifier occurs twice. */
  ghost predicate Fit(ps: seq<Policy>, d: Body) {
    && (forall p :: p in ps && p.id != Some(OwnId(d)) ==> !Overlaps(p, d))
    && (forall i, j :: 0 <= i < |ps| && 0 <= j < |ps| && ps[i].id == ps[j].id == Some(OwnId(d)) ==> i == j)
  }

  /** What became of the array: earlier elements stay where they are, the wanted
      ones with the desired body and the others as they were; new ones are
      wanted. */
  ghost predicate Evolves(ps: seq<Policy>, qs: seq<Policy>, ds: seq<Body>) {
    && |ps| <= |qs|
    && (forall i :: 0 <= i < |ps| ==> qs[i].id == ps[i].id && (!Wants(ds, ps[i]) ==> qs[i] == ps[i]))
    && (forall i :: |ps| <= i < |qs| ==> Wants(ds, qs[i]))
  }

  lemma InstallKeepsFit(ps: seq<Policy>, d: Body, e: Body)
    requires |d.subjects| == 1 && |e.subjects| == 1 && OwnId(d) != OwnId(e)
    requires Fit(ps, e)
    ensures Fit(Installed(ps, d), e)
  {
    var qs := Installed(ps, d);
    assert !Overlaps(Stamped(d), e);
    forall p | p in qs && p.id != Some(OwnId(e))
      ensures !Overlaps(p, e)
    {
      assert p == Stamped(d) || p in ps;
    }
  }

  /** Where the desired policy is put. */
  function Spot(ps: seq<Policy>, d: Body): nat {
    match IndexOfId(ps, OwnId(d)) case Some(i) => i case None => |ps|
  }

  lemma InstallHolds(ps: seq<Policy>, d: Body)
    requires Fit(ps, d)
    ensures Holds(Installed(ps, d), d, Spot(ps, d))
  {
    var qs, k := Installed(ps, d), Spot(ps, d);
    forall j | 0 <= j < |qs| && qs[j].id == Some(OwnId(d))
      ensures j == k
    {
      assert j < |ps| ==> ps[j].id == Some(OwnId(d));
    }
  }

  lemma WantsMore(d: Body, rest: seq<Body>, p: Policy)
    ensures Wants([d] + rest, p) <==> p.id == Some(OwnId(d)) || Wants(rest, p)
  {
    assert forall e :: e in [d] + rest <==> e == d || e in rest;
  }

  lemma InstalledShape(ps: seq<Policy>, d: Body)
    ensures var ms := Installed(ps, d);
      && |ps| <= |ms|
      && (forall i :: 0 <= i < |ps| ==> ms[i].id == ps[i].id && (ms[i] == ps[i] || ps[i].id == Some(OwnId(d))))
      && (forall i :: |ps| <= i < |ms| ==> ms[i].id == Some(OwnId(d)))
  {
  }

  lemma EvolvesOn(ps: seq<Policy>, qs: seq<Policy>, d: Body, rest: seq<Body>)
    requires Evolves(Installed(ps, d), qs, rest)
    ensures Evolves(ps, qs, [d] + rest)
  {
    hide Wants, Installed, OwnId;
    var ds, ms := [d] + rest, Installed(ps, d);
    InstalledShape(ps, d);
    forall i | 0 <= i < |ps|
      ensures qs[i].id == ps[i].id && (!Wants(ds, ps[i]) ==> qs[i] == ps[i])
    {
      WantsMore(d, rest, ps[i]);
    }
    forall i | |ps| <= i < |qs|
      ensures Wants(ds, qs[i])
    {
      WantsMore(d, rest, qs[i]);
      assert i < |ms| ==> qs[i].id == ms[i].id;
    }
  }

  lemma HoldsOn(ps: seq<Policy>, qs: seq<Policy>, d: Body, k: nat, rest: seq<Body>)
    requires Holds(ps, d, k) && Evolves(ps, qs, rest) && !Wants(rest, Stamped(d))
    ensures Holds(qs, d, k)
  {
    forall j | 0 <= j < |qs| && qs[j].id == Some(OwnId(d))
      ensures j == k
    {
      assert Wants(rest, qs[j]) <==> Wants(rest, Stamped(d));
      assert j < |ps| ==> ps[j].id == qs[j].id;
    }
  }

  lemma UpsertFits(d: Body, s: Server)
    requires s.Valid() && Fit(s.policies, d)
    ensures Drive(Upsert(d, Reading), s, []) == Final(Upserted, Server(true, Installed(s.policies, d)), [])
  {
    hide Drive, Installed, Overlaps;
    UpsertAlone(d, s);
  }

  lemma {:induction false} PassConverges(s: Server, ds: seq<Body>)
    requires s.Valid() && Distinct(ds) && forall d :: d in ds ==> Fit(s.policies, d)
    ensures var t := Pass(s, ds);
      && t.Valid()
      && Evolves(s.policies, t.policies, ds)
      && forall d :: d in ds ==> Placed(t.policies, d)
    decreases |ds|
  {
    if ds != [] {
      hide Drive, Installed, Fit, Holds, Evolves;
      var d, rest := ds[0], ds[1..];
      assert ds == [d] + rest;
      UpsertFits(d, s);
      var s' := Server(true, Installed(s.policies, d));
      forall e | e in rest
        ensures Fit(s'.policies, e)
      {
        InstallKeepsFit(s.policies, d, e);
      }
      PassConverges(s', rest);
      var t := Pass(s', rest).policies;
      EvolvesOn(s.policies, t, d, rest);
      InstallHolds(s.policies, d);
      HoldsOn(s'.policies, t, d, Spot(s.policies, d), rest);
    }
  }

  /** The fixpoint: once every policy is in place, each client of the next pass
      is done after its read. */
  lemma {:induction false} SecondPassWritesNothing(s: Server, ds: seq<Body>)
    requires s.Valid() && forall d :: d in ds ==> Placed(s.policies, d)
    ensures forall d :: d in ds ==> Step(Upsert(d, Reading), s, Deliver) == (Upsert(d, Finished(Upserted)), s)
    ensures Pass(s, ds) == s
    decreases |ds|
  {
    forall d | d in ds
      ensures Step(Upsert(d, Reading), s, Deliver) == (Upsert(d, Finished(Upserted)), s)
    {
      var i: nat :| Holds(s.policies, d, i);
      assert s.policies[i].id == Some(OwnId(d));
      assert IndexOfId(s.policies, OwnId(d)) == Some(i);
    }
    if ds != [] {
      var c := Step(Upsert(ds[0], Reading), s, Deliver).0;
      assert Drive(Upsert(ds[0], Reading), s, []) == Drive(c, s, []) == Final(Upserted, s, []);
      SecondPassWritesNothing(s, ds[1..]);
    }
  }

  // ----- failed reads -----

  function HasId(id: string): Policy -> bool { (p: Policy) => p.id == Some(id) }

  function Tally(ps: seq<Policy>, id: string): nat { |Kept(ps, HasId(id))| }

  lemma {:induction false} TallyZero(ps: seq<Policy>, id: string)
    ensures Tally(ps, id) == 0 <==> IndexOfId(ps, id).None?
  {
    if ps != [] {
      TallyZero(ps[1..], id);
    }
  }

  lemma TallyAfterAppend(d: Body, s: Server, script: seq<Answer>)
    ensures var end := Drive(Upsert(d, Appending), s, script);
      end.outcome == Upserted ==> Tally(end.server.policies, OwnId(d)) == Tally(s.policies, OwnId(d)) + 1
  {
    KeptOfConcat(s.policies, [Stamped(d)], HasId(OwnId(d)));
    assert Kept([Stamped(d)], HasId(OwnId(d))) == [Stamped(d)];
    var (c, s') := Step(Upsert(d, Appending), s, Next(script));
    assert Drive(c, s', Later(script)).server == s';
  }

  lemma TallyAfterCreate(d: Body, s: Server, script: seq<Answer>)
    requires s.Valid()
    ensures var end := Drive(Upsert(d, Creating), s, script);
      end.outcome == Upserted ==> Tally(end.server.policies, OwnId(d)) == Tally(s.policies, OwnId(d)) + 1
  {
    var (c, s') := Step(Upsert(d, Creating), s, Next(script));
    assert s'.policies == s.policies;
    TallyAfterAppend(d, s', Later(script));
  }

  lemma TallyAfterReplace(d: Body, s: Server, script: seq<Answer>)
    ensures var end, before := Drive(Upsert(d, Replacing), s, script), Tally(s.policies, OwnId(d));
      end.outcome == Upserted ==> Tally(end.server.policies, OwnId(d)) == if before == 0 then 1 else before
  {
    var id := OwnId(d);
    TallyZero(s.policies, id);
    var (c, s') := Step(Upsert(d, Replacing), s, Next(script));
    match IndexOfId(s.policies, id) {
      case None => TallyAfterAppend(d, s', Later(script));
      case Some(i) =>
        KeptCounts(s.policies, i, Stamped(d), HasId(id));
        assert Drive(c, s', Later(script)).server == s';
    }
  }

  /** And that is what a refused read leads to, everything else delivered. */
  lemma RefusedReadAppends(d: Body, s: Server)
    requires s.keyExists
    ensures Drive(Upsert(d, Reading), s, [Refuse]) == Final(Upserted, Server(true, s.policies + [Stamped(d)]), [])
  {
    var after := Server(true, s.policies + [Stamped(d)]);
    assert Drive(Upsert(d, Reading), s, [Refuse]) == Drive(Upsert(d, Creating), s, []);
    assert Drive(Upsert(d, Creating), s, []) == Drive(Upsert(d, Appending), s, []);
    assert Drive(Upsert(d, Appending), s, []) == Drive(Upsert(d, Finished(Upserted)), after, []);
  }

  /** However its requests fare, an undisturbed upsert that reports success
      leaves exactly one policy with its identifier where there was at most one,
      unless its read was refused while there was one: the client then takes the
      array for empty and appends a duplicate. */
  lemma DuplicatesOnlyAfterRefusedRead(d: Body, s: Server, script: seq<Answer>)
    requires s.Valid()
    ensures var end, before := Drive(Upsert(d, Reading), s, script), Tally(s.policies, OwnId(d));
      end.outcome == Upserted ==>
        Tally(end.server.policies, OwnId(d))
          == if before == 0 then 1 else if Next(script).Refuse? then before + 1 else before
  {
    TallyZero(s.policies, OwnId(d));
    var c := Step(Upsert(d, Reading), s, Next(script)).0;
    assert Drive(Upsert(d, Reading), s, script) == Drive(c, s, Later(script));
    match c.pc
    case Creating => TallyAfterCreate(d, s, Later(script));
    case Replacing => TallyAfterReplace(d, s, Later(script));
    case Appending => TallyAfterAppend(d, s, Later(script));
    case _ =>
  }
}
