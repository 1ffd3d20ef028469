/** Upserts beside other administrators. Any number of upsert clients run, one
    request at a time, while others edit the array between any two requests.
    What slip does not own ends up as if slip had not been there. */
module ForeignPolicies {
  import opened Prelude
  import opened Names
  import opened Sublists
  import opened CaddyServer
  import opened TlsUpsert

  predicate IsForeign(p: Policy) { p.id.None? || !(TLS_PREFIX <= p.id.value) }

  function Foreign(ps: seq<Policy>): seq<Policy> { Kept(ps, IsForeign) }

  // ----- edits by others -----

  /** Others address their own entries, by rank among foreign policies. `Disturb`
      lets them do anything to what slip owns; `Wipe` removes the key. */
  datatype Meddling =
    | Touch(edit: Edit<Policy>)
    | Disturb(policies: seq<Policy>)
    | Wipe
  {
    predicate Valid() { Touch? ==> edit.Remove? || IsForeign(edit.value) }
  }

  /** The effect on an array that holds foreign policies only. */
  function MeddledAlone(fs: seq<Policy>, m: Meddling): seq<Policy> {
    match m
    case Touch(e) => EditAlone(fs, e)
    case Disturb(_) => fs
    case Wipe => []
  }

  /** The effect on the array as it is. */
  function Meddled(s: Server, m: Meddling): Server {
    match m
    case Touch(e) =>
      if s.keyExists || e.Insert? then Server(true, EditAmong(s.policies, e, IsForeign)) else s
    case Disturb(ps) => if Foreign(ps) == Foreign(s.policies) then Server(true, ps) else s
    case Wipe => Server(false, [])
  }

  lemma MeddlingCommutes(s: Server, m: Meddling)
    requires s.Valid() && m.Valid()
    ensures Foreign(Meddled(s, m).policies) == MeddledAlone(Foreign(s.policies), m) && Meddled(s, m).Valid()
  {
    if m.Touch? {
      EditCommutes(s.policies, m.edit, IsForeign);
    }
  }

  // ----- the interleaving -----

  datatype World = World(server: Server, clients: seq<Upsert>)

  datatype Label = Tick(client: nat, answer: Answer) | Meddle(meddling: Meddling)

  function Act(w: World, l: Label): World {
    match l
    case Tick(i, a) =>
      if i < |w.clients| then
        var (c, s) := Step(w.clients[i], w.server, a);
        World(s, w.clients[i := c])
      else w
    case Meddle(m) => w.(server := Meddled(w.server, m))
  }

  function Run(w: World, labels: seq<Label>): World
    decreases |labels|
  {
    if labels == [] then w else Run(Act(w, labels[0]), labels[1..])
  }

  /** What the others alone would have made of their policies. */
  function WithoutSlip(fs: seq<Policy>, labels: seq<Label>): seq<Policy>
    decreases |labels|
  {
    if labels == [] then fs
    else WithoutSlip(if labels[0].Meddle? then MeddledAlone(fs, labels[0].meddling) else fs, labels[1..])
  }

  lemma StepKeepsForeign(c: Upsert, s: Server, a: Answer)
    requires s.Valid()
    ensures var s' := Step(c, s, a).1; s'.Valid() && Foreign(s'.policies) == Foreign(s.policies)
  {
    StepTouchesOnlyItsOwn(c, s, a);
    var s', mine := Step(c, s, a).1, Stamped(c.desired);
    assert !IsForeign(mine);
    if s'.policies == s.policies + [mine] {
      KeptOfConcat(s.policies, [mine], IsForeign);
    } else if s'.policies != s.policies {
      var i :| 0 <= i < |s.policies| && s.policies[i].id == Some(OwnId(c.desired))
            && s'.policies == s.policies[i := mine];
      KeptIgnores(s.policies, i, mine, IsForeign);
    }
  }

  lemma {:induction false} NonInterference(w: World, labels: seq<Label>)
    requires w.server.Valid() && forall l :: l in labels && l.Meddle? ==> l.meddling.Valid()
    ensures Foreign(Run(w, labels).server.policies) == WithoutSlip(Foreign(w.server.policies), labels)
    decreases |labels|
  {
    if labels != [] {
      match labels[0] {
        case Tick(i, a) =>
          if i < |w.clients| {
            StepKeepsForeign(w.clients[i], w.server, a);
          }
        case Meddle(m) => MeddlingCommutes(w.server, m);
      }
      NonInterference(Act(w, labels[0]), labels[1..]);
    }
  }

  /** A client that decided to replace its policy and finds it gone still ends
      with its policy in place, at the end of whatever array there is by then,
      exactly when the array itself is still there. */
  lemma RecoversFromVanishing(desired: Body, s: Server)
    requires IndexOfId(s.policies, OwnId(desired)).None?
    ensures var end := Drive(Upsert(desired, Replacing), s, []);
      if s.keyExists then end == Final(Upserted, Server(true, s.policies + [Stamped(desired)]), [])
      else end == Final(Failed, s, [])
  {
    var (c, s') := Step(Upsert(desired, Replacing), s, Deliver);
    assert c == Upsert(desired, Appending) && s' == s;
    var (c', s'') := Step(c, s', Deliver);
    assert Drive(c, s', []) == Drive(c', s'', []) == Final(c'.pc.outcome, s'', []);
  }
}
