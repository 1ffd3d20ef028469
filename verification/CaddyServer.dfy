/** The part of Caddy's configuration that slip edits for TLS, and the admin
    requests slip sends to it. Each request is one atomic step. It is delivered
    and handled, refused with a status that is neither success, 404 nor 409, or
    lost on the way; a refused or lost request changes nothing.

    `PATCH /id/<id>` has two meanings in the client. With a whole policy it
    replaces the element; with only `renewal_window_ratio` in it, it merges that
    one field. They are two requests here. */
module CaddyServer {
  import opened Prelude

  /** A policy without its `@id`. `managed` says that a Tailscale certificate
      manager is listed; `rest` is everything else the object holds. */
  datatype Body = Body(subjects: seq<string>, ratio: Option<real>, managed: bool, rest: string)

  datatype Policy = Policy(id: Option<string>, body: Body)

  /** The `tls/automation/policies` key and its array. */
  datatype Server = Server(keyExists: bool, policies: seq<Policy>) {
    predicate Valid() { !keyExists ==> policies == [] }
  }

  datatype Answer = Deliver | Refuse | Lose

  datatype Reply<+T> = Success(value: T) | NotFound | Exists | Refused | Unreachable

  // ----- lookups -----

  /** The element `/id/<id>` stands for. */
  function IndexOfId(ps: seq<Policy>, id: string): (r: Option<nat>)
    ensures r.None? ==> forall j :: 0 <= j < |ps| ==> ps[j].id != Some(id)
    ensures r.Some? ==> r.value < |ps| && ps[r.value].id == Some(id)
    ensures r.Some? ==> forall j :: 0 <= j < r.value ==> ps[j].id != Some(id)
  {
    if ps == [] then None
    else if ps[0].id == Some(id) then Some(0)
    else match IndexOfId(ps[1..], id)
      case None => None
      case Some(k) => Some(k + 1)
  }

  predicate WildcardMatch(wildcard: string, domain: string) {
    && "*." <= wildcard
    && var suffix := wildcard[2..];
      && |domain| > |suffix|
      && domain[|domain| - |suffix|..] == suffix
      && domain[|domain| - |suffix| - 1] == '.'
  }

  lemma WildcardMatchMeaning(suffix: string, domain: string)
    ensures WildcardMatch("*." + suffix, domain) <==> exists labels: string :: domain == labels + "." + suffix
  {
    assert ("*." + suffix)[2..] == suffix;
    if WildcardMatch("*." + suffix, domain) {
      var k := |domain| - |suffix| - 1;
      assert domain == domain[..k] + "." + suffix;
    }
  }

  predicate Covers(p: Policy, host: string) {
    exists s :: s in p.body.subjects && (s == host || WildcardMatch(s, host))
  }

  /** The host is listed itself, or under a wildcard with at least one label more. */
  ghost predicate Lists(subjects: seq<string>, host: string) {
    || host in subjects
    || exists labels: string, r: string :: "*." + r in subjects && host == labels + "." + r
  }

  lemma CoversMeaning(p: Policy, host: string)
    ensures Covers(p, host) <==> Lists(p.body.subjects, host)
  {
    if Covers(p, host) && host !in p.body.subjects {
      var s :| s in p.body.subjects && WildcardMatch(s, host);
      assert s == "*." + s[2..];
      WildcardMatchMeaning(s[2..], host);
    }
    if Lists(p.body.subjects, host) && host !in p.body.subjects {
      var labels: string, r: string :| "*." + r in p.body.subjects && host == labels + "." + r;
      WildcardMatchMeaning(r, host);
    }
  }

  /** The policy a host goes by is the first whose subjects list it. */
  lemma FirstCoverMeaning(ps: seq<Policy>, host: string, i: nat)
    ensures FirstCover(ps, host) == Some(i)
       <==> && i < |ps| && Lists(ps[i].body.subjects, host)
            && forall j :: 0 <= j < i ==> !Lists(ps[j].body.subjects, host)
    ensures FirstCover(ps, host).None? <==> forall j :: 0 <= j < |ps| ==> !Lists(ps[j].body.subjects, host)
  {
    forall p
      ensures Covers(p, host) <==> Lists(p.body.subjects, host)
    {
      CoversMeaning(p, host);
    }
    hide Covers, Lists;
  }

  /** The policy Caddy uses for a host: the first that covers it. */
  function FirstCover(ps: seq<Policy>, host: string): (r: Option<nat>)
    ensures r.None? ==> forall j :: 0 <= j < |ps| ==> !Covers(ps[j], host)
    ensures r.Some? ==> r.value < |ps| && Covers(ps[r.value], host)
    ensures r.Some? ==> forall j :: 0 <= j < r.value ==> !Covers(ps[j], host)
  {
    if ps == [] then None
    else if Covers(ps[0], host) then Some(0)
    else match FirstCover(ps[1..], host)
      case None => None
      case Some(k) => Some(k + 1)
  }

  // ----- requests -----

  function GetPolicies(s: Server, a: Answer): Reply<seq<Policy>> {
    match a
    case Lose => Unreachable
    case Refuse => Refused
    case Deliver => if s.keyExists then Success(s.policies) else Refused
  }

  /** Create-only: it never clobbers an existing array. */
  function PutPolicies(s: Server, a: Answer): (Reply<()>, Server) {
    match a
    case Lose => (Unreachable, s)
    case Refuse => (Refused, s)
    case Deliver => if s.keyExists then (Exists, s) else (Success(()), Server(true, []))
  }

  function PostPolicy(s: Server, a: Answer, p: Policy): (Reply<()>, Server) {
    match a
    case Lose => (Unreachable, s)
    case Refuse => (Refused, s)
    case Deliver => if s.keyExists then (Success(()), Server(true, s.policies + [p])) else (Refused, s)
  }

  function PatchPolicy(s: Server, a: Answer, id: string, p: Policy): (Reply<()>, Server) {
    match a
    case Lose => (Unreachable, s)
    case Refuse => (Refused, s)
    case Deliver =>
      match IndexOfId(s.policies, id)
      case None => (NotFound, s)
      case Some(i) => (Success(()), s.(policies := s.policies[i := p]))
  }

  function WithRatio(p: Policy, ratio: Option<real>): Policy {
    p.(body := p.body.(ratio := ratio))
  }

  /** `PATCH` of the one field, or `DELETE` of it for `None`. Deleting a field
      that is already absent succeeds and changes nothing. */
  function WriteRatioById(s: Server, a: Answer, id: string, ratio: Option<real>): (Reply<()>, Server) {
    match a
    case Lose => (Unreachable, s)
    case Refuse => (Refused, s)
    case Deliver =>
      match IndexOfId(s.policies, id)
      case None => (NotFound, s)
      case Some(i) => (Success(()), s.(policies := s.policies[i := WithRatio(s.policies[i], ratio)]))
  }

  /** Succeeds exactly when it is delivered and some policy carries the identifier;
      then the first that does shows the ratio and is otherwise as it was, and so
      is every other policy; writing the old ratio back undoes it. A failure
      changes nothing. */
  lemma RatioWriteMeaning(s: Server, a: Answer, id: string, ratio: Option<real>)
    ensures var (reply, s') := WriteRatioById(s, a, id, ratio);
      && s'.keyExists == s.keyExists
      && (reply.Success? <==> a.Deliver? && exists j :: 0 <= j < |s.policies| && s.policies[j].id == Some(id))
      && (!reply.Success? ==> s' == s)
      && (reply.Success? ==>
            exists i :: 0 <= i < |s.policies| && WrittenAt(s.policies, s'.policies, i, id, ratio)
                      && WriteRatioById(s', Deliver, id, s.policies[i].body.ratio).1 == s)
  {
    var (reply, s') := WriteRatioById(s, a, id, ratio);
    if reply.Success? {
      var i := IndexOfId(s.policies, id).value;
      assert WrittenAt(s.policies, s'.policies, i, id, ratio);
      assert s'.policies[i].id == Some(id);
      assert forall j :: 0 <= j < i ==> s'.policies[j] == s.policies[j];
      assert IndexOfId(s'.policies, id) == Some(i);
      assert s'.policies[i := WithRatio(s'.policies[i], s.policies[i].body.ratio)] == s.policies;
    }
  }

  /** Only the first policy with the identifier differs, and only in its ratio. */
  predicate WrittenAt(ps: seq<Policy>, qs: seq<Policy>, i: nat, id: string, ratio: Option<real>) {
    && |qs| == |ps| && i < |ps| && ps[i].id == Some(id)
    && (forall j :: 0 <= j < i ==> ps[j].id != Some(id))
    && (forall j :: 0 <= j < |ps| && j != i ==> qs[j] == ps[j])
    && qs[i].id == ps[i].id && qs[i].body.ratio == ratio
    && qs[i].body.subjects == ps[i].body.subjects
    && qs[i].body.managed == ps[i].body.managed && qs[i].body.rest == ps[i].body.rest
  }

  function WriteRatioAt(s: Server, a: Answer, i: nat, ratio: Option<real>): (Reply<()>, Server) {
    match a
    case Lose => (Unreachable, s)
    case Refuse => (Refused, s)
    case Deliver =>
      if i < |s.policies| then (Success(()), s.(policies := s.policies[i := WithRatio(s.policies[i], ratio)]))
      else (NotFound, s)
  }

  function GetConfig(s: Server, a: Answer): Reply<Server> {
    match a
    case Lose => Unreachable
    case Refuse => Refused
    case Deliver => Success(s)
  }

  function LoadConfig(s: Server, a: Answer, config: Server): (Reply<()>, Server) {
    match a
    case Lose => (Unreachable, s)
    case Refuse => (Refused, s)
    case Deliver => (Success(()), config)
  }

  // ----- the admin endpoint -----

  function Next(script: seq<Answer>): Answer { if script == [] then Deliver else script[0] }

  function Later(script: seq<Answer>): seq<Answer> { if script == [] then [] else script[1..] }

  /** The admin endpoint as one client meets it. `script` says how the coming
      requests fare; requests beyond its end are delivered. */
  class CaddyAdmin {
    var server: Server
    var script: seq<Answer>

    constructor (server: Server, script: seq<Answer>)
      ensures this.server == server && this.script == script
    {
      this.server := server;
      this.script := script;
    }

    method Draw() returns (a: Answer)
      modifies this`script
      ensures a == Next(old(script)) && script == Later(old(script))
    {
      a := Next(script);
      script := Later(script);
    }

    method Get() returns (r: Reply<seq<Policy>>)
      modifies this`script
      ensures r == GetPolicies(server, Next(old(script))) && script == Later(old(script))
    {
      var a := Draw();
      r := GetPolicies(server, a);
    }

    method Put() returns (r: Reply<()>)
      modifies this
      ensures (r, server) == PutPolicies(old(server), Next(old(script))) && script == Later(old(script))
    {
      var a := Draw();
      var (reply, after) := PutPolicies(server, a);
      r, server := reply, after;
    }

    method Post(p: Policy) returns (r: Reply<()>)
      modifies this
      ensures (r, server) == PostPolicy(old(server), Next(old(script)), p) && script == Later(old(script))
    {
      var a := Draw();
      var (reply, after) := PostPolicy(server, a, p);
      r, server := reply, after;
    }

    method Patch(id: string, p: Policy) returns (r: Reply<()>)
      modifies this
      ensures (r, server) == PatchPolicy(old(server), Next(old(script)), id, p) && script == Later(old(script))
    {
      var a := Draw();
      var (reply, after) := PatchPolicy(server, a, id, p);
      r, server := reply, after;
    }

    method RatioById(id: string, ratio: Option<real>) returns (r: Reply<()>)
      modifies this
      ensures (r, server) == WriteRatioById(old(server), Next(old(script)), id, ratio)
      ensures script == Later(old(script))
    {
      var a := Draw();
      var (reply, after) := WriteRatioById(server, a, id, ratio);
      r, server := reply, after;
    }

    method RatioAt(i: nat, ratio: Option<real>) returns (r: Reply<()>)
      modifies this
      ensures (r, server) == WriteRatioAt(old(server), Next(old(script)), i, ratio)
      ensures script == Later(old(script))
    {
      var a := Draw();
      var (reply, after) := WriteRatioAt(server, a, i, ratio);
      r, server := reply, after;
    }

    method Config() returns (r: Reply<Server>)
      modifies this`script
      ensures r == GetConfig(server, Next(old(script))) && script == Later(old(script))
    {
      var a := Draw();
      r := GetConfig(server, a);
    }

    method Load(config: Server) returns (r: Reply<()>)
      modifies this
      ensures (r, server) == LoadConfig(old(server), Next(old(script)), config) && script == Later(old(script))
    {
      var a := Draw();
      var (reply, after) := LoadConfig(server, a, config);
      r, server := reply, after;
    }
  }
}
