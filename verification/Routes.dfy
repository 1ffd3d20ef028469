/** The reverse-proxy routes of the `slip` server. `/id/<id>` is one namespace
    for routes and TLS policies, so that a route request stays among routes
    rests on how identifiers are formed. */
module Routes {
  import opened Prelude
  import opened Names
  import opened Sublists
  import opened CaddyServer

  /** A route object: its identifier, the host it matches, what it dials. */
  datatype Entry = Entry(id: Option<string>, host: string, dial: string)

  datatype Route = Route(hostname: string, port: nat)

  datatype Config = Config(routes: seq<Entry>, policies: seq<Policy>)

  function EntryFor(app: string, index: nat, r: Route): Entry {
    Entry(Some(RouteId(app, index)), r.hostname, "localhost:" + Decimal(r.port))
  }

  /** A route object read as a policy: it has no subjects and no ratio. */
  function AsPolicy(e: Entry): Policy { Policy(e.id, Body([], None, false, e.host + " " + e.dial)) }

  function AsPolicies(es: seq<Entry>): (ps: seq<Policy>)
    ensures |ps| == |es| && forall i :: 0 <= i < |es| ==> ps[i] == AsPolicy(es[i])
  {
    seq(|es|, i requires 0 <= i < |es| => AsPolicy(es[i]))
  }

  /** An identifier is looked up among routes as it is among policies. */
  function IndexOfEntry(es: seq<Entry>, id: string): (r: Option<nat>)
    ensures r.None? ==> forall j :: 0 <= j < |es| ==> es[j].id != Some(id)
    ensures r.Some? ==> r.value < |es| && es[r.value].id == Some(id)
    ensures r.Some? ==> forall j :: 0 <= j < r.value ==> es[j].id != Some(id)
  {
    IndexOfId(AsPolicies(es), id)
  }

  // ----- requests -----

  /** `PATCH /id/<id>` with a whole route: it fails only when nothing carries the
      identifier. */
  function PatchEntry(c: Config, id: string, e: Entry): Option<Config> {
    match IndexOfEntry(c.routes, id)
    case Some(i) => Some(c.(routes := c.routes[i := e]))
    case None =>
      match IndexOfId(c.policies, id)
      case Some(i) => Some(c.(policies := c.policies[i := AsPolicy(e)]))
      case None => None
  }

  function DeleteById(c: Config, id: string): Option<Config> {
    match IndexOfEntry(c.routes, id)
    case Some(i) => Some(c.(routes := Spliced(c.routes, i, [])))
    case None =>
      match IndexOfId(c.policies, id)
      case Some(i) => Some(c.(policies := Spliced(c.policies, i, [])))
      case None => None
  }

  /** How a request fares: delivered, or refused or lost without effect. */
  class RouteAdmin {
    var config: Config
    var script: seq<Answer>

    constructor (config: Config, script: seq<Answer>)
      ensures this.config == config && this.script == script
    {
      this.config, this.script := config, script;
    }

    method Draw() returns (a: Answer)
      modifies this`script
      ensures a == Next(old(script)) && script == Later(old(script))
    {
      a := Next(script);
      script := Later(script);
    }

    method Patch(id: string, e: Entry) returns (r: Reply<()>)
      modifies this
      ensures r == match Next(old(script))
                   case Deliver => if PatchEntry(old(config), id, e).Some? then Success(()) else NotFound
                   case Refuse => Refused
                   case Lose => Unreachable
      ensures config == if r.Success? then PatchEntry(old(config), id, e).value else old(config)
      ensures script == Later(old(script))
    {
      var a := Draw();
      match a {
        case Deliver =>
          var after := PatchEntry(config, id, e);
          if after.Some? {
            config := after.value;
          }
          r := if after.Some? then Success(()) else NotFound;
        case Refuse => r := Refused;
        case Lose => r := Unreachable;
      }
    }

    method Post(e: Entry) returns (r: Reply<()>)
      modifies this
      ensures r == match Next(old(script)) case Deliver => Success(()) case Refuse => Refused case Lose => Unreachable
      ensures config == if r.Success? then old(config).(routes := old(config).routes + [e]) else old(config)
      ensures script == Later(old(script))
    {
      var a := Draw();
      match a {
        case Deliver => r, config := Success(()), config.(routes := config.routes + [e]);
        case Refuse => r := Refused;
        case Lose => r := Unreachable;
      }
    }

    method Delete(id: string) returns (r: Reply<()>)
      modifies this
      ensures r == match Next(old(script))
                   case Deliver => if DeleteById(old(config), id).Some? then Success(()) else NotFound
                   case Refuse => Refused
                   case Lose => Unreachable
      ensures config == if r.Success? then DeleteById(old(config), id).value else old(config)
      ensures script == Later(old(script))
    {
      var a := Draw();
      match a {
        case Deliver =>
          var after := DeleteById(config, id);
          if after.Some? {
            config := after.value;
          }
          r := if after.Some? then Success(()) else NotFound;
        case Refuse => r := Refused;
        case Lose => r := Unreachable;
      }
    }
  }

  // ----- a list of entries, one request or two for each -----

  /** Entries to be set, with their identifiers, no two the same. */
  predicate Wanted(es: seq<Entry>, ids: seq<string>) {
    && |ids| == |es|
    && (forall i :: 0 <= i < |es| ==> es[i].id == Some(ids[i]))
    && AllDistinct(ids)
  }

  predicate AllDistinct(ids: seq<string>) { forall i, j :: 0 <= i < j < |ids| ==> ids[i] != ids[j] }

  predicate Identified(es: seq<Entry>) { forall i :: 0 <= i < |es| ==> es[i].id.Some? }

  /** One entry in place. If the `PATCH` was refused it is appended, whether or
      not there was one. */
  function SetOne(c: Config, e: Entry, refused: bool): Config
    requires e.id.Some?
  {
    if refused || PatchEntry(c, e.id.value, e).None? then c.(routes := c.routes + [e])
    else PatchEntry(c, e.id.value, e).value
  }

  /** The first `k` entries in place; `refused` says of which the `PATCH` was. */
  function Applied(c: Config, es: seq<Entry>, refused: seq<bool>, k: nat): Config
    requires k <= |refused| <= |es| && Identified(es)
  {
    if k == 0 then c else SetOne(Applied(c, es, refused, k - 1), es[k - 1], refused[k - 1])
  }

  /** How one entry fares. */
  datatype Turn = Turn(ok: bool, refused: bool, script: seq<Answer>)

  function TurnOf(c: Config, e: Entry, script: seq<Answer>): Turn
    requires e.id.Some?
  {
    var patch, post := Next(script), Next(Later(script));
    if patch.Lose? then Turn(false, false, Later(script))
    else if patch.Deliver? && PatchEntry(c, e.id.value, e).Some? then Turn(true, false, Later(script))
    else Turn(post.Deliver?, patch.Refuse?, Later(Later(script)))
  }

  /** A turn fails exactly if the `PATCH` is lost, or if it finds nothing or is
      refused and the `POST` does not come through. */
  lemma TurnFailsExactlyWhen(c: Config, e: Entry, script: seq<Answer>)
    requires e.id.Some?
    ensures var patch, post := Next(script), Next(Later(script));
      var there := (exists x :: x in c.routes && x.id == e.id) || (exists p :: p in c.policies && p.id == e.id);
      TurnOf(c, e, script).ok <==> !patch.Lose? && ((patch.Deliver? && there) || post.Deliver?)
  {
    var r, q := IndexOfEntry(c.routes, e.id.value), IndexOfId(c.policies, e.id.value);
    if r.Some? {
      assert c.routes[r.value] in c.routes;
    } else if q.Some? {
      assert c.policies[q.value] in c.policies;
    }
  }

  datatype Progress = Progress(config: Config, script: seq<Answer>, refused: seq<bool>, stopped: bool)

  /** The first `k` entries, up to the first that could not be set. */
  function SetUpTo(c: Config, es: seq<Entry>, script: seq<Answer>, k: nat): (p: Progress)
    requires k <= |es| && Identified(es)
    ensures |p.refused| <= k && (p.stopped <==> |p.refused| < k)
  {
    if k == 0 then Progress(c, script, [], false)
    else
      var p := SetUpTo(c, es, script, k - 1);
      if p.stopped then p
      else
        var t := TurnOf(p.config, es[k - 1], p.script);
        if t.ok then Progress(SetOne(p.config, es[k - 1], t.refused), t.script, p.refused + [t.refused], false)
        else Progress(p.config, t.script, p.refused, true)
  }

  lemma {:induction false} SetStaysStopped(c: Config, es: seq<Entry>, script: seq<Answer>, k: nat, n: nat)
    requires k <= n <= |es| && Identified(es) && SetUpTo(c, es, script, k).stopped
    ensures SetUpTo(c, es, script, n) == SetUpTo(c, es, script, k)
  {
    hide SetOne, TurnOf;
    if k < n {
      SetStaysStopped(c, es, script, k, n - 1);
    }
  }

  lemma {:induction false} AppliedPrefix(c: Config, es: seq<Entry>, rs: seq<bool>, r: bool, k: nat)
    requires k <= |rs| < |es| && Identified(es)
    ensures Applied(c, es, rs + [r], k) == Applied(c, es, rs, k)
  {
    if k > 0 {
      AppliedPrefix(c, es, rs, r, k - 1);
    }
  }

  /** Whether it completes or stops, exactly a prefix is applied. */
  lemma {:induction false} SetUpToApplies(c: Config, es: seq<Entry>, script: seq<Answer>, k: nat)
    requires k <= |es| && Identified(es)
    ensures var p := SetUpTo(c, es, script, k); p.config == Applied(c, es, p.refused, |p.refused|)
  {
    hide SetOne, TurnOf;
    if k > 0 {
      SetUpToApplies(c, es, script, k - 1);
      var p := SetUpTo(c, es, script, k - 1);
      if !p.stopped {
        var r := TurnOf(p.config, es[k - 1], p.script).refused;
        AppliedPrefix(c, es, p.refused, r, k - 1);
        assert Applied(c, es, p.refused + [r], k) == SetOne(p.config, es[k - 1], r);
      }
    }
  }

  /** Delivered requests suffice. */
  lemma {:induction false} DeliveredSets(c: Config, es: seq<Entry>, script: seq<Answer>, k: nat)
    requires k <= |es| && Identified(es) && AllDelivered(script)
    ensures var p := SetUpTo(c, es, script, k);
      !p.stopped && AllDelivered(p.script) && forall i :: 0 <= i < k ==> !p.refused[i]
  {
    hide SetOne, PatchEntry, AllDelivered;
    if k > 0 {
      DeliveredSets(c, es, script, k - 1);
      var p := SetUpTo(c, es, script, k - 1);
      DeliveredOn(p.script);
      DeliveredOn(Later(p.script));
    }
  }

  predicate AllDelivered(script: seq<Answer>) { forall a :: a in script ==> a.Deliver? }

  lemma DeliveredOn(script: seq<Answer>)
    requires AllDelivered(script)
    ensures Next(script).Deliver? && AllDelivered(Later(script))
  {
  }

  function RemoveOne(c: Config, id: string): Config {
    match DeleteById(c, id)
    case Some(c') => c'
    case None => c
  }

  function Removed(c: Config, ids: seq<string>, k: nat): Config
    requires k <= |ids|
  {
    if k == 0 then c else RemoveOne(Removed(c, ids, k - 1), ids[k - 1])
  }

  datatype Removal = Removal(config: Config, script: seq<Answer>, done: nat)

  /** The first `k` identifiers, up to the first request that failed. */
  function RemoveUpTo(c: Config, ids: seq<string>, script: seq<Answer>, k: nat): (p: Removal)
    requires k <= |ids|
    ensures p.done <= k
  {
    if k == 0 then Removal(c, script, 0)
    else
      var p := RemoveUpTo(c, ids, script, k - 1);
      if p.done < k - 1 then p
      else if Next(p.script).Deliver? then Removal(RemoveOne(p.config, ids[k - 1]), Later(p.script), k)
      else Removal(p.config, Later(p.script), k - 1)
  }

  function Nth(script: seq<Answer>, k: nat): Answer { if k < |script| then script[k] else Deliver }

  /** Removal uses one answer for each identifier and stops at the first that does not
      come through. */
  lemma {:induction false} RemovalStopsAt(c: Config, ids: seq<string>, script: seq<Answer>, k: nat)
    requires k <= |ids|
    ensures var p := RemoveUpTo(c, ids, script, k);
      && (forall i :: 0 <= i < p.done ==> Nth(script, i).Deliver?)
      && (p.done < k ==> !Nth(script, p.done).Deliver?)
      && (p.done == k ==> p.script == if k <= |script| then script[k..] else [])
  {
    hide RemoveOne;
    if k > 0 {
      RemovalStopsAt(c, ids, script, k - 1);
    }
  }

  lemma {:induction false} RemovesPrefix(c: Config, ids: seq<string>, script: seq<Answer>, k: nat)
    requires k <= |ids|
    ensures var p := RemoveUpTo(c, ids, script, k); p.config == Removed(c, ids, p.done)
  {
    hide RemoveOne;
    if k > 0 {
      RemovesPrefix(c, ids, script, k - 1);
    }
  }

  /** Delivered requests suffice, present or not. */
  lemma {:induction false} DeliveredRemoves(c: Config, ids: seq<string>, script: seq<Answer>, k: nat)
    requires k <= |ids| && AllDelivered(script)
    ensures var p := RemoveUpTo(c, ids, script, k); p.done == k && AllDelivered(p.script)
  {
    hide RemoveOne, AllDelivered;
    if k > 0 {
      DeliveredRemoves(c, ids, script, k - 1);
      DeliveredOn(RemoveUpTo(c, ids, script, k - 1).script);
    }
  }

  lemma {:induction false} RemovalStaysStopped(c: Config, ids: seq<string>, script: seq<Answer>, k: nat, n: nat)
    requires k <= n <= |ids| && RemoveUpTo(c, ids, script, k).done < k
    ensures RemoveUpTo(c, ids, script, n) == RemoveUpTo(c, ids, script, k)
  {
    hide RemoveOne;
    if k < n {
      RemovalStaysStopped(c, ids, script, k, n - 1);
    }
  }

  // ----- how often an identifier occurs -----

  function Tagged(id: string): Entry -> bool { (e: Entry) => e.id == Some(id) }

  /** Not one of the identifiers. */
  function Outside(ids: seq<string>): Entry -> bool { (e: Entry) => e.id.None? || e.id.value !in ids }

  function Tally(es: seq<Entry>, id: string): nat { |Kept(es, Tagged(id))| }

  lemma {:induction false} NoneTagged(es: seq<Entry>, id: string)
    ensures Tally(es, id) == 0 <==> forall j :: 0 <= j < |es| ==> es[j].id != Some(id)
  {
    if es != [] {
      NoneTagged(es[1..], id);
      assert (forall j :: 0 <= j < |es| ==> es[j].id != Some(id))
        <==> es[0].id != Some(id) && forall j :: 0 <= j < |es[1..]| ==> es[1..][j].id != Some(id) by {
        assert forall j :: 0 < j < |es| ==> es[j] == es[1..][j - 1];
      }
    }
  }

  /** No policy carries one of the identifiers. */
  predicate Unclaimed(c: Config, ids: seq<string>) {
    forall i :: 0 <= i < |ids| ==> IndexOfId(c.policies, ids[i]).None?
  }

  /** How often a wanted identifier occurs after its turn: once more exactly when
      it did not occur or the `PATCH` was refused. */
  function TallyAfter(before: nat, refused: bool): nat { if before == 0 || refused then before + 1 else before }

  lemma SetOneTally(c: Config, e: Entry, refused: bool, id: string)
    requires e.id.Some? && IndexOfId(c.policies, e.id.value).None?
    ensures var c' := SetOne(c, e, refused);
      && c'.policies == c.policies
      && Tally(c'.routes, id)
           == if e.id == Some(id) then TallyAfter(Tally(c.routes, id), refused) else Tally(c.routes, id)
  {
    NoneTagged(c.routes, e.id.value);
    var r := IndexOfEntry(c.routes, e.id.value);
    if refused || r.None? {
      KeptOfConcat(c.routes, [e], Tagged(id));
    } else if e.id == Some(id) {
      KeptCounts(c.routes, r.value, e, Tagged(id));
    } else {
      KeptIgnores(c.routes, r.value, e, Tagged(id));
    }
  }

  lemma SetOneKeepsOthers(c: Config, e: Entry, refused: bool, ids: seq<string>)
    requires e.id.Some? && IndexOfId(c.policies, e.id.value).None? && e.id.value in ids
    ensures Kept(SetOne(c, e, refused).routes, Outside(ids)) == Kept(c.routes, Outside(ids))
  {
    var r := IndexOfEntry(c.routes, e.id.value);
    if refused || r.None? {
      KeptOfConcat(c.routes, [e], Outside(ids));
    } else {
      KeptIgnores(c.routes, r.value, e, Outside(ids));
    }
  }

  lemma SetOneShape(c: Config, e: Entry, refused: bool) returns (at: nat)
    requires e.id.Some? && IndexOfId(c.policies, e.id.value).None?
    ensures var es := SetOne(c, e, refused).routes;
      && |c.routes| <= |es| && at < |es| && es[at] == e
      && (at < |c.routes| ==> c.routes[at].id == e.id)
      && forall j :: 0 <= j < |c.routes| && j != at ==> es[j] == c.routes[j]
  {
    at := if refused then |c.routes|
          else match IndexOfEntry(c.routes, e.id.value) case Some(k) => k case None => |c.routes|;
  }

  /** The entry carries one of the first `k` identifiers. */
  predicate Named(es: seq<Entry>, k: nat, e: Entry)
    requires k <= |es|
  {
    exists i :: 0 <= i < k && e.id == es[i].id
  }

  /** What became of the table: earlier entries keep place and identifier, and
      change only if the identifier is one of the first `k`; each of the first
      `k` wanted entries is there. */
  predicate Carries(before: seq<Entry>, after: seq<Entry>, es: seq<Entry>, k: nat)
    requires k <= |es|
  {
    && |before| <= |after|
    && (forall j :: 0 <= j < |before| ==> after[j].id == before[j].id)
    && (forall j :: 0 <= j < |before| ==> after[j] == before[j] || Named(es, k, before[j]))
    && (forall i :: 0 <= i < k ==> es[i] in after)
  }

  lemma CarriesOn(before: seq<Entry>, b: Config, es: seq<Entry>, k: nat, refused: bool)
    requires k < |es| && es[k].id.Some? && IndexOfId(b.policies, es[k].id.value).None?
    requires Carries(before, b.routes, es, k) && forall i :: 0 <= i < k ==> es[i].id != es[k].id
    ensures Carries(before, SetOne(b, es[k], refused).routes, es, k + 1)
  {
    var after := SetOne(b, es[k], refused).routes;
    var at := SetOneShape(b, es[k], refused);
    forall j | 0 <= j < |before|
      ensures after[j] == before[j] || Named(es, k + 1, before[j])
    {
      if j == at {
        assert before[j].id == es[k].id;
      }
    }
    forall i | 0 <= i < k + 1
      ensures es[i] in after
    {
      if i < k {
        var j :| 0 <= j < |b.routes| && b.routes[j] == es[i];
        assert after[j] == es[i];
      } else {
        assert after[at] == es[i];
      }
    }
  }

  /** The table after the first `k` entries: no policy is touched, each of the
      first `k` wanted entries is there, its identifier as often as it should be;
      and what carries no wanted identifier is as it was, in place and in order. */
  predicate TableSet(c: Config, c': Config, es: seq<Entry>, ids: seq<string>, refused: seq<bool>, k: nat)
    requires k <= |refused| && |ids| == |es| >= k
  {
    && c'.policies == c.policies
    && Carries(c.routes, c'.routes, es, k)
    && Kept(c'.routes, Outside(ids)) == Kept(c.routes, Outside(ids))
    && (forall i :: 0 <= i < k ==> Tally(c'.routes, ids[i]) == TallyAfter(Tally(c.routes, ids[i]), refused[i]))
    && (forall i :: k <= i < |ids| ==> Tally(c'.routes, ids[i]) == Tally(c.routes, ids[i]))
  }

  lemma SetIsThere(c: Config, c': Config, es: seq<Entry>, ids: seq<string>, refused: seq<bool>, k: nat)
    requires k <= |refused| && |ids| == |es| >= k && TableSet(c, c', es, ids, refused, k)
    ensures forall i :: 0 <= i < k ==> es[i] in c'.routes
  {
  }

  lemma TableSetOn(c: Config, b: Config, es: seq<Entry>, ids: seq<string>, refused: seq<bool>, k: nat)
    requires k < |refused| <= |es| && Wanted(es, ids) && Unclaimed(c, ids) && TableSet(c, b, es, ids, refused, k)
    ensures TableSet(c, SetOne(b, es[k], refused[k]), es, ids, refused, k + 1)
  {
    hide SetOne, Tally, TallyAfter;
    assert es[k].id == Some(ids[k]) && IndexOfId(b.policies, ids[k]).None?;
    forall i | 0 <= i < |ids|
      ensures Tally(SetOne(b, es[k], refused[k]).routes, ids[i])
           == if i == k then TallyAfter(Tally(b.routes, ids[i]), refused[k]) else Tally(b.routes, ids[i])
    {
      SetOneTally(b, es[k], refused[k], ids[i]);
    }
    SetOneTally(b, es[k], refused[k], ids[k]);
    SetOneKeepsOthers(b, es[k], refused[k], ids);
    CarriesOn(c.routes, b, es, k, refused[k]);
  }

  lemma NothingSetYet(c: Config, es: seq<Entry>, ids: seq<string>, refused: seq<bool>)
    requires |ids| == |es|
    ensures TableSet(c, c, es, ids, refused, 0)
  {
  }

  lemma {:induction false} TableIsSet(c: Config, es: seq<Entry>, ids: seq<string>, refused: seq<bool>, k: nat)
    requires k <= |refused| <= |es| && Wanted(es, ids) && Unclaimed(c, ids)
    ensures TableSet(c, Applied(c, es, refused, k), es, ids, refused, k)
  {
    hide TableSet, SetOne;
    if k == 0 {
      NothingSetYet(c, es, ids, refused);
    } else {
      TableIsSet(c, es, ids, refused, k - 1);
      TableSetOn(c, Applied(c, es, refused, k - 1), es, ids, refused, k - 1);
    }
  }

  // ----- removal -----

  lemma RemoveOneTally(c: Config, id: string, other: string)
    requires IndexOfId(c.policies, id).None?
    ensures var c', n := RemoveOne(c, id), Tally(c.routes, other);
      && c'.policies == c.policies
      && Tally(c'.routes, other) == if other == id && n > 0 then n - 1 else n
  {
    NoneTagged(c.routes, id);
    var r := IndexOfEntry(c.routes, id);
    if r.Some? {
      KeptDrops(c.routes, r.value, Tagged(other));
    }
  }

  lemma RemoveOneKeepsOthers(c: Config, id: string, ids: seq<string>)
    requires IndexOfId(c.policies, id).None? && id in ids
    ensures Kept(RemoveOne(c, id).routes, Outside(ids)) == Kept(c.routes, Outside(ids))
  {
    var r := IndexOfEntry(c.routes, id);
    if r.Some? {
      KeptDrops(c.routes, r.value, Outside(ids));
    }
  }

  predicate TableTrimmed(c: Config, c': Config, ids: seq<string>, k: nat) {
    && c'.policies == c.policies
    && Kept(c'.routes, Outside(ids)) == Kept(c.routes, Outside(ids))
    && forall i :: 0 <= i < |ids| ==>
         Tally(c'.routes, ids[i])
           == if i < k && Tally(c.routes, ids[i]) > 0 then Tally(c.routes, ids[i]) - 1 else Tally(c.routes, ids[i])
  }

  lemma TrimmedOn(c: Config, b: Config, ids: seq<string>, k: nat)
    requires k < |ids| && Unclaimed(c, ids) && AllDistinct(ids)
    requires TableTrimmed(c, b, ids, k)
    ensures TableTrimmed(c, RemoveOne(b, ids[k]), ids, k + 1)
  {
    hide RemoveOne, Tally;
    assert IndexOfId(b.policies, ids[k]).None?;
    forall i | 0 <= i < |ids|
      ensures Tally(RemoveOne(b, ids[k]).routes, ids[i])
           == if i == k && Tally(b.routes, ids[i]) > 0 then Tally(b.routes, ids[i]) - 1 else Tally(b.routes, ids[i])
    {
      RemoveOneTally(b, ids[k], ids[i]);
    }
    RemoveOneTally(b, ids[k], ids[k]);
    RemoveOneKeepsOthers(b, ids[k], ids);
  }

  lemma NothingTrimmedYet(c: Config, ids: seq<string>)
    ensures TableTrimmed(c, c, ids, 0)
  {
  }

  /** Each of the first `k` identifiers occurs once less, if it occurs at all. */
  lemma {:induction false} TableIsTrimmed(c: Config, ids: seq<string>, k: nat)
    requires k <= |ids| && Unclaimed(c, ids) && AllDistinct(ids)
    ensures TableTrimmed(c, Removed(c, ids, k), ids, k)
  {
    hide RemoveOne, TableTrimmed, AllDistinct, Unclaimed;
    if k == 0 {
      NothingTrimmedYet(c, ids);
    } else {
      TableIsTrimmed(c, ids, k - 1);
      TrimmedOn(c, Removed(c, ids, k - 1), ids, k - 1);
    }
  }

  /** A table holds only what is outside exactly when no identifier occurs. */
  lemma OnlyOutside(es: seq<Entry>, ids: seq<string>)
    ensures Kept(es, Outside(ids)) == es <==> forall i :: 0 <= i < |ids| ==> Tally(es, ids[i]) == 0
  {
    if forall i :: 0 <= i < |ids| ==> Tally(es, ids[i]) == 0 {
      forall j | 0 <= j < |es|
        ensures Outside(ids)(es[j])
      {
        if es[j].id.Some? && es[j].id.value in ids {
          var i :| 0 <= i < |ids| && ids[i] == es[j].id.value;
          NoneTagged(es, ids[i]);
        }
      }
      KeptAll(es, Outside(ids));
    } else {
      var i :| 0 <= i < |ids| && Tally(es, ids[i]) != 0;
      NoneTagged(es, ids[i]);
      var j :| 0 <= j < |es| && es[j].id == Some(ids[i]);
      KeptAreKept(es, Outside(ids), es[j]);
    }
  }

  lemma {:induction false} KeptAreKept(es: seq<Entry>, keep: Entry -> bool, e: Entry)
    requires !keep(e)
    ensures e !in Kept(es, keep)
  {
    if es != [] {
      KeptAreKept(es[1..], keep, e);
    }
  }

  // ----- set_routes, remove_routes, reconcile -----

  function EntriesFor(app: string, routes: seq<Route>): (es: seq<Entry>)
    ensures |es| == |routes| && Identified(es) && forall i :: 0 <= i < |es| ==> es[i] == EntryFor(app, i, routes[i])
  {
    seq(|routes|, i requires 0 <= i < |routes| => EntryFor(app, i, routes[i]))
  }

  /** The entry is for this route: its identifier, the host it matches, and a dial
      of `localhost:` and digits that read back as the port. */
  predicate Serves(e: Entry, app: string, index: nat, r: Route) {
    && e.id == Some(RouteId(app, index)) && e.host == r.hostname
    && "localhost:" <= e.dial
    && (forall c :: c in e.dial[10..] ==> IsDigit(c))
    && ValueOf(e.dial[10..]) == r.port
  }

  lemma EntryMeaning(app: string, index: nat, r: Route)
    ensures Serves(EntryFor(app, index, r), app, index, r)
  {
    DecimalRoundTrip(r.port);
    assert EntryFor(app, index, r).dial[10..] == Decimal(r.port);
  }

  function RouteIds(app: string, count: nat): (ids: seq<string>)
    ensures |ids| == count && forall i :: 0 <= i < count ==> ids[i] == RouteId(app, i)
  {
    seq(count, i requires 0 <= i < count => RouteId(app, i))
  }

  /** One route: `PATCH`, and `POST` if that is answered with any failure. */
  method SetEntry(admin: RouteAdmin, id: string, e: Entry) returns (ok: bool)
    requires e.id == Some(id)
    modifies admin
    ensures var t := TurnOf(old(admin.config), e, old(admin.script));
      && ok == t.ok && admin.script == t.script
      && admin.config == if t.ok then SetOne(old(admin.config), e, t.refused) else old(admin.config)
  {
    var patched := admin.Patch(id, e);
    if patched.Success? || patched.Unreachable? {
      return patched.Success?;
    }
    var posted := admin.Post(e);
    ok := posted.Success?;
  }

  method SetRoutes(admin: RouteAdmin, app: string, routes: seq<Route>) returns (ok: bool, done: nat)
    modifies admin
    ensures var p := SetUpTo(old(admin.config), EntriesFor(app, routes), old(admin.script), |routes|);
      && admin.config == p.config && admin.script == p.script
      && ok == !p.stopped && done == |p.refused|
  {
    hide SetOne, TurnOf;
    ghost var c, es, script := admin.config, EntriesFor(app, routes), admin.script;
    ghost var refused: seq<bool> := [];
    done := 0;
    while done < |routes|
      invariant done == |refused| <= |routes|
      invariant SetUpTo(c, es, script, done) == Progress(admin.config, admin.script, refused, false)
    {
      var e := EntryFor(app, done, routes[done]);
      ghost var t := TurnOf(admin.config, e, admin.script);
      var isSet := SetEntry(admin, RouteId(app, done), e);
      if !isSet {
        SetStaysStopped(c, es, script, done + 1, |routes|);
        return false, done;
      }
      refused := refused + [t.refused];
      done := done + 1;
    }
    ok := true;
  }

  /** A missing identifier counts as removed. */
  method RemoveRoutes(admin: RouteAdmin, app: string, count: nat) returns (ok: bool, done: nat)
    modifies admin
    ensures var p := RemoveUpTo(old(admin.config), RouteIds(app, count), old(admin.script), count);
      && admin.config == p.config && admin.script == p.script
      && done == p.done && ok == (p.done == count)
  {
    ghost var c, ids, script := admin.config, RouteIds(app, count), admin.script;
    done := 0;
    while done < count
      invariant done <= count
      invariant RemoveUpTo(c, ids, script, done) == Removal(admin.config, admin.script, done)
    {
      var deleted := admin.Delete(RouteId(app, done));
      if !deleted.Success? && !deleted.NotFound? {
        RemovalStaysStopped(c, ids, script, done + 1, count);
        return false, done;
      }
      done := done + 1;
    }
    ok := true;
  }

  datatype RouteInfo = RouteInfo(app: string, route: Route)

  function FirstEntries(infos: seq<RouteInfo>): (es: seq<Entry>)
    ensures |es| == |infos| && Identified(es)
    ensures forall i :: 0 <= i < |es| ==> es[i] == EntryFor(infos[i].app, 0, infos[i].route)
  {
    seq(|infos|, i requires 0 <= i < |infos| => EntryFor(infos[i].app, 0, infos[i].route))
  }

  /** One route for each application; stops at the first error. */
  method Reconcile(admin: RouteAdmin, infos: seq<RouteInfo>) returns (ok: bool, done: nat)
    modifies admin
    ensures var p := SetUpTo(old(admin.config), FirstEntries(infos), old(admin.script), |infos|);
      && admin.config == p.config && admin.script == p.script
      && ok == !p.stopped && done == |p.refused|
  {
    hide SetOne, EntryFor, TurnOf;
    ghost var c, es, script := admin.config, FirstEntries(infos), admin.script;
    ghost var refused: seq<bool> := [];
    done := 0;
    while done < |infos|
      invariant done == |refused| <= |infos|
      invariant SetUpTo(c, es, script, done) == Progress(admin.config, admin.script, refused, false)
    {
      ghost var t := TurnOf(admin.config, es[done], admin.script);
      SetUpToOne(admin.config, infos[done], admin.script);
      var routed, applied := SetRoutes(admin, infos[done].app, [infos[done].route]);
      if !routed {
        SetStaysStopped(c, es, script, done + 1, |infos|);
        return false, done;
      }
      refused := refused + [t.refused];
      done := done + 1;
    }
    ok := true;
  }

  lemma SetUpToOne(c: Config, info: RouteInfo, script: seq<Answer>)
    ensures var e := EntryFor(info.app, 0, info.route);
      e.id.Some? &&
      var t := TurnOf(c, e, script);
      SetUpTo(c, EntriesFor(info.app, [info.route]), script, 1)
        == if t.ok then Progress(SetOne(c, e, t.refused), t.script, [t.refused], false)
           else Progress(c, t.script, [], true)
  {
    var es := EntriesFor(info.app, [info.route]);
    assert SetUpTo(c, es, script, 0) == Progress(c, script, [], false);
  }

  lemma RouteEntriesWanted(app: string, routes: seq<Route>)
    ensures Wanted(EntriesFor(app, routes), RouteIds(app, |routes|))
  {
    forall i, j | 0 <= i < j < |routes|
      ensures RouteIds(app, |routes|)[i] != RouteIds(app, |routes|)[j]
    {
      RouteIdInjective(app, i, app, j);
    }
  }

  /** `set_routes` under any answers. The identifiers it has dealt with occur once
      more exactly when they did not occur or their `PATCH` was refused: refused
      while the route is there, it leaves two. */
  lemma SetRoutesMeaning(c: Config, app: string, routes: seq<Route>, script: seq<Answer>)
    requires Unclaimed(c, RouteIds(app, |routes|))
    ensures var es, ids := EntriesFor(app, routes), RouteIds(app, |routes|);
      var p := SetUpTo(c, es, script, |routes|);
      && TableSet(c, p.config, es, ids, p.refused, |p.refused|)
      && forall i :: 0 <= i < |p.refused| ==> exists e :: e in p.config.routes && Serves(e, app, i, routes[i])
  {
    var es, ids := EntriesFor(app, routes), RouteIds(app, |routes|);
    var p := SetUpTo(c, es, script, |routes|);
    RouteEntriesWanted(app, routes);
    SetUpToApplies(c, es, script, |routes|);
    TableIsSet(c, es, ids, p.refused, |p.refused|);
    SetIsThere(c, p.config, es, ids, p.refused, |p.refused|);
    hide TableSet, SetUpTo, Serves, RouteId;
    forall i | 0 <= i < |p.refused|
      ensures exists e :: e in p.config.routes && Serves(e, app, i, routes[i])
    {
      EntryMeaning(app, i, routes[i]);
      assert es[i] in p.config.routes;
    }
  }

  /** Setting an application's routes and removing as many gives the original
      table with just those identifiers erased if and only if each identifier was
      absent, or was there once and its `PATCH` was not refused. */
  lemma RouteTableRoundTrip(c: Config, app: string, routes: seq<Route>, script: seq<Answer>)
    requires Unclaimed(c, RouteIds(app, |routes|))
    requires !SetUpTo(c, EntriesFor(app, routes), script, |routes|).stopped
    ensures var ids := RouteIds(app, |routes|);
      var p := SetUpTo(c, EntriesFor(app, routes), script, |routes|);
      (Removed(p.config, ids, |routes|) == c.(routes := Kept(c.routes, Outside(ids))))
        <==> (forall i :: 0 <= i < |routes| ==>
                Tally(c.routes, ids[i]) == 0 || (Tally(c.routes, ids[i]) == 1 && !p.refused[i]))
  {
    hide Tally, Carries, SetUpTo;
    var n, ids := |routes|, RouteIds(app, |routes|);
    var p := SetUpTo(c, EntriesFor(app, routes), script, n);
    RouteEntriesWanted(app, routes);
    SetRoutesMeaning(c, app, routes, script);
    TableIsTrimmed(p.config, ids, n);
    var last := Removed(p.config, ids, n);
    OnlyOutside(last.routes, ids);
    forall i | 0 <= i < n
      ensures Tally(last.routes, ids[i]) == 0
         <==> Tally(c.routes, ids[i]) == 0 || (Tally(c.routes, ids[i]) == 1 && !p.refused[i])
    {
    }
  }

  /** A reconcile over distinct applications: each gets its one route, and none
      undoes another's. */
  lemma ReconcileMeaning(c: Config, infos: seq<RouteInfo>, ids: seq<string>, script: seq<Answer>)
    requires |infos| == |ids| && forall i, j :: 0 <= i < j < |infos| ==> infos[i].app != infos[j].app
    requires (forall i :: 0 <= i < |ids| ==> ids[i] == RouteId(infos[i].app, 0)) && Unclaimed(c, ids)
    ensures var p := SetUpTo(c, FirstEntries(infos), script, |infos|);
      && TableSet(c, p.config, FirstEntries(infos), ids, p.refused, |p.refused|)
      && forall i :: 0 <= i < |p.refused| ==>
           exists e :: e in p.config.routes && Serves(e, infos[i].app, 0, infos[i].route)
  {
    forall i, j | 0 <= i < j < |ids|
      ensures ids[i] != ids[j]
    {
      RouteIdInjective(infos[i].app, 0, infos[j].app, 0);
    }
    var es := FirstEntries(infos);
    var p := SetUpTo(c, es, script, |infos|);
    SetUpToApplies(c, es, script, |infos|);
    TableIsSet(c, es, ids, p.refused, |p.refused|);
    SetIsThere(c, p.config, es, ids, p.refused, |p.refused|);
    hide TableSet, SetUpTo, Serves, RouteId;
    forall i | 0 <= i < |p.refused|
      ensures exists e :: e in p.config.routes && Serves(e, infos[i].app, 0, infos[i].route)
    {
      EntryMeaning(infos[i].app, 0, infos[i].route);
      assert es[i] in p.config.routes;
    }
  }

  /** Routes of other applications, and the webhook's, are never addressed. */
  lemma OthersAreOutside(app: string, count: nat, e: Entry, other: string, i: nat)
    requires (e.id == Some(RouteId(other, i)) && other != app) || e.id == Some(WEBHOOK_ID)
    ensures Outside(RouteIds(app, count))(e)
  {
    forall j | 0 <= j < count
      ensures e.id != Some(RouteIds(app, count)[j])
    {
      RouteIdInjective(other, i, app, j);
      RouteIdIsNotTheWebhook(app, j);
    }
  }

  /** No policy stands in the way when slip's own policies are for dotted
      subjects and the others keep off the `slip-` prefix. */
  lemma PoliciesKeepClear(ps: seq<Policy>, app: string, i: nat)
    requires ValidAppName(app)
    requires forall p :: p in ps && p.id.Some? ==>
      !("slip-" <= p.id.value) || exists s: string :: '.' in s && p.id.value == TlsId(s)
    ensures IndexOfId(ps, RouteId(app, i)).None?
  {
    var at := IndexOfId(ps, RouteId(app, i));
    if at.Some? {
      assert ps[at.value] in ps;
      assert RouteId(app, i)[..5] == "slip-";
      var s: string :| '.' in s && RouteId(app, i) == TlsId(s);
      RouteIdIsNoDottedTlsId(app, i, s);
    }
  }
}
