/** `bootstrap`: read the whole configuration, merge the `slip` server into it
    and load the result, unless the server is there or its listener is taken. */
module Bootstrap {
  import opened Prelude
  import opened Names
  import opened CaddyServer

  datatype Json =
    | Null
    | Bool(b: bool)
    | Num(n: real)
    | Str(s: string)
    | Arr(items: seq<Json>)
    | Obj(fields: map<string, Json>)

  type Pointer = seq<string>

  // ----- JSON pointers (section 4 of RFC 6901) -----

  /** An array index: digits without a leading zero. */
  function ParseIndex(token: string): Option<nat> {
    if token == [] || (exists c :: c in token && !IsDigit(c)) || (token[0] == '0' && |token| > 1) then None
    else Some(ValueOf(token))
  }

  function Child(v: Json, token: string): Option<Json> {
    match v
    case Obj(fields) => if token in fields then Some(fields[token]) else None
    case Arr(items) =>
      (match ParseIndex(token)
       case None => None
       case Some(i) => if i < |items| then Some(items[i]) else None)
    case _ => None
  }

  function Resolve(v: Json, p: Pointer): Option<Json>
    decreases |p|
  {
    if p == [] then Some(v)
    else match Child(v, p[0])
      case None => None
      case Some(c) => Resolve(c, p[1..])
  }

  predicate Related(p: Pointer, q: Pointer) { p <= q || q <= p }

  // ----- the merge -----

  const SLIP_PATH: Pointer := ["apps", "http", "servers", "slip"]
  const LISTENER := ":443"
  const SLIP_BLOCK := Obj(map["listen" := Arr([Str(LISTENER)]), "routes" := Arr([])])

  /** The fields of an object; anything else is replaced by an empty one. */
  function FieldsOf(v: Json): map<string, Json> { if v.Obj? then v.fields else map[] }

  function Entry(fields: map<string, Json>, key: string): Json {
    if key in fields then fields[key] else Obj(map[])
  }

  function Planted(v: Json, p: Pointer, leaf: Json): Json
    decreases |p|
  {
    if p == [] then leaf
    else Obj(FieldsOf(v)[p[0] := Planted(Entry(FieldsOf(v), p[0]), p[1..], leaf)])
  }

  predicate ListsListener(server: Json) {
    && server.Obj? && "listen" in server.fields && server.fields["listen"].Arr?
    && Str(LISTENER) in server.fields["listen"].items
  }

  /** Another server holds the listener. */
  predicate Holds(config: Json, name: string) {
    && name != "slip"
    && Resolve(config, SLIP_PATH[..3]).Some?
    && var servers := Resolve(config, SLIP_PATH[..3]).value;
      servers.Obj? && name in servers.fields && ListsListener(servers.fields[name])
  }

  datatype Outcome = Ready | ListenerConflict(server: string) | BootstrapFailed | Disconnected

  class ConfigAdmin {
    var config: Json
    var script: seq<Answer>
    var loads: nat

    constructor (config: Json, script: seq<Answer>)
      ensures this.config == config && this.script == script && loads == 0
    {
      this.config, this.script, loads := config, script, 0;
    }

    method GetConfig() returns (r: Reply<Json>)
      modifies this`script
      ensures r == match Next(old(script))
                   case Deliver => Success(config)
                   case Refuse => Refused
                   case Lose => Unreachable
      ensures script == Later(old(script))
    {
      var a := Next(script);
      script := Later(script);
      r := match a case Deliver => Success(config) case Refuse => Refused case Lose => Unreachable;
    }

    method Load(c: Json) returns (r: Reply<()>)
      modifies this
      ensures r == match Next(old(script)) case Deliver => Success(()) case Refuse => Refused case Lose => Unreachable
      ensures config == (if r.Success? then c else old(config)) && loads == old(loads) + 1
      ensures script == Later(old(script))
    {
      var a := Next(script);
      script := Later(script);
      loads := loads + 1;
      r := match a case Deliver => Success(()) case Refuse => Refused case Lose => Unreachable;
      if a.Deliver? {
        config := c;
      }
    }
  }

  /** What the client takes for the configuration: an unsuccessful status counts
      as `null`. */
  function ReadAs(config: Json, a: Answer): Json { if a.Deliver? then config else Null }

  /** Once it has succeeded the `slip` server is there, so a further bootstrap
      that reads the configuration loads nothing. */
  method Bootstrap(admin: ConfigAdmin) returns (outcome: Outcome)
    modifies admin
    ensures var get, put, seen := Next(old(admin.script)), Next(Later(old(admin.script))),
                                  ReadAs(old(admin.config), Next(old(admin.script)));
      if get.Lose? then
        outcome == Disconnected && admin.config == old(admin.config) && admin.loads == old(admin.loads)
      else if Resolve(seen, SLIP_PATH).Some? then
        outcome == Ready && admin.config == old(admin.config) && admin.loads == old(admin.loads)
      else if exists name :: Holds(seen, name) then
        && outcome.ListenerConflict? && Holds(seen, outcome.server)
        && admin.config == old(admin.config) && admin.loads == old(admin.loads)
      else
        && outcome == (match put case Deliver => Ready case Refuse => BootstrapFailed case Lose => Disconnected)
        && admin.config == (if put.Deliver? then Planted(seen, SLIP_PATH, SLIP_BLOCK) else old(admin.config))
        && admin.loads == old(admin.loads) + 1
    ensures outcome == Ready ==> Resolve(admin.config, SLIP_PATH).Some?
  {
    var reply := admin.GetConfig();
    if reply.Unreachable? {
      return Disconnected;
    }
    var config := if reply.Success? then reply.value else Null;
    if Resolve(config, SLIP_PATH).Some? {
      return Ready;
    }

    var listed := Resolve(config, SLIP_PATH[..3]);
    if listed.Some? && listed.value.Obj? {
      var servers, names := listed.value.fields, listed.value.fields.Keys;
      while names != {}
        invariant names <= servers.Keys
        invariant forall name :: name in servers && name !in names ==> !Holds(config, name)
        decreases |names|
      {
        var name :| name in names;
        names := names - {name};
        if name != "slip" && ListsListener(servers[name]) {
          assert Holds(config, name);
          return ListenerConflict(name);
        }
      }
    }
    assert !exists name :: Holds(config, name);

    var root := FieldsOf(config);
    var apps := FieldsOf(Entry(root, "apps"));
    var http := FieldsOf(Entry(apps, "http"));
    var servers := FieldsOf(Entry(http, "servers"));
    servers := servers["slip" := SLIP_BLOCK];
    http := http["servers" := Obj(servers)];
    apps := apps["http" := Obj(http)];
    root := root["apps" := Obj(apps)];
    PlantedAtSlipPath(config);
    PlantedResolves(config, SLIP_PATH, SLIP_BLOCK);

    var loaded := admin.Load(Obj(root));
    outcome := if loaded.Success? then Ready else if loaded.Refused? then BootstrapFailed else Disconnected;
  }

  lemma PlantedAtSlipPath(config: Json)
    ensures var root := FieldsOf(config);
      var apps := FieldsOf(Entry(root, "apps"));
      var http := FieldsOf(Entry(apps, "http"));
      var servers := FieldsOf(Entry(http, "servers"));
      Planted(config, SLIP_PATH, SLIP_BLOCK)
        == Obj(root["apps" := Obj(apps["http" := Obj(http["servers" := Obj(servers["slip" := SLIP_BLOCK])])])])
  {
    var apps := Entry(FieldsOf(config), "apps");
    var http := Entry(FieldsOf(apps), "http");
    var servers := Entry(FieldsOf(http), "servers");
    assert SLIP_PATH[1..] == ["http", "servers", "slip"];
    assert ["http", "servers", "slip"][1..] == ["servers", "slip"];
    assert ["servers", "slip"][1..] == ["slip"] && ["slip"][1..] == [];
    assert Planted(servers, ["slip"], SLIP_BLOCK) == Obj(FieldsOf(servers)["slip" := SLIP_BLOCK]);
    assert Planted(http, ["servers", "slip"], SLIP_BLOCK)
        == Obj(FieldsOf(http)["servers" := Planted(servers, ["slip"], SLIP_BLOCK)]);
    assert Planted(apps, ["http", "servers", "slip"], SLIP_BLOCK)
        == Obj(FieldsOf(apps)["http" := Planted(http, ["servers", "slip"], SLIP_BLOCK)]);
  }

  // ----- what the merge preserves -----

  /** No step of the pointer could be read as an array index. */
  predicate Named(p: Pointer) { forall i :: 0 <= i < |p| ==> ParseIndex(p[i]).None? }

  /** On the way down the pointer there is an array with something in it. */
  predicate Loses(v: Json, p: Pointer)
    decreases |p|
  {
    p != [] && (|| (v.Arr? && v.items != [])
                || (v.Obj? && p[0] in v.fields && Loses(v.fields[p[0]], p[1..])))
  }

  lemma {:induction false} PlantedResolves(v: Json, p: Pointer, leaf: Json)
    ensures Resolve(Planted(v, p, leaf), p) == Some(leaf)
    decreases |p|
  {
    if p != [] {
      PlantedResolves(Entry(FieldsOf(v), p[0]), p[1..], leaf);
    }
  }

  lemma {:induction false} PlantedFrame(v: Json, p: Pointer, leaf: Json, q: Pointer)
    requires Named(p) && !Loses(v, p) && !Related(p, q)
    ensures Resolve(Planted(v, p, leaf), q) == Resolve(v, q)
    decreases |p|
  {
    var key := p[0];
    var inner := Entry(FieldsOf(v), key);
    if q[0] == key {
      assert p == [key] + p[1..] && q == [key] + q[1..];
      assert Named(p[1..]) by {
        assert forall i :: 0 <= i < |p[1..]| ==> p[1..][i] == p[i + 1];
      }
      PlantedFrame(inner, p[1..], leaf, q[1..]);
      assert !v.Arr? || v.items == [];
      if !(v.Obj? && key in v.fields) {
        EmptyResolves(q[1..]);
      }
    }
  }

  lemma EmptyResolves(q: Pointer)
    requires q != []
    ensures Resolve(Obj(map[]), q) == None
  {
  }

  /** Where an array on the way is lost. */
  lemma {:induction false} LossWitness(v: Json, p: Pointer, leaf: Json) returns (q: Pointer)
    requires Named(p) && Loses(v, p)
    ensures !Related(p, q) && Resolve(Planted(v, p, leaf), q) != Resolve(v, q)
    decreases |p|
  {
    if v.Arr? {
      q := ["0"];
      assert ParseIndex("0") == Some(0) by {
        assert "0"[..0] == [];
      }
      assert p[0] != "0";
      assert Resolve(v, q) == Resolve(v.items[0], []);
    } else {
      assert Named(p[1..]) by {
        assert forall i :: 0 <= i < |p[1..]| ==> p[1..][i] == p[i + 1];
      }
      var rest := LossWitness(v.fields[p[0]], p[1..], leaf);
      q := [p[0]] + rest;
      assert q[1..] == rest;
    }
  }

  lemma SlipPathNamed()
    ensures Named(SLIP_PATH)
  {
    assert !IsDigit("apps"[0]) && "apps"[0] in "apps";
    assert !IsDigit("http"[0]) && "http"[0] in "http";
    assert !IsDigit("servers"[0]) && "servers"[0] in "servers";
    assert !IsDigit("slip"[0]) && "slip"[0] in "slip";
  }

  /** The loaded configuration resolves every pointer that is neither a prefix
      nor an extension of the slip path as before, exactly when none of the nodes
      on the way was a non-empty array. */
  lemma BootstrapFrame(config: Json)
    ensures Resolve(Planted(config, SLIP_PATH, SLIP_BLOCK), SLIP_PATH) == Some(SLIP_BLOCK)
    ensures (forall q :: !Related(SLIP_PATH, q) ==>
               Resolve(Planted(config, SLIP_PATH, SLIP_BLOCK), q) == Resolve(config, q))
       <==> !Loses(config, SLIP_PATH)
  {
    SlipPathNamed();
    PlantedResolves(config, SLIP_PATH, SLIP_BLOCK);
    if Loses(config, SLIP_PATH) {
      var q := LossWitness(config, SLIP_PATH, SLIP_BLOCK);
    } else {
      forall q | !Related(SLIP_PATH, q)
        ensures Resolve(Planted(config, SLIP_PATH, SLIP_BLOCK), q) == Resolve(config, q)
      {
        PlantedFrame(config, SLIP_PATH, SLIP_BLOCK, q);
      }
    }
  }

  /** Another server that lists ":443" as one of its listeners. */
  lemma HoldsMeaning(config: Json, name: string)
    ensures Holds(config, name)
       <==> && name != "slip"
            && exists servers, fields, items ::
                 && Resolve(config, ["apps", "http", "servers"]) == Some(Obj(servers))
                 && name in servers && servers[name] == Obj(fields)
                 && "listen" in fields && fields["listen"] == Arr(items) && Str(":443") in items
  {
    assert SLIP_PATH[..3] == ["apps", "http", "servers"];
    if Holds(config, name) {
      var servers := Resolve(config, SLIP_PATH[..3]).value.fields;
      var fields := servers[name].fields;
      assert fields["listen"] == Arr(fields["listen"].items);
    }
  }

  /** What is planted, written out. */
  lemma PlantsTheServer(config: Json)
    ensures Resolve(Planted(config, SLIP_PATH, SLIP_BLOCK), ["apps", "http", "servers", "slip"])
         == Some(Obj(map["listen" := Arr([Str(":443")]), "routes" := Arr([])]))
  {
    PlantedResolves(config, SLIP_PATH, SLIP_BLOCK);
  }

  /** Over both outcomes of the read: what would be loaded resolves every unrelated
      pointer as the configuration does if and only if, the read delivered, no
      non-empty array is on the way, or, the read refused, there was nothing
      unrelated to lose. */
  lemma BootstrapFrameExactlyWhen(config: Json, a: Answer)
    ensures (forall q :: !Related(SLIP_PATH, q) ==>
               Resolve(Planted(ReadAs(config, a), SLIP_PATH, SLIP_BLOCK), q) == Resolve(config, q))
       <==> if a.Deliver? then !Loses(config, SLIP_PATH)
            else forall q :: !Related(SLIP_PATH, q) ==> Resolve(config, q) == None
  {
    if a.Deliver? {
      BootstrapFrame(config);
    } else {
      forall q | !Related(SLIP_PATH, q)
        ensures Resolve(Planted(Null, SLIP_PATH, SLIP_BLOCK), q) == None
      {
        RefusedReadLoadsOnlySlip(q);
      }
    }
  }

  /** Read as `null`, a configuration is replaced: nothing outside the slip path
      is left in what is loaded. */
  lemma RefusedReadLoadsOnlySlip(q: Pointer)
    requires !Related(SLIP_PATH, q)
    ensures Resolve(Planted(Null, SLIP_PATH, SLIP_BLOCK), q) == None
  {
    SlipPathNamed();
    PlantedFrame(Null, SLIP_PATH, SLIP_BLOCK, q);
    assert q != [];
  }
}
