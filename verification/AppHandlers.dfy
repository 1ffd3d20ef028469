/** The lifecycle handlers in the server's own form: an object whose maps they
    update. Between any two steps of a handler other tasks may move. The object
    remembers every world it has been in; each is one step of the interleaved
    machine from the one before, so a handler takes the lock, saves, publishes and
    lets go in the machine's order, whatever the others do. */
module AppHandlers {
  import opened Names
  import opened AppLifecycle
  import opened AppResults

  /** A step and the world it led to. */
  datatype Moment = Moment(step: Label, world: World)

  function Latest(origin: World, past: seq<Moment>): World {
    if past == [] then origin else past[|past| - 1].world
  }

  /** Each world is the machine's next one. */
  predicate Chain(origin: World, past: seq<Moment>) {
    past == [] ||
    var init, m := past[..|past| - 1], past[|past| - 1];
    Chain(origin, init) && m.world == Act(Latest(origin, init), m.step)
  }

  function Labels(past: seq<Moment>): (ls: seq<Label>)
    ensures |ls| == |past|
  {
    if past == [] then [] else Labels(past[..|past| - 1]) + [past[|past| - 1].step]
  }

  lemma {:induction false} ChainIsARun(origin: World, past: seq<Moment>)
    requires Chain(origin, past)
    ensures Latest(origin, past) == Run(origin, Labels(past))
  {
    hide Act;
    if past != [] {
      var init := past[..|past| - 1];
      ChainIsARun(origin, init);
      RunSnoc(origin, Labels(init), past[|past| - 1].step);
    }
  }

  lemma {:induction false} ChainPrefix(origin: World, past: seq<Moment>, k: nat)
    requires Chain(origin, past) && k <= |past|
    ensures Chain(origin, past[..k])
  {
    if k < |past| {
      var init := past[..|past| - 1];
      ChainPrefix(origin, init, k);
      assert init[..k] == past[..k];
    } else {
      assert past[..k] == past;
    }
  }

  /** So what holds of all runs holds at every moment of the object's life: a
      visible configuration is the one on disk, unless the holder of the lock has
      saved its successor. */
  lemma SavedAtEveryMoment(origin: World, past: seq<Moment>, k: nat, app: string)
    requires Start(origin) && Chain(origin, past) && k < |past| && app in past[k].world.apps
    ensures var w := past[k].world;
      && app in w.disk && (w.disk[app] == w.apps[app] || Ahead(w, app))
      && (LockFree(w, app) ==> w.disk[app] == w.apps[app])
  {
    var upTo := past[..k + 1];
    ChainPrefix(origin, past, k + 1);
    ChainIsARun(origin, upTo);
    assert Latest(origin, upTo) == past[k].world;
    PersistThenPublish(origin, Labels(upTo), app);
  }

  /** Nothing visible or saved changes but by the holder of the application's lock. */
  lemma WrittenUnderTheLock(origin: World, past: seq<Moment>, k: nat)
    requires LocksSound(origin) && Chain(origin, past) && k < |past|
    ensures var w, w', l := Latest(origin, past[..k]), past[k].world, past[k].step;
      w'.apps != w.apps || w'.disk != w.disk ==>
        l.Advance? && l.tid in w.tasks && Holds(w, l.tid, w.tasks[l.tid].app)
  {
    ChainPrefix(origin, past, k);
    ChainPrefix(origin, past, k + 1);
    ChainIsARun(origin, past[..k]);
    assert past[..k + 1][..k] == past[..k];
    LocksSoundRun(origin, Labels(past[..k]));
    WritesUnderLock(Latest(origin, past[..k]), past[k].step);
  }

  /** At one of the later moments the task ended, and there was a reason. */
  ghost predicate EndedForAReason(origin: World, past: seq<Moment>, n: nat,
                                  tid: nat, app: string, op: Op, result: Result)
  {
    exists k :: n <= k < |past| && EndedAt(origin, past, k, tid, app, op, result)
  }

  ghost predicate EndedAt(origin: World, past: seq<Moment>, k: nat, tid: nat, app: string, op: Op, result: Result)
    requires k < |past|
  {
    var l := past[k].step;
    && l.tid == tid
    && Reason(Latest(origin, past[..k]), past[k].world, tid, app, op, l.Advance? && l.ok, result)
  }

  lemma {:induction false} EveryEndHasAReason(origin: World, past: seq<Moment>, n: nat, tid: nat)
    requires Start(origin) && Chain(origin, past) && n <= |past|
    requires tid !in Latest(origin, past[..n]).tasks && Over(Latest(origin, past), tid)
    ensures var t := Latest(origin, past).tasks[tid];
      EndedForAReason(origin, past, n, tid, t.app, t.op, t.pc.result)
    decreases |past|
  {
    hide Act, Sound, Reason;
    assert past[..|past|] == past;
    if n < |past| {
      var m := |past| - 1;
      var init := past[..m];
      var w := Latest(origin, init);
      assert init[..n] == past[..n];
      if Over(w, tid) {
        EveryEndHasAReason(origin, init, n, tid);
        OverStays(w, past[m].step, tid);
        var t := w.tasks[tid];
        var k :| n <= k < m && EndedAt(origin, init, k, tid, t.app, t.op, t.pc.result);
        assert init[..k] == past[..k];
        assert EndedAt(origin, past, k, tid, t.app, t.op, t.pc.result);
      } else {
        ChainIsARun(origin, init);
        StartIsSound(origin);
        SoundRun(origin, Labels(init));
        EndsForAReason(w, past[m].step, tid);
        var t := past[m].world.tasks[tid];
        assert EndedAt(origin, past, m, tid, t.app, t.op, t.pc.result);
      }
    }
  }

  lemma StartIsSound(w: World)
    requires Start(w)
    ensures Sound(w)
  {
  }

  /** The task that takes a step. */
  function Mover(l: Label): nat { l.tid }

  /** From the one past to the other, the task takes no step but `Advance(tid, ok)`;
      others may take any. */
  predicate Onward(p: seq<Moment>, q: seq<Moment>, tid: nat, ok: bool) {
    && |p| <= |q| && q[..|p|] == p
    && forall k :: |p| <= k < |q| ==> q[k].step == Advance(tid, ok) || Mover(q[k].step) != tid
  }

  /** The task arrives first, and then goes on. */
  predicate OneTask(p: seq<Moment>, q: seq<Moment>, tid: nat, name: string, op: Op, ok: bool) {
    && |p| < |q| && q[..|p|] == p && q[|p|].step == Arrive(tid, name, op)
    && forall k :: |p| < k < |q| ==> q[k].step == Advance(tid, ok) || Mover(q[k].step) != tid
  }

  lemma Joins(p: seq<Moment>, q: seq<Moment>, r: seq<Moment>, tid: nat, name: string, op: Op, ok: bool)
    requires Onward(q, r, tid, ok)
    ensures Onward(p, q, tid, ok) ==> Onward(p, r, tid, ok)
    ensures OneTask(p, q, tid, name, op, ok) ==> OneTask(p, r, tid, name, op, ok)
  {
    assert |p| <= |q| ==> r[..|p|] == r[..|q|][..|p|];
    assert forall k :: 0 <= k < |q| ==> r[k] == r[..|q|][k];
  }

  lemma NothingYet(p: seq<Moment>, tid: nat, ok: bool)
    ensures Onward(p, p, tid, ok)
  {
  }

  lemma OthersAside(w: World, l: Label, tid: nat)
    requires Mover(l) != tid && tid in w.tasks
    ensures tid in Act(w, l).tasks && Act(w, l).tasks[tid] == w.tasks[tid]
  {
  }

  lemma StepsOn(p: seq<Moment>, q: seq<Moment>, m: Moment, tid: nat, ok: bool)
    requires Onward(p, q, tid, ok) && (m.step == Advance(tid, ok) || Mover(m.step) != tid)
    ensures Onward(p, q + [m], tid, ok)
  {
    assert (q + [m])[..|p|] == q[..|p|];
  }

  // ----- the handlers -----

  class AppState {
    var apps: map<string, Config>
    var disk: map<string, Config>
    var entries: map<string, nat>
    var held: map<nat, nat>
    var nextLock: nat
    var tasks: map<nat, Task>
    var ahead: seq<seq<Label>>   // what other tasks do in the coming pauses
    ghost const origin: World
    ghost var past: seq<Moment>

    constructor (saved: map<string, Config>, ahead: seq<seq<Label>>)
      ensures Valid() && past == [] && Start(origin) && apps == disk == saved && this.ahead == ahead
    {
      apps, disk, entries, held, nextLock := saved, saved, map[], map[], 0;
      tasks, past := map[], [];
      this.ahead := ahead;
      origin := World(saved, saved, map[], map[], 0, map[]);
    }

    ghost function Now(): World
      reads this
    {
      World(apps, disk, entries, held, nextLock, tasks)
    }

    ghost predicate Valid()
      reads this
    {
      Start(origin) && Chain(origin, past) && Now() == Latest(origin, past)
    }

    ghost predicate At(tid: nat, t: Task)
      reads this
    {
      tid in tasks && tasks[tid] == t
    }

    /** One step has been taken and remembered. */
    twostate predicate Stepped(l: Label)
      reads this
    {
      Now() == Act(old(Now()), l) && past == old(past) + [Moment(l, Now())]
    }

    ghost method Remember(l: Label)
      requires Start(origin) && Chain(origin, past) && Now() == Act(Latest(origin, past), l)
      modifies this`past
      ensures Valid() && past == old(past) + [Moment(l, Now())]
    {
      past := past + [Moment(l, Now())];
    }

    method Step(l: Label)
      requires Valid()
      modifies this`apps, this`disk, this`entries, this`held, this`nextLock, this`tasks, this`past
      ensures Valid() && Stepped(l)
    {
      hide Chain, Latest, Act;
      var w := Act(World(apps, disk, entries, held, nextLock, tasks), l);
      apps, disk, entries, held, nextLock, tasks := w.apps, w.disk, w.entries, w.held, w.nextLock, w.tasks;
      Remember(l);
    }

    /** Other tasks move: any number of steps, of any of them. */
    method Pause(tid: nat, ghost ok: bool)
      requires Valid() && tid in tasks
      modifies this
      ensures Valid() && Onward(old(past), past, tid, ok) && At(tid, old(tasks)[tid])
    {
      hide Act, Chain, Latest, Onward;
      var labels := if ahead == [] then [] else ahead[0];
      ahead := if ahead == [] then [] else ahead[1..];
      ghost var start, t := past, tasks[tid];
      NothingYet(past, tid, ok);
      for i := 0 to |labels|
        invariant Valid() && Onward(start, past, tid, ok) && At(tid, t)
      {
        if Mover(labels[i]) != tid {
          ghost var before := past;
          OthersAside(Now(), labels[i], tid);
          Step(labels[i]);
          StepsOn(start, before, Moment(labels[i], Now()), tid, ok);
        }
      }
    }

    method Move(tid: nat, pc: Pc)
      requires tid in tasks
      modifies this`tasks
      ensures tasks == old(tasks)[tid := old(tasks[tid]).(pc := pc)]
    {
      tasks := tasks[tid := tasks[tid].(pc := pc)];
    }

    method Accept(tid: nat, t: Task, ghost ok: bool)
      requires Valid() && tid !in tasks && t.pc == FirstPc(Now(), t.app, t.op)
      modifies this`tasks, this`past
      ensures Valid() && Stepped(Arrive(tid, t.app, t.op)) && At(tid, t)
      ensures OneTask(old(past), past, tid, t.app, t.op, ok)
    {
      tasks := tasks[tid := t];
      Remember(Arrive(tid, t.app, t.op));
    }

    /** The lock object of the application, made on first use. */
    method LookUp(tid: nat, ghost t: Task, name: string, ghost ok: bool) returns (lock: nat)
      requires Valid() && At(tid, t) && t.app == name && t.pc == Arrived
      modifies this`entries, this`nextLock, this`tasks, this`past
      ensures Valid() && Stepped(Advance(tid, ok)) && Onward(old(past), past, tid, ok)
      ensures At(tid, t.(pc := Looked(lock)))
    {
      hide Chain, Latest, FirstPc;
      if name !in entries {
        entries, nextLock := entries[name := nextLock], nextLock + 1;
      }
      lock := entries[name];
      Move(tid, Looked(lock));
      Remember(Advance(tid, ok));
    }

    method TryLock(tid: nat, ghost t: Task, lock: nat, ghost ok: bool) returns (taken: bool)
      requires Valid() && At(tid, t) && t.pc == Looked(lock)
      modifies this`held, this`tasks, this`past
      ensures Valid() && Stepped(Advance(tid, ok)) && Onward(old(past), past, tid, ok)
      ensures At(tid, t.(pc := if taken then Locked(lock) else Finished(Conflict)))
    {
      hide Chain, Latest, FirstPc;
      taken := lock !in held;
      if taken {
        held := held[lock := tid];
      }
      Move(tid, if taken then Locked(lock) else Finished(Conflict));
      Remember(Advance(tid, ok));
    }

    method LockApp(tid: nat, ghost t: Task, name: string, ghost ok: bool) returns (lock: nat, taken: bool)
      requires Valid() && At(tid, t) && t.app == name && t.pc == Arrived
      modifies this
      ensures Valid() && Onward(old(past), past, tid, ok)
      ensures At(tid, t.(pc := if taken then Locked(lock) else Finished(Conflict)))
    {
      hide Act, Valid, Stepped, Onward;
      ghost var start := past;
      lock := LookUp(tid, t, name, ok);
      ghost var mid := past;
      Pause(tid, ok);
      Joins(start, mid, past, tid, name, t.op, ok);
      mid := past;
      taken := TryLock(tid, t.(pc := Looked(lock)), lock, ok);
      Joins(start, mid, past, tid, name, t.op, ok);
    }

    /** Leaves with the lock given back and nothing done. */
    method GiveUp(tid: nat, ghost t: Task, lock: nat, why: Result, ghost ok: bool)
      requires Valid() && At(tid, t) && t.pc == Locked(lock) && NextPc(Now(), t, ok) == Finished(why)
      modifies this`held, this`tasks, this`past
      ensures Valid() && Stepped(Advance(tid, ok)) && At(tid, t.(pc := Finished(why)))
      ensures Onward(old(past), past, tid, ok)
    {
      hide Chain, Latest, FirstPc;
      held := held - {lock};
      Move(tid, Finished(why));
      Remember(Advance(tid, ok));
    }

    method Prepare(tid: nat, ghost t: Task, lock: nat, next: Config, ghost ok: bool)
      requires Valid() && At(tid, t) && t.pc == Locked(lock) && NextPc(Now(), t, ok) == Prepared(lock, next)
      modifies this`tasks, this`past
      ensures Valid() && Stepped(Advance(tid, ok)) && Onward(old(past), past, tid, ok)
      ensures At(tid, t.(pc := Prepared(lock, next)))
    {
      hide Chain, Latest, FirstPc;
      Move(tid, Prepared(lock, next));
      Remember(Advance(tid, ok));
    }

    /** `ok`: the bindings can be prepared and the file can be written. */
    method Persist(tid: nat, ghost t: Task, name: string, lock: nat, next: Config, ok: bool)
      requires Valid() && At(tid, t) && t.app == name && t.pc == Prepared(lock, next)
      modifies this`disk, this`held, this`tasks, this`past
      ensures Valid() && Stepped(Advance(tid, ok)) && Onward(old(past), past, tid, ok)
      ensures At(tid, t.(pc := if ok then Persisted(lock, next) else Finished(Failed)))
    {
      hide Chain, Latest, FirstPc;
      if ok {
        disk := disk[name := next];
      } else {
        held := held - {lock};
      }
      Move(tid, if ok then Persisted(lock, next) else Finished(Failed));
      Remember(Advance(tid, ok));
    }

    method Publish(tid: nat, ghost t: Task, name: string, lock: nat, next: Config, ghost ok: bool)
      requires Valid() && At(tid, t) && t.app == name && t.pc == Persisted(lock, next)
      modifies this`apps, this`held, this`tasks, this`past
      ensures Valid() && Stepped(Advance(tid, ok)) && Onward(old(past), past, tid, ok)
      ensures At(tid, t.(pc := Finished(Done)))
    {
      hide Chain, Latest, FirstPc;
      apps := apps[name := next];
      held := held - {lock};
      Move(tid, Finished(Done));
      Remember(Advance(tid, ok));
    }

    method Withdraw(tid: nat, ghost t: Task, name: string, lock: nat, ghost ok: bool)
      requires Valid() && At(tid, t) && t.app == name && t.op.Delete? && t.pc == Locked(lock) && name in apps
      modifies this`apps, this`tasks, this`past
      ensures Valid() && Stepped(Advance(tid, ok)) && Onward(old(past), past, tid, ok)
      ensures At(tid, t.(pc := Unpublished(lock)))
    {
      hide Chain, Latest, FirstPc;
      apps := apps - {name};
      Move(tid, Unpublished(lock));
      Remember(Advance(tid, ok));
    }

    /** `ok`: the file can be removed. The lock entry stays. */
    method Clean(tid: nat, ghost t: Task, name: string, lock: nat, ok: bool)
      requires Valid() && At(tid, t) && t.app == name && t.pc == Unpublished(lock)
      modifies this`disk, this`held, this`tasks, this`past
      ensures Valid() && Stepped(Advance(tid, ok)) && Onward(old(past), past, tid, ok)
      ensures At(tid, t.(pc := Finished(Done)))
    {
      hide Chain, Latest, FirstPc;
      if ok {
        disk := disk - {name};
      }
      held := held - {lock};
      Move(tid, Finished(Done));
      Remember(Advance(tid, ok));
    }

    /** `persist_app` and the publication after it. */
    method PersistAndPublish(tid: nat, ghost t: Task, name: string, lock: nat, next: Config, ok: bool)
      returns (result: Result)
      requires Valid() && At(tid, t) && t.app == name && t.pc == Locked(lock)
      requires NextPc(Now(), t, ok) == Prepared(lock, next)
      modifies this
      ensures Valid() && Onward(old(past), past, tid, ok) && At(tid, t.(pc := Finished(result)))
    {
      hide Act, NextPc, Valid, Stepped, Onward;
      ghost var start, t' := past, t.(pc := Prepared(lock, next));
      Prepare(tid, t, lock, next, ok);
      ghost var mid := past;
      Pause(tid, ok);
      Joins(start, mid, past, tid, name, t.op, ok);
      mid := past;
      Persist(tid, t', name, lock, next, ok);
      Joins(start, mid, past, tid, name, t.op, ok);
      if !ok {
        return Failed;
      }
      mid := past;
      Pause(tid, ok);
      Joins(start, mid, past, tid, name, t.op, ok);
      mid := past;
      Publish(tid, t'.(pc := Persisted(lock, next)), name, lock, next, ok);
      Joins(start, mid, past, tid, name, t.op, ok);
      result := Done;
    }

    method TearDown(tid: nat, ghost t: Task, name: string, lock: nat, ok: bool)
      requires Valid() && At(tid, t) && t.app == name && t.op.Delete? && t.pc == Locked(lock) && name in apps
      modifies this
      ensures Valid() && Onward(old(past), past, tid, ok) && At(tid, t.(pc := Finished(Done)))
    {
      hide Act, Valid, Stepped, Onward;
      ghost var start := past;
      Withdraw(tid, t, name, lock, ok);
      ghost var mid := past;
      Pause(tid, ok);
      Joins(start, mid, past, tid, name, t.op, ok);
      mid := past;
      Clean(tid, t.(pc := Unpublished(lock)), name, lock, ok);
      Joins(start, mid, past, tid, name, t.op, ok);
    }

    /** The task arrives and tries for the lock; others may move before and after. */
    method Enter(tid: nat, t: Task, ok: bool) returns (lock: nat, taken: bool)
      requires Valid() && tid !in tasks && t.pc == Arrived && FirstPc(Now(), t.app, t.op) == Arrived
      modifies this
      ensures Valid() && OneTask(old(past), past, tid, t.app, t.op, ok)
      ensures At(tid, t.(pc := if taken then Locked(lock) else Finished(Conflict)))
    {
      hide Act, Valid, Stepped, Onward, OneTask;
      ghost var start := past;
      Accept(tid, t, ok);
      ghost var mid := past;
      Pause(tid, ok);
      Joins(start, mid, past, tid, t.app, t.op, ok);
      mid := past;
      lock, taken := LockApp(tid, t, t.app, ok);
      Joins(start, mid, past, tid, t.app, t.op, ok);
      mid := past;
      Pause(tid, ok);
      Joins(start, mid, past, tid, t.app, t.op, ok);
    }

    /** What a handler's steps come to. */
    lemma Concludes(start: seq<Moment>, tid: nat, t: Task, ok: bool)
      requires Valid() && At(tid, t) && t.pc.Finished?
      requires OneTask(start, past, tid, t.app, t.op, ok) && tid !in Latest(origin, start).tasks
      ensures EndedForAReason(origin, past, |start|, tid, t.app, t.op, t.pc.result)
    {
      assert past[..|start|] == start;
      EveryEndHasAReason(origin, past, |start|, tid);
    }

    method HandleCreateApp(tid: nat, name: string, config: Config, ok: bool) returns (result: Result)
      requires Valid() && tid !in tasks
      modifies this
      ensures Valid() && At(tid, Task(name, Create(config), Finished(result)))
      ensures OneTask(old(past), past, tid, name, Create(config), ok)
      ensures EndedForAReason(origin, past, |old(past)|, tid, name, Create(config), result)
    {
      assert tid !in Latest(origin, past).tasks;
      hide Act, Valid, Stepped, Onward, OneTask, ValidAppName, EndedForAReason, Latest;
      ghost var start := past;
      var t := Task(name, Create(config), Arrived);
      if !ValidAppName(name) {
        Accept(tid, t.(pc := Finished(BadRequest)), ok);
        Concludes(start, tid, t.(pc := Finished(BadRequest)), ok);
        return BadRequest;
      }
      var lock, taken := Enter(tid, t, ok);
      if !taken {
        Concludes(start, tid, t.(pc := Finished(Conflict)), ok);
        return Conflict;
      }
      t := t.(pc := Locked(lock));
      ghost var mid := past;
      if name in apps {
        result := Conflict;
        GiveUp(tid, t, lock, result, ok);
      } else {
        result := PersistAndPublish(tid, t, name, lock, config, ok);
      }
      Joins(start, mid, past, tid, name, t.op, ok);
      Concludes(start, tid, t.(pc := Finished(result)), ok);
    }

    method HandleUpdateApp(tid: nat, name: string, changes: Config, ok: bool) returns (result: Result)
      requires Valid() && tid !in tasks
      modifies this
      ensures Valid() && At(tid, Task(name, Update(changes), Finished(result)))
      ensures OneTask(old(past), past, tid, name, Update(changes), ok)
      ensures EndedForAReason(origin, past, |old(past)|, tid, name, Update(changes), result)
    {
      assert tid !in Latest(origin, past).tasks;
      hide Act, Valid, Stepped, Onward, OneTask, EndedForAReason, Latest;
      ghost var start := past;
      var t := Task(name, Update(changes), Arrived);
      var lock, taken := Enter(tid, t, ok);
      if !taken {
        Concludes(start, tid, t.(pc := Finished(Conflict)), ok);
        return Conflict;
      }
      t := t.(pc := Locked(lock));
      ghost var mid := past;
      if name !in apps {
        result := NotFound;
        GiveUp(tid, t, lock, result, ok);
      } else {
        result := PersistAndPublish(tid, t, name, lock, apps[name] + changes, ok);
      }
      Joins(start, mid, past, tid, name, t.op, ok);
      Concludes(start, tid, t.(pc := Finished(result)), ok);
    }

    /** `ok`: the file can be removed. */
    method HandleDeleteApp(tid: nat, name: string, ok: bool) returns (result: Result)
      requires Valid() && tid !in tasks
      modifies this
      ensures Valid() && At(tid, Task(name, Delete, Finished(result)))
      ensures OneTask(old(past), past, tid, name, Delete, ok)
      ensures EndedForAReason(origin, past, |old(past)|, tid, name, Delete, result)
    {
      assert tid !in Latest(origin, past).tasks;
      hide Act, Valid, Stepped, Onward, OneTask, EndedForAReason, Latest;
      ghost var start := past;
      var t := Task(name, Delete, Arrived);
      var lock, taken := Enter(tid, t, ok);
      if !taken {
        Concludes(start, tid, t.(pc := Finished(Conflict)), ok);
        return Conflict;
      }
      t := t.(pc := Locked(lock));
      ghost var mid := past;
      if name !in apps {
        result := NotFound;
        GiveUp(tid, t, lock, result, ok);
      } else {
        TearDown(tid, t, name, lock, ok);
        result := Done;
      }
      Joins(start, mid, past, tid, name, t.op, ok);
      Concludes(start, tid, t.(pc := Finished(result)), ok);
    }
  }
}
