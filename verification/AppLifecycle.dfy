/** Create, update, delete, secrets writes, deploys and rollbacks of
    applications, interleaved step by step. Each takes the application's lock
    without waiting; a configuration is written to disk before it is published
    in memory. Lock entries are never removed, not even by a delete. */
module AppLifecycle {
  import opened Names

  /** A configuration as its fields; an update carries the fields it sets. */
  type Config = map<string, string>

  datatype Op =
    | Create(config: Config)
    | Update(changes: Config)
    | Delete
    | WriteSecrets      // set or remove
    | Deploy            // or rollback: the task that holds the lock to its end

  datatype Result = Done | BadRequest | Conflict | NotFound | Failed

  datatype Pc =
    | Arrived
    | Looked(lock: nat)                       // has the lock object, not the lock
    | Locked(lock: nat)
    | Prepared(lock: nat, next: Config)       // about to persist
    | Persisted(lock: nat, next: Config)      // on disk, about to publish
    | Unpublished(lock: nat)                  // gone from memory, file still there
    | Working(lock: nat)                      // secrets or deploy
    | Finished(result: Result)

  datatype Task = Task(app: string, op: Op, pc: Pc)

  /** `entries` are the lock objects by application; `held` says which of them
      are locked, and by whom. */
  datatype World = World(apps: map<string, Config>, disk: map<string, Config>,
                         entries: map<string, nat>, held: map<nat, nat>, nextLock: nat, tasks: map<nat, Task>)

  datatype Label = Arrive(tid: nat, app: string, op: Op) | Advance(tid: nat, ok: bool)

  predicate Critical(pc: Pc) { pc.Locked? || pc.Prepared? || pc.Persisted? || pc.Unpublished? || pc.Working? }

  /** Where a task goes next. `ok` says whether the bindings, the file system or
      the work under the lock cooperate. */
  function NextPc(w: World, t: Task, ok: bool): Pc {
    match t.pc
    case Arrived => Looked(if t.app in w.entries then w.entries[t.app] else w.nextLock)
    case Looked(lock) => if lock in w.held then Finished(Conflict) else Locked(lock)
    case Locked(lock) =>
      if t.op.Deploy? then Working(lock)
      else if t.op.Create? then (if t.app in w.apps then Finished(Conflict) else Prepared(lock, t.op.config))
      else if t.app !in w.apps then Finished(NotFound)
      else if t.op.Update? then Prepared(lock, w.apps[t.app] + t.op.changes)
      else if t.op.Delete? then Unpublished(lock)
      else Working(lock)
    case Prepared(lock, next) => if ok then Persisted(lock, next) else Finished(Failed)
    case Persisted(_, _) => Finished(Done)
    case Unpublished(_) => Finished(Done)
    case Working(_) => Finished(if ok then Done else Failed)
    case Finished(_) => t.pc
  }

  /** Memory changes when a configuration is published or a delete begins. */
  function NextApps(w: World, t: Task): map<string, Config> {
    if t.pc.Persisted? then w.apps[t.app := t.pc.next]
    else if t.pc.Locked? && t.op.Delete? && t.app in w.apps then w.apps - {t.app}
    else w.apps
  }

  /** The file is written before publishing and removed, if it can be, at the end
      of a delete. */
  function NextDisk(w: World, t: Task, ok: bool): map<string, Config> {
    if t.pc.Prepared? && ok then w.disk[t.app := t.pc.next]
    else if t.pc.Unpublished? && ok then w.disk - {t.app}
    else w.disk
  }

  /** The lock is taken on the way into the critical section and given back on
      any way out of it. */
  function NextHeld(w: World, tid: nat, pc: Pc, pc': Pc): map<nat, nat> {
    if pc.Looked? && Critical(pc') then w.held[pc.lock := tid]
    else if Critical(pc) && !Critical(pc') then w.held - {pc.lock}
    else w.held
  }

  function Advanced(w: World, tid: nat, ok: bool): World
    requires tid in w.tasks
  {
    var t := w.tasks[tid];
    var pc' := NextPc(w, t, ok);
    var opens := t.pc.Arrived? && t.app !in w.entries;
    World(NextApps(w, t), NextDisk(w, t, ok),
          if opens then w.entries[t.app := w.nextLock] else w.entries,
          NextHeld(w, tid, t.pc, pc'),
          if opens then w.nextLock + 1 else w.nextLock,
          w.tasks[tid := t.(pc := pc')])
  }

  function FirstPc(w: World, app: string, op: Op): Pc {
    if op.Create? && !ValidAppName(app) then Finished(BadRequest)
    else if op.Deploy? && app !in w.apps then Finished(NotFound)
    else Arrived
  }

  function Act(w: World, l: Label): World {
    match l
    case Arrive(tid, app, op) =>
      if tid in w.tasks then w else w.(tasks := w.tasks[tid := Task(app, op, FirstPc(w, app, op))])
    case Advance(tid, ok) => if tid in w.tasks then Advanced(w, tid, ok) else w
  }

  function Run(w: World, labels: seq<Label>): World
    decreases |labels|
  {
    if labels == [] then w else Run(Act(w, labels[0]), labels[1..])
  }

  // ----- invariants -----

  ghost predicate InCritical(w: World, tid: nat, app: string) {
    tid in w.tasks && w.tasks[tid].app == app && Critical(w.tasks[tid].pc)
  }

  ghost predicate LocksSound(w: World) {
    && (forall a :: a in w.entries ==> w.entries[a] < w.nextLock)
    && (forall a, b :: a in w.entries && b in w.entries && w.entries[a] == w.entries[b] ==> a == b)
    && (forall k :: k in w.held ==>
            && k < w.nextLock && w.held[k] in w.tasks
            && Critical(w.tasks[w.held[k]].pc) && w.tasks[w.held[k]].pc.lock == k)
    && (forall tid :: tid in w.tasks && (w.tasks[tid].pc.Looked? || Critical(w.tasks[tid].pc)) ==>
          w.tasks[tid].app in w.entries && w.entries[w.tasks[tid].app] == w.tasks[tid].pc.lock)
    && (forall tid :: tid in w.tasks && Critical(w.tasks[tid].pc) ==>
          w.tasks[tid].pc.lock in w.held && w.held[w.tasks[tid].pc.lock] == tid)
  }

  /** What a task at a publishing or deleting step knows of the memory. */
  predicate Current(w: World, t: Task) {
    match t.pc
    case Prepared(_, next) =>
      (match t.op
       case Create(config) => t.app !in w.apps && next == config
       case Update(changes) => t.app in w.apps && next == w.apps[t.app] + changes
       case _ => false)
    case Persisted(_, next) =>
      && t.app in w.disk && w.disk[t.app] == next
      && (match t.op
          case Create(config) => t.app !in w.apps && next == config
          case Update(changes) => t.app in w.apps && next == w.apps[t.app] + changes
          case _ => false)
    case Unpublished(_) => t.app !in w.apps && t.op.Delete?
    case Working(_) => t.op.Deploy? || (t.op.WriteSecrets? && t.app in w.apps)
    case _ => true
  }

  /** The lock holder has persisted a successor it has not published yet. */
  predicate Ahead(w: World, app: string) {
    && app in w.entries && w.entries[app] in w.held && w.held[w.entries[app]] in w.tasks
    && w.tasks[w.held[w.entries[app]]].pc.Persisted?
  }

  predicate OnDisk(w: World, app: string) {
    app in w.apps ==> app in w.disk && (w.disk[app] == w.apps[app] || Ahead(w, app))
  }

  ghost predicate Sound(w: World) {
    && LocksSound(w)
    && (forall tid :: tid in w.tasks ==> Current(w, w.tasks[tid]))
    && (forall app :: app in w.apps ==> OnDisk(w, app))
  }

  predicate LockFree(w: World, app: string) { app in w.entries ==> w.entries[app] !in w.held }

  ghost predicate Start(w: World) {
    && w.tasks == map[] && w.held == map[] && w.entries == map[]
    && forall app :: app in w.apps ==> app in w.disk && w.disk[app] == w.apps[app]
  }

  lemma CriticalTasksCoincide(w: World, s: nat, t: nat, app: string)
    requires LocksSound(w) && InCritical(w, s, app) && InCritical(w, t, app)
    ensures s == t
  {
  }

  // ----- locks -----

  /** What a step does to the locks: nothing that matters, or it looks up a lock
      object, takes the lock, keeps it, or gives it back. */
  datatype LockMove = Idle | Looks | Takes | Keeps | Gives

  ghost predicate LockMoved(w: World, w': World, tid: nat, move: LockMove)
    requires tid in w.tasks
  {
    && tid in w'.tasks && w'.tasks == w.tasks[tid := w'.tasks[tid]] && w'.tasks[tid].app == w.tasks[tid].app
    && var t, t', app := w.tasks[tid], w'.tasks[tid], w.tasks[tid].app;
      match move
      case Idle => !Critical(t.pc) && !Critical(t'.pc) && !t'.pc.Looked? && SameLocks(w, w') && w'.held == w.held
      case Looks =>
        && !Critical(t.pc) && t'.pc.Looked? && w'.held == w.held
        && (if app in w.entries then SameLocks(w, w') && t'.pc.lock == w.entries[app]
            else
              && w'.entries == w.entries[app := w.nextLock]
              && w'.nextLock == w.nextLock + 1 && t'.pc.lock == w.nextLock)
      case Takes =>
        && t.pc.Looked? && Critical(t'.pc) && t'.pc.lock == t.pc.lock && SameLocks(w, w')
        && t.pc.lock !in w.held && w'.held == w.held[t.pc.lock := tid]
      case Keeps =>
        Critical(t.pc) && Critical(t'.pc) && t'.pc.lock == t.pc.lock && SameLocks(w, w') && w'.held == w.held
      case Gives => Critical(t.pc) && t'.pc.Finished? && SameLocks(w, w') && w'.held == w.held - {t.pc.lock}
  }

  predicate SameLocks(w: World, w': World) { w'.entries == w.entries && w'.nextLock == w.nextLock }

  lemma AdvanceMovesLocks(w: World, tid: nat, ok: bool) returns (move: LockMove)
    requires tid in w.tasks
    ensures LockMoved(w, Advanced(w, tid, ok), tid, move)
  {
    var t, t' := w.tasks[tid], Advanced(w, tid, ok).tasks[tid];
    move := if t.pc.Arrived? then Looks
            else if t.pc.Looked? then (if t.pc.lock in w.held then Idle else Takes)
            else if t.pc.Finished? then Idle
            else if t'.pc.Finished? then Gives
            else Keeps;
    assert w.tasks == w.tasks[tid := t];
  }

  lemma LooksKeepsSound(w: World, w': World, tid: nat)
    requires LocksSound(w) && tid in w.tasks && LockMoved(w, w', tid, Looks)
    ensures LocksSound(w')
  {
    forall s | s in w'.tasks && (w'.tasks[s].pc.Looked? || Critical(w'.tasks[s].pc))
      ensures w'.tasks[s].app in w'.entries && w'.entries[w'.tasks[s].app] == w'.tasks[s].pc.lock
    {
      assert s != tid ==> w'.tasks[s] == w.tasks[s];
    }
    forall s | s in w'.tasks && Critical(w'.tasks[s].pc)
      ensures w'.tasks[s].pc.lock in w'.held && w'.held[w'.tasks[s].pc.lock] == s
    {
      assert s != tid && w'.tasks[s] == w.tasks[s];
    }
  }

  lemma KeepsKeepsSound(w: World, w': World, tid: nat, move: LockMove)
    requires LocksSound(w) && tid in w.tasks && LockMoved(w, w', tid, move) && (move.Idle? || move.Keeps?)
    ensures LocksSound(w')
  {
    forall s | s in w'.tasks && (w'.tasks[s].pc.Looked? || Critical(w'.tasks[s].pc))
      ensures w'.tasks[s].app in w'.entries && w'.entries[w'.tasks[s].app] == w'.tasks[s].pc.lock
    {
      assert s != tid ==> w'.tasks[s] == w.tasks[s];
    }
    forall s | s in w'.tasks && Critical(w'.tasks[s].pc)
      ensures w'.tasks[s].pc.lock in w'.held && w'.held[w'.tasks[s].pc.lock] == s
    {
      assert s != tid ==> w'.tasks[s] == w.tasks[s];
    }
    forall k | k in w'.held
      ensures Critical(w'.tasks[w'.held[k]].pc) && w'.tasks[w'.held[k]].pc.lock == k
    {
      assert Critical(w.tasks[w.held[k]].pc);
    }
  }

  lemma TakesKeepsSound(w: World, w': World, tid: nat)
    requires LocksSound(w) && tid in w.tasks && LockMoved(w, w', tid, Takes)
    ensures LocksSound(w')
  {
    var lock := w.tasks[tid].pc.lock;
    forall s | s in w'.tasks && Critical(w'.tasks[s].pc)
      ensures w'.tasks[s].pc.lock in w'.held && w'.held[w'.tasks[s].pc.lock] == s
    {
      if s != tid {
        assert w.tasks[s].pc.lock in w.held;
      }
    }
  }

  lemma GivesKeepsSound(w: World, w': World, tid: nat)
    requires LocksSound(w) && tid in w.tasks && LockMoved(w, w', tid, Gives)
    ensures LocksSound(w')
  {
    var lock := w.tasks[tid].pc.lock;
    forall s | s in w'.tasks && Critical(w'.tasks[s].pc)
      ensures w'.tasks[s].pc.lock in w'.held && w'.held[w'.tasks[s].pc.lock] == s
    {
      assert s != tid && w.held[w.tasks[s].pc.lock] == s && w.held[lock] == tid;
    }
  }

  lemma LocksStep(w: World, l: Label)
    requires LocksSound(w)
    ensures LocksSound(Act(w, l))
    ensures forall a :: a in w.entries ==> a in Act(w, l).entries && Act(w, l).entries[a] == w.entries[a]
  {
    hide Advanced, FirstPc;
    if l.Advance? && l.tid in w.tasks {
      var move := AdvanceMovesLocks(w, l.tid, l.ok);
      if move.Takes? {
        TakesKeepsSound(w, Act(w, l), l.tid);
      } else if move.Gives? {
        GivesKeepsSound(w, Act(w, l), l.tid);
      } else if move.Looks? {
        LooksKeepsSound(w, Act(w, l), l.tid);
      } else {
        KeepsKeepsSound(w, Act(w, l), l.tid, move);
      }
    } else if l.Arrive? && l.tid !in w.tasks {
      ArrivalIsIdle(w, l.app, l.op);
    }
  }

  lemma ArrivalIsIdle(w: World, app: string, op: Op)
    ensures !FirstPc(w, app, op).Looked? && !Critical(FirstPc(w, app, op))
  {
  }

  /** At most one task is in the critical section of an application, over whole
      runs and across deletion and registration anew: once an application has a
      lock object it keeps it. */
  lemma {:induction false} MutualExclusion(w: World, labels: seq<Label>, app: string, s: nat, t: nat)
    requires LocksSound(w)
    ensures InCritical(Run(w, labels), s, app) && InCritical(Run(w, labels), t, app) ==> s == t
    ensures app in w.entries ==> app in Run(w, labels).entries && Run(w, labels).entries[app] == w.entries[app]
    decreases |labels|
  {
    if labels == [] {
      if InCritical(w, s, app) && InCritical(w, t, app) {
        CriticalTasksCoincide(w, s, t, app);
      }
    } else {
      LocksStep(w, labels[0]);
      MutualExclusion(Act(w, labels[0]), labels[1..], app, s, t);
    }
  }

  /** The task has the lock of the application. */
  predicate Holds(w: World, tid: nat, app: string) {
    app in w.entries && w.entries[app] in w.held && w.held[w.entries[app]] == tid
  }

  /** Memory and disk change only by the hand of the holder of the lock. */
  lemma WritesUnderLock(w: World, l: Label)
    requires LocksSound(w)
    ensures Act(w, l).apps != w.apps || Act(w, l).disk != w.disk ==>
              l.Advance? && l.tid in w.tasks && Holds(w, l.tid, w.tasks[l.tid].app)
  {
    if l.Advance? && l.tid in w.tasks {
      var t := w.tasks[l.tid];
      assert NextApps(w, t) != w.apps || NextDisk(w, t, l.ok) != w.disk ==> Critical(t.pc);
    }
  }

  lemma {:induction false} LocksSoundRun(w: World, labels: seq<Label>)
    requires LocksSound(w)
    ensures LocksSound(Run(w, labels))
    decreases |labels|
  {
    if labels != [] {
      LocksStep(w, labels[0]);
      LocksSoundRun(Act(w, labels[0]), labels[1..]);
    }
  }

  // ----- memory and disk -----

  /** What a step does to the configurations. */
  datatype Effect = Nothing | Writes(next: Config) | Publishes(next: Config) | Withdraws | Cleans

  ghost predicate Affects(w: World, w': World, tid: nat, effect: Effect)
    requires tid in w.tasks && tid in w'.tasks
  {
    var t, t' := w.tasks[tid], w'.tasks[tid];
    match effect
    case Nothing => w'.apps == w.apps && w'.disk == w.disk
    case Writes(next) => t.pc.Prepared? && t.pc.next == next && t'.pc == Persisted(t.pc.lock, next)
                      && w'.apps == w.apps && w'.disk == w.disk[t.app := next]
    case Publishes(next) => t.pc.Persisted? && t.pc.next == next && t'.pc.Finished?
                         && w'.apps == w.apps[t.app := next] && w'.disk == w.disk
    case Withdraws => t.pc.Locked? && t.op.Delete? && t.app in w.apps && t'.pc.Unpublished?
                   && w'.apps == w.apps - {t.app} && w'.disk == w.disk
    case Cleans => t.pc.Unpublished? && t'.pc.Finished? && w'.apps == w.apps && w'.disk == w.disk - {t.app}
  }

  function EffectOf(w: World, tid: nat, ok: bool): Effect
    requires tid in w.tasks
  {
    var t := w.tasks[tid];
    if t.pc.Prepared? && ok then Writes(t.pc.next)
    else if t.pc.Persisted? then Publishes(t.pc.next)
    else if t.pc.Locked? && t.op.Delete? && t.app in w.apps then Withdraws
    else if t.pc.Unpublished? && ok then Cleans
    else Nothing
  }

  lemma AdvanceAffects(w: World, tid: nat, ok: bool)
    requires tid in w.tasks
    ensures tid in Advanced(w, tid, ok).tasks && Affects(w, Advanced(w, tid, ok), tid, EffectOf(w, tid, ok))
  {
  }

  /** The task that moved: what it now knows is current. */
  lemma OwnCurrent(w: World, tid: nat, ok: bool)
    requires tid in w.tasks && Current(w, w.tasks[tid])
    ensures Current(Advanced(w, tid, ok), Advanced(w, tid, ok).tasks[tid])
  {
  }

  /** A task of another application, or outside the critical section. */
  lemma OthersCurrent(w: World, w': World, tid: nat, effect: Effect, t: Task)
    requires tid in w.tasks && tid in w'.tasks && Affects(w, w', tid, effect) && Current(w, t)
    requires t.app != w.tasks[tid].app || !Critical(t.pc) || effect.Nothing?
    ensures Current(w', t)
  {
  }

  lemma CurrentStep(w: World, l: Label, tid: nat)
    requires Sound(w) && tid in Act(w, l).tasks
    ensures Current(Act(w, l), Act(w, l).tasks[tid])
  {
    hide Advanced, FirstPc, Current, Affects;
    if l.Arrive? {
      ArrivalCurrent(w, l, tid);
    } else if l.tid in w.tasks {
      AdvanceAffects(w, l.tid, l.ok);
      if tid == l.tid {
        OwnCurrent(w, tid, l.ok);
      } else {
        var move := AdvanceMovesLocks(w, l.tid, l.ok);
        var t := w.tasks[tid];
        var effect := EffectOf(w, l.tid, l.ok);
        if t.app == w.tasks[l.tid].app && Critical(t.pc) && !effect.Nothing? {
          CriticalTasksCoincide(w, tid, l.tid, t.app);
        }
        OthersCurrent(w, Act(w, l), l.tid, effect, t);
      }
    }
  }

  lemma ArrivalCurrent(w: World, l: Label, tid: nat)
    requires Sound(w) && l.Arrive? && tid in Act(w, l).tasks
    ensures Current(Act(w, l), Act(w, l).tasks[tid])
  {
    if tid !in w.tasks {
      ArrivalIsIdle(w, l.app, l.op);
    } else {
      assert Current(w, w.tasks[tid]);
    }
  }

  /** A lock holder that has persisted stays ahead until it moves itself. */
  lemma AheadFrame(w: World, w': World, tid: nat, move: LockMove, app: string)
    requires LocksSound(w) && tid in w.tasks && LockMoved(w, w', tid, move) && Ahead(w, app)
    requires w.held[w.entries[app]] != tid
    ensures Ahead(w', app)
  {
    var lock := w.entries[app];
    assert move.Gives? ==> w.held[w.tasks[tid].pc.lock] == tid;
  }

  lemma DiskStepOwn(w: World, tid: nat, ok: bool)
    requires Sound(w) && tid in w.tasks && w.tasks[tid].app in Advanced(w, tid, ok).apps
    ensures OnDisk(Advanced(w, tid, ok), w.tasks[tid].app)
  {
    hide NextPc, NextApps, NextDisk, NextHeld;
    var t, w' := w.tasks[tid], Advanced(w, tid, ok);
    AdvanceAffects(w, tid, ok);
    var move := AdvanceMovesLocks(w, tid, ok);
    assert Current(w, t) && (t.app in w.apps ==> OnDisk(w, t.app));
    var effect := EffectOf(w, tid, ok);
    if effect.Nothing? {
      if Ahead(w, t.app) {
        assert w.held[w.entries[t.app]] != tid;
        AheadFrame(w, w', tid, move, t.app);
      }
    } else if effect.Writes? {
      assert w'.held == w.held && w'.entries == w.entries;
      assert Ahead(w', t.app);
    }
  }

  lemma DiskStep(w: World, l: Label, app: string)
    requires Sound(w) && app in Act(w, l).apps
    ensures OnDisk(Act(w, l), app)
  {
    hide NextPc, NextApps, NextDisk, NextHeld, FirstPc, Current;
    if l.Advance? && l.tid in w.tasks {
      if w.tasks[l.tid].app == app {
        DiskStepOwn(w, l.tid, l.ok);
      } else {
        AdvanceAffects(w, l.tid, l.ok);
        assert OnDisk(w, app);
        if Ahead(w, app) {
          var move := AdvanceMovesLocks(w, l.tid, l.ok);
          assert w.tasks[w.held[w.entries[app]]].app == app;
          AheadFrame(w, Act(w, l), l.tid, move, app);
        }
      }
    } else {
      assert OnDisk(w, app);
    }
  }

  lemma SoundStep(w: World, l: Label)
    requires Sound(w)
    ensures Sound(Act(w, l))
  {
    hide Act, LocksSound, Current, OnDisk;
    assert LocksSound(w);
    LocksStep(w, l);
    forall tid | tid in Act(w, l).tasks
      ensures Current(Act(w, l), Act(w, l).tasks[tid])
    {
      CurrentStep(w, l, tid);
    }
    forall app | app in Act(w, l).apps
      ensures OnDisk(Act(w, l), app)
    {
      DiskStep(w, l, app);
    }
  }

  lemma {:induction false} SoundRun(w: World, labels: seq<Label>)
    requires Sound(w)
    ensures Sound(Run(w, labels))
    decreases |labels|
  {
    if labels != [] {
      SoundStep(w, labels[0]);
      SoundRun(Act(w, labels[0]), labels[1..]);
    }
  }

  /** At every moment of every run, a published configuration is the one on disk
      unless the lock holder has already persisted its successor; and while the
      lock is free the two agree. */
  lemma PersistThenPublish(w: World, labels: seq<Label>, app: string)
    requires Start(w) && app in Run(w, labels).apps
    ensures var w' := Run(w, labels);
      && app in w'.disk && (w'.disk[app] == w'.apps[app] || Ahead(w', app))
      && (LockFree(w', app) ==> w'.disk[app] == w'.apps[app])
  {
    SoundRun(w, labels);
    assert OnDisk(Run(w, labels), app);
  }

  /** The application a secrets writer has found stays registered while it holds
      the lock, so its second look cannot miss it. */
  lemma AppStaysUnderItsLock(w: World, labels: seq<Label>, tid: nat)
    requires Start(w) && tid in Run(w, labels).tasks
    requires Run(w, labels).tasks[tid].op.WriteSecrets? && Run(w, labels).tasks[tid].pc.Working?
    ensures Run(w, labels).tasks[tid].app in Run(w, labels).apps
  {
    SoundRun(w, labels);
    assert Current(Run(w, labels), Run(w, labels).tasks[tid]);
  }

  // ----- no lost updates -----

  /** What became visible in memory, in the order it did. */
  datatype Commit =
    | Registered(app: string, config: Config)
    | Changed(app: string, changes: Config)
    | Dropped(app: string)

  /** The commits as operations on the memory as it is when they happen. */
  function Apply(apps: map<string, Config>, c: Commit): map<string, Config> {
    match c
    case Registered(app, config) => apps[app := config]
    case Changed(app, changes) => if app in apps then apps[app := apps[app] + changes] else apps
    case Dropped(app) => apps - {app}
  }

  function CommitOf(w: World, l: Label): seq<Commit> {
    if l.Advance? && l.tid in w.tasks then
      var t := w.tasks[l.tid];
      if t.pc.Persisted? && t.op.Create? then [Registered(t.app, t.op.config)]
      else if t.pc.Persisted? && t.op.Update? then [Changed(t.app, t.op.changes)]
      else if t.pc.Locked? && t.op.Delete? && t.app in w.apps then [Dropped(t.app)]
      else []
    else []
  }

  function Commits(w: World, labels: seq<Label>): seq<Commit>
    decreases |labels|
  {
    if labels == [] then [] else CommitOf(w, labels[0]) + Commits(Act(w, labels[0]), labels[1..])
  }

  function Replay(apps: map<string, Config>, cs: seq<Commit>): map<string, Config>
    decreases |cs|
  {
    if cs == [] then apps else Replay(Apply(apps, cs[0]), cs[1..])
  }

  lemma CommitStep(w: World, l: Label)
    requires Sound(w)
    ensures Act(w, l).apps == Replay(w.apps, CommitOf(w, l))
  {
    hide Advanced, FirstPc;
    if l.Advance? && l.tid in w.tasks {
      AdvanceAffects(w, l.tid, l.ok);
      assert Current(w, w.tasks[l.tid]);
      var cs := CommitOf(w, l);
      if cs != [] {
        assert Replay(w.apps, cs) == Replay(Apply(w.apps, cs[0]), []) == Apply(w.apps, cs[0]);
      }
    }
  }

  lemma {:induction false} ReplayConcat(apps: map<string, Config>, cs: seq<Commit>, ds: seq<Commit>)
    ensures Replay(apps, cs + ds) == Replay(Replay(apps, cs), ds)
    decreases |cs|
  {
    if cs == [] {
      assert cs + ds == ds;
    } else {
      assert (cs + ds)[1..] == cs[1..] + ds;
      ReplayConcat(Apply(apps, cs[0]), cs[1..], ds);
    }
  }

  /** The memory after any run is that of its registrations, updates and
      deletions one after the other, each reading what the previous one left: a
      task that computed its configuration long before publishing it overwrites
      nobody's work. */
  lemma {:induction false} NoLostUpdates(w: World, labels: seq<Label>)
    requires Sound(w)
    ensures Run(w, labels).apps == Replay(w.apps, Commits(w, labels))
    decreases |labels|
  {
    if labels != [] {
      SoundStep(w, labels[0]);
      CommitStep(w, labels[0]);
      NoLostUpdates(Act(w, labels[0]), labels[1..]);
      ReplayConcat(w.apps, CommitOf(w, labels[0]), Commits(Act(w, labels[0]), labels[1..]));
    }
  }
}
