/** What the lifecycle operations report and do: every result has its reason in the
    world it was given in, `Done` is reported exactly for what was committed, and
    an operation that nothing stands in the way of takes effect. */
module AppResults {
  import opened Names
  import opened AppLifecycle

  /** Somebody else is in the critical section of the application. */
  ghost predicate HeldByAnother(w: World, app: string, tid: nat) {
    exists other :: other != tid && InCritical(w, other, app)
  }

  predicate Unchanged(w: World, w': World) { w'.apps == w.apps && w'.disk == w.disk }

  /** The step from `w` to `w'` on which the task of this operation ended, and why it
      ended so. */
  ghost predicate Reason(w: World, w': World, tid: nat, app: string, op: Op, ok: bool, result: Result) {
    match result
    case BadRequest => op.Create? && !ValidAppName(app) && Unchanged(w, w')
    case NotFound => !op.Create? && app !in w.apps && Unchanged(w, w')
    case Conflict => ((op.Create? && app in w.apps) || HeldByAnother(w, app, tid)) && Unchanged(w, w')
    case Failed => !op.Delete? && !ok && Unchanged(w, w')
    case Done =>
      match op
      case Create(config) =>
        && app !in w.apps && w'.apps == w.apps[app := config]
        && app in w'.disk && w'.disk[app] == config
      case Update(changes) =>
        && app in w.apps && w'.apps == w.apps[app := w.apps[app] + changes]
        && app in w'.disk && w'.disk[app] == w.apps[app] + changes
      case Delete => app !in w'.apps && w'.apps == w.apps && w'.disk == if ok then w.disk - {app} else w.disk
      case WriteSecrets => ok && app in w.apps && Unchanged(w, w')
      case Deploy => ok && Unchanged(w, w')
  }

  predicate Over(w: World, tid: nat) { tid in w.tasks && w.tasks[tid].pc.Finished? }

  /** The step that ends a task is its own, and there is a reason for the result. */
  lemma EndsForAReason(w: World, l: Label, tid: nat)
    requires Sound(w) && !Over(w, tid) && Over(Act(w, l), tid)
    ensures l.tid == tid
    ensures var t := Act(w, l).tasks[tid];
      Reason(w, Act(w, l), tid, t.app, t.op, l.Advance? && l.ok, t.pc.result)
  {
    if l.Advance? {
      var t := w.tasks[l.tid];
      assert Current(w, t);
      if t.pc.Looked? && t.pc.lock in w.held {
        AnotherHolds(w, tid);
      }
    }
  }

  lemma AnotherHolds(w: World, tid: nat)
    requires LocksSound(w) && tid in w.tasks && w.tasks[tid].pc.Looked? && w.tasks[tid].pc.lock in w.held
    ensures HeldByAnother(w, w.tasks[tid].app, tid)
  {
    var other := w.held[w.tasks[tid].pc.lock];
    assert w.entries[w.tasks[tid].app] == w.entries[w.tasks[other].app];
    assert InCritical(w, other, w.tasks[tid].app);
  }

  // ----- over whole runs -----

  lemma {:induction false} RunSnoc(w: World, labels: seq<Label>, l: Label)
    ensures Run(w, labels + [l]) == Act(Run(w, labels), l)
    decreases |labels|
  {
    hide Act;
    if labels == [] {
      assert [l][1..] == [];
      assert Run(w, [l]) == Run(Act(w, l), []);
    } else {
      assert (labels + [l])[1..] == labels[1..] + [l];
      RunSnoc(Act(w, labels[0]), labels[1..], l);
    }
  }

  lemma RunUpTo(w: World, labels: seq<Label>, k: nat)
    requires k < |labels|
    ensures Run(w, labels[..k + 1]) == Act(Run(w, labels[..k]), labels[k])
  {
    assert labels[..k + 1] == labels[..k] + [labels[k]];
    RunSnoc(w, labels[..k], labels[k]);
  }

  /** In every run each result has its reason at the step that gave it. */
  lemma {:induction false} EveryResultHasAReason(w: World, labels: seq<Label>, tid: nat) returns (k: nat)
    requires Sound(w) && tid !in w.tasks && Over(Run(w, labels), tid)
    ensures k < |labels| && labels[k].tid == tid
    ensures var t, ok := Run(w, labels).tasks[tid], labels[k].Advance? && labels[k].ok;
      Reason(Run(w, labels[..k]), Run(w, labels[..k + 1]), tid, t.app, t.op, ok, t.pc.result)
    decreases |labels|
  {
    hide Act, Reason, Sound;
    var n := |labels| - 1;
    assert labels != [];
    var init := labels[..n];
    assert labels[..n + 1] == labels;
    RunUpTo(w, labels, n);
    if Over(Run(w, init), tid) {
      k := EveryResultHasAReason(w, init, tid);
      assert init[..k] == labels[..k] && init[..k + 1] == labels[..k + 1];
      OverStays(Run(w, init), labels[n], tid);
    } else {
      k := n;
      SoundRun(w, init);
      EndsForAReason(Run(w, init), labels[n], tid);
    }
  }

  lemma OverStays(w: World, l: Label, tid: nat)
    requires Over(w, tid)
    ensures Over(Act(w, l), tid) && Act(w, l).tasks[tid] == w.tasks[tid]
  {
  }

  // ----- what is done is committed -----

  /** The commit an operation is there for. */
  function CommitFor(app: string, op: Op): seq<Commit> {
    match op
    case Create(config) => [Registered(app, config)]
    case Update(changes) => [Changed(app, changes)]
    case Delete => [Dropped(app)]
    case _ => []
  }

  /** Somewhere in the run the task made its commit. */
  ghost predicate Committed(w: World, labels: seq<Label>, tid: nat, app: string, op: Op) {
    exists k :: 0 <= k < |labels| && CommittedAt(w, labels, k, tid, app, op)
  }

  ghost predicate CommittedAt(w: World, labels: seq<Label>, k: nat, tid: nat, app: string, op: Op)
    requires k < |labels|
  {
    labels[k].tid == tid && CommitOf(Run(w, labels[..k]), labels[k]) == CommitFor(app, op)
  }

  predicate Committing(op: Op) { op.Create? || op.Update? || op.Delete? }

  /** The task is past its commit. */
  predicate Past(t: Task) { t.pc == Finished(Done) || t.pc.Unpublished? }

  lemma CommitsOnTheWay(w: World, l: Label, tid: nat)
    requires Sound(w) && tid in Act(w, l).tasks && Committing(Act(w, l).tasks[tid].op)
    ensures var t := Act(w, l).tasks[tid];
      && (tid in w.tasks ==> w.tasks[tid].app == t.app && w.tasks[tid].op == t.op)
      && (Past(t) <==>
            || (tid in w.tasks && Past(w.tasks[tid]))
            || (l.tid == tid && CommitOf(w, l) == CommitFor(t.app, t.op)))
  {
    hide NextApps, NextDisk, NextHeld, LocksSound;
    if tid in w.tasks {
      assert Current(w, w.tasks[tid]);
    }
  }

  lemma {:induction false} PastExactlyCommitted(w: World, labels: seq<Label>, tid: nat)
    requires Sound(w) && tid !in w.tasks && tid in Run(w, labels).tasks && Committing(Run(w, labels).tasks[tid].op)
    ensures var t := Run(w, labels).tasks[tid];
      Past(t) <==> Committed(w, labels, tid, t.app, t.op)
    decreases |labels|
  {
    hide Act, Sound, CommitOf, CommitFor, Past;
    assert labels != [];
    var n := |labels| - 1;
    var init, t := labels[..n], Run(w, labels).tasks[tid];
    assert labels[..n + 1] == labels;
    RunUpTo(w, labels, n);
    SoundRun(w, init);
    CommitsOnTheWay(Run(w, init), labels[n], tid);
    if tid in Run(w, init).tasks {
      PastExactlyCommitted(w, init, tid);
    } else {
      NotYetCommitted(w, init, tid, t.app, t.op);
    }
    forall k | 0 <= k < n
      ensures CommittedAt(w, init, k, tid, t.app, t.op) <==> CommittedAt(w, labels, k, tid, t.app, t.op)
    {
      assert init[..k] == labels[..k];
    }
    assert CommittedAt(w, labels, n, tid, t.app, t.op)
      <==> labels[n].tid == tid && CommitOf(Run(w, init), labels[n]) == CommitFor(t.app, t.op);
  }

  lemma NotYetCommitted(w: World, labels: seq<Label>, tid: nat, app: string, op: Op)
    requires tid !in Run(w, labels).tasks && Committing(op)
    ensures !Committed(w, labels, tid, app, op)
  {
    forall k | 0 <= k < |labels|
      ensures !CommittedAt(w, labels, k, tid, app, op)
    {
      NotYetThere(w, labels, k, tid);
    }
  }

  lemma {:induction false} NotYetThere(w: World, labels: seq<Label>, k: nat, tid: nat)
    requires tid !in Run(w, labels).tasks && k <= |labels|
    ensures tid !in Run(w, labels[..k]).tasks
    decreases |labels| - k
  {
    hide Act;
    if k == |labels| {
      assert labels[..k] == labels;
    } else {
      NotYetThere(w, labels, k + 1, tid);
      RunUpTo(w, labels, k);
      TasksStay(Run(w, labels[..k]), labels[k], tid);
    }
  }

  lemma TasksStay(w: World, l: Label, tid: nat)
    ensures tid in w.tasks ==> tid in Act(w, l).tasks
  {
  }

  /** A create, an update or a delete that has ended has reported `Done` exactly if
      its commit is one of the run's. */
  lemma DoneExactlyWhenCommitted(w: World, labels: seq<Label>, tid: nat)
    requires Sound(w) && tid !in w.tasks && Over(Run(w, labels), tid)
    requires Committing(Run(w, labels).tasks[tid].op)
    ensures var t := Run(w, labels).tasks[tid];
      t.pc.result == Done <==> Committed(w, labels, tid, t.app, t.op)
  {
    PastExactlyCommitted(w, labels, tid);
  }

  // ----- nothing in the way -----

  function Handling(tid: nat, app: string, op: Op): seq<Label> {
    var go := Advance(tid, true);
    [Arrive(tid, app, op), go, go, go, go, go]
  }

  /** The world after the operation, with nothing in the way. */
  predicate Effected(w: World, w': World, tid: nat, app: string, op: Op) {
    && tid in w'.tasks && w'.tasks[tid] == Task(app, op, Finished(Done)) && w'.held == w.held
    && match op
       case Create(config) => w'.apps == w.apps[app := config] && w'.disk == w.disk[app := config]
       case Update(changes) =>
         && app in w.apps
         && w'.apps == w.apps[app := w.apps[app] + changes] && w'.disk == w.disk[app := w.apps[app] + changes]
       case Delete => w'.apps == w.apps - {app} && w'.disk == w.disk - {app}
       case _ => Unchanged(w, w')
  }

  /** With the lock free, the bindings, the disk and the work cooperating, and nobody
      else moving, a create of an application that is not there, and any other
      operation on one that is, takes effect and gives the lock back. */
  lemma TakesEffect(w: World, tid: nat, app: string, op: Op)
    requires LocksSound(w) && tid !in w.tasks && LockFree(w, app)
    requires if op.Create? then app !in w.apps && ValidAppName(app) else app in w.apps
    ensures Effected(w, Run(w, Handling(tid, app, op)), tid, app, op)
  {
    var go := Advance(tid, true);
    var w1 := Act(w, Arrive(tid, app, op));
    var w2 := Act(w1, go);
    var w3 := Act(w2, go);
    Enters(w, tid, app, op);
    Works(w, w3, tid, app, op);
    SixSteps(w, Arrive(tid, app, op), go);
  }

  /** The lock object of the application, and its number. */
  function LockOf(w: World, app: string): nat { if app in w.entries then w.entries[app] else w.nextLock }

  /** Arrived, looked up the lock and taken it. */
  predicate HasEntered(w: World, w': World, tid: nat, app: string, op: Op) {
    var lock := LockOf(w, app);
    && lock !in w.held && w'.held == w.held[lock := tid] && Unchanged(w, w')
    && tid in w'.tasks && w'.tasks[tid] == Task(app, op, Locked(lock))
  }

  lemma Enters(w: World, tid: nat, app: string, op: Op)
    requires LocksSound(w) && tid !in w.tasks && LockFree(w, app)
    requires op.Create? ==> ValidAppName(app)
    requires op.Deploy? ==> app in w.apps
    ensures var go := Advance(tid, true); HasEntered(w, Act(Act(Act(w, Arrive(tid, app, op)), go), go), tid, app, op)
  {
    hide ValidAppName;
    var go, lock := Advance(tid, true), LockOf(w, app);
    var w1 := Act(w, Arrive(tid, app, op));
    assert w1.tasks[tid] == Task(app, op, Arrived) && w1.held == w.held && Unchanged(w, w1);
    var w2 := Act(w1, go);
    assert w2.tasks[tid] == Task(app, op, Looked(lock)) && w2.held == w.held && Unchanged(w, w2);
    assert lock !in w.held;
  }

  /** From the lock to the end. */
  lemma Works(w: World, w': World, tid: nat, app: string, op: Op)
    requires HasEntered(w, w', tid, app, op)
    requires if op.Create? then app !in w.apps else app in w.apps
    ensures var go := Advance(tid, true); Effected(w, Act(Act(Act(w', go), go), go), tid, app, op)
  {
    var go, lock := Advance(tid, true), LockOf(w, app);
    var v1 := Act(w', go);
    var v2 := Act(v1, go);
    assert w.held[lock := tid] - {lock} == w.held;
    if op.Create? || op.Update? {
      var next := if op.Create? then op.config else w.apps[app] + op.changes;
      assert v1.tasks[tid] == Task(app, op, Prepared(lock, next)) && v1.held == w'.held && Unchanged(w, v1);
      assert v2.tasks[tid] == Task(app, op, Persisted(lock, next)) && v2.held == w'.held && v2.apps == w.apps;
    } else {
      assert v2.tasks[tid] == Task(app, op, Finished(Done)) && v2.held == w.held;
    }
  }

  lemma SixSteps(w: World, first: Label, go: Label)
    ensures Run(w, [first, go, go, go, go, go]) == Act(Act(Act(Act(Act(Act(w, first), go), go), go), go), go)
  {
    hide Act;
    assert [first, go, go, go, go, go] == [first, go, go, go, go] + [go]
        && [first, go, go, go, go] == [first, go, go, go] + [go]
        && [first, go, go, go] == [first, go, go] + [go] && [first, go, go] == [first, go] + [go]
        && [first, go] == [first] + [go] && [first] == [] + [first];
    RunSnoc(w, [first, go, go, go, go], go);
    RunSnoc(w, [first, go, go, go], go);
    RunSnoc(w, [first, go, go], go);
    RunSnoc(w, [first, go], go);
    RunSnoc(w, [first], go);
    RunSnoc(w, [], first);
  }
}
