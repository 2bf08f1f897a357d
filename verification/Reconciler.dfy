/**
 * Reconcile in the control structure of the source. The reconciler sees what its API calls return;
 * the cluster behind them is the protocol state, which every call, and everybody else in between,
 * moves by one protocol step. A schedule decides what happens; it may end or crash at any point.
 */
module Reconciler {
  import opened Common
  import opened Errors
  import opened Lifecycle
  import opened LifecycleSafety
  import opened LifecycleProgress
  import Settings
  import Status
  import ForceDestroy

  /** What reads return at one moment. */
  datatype View = View(obj: Option<Object>, settings: Option<Settings.Remote>)

  datatype Event = Event(step: Step, seen: View)

  function ViewOf(s: State): View {
    View(s.obj, if s.remote.Present? then Some(s.remote.settings) else None)
  }

  /** The schedule is a legal continuation and its reads are fresh. */
  ghost predicate Faithful(s: State, events: seq<Event>)
    decreases |events|
  {
    events == [] ||
    (Enabled(s, events[0].step) && events[0].seen == ViewOf(s) && Faithful(Apply(s, events[0].step), events[1..]))
  }

  ghost predicate RunsTo(s: State, run: seq<Step>, t: State) {
    Legal(s, run) && Exec(s, run) == t
  }

  /** Some run of the protocol leads from s to t. */
  ghost predicate Reaches(s: State, t: State) {
    exists run :: RunsTo(s, run, t)
  }

  lemma {:induction false} ReachesSelf(s: State)
    ensures Reaches(s, s)
  {
    assert RunsTo(s, [], s);
  }

  lemma {:induction false} ReachesNext(s: State, t: State, step: Step)
    requires Reaches(s, t) && Enabled(t, step)
    ensures Reaches(s, Apply(t, step))
  {
    var run :| RunsTo(s, run, t);
    Prepend(t, step, []);
    Concat(s, run, [step] + []);
    assert RunsTo(s, run + ([step] + []), Apply(t, step));
  }

  lemma {:induction false} ReachesTransitive(s: State, t: State, u: State)
    requires Reaches(s, t) && Reaches(t, u)
    ensures Reaches(s, u)
  {
    var front :| RunsTo(s, front, t);
    var back :| RunsTo(t, back, u);
    Concat(s, front, back);
    assert RunsTo(s, front + back, u);
  }

  /** What holds along every run holds wherever the reconciler gets to. */
  lemma {:induction false} ReachedStatesAreGood(s: State, t: State)
    requires Reaches(s, t) && Safe(s) && Progressing(s)
    ensures Safe(t) && Progressing(t)
  {
    var run :| RunsTo(s, run, t);
    RunProgresses(s, run);
  }

  class BucketReconciler {
    ghost var world: State
    var events: seq<Event>

    ghost predicate Valid()
      reads this
    {
      Faithful(world, events) && Shape(world)
    }

    constructor (ghost initial: State, schedule: seq<Event>)
      requires Faithful(initial, schedule) && Shape(initial)
      ensures Valid() && world == initial && events == schedule
    {
      world, events := initial, schedule;
    }

    /** The call of the reconciler at its current point, after whatever others do first. */
    method Invoke() returns (down: bool, a: Answer, seen: View, ghost before: State)
      requires Valid() && Safe(world) && !world.pc.Idle?
      modifies this
      ensures Valid() && Safe(world) && Reaches(old(world), world)
      ensures !down ==> before.pc == old(world).pc && Safe(before) && Enabled(before, Advance(a))
      ensures !down ==> world == Apply(before, Advance(a)) && seen == ViewOf(before) && |events| < |old(events)|
    {
      before := world;
      a, seen := Answer(Settings.Ok, {}, false, ("", ""), "", 0), View(None, None);
      ReachesSelf(world);
      while events != []
        invariant Valid() && Safe(world) && world.pc == old(world).pc && Reaches(old(world), world)
        invariant |events| <= |old(events)|
        decreases |events|
      {
        before := world;
        var e := events[0];
        StepKeepsSafe(world, e.step);
        ReachesNext(old(world), world, e.step);
        world, events := Apply(world, e.step), events[1..];
        if e.step.Advance? {
          return false, e.step.answer, e.seen, before;
        }
        if e.step.Crash? {
          return true, a, seen, before;
        }
      }
      down := true;
    }

    /** The read of the object with which a reconcile begins. */
    method Get() returns (down: bool, readOk: bool, obj: Option<Object>, ghost before: State)
      requires Valid() && Safe(world) && world.pc.Idle?
      modifies this
      ensures Valid() && Safe(world) && Reaches(old(world), world)
      ensures !down ==> before.pc.Idle? && before.queued && world == Begin(before, readOk) && obj == before.obj
    {
      before := world;
      readOk, obj := false, None;
      ReachesSelf(world);
      while events != []
        invariant Valid() && Safe(world) && world.pc.Idle? && Reaches(old(world), world)
        decreases |events|
      {
        before := world;
        var e := events[0];
        StepKeepsSafe(world, e.step);
        ReachesNext(old(world), world, e.step);
        world, events := Apply(world, e.step), events[1..];
        if e.step.Start? {
          return false, e.step.readOk, e.seen.obj, before;
        }
      }
      down := true;
    }

    /** patchStatus. */
    method PatchStatus(l: Local, reconcileErr: Option<Error>, park: bool) returns (down: bool, err: Option<Error>)
      requires Valid() && Safe(world) && world.pc == Report(l, reconcileErr, park)
      modifies this
      ensures Valid() && Safe(world) && Reaches(old(world), world)
      ensures !down ==> world.pc.Idle? && (err.Some? <==> world.failed) && (err.Some? ==> world.queued)
    {
      var a, seen;
      ghost var before;
      down, a, seen, before := Invoke();
      if down { return down, None; }
      var status := l.bucket.status;
      var changed := Status.Changed(status, Status.Next(status, ReportOf(l, reconcileErr), a.now));
      if changed && a.reply.Failed? { return false, Some(a.reply.error); }
      if changed && a.reply.Lost? { return false, Some(a.reply.error); }
      if park || (reconcileErr.Some? && Correctable(reconcileErr.value)) { return false, None; }
      return false, reconcileErr;
    }

    /** patchFinalizer for the two patches that end a reconcile. */
    method PatchFinalizer(l: Local) returns (down: bool, err: Option<Error>)
      requires Valid() && Safe(world) && (world.pc == Claim(l) || world.pc == Release(l))
      modifies this
      ensures Valid() && Safe(world) && Reaches(old(world), world)
      ensures !down ==> world.pc.Idle? && (err.Some? <==> world.failed) && (err.Some? ==> world.queued)
    {
      var a, seen;
      ghost var before;
      down, a, seen, before := Invoke();
      if down || a.reply.Ok? { return down, None; }
      return false, Some(a.reply.error);
    }

    /** deleteAllBucketObjects: list a page, delete it, until a page is short and not truncated. */
    method DeleteAllBucketObjects(l: Local) returns (down: bool, err: Option<Error>)
      requires Valid() && Safe(world) && world.pc == List(l)
      modifies this
      ensures Valid() && Safe(world) && Reaches(old(world), world)
      ensures !down && err.None? ==> world.pc == Delete(l, true)
      ensures !down && err.Some? ==> world.pc == Report(l.(version := None), err, false)
    {
      ReachesSelf(world);
      while true
        invariant Valid() && Safe(world) && world.pc == List(l) && Reaches(old(world), world)
        decreases |events|
      {
        ghost var start := world;
        var a, seen;
        ghost var before;
        down, a, seen, before := Invoke();
        ReachesTransitive(old(world), start, world);
        if down { return down, None; }
        if !a.reply.Ok? { return false, Some(Wrap(a.reply.error)); }
        if |a.page| == 0 { return false, None; }
        var page, truncated := a.page, a.truncated;
        start := world;
        down, a, seen, before := Invoke();
        ReachesTransitive(old(world), start, world);
        if down { return down, None; }
        if !a.reply.Ok? { return false, Some(Wrap(a.reply.error)); }
        if |page| < ForceDestroy.PAGE_LIMIT && !truncated { return false, None; }
      }
    }

    /** delete: an error that the caller parks is told apart by `park`. */
    method DeleteRemote(l: Local) returns (down: bool, err: Option<Error>, park: bool)
      requires Valid() && Safe(world) && world.pc == Delete(l, false)
      modifies this
      ensures Valid() && Safe(world) && Reaches(old(world), world)
      ensures !down && err.None? ==> world.pc == Release(l)
      ensures !down && err.Some? ==> world.pc == Report(l.(version := None), err, park)
      ensures !down && err.Some? ==>
                (park <==> err.value.Wrap? && SaysNotEmpty(err.value.child) && !l.bucket.spec.forceDestroy)
    {
      var a, seen;
      ghost var before;
      var force := l.bucket.spec.forceDestroy;
      down, a, seen, before := Invoke();
      if down { return down, None, false; }
      if a.reply.Ok? { return false, None, false; }
      if IsBucketNotFound(a.reply.error) { return false, None, false; }
      if IsBucketNotEmpty(a.reply.error) && force {
        ghost var start := world;
        down, err := DeleteAllBucketObjects(l);
        ReachesTransitive(old(world), start, world);
        if down || err.Some? { return down, err, false; }
        start := world;
        down, a, seen, before := Invoke();
        ReachesTransitive(old(world), start, world);
        if down || a.reply.Ok? { return down, None, false; }
      }
      AnswersAreUnderstood(a.reply.error);
      return false, Some(Wrap(a.reply.error)), IsBucketNotEmpty(a.reply.error) && !force;
    }

    /** update: read each setting in turn and write it when it differs. */
    method Update(l: Local) returns (down: bool, err: Option<Error>)
      requires Valid() && Safe(world) && world.pc == Read(l, 0)
      modifies this
      ensures Valid() && Safe(world) && Reaches(old(world), world)
      ensures !down && err.None? ==> world.pc == FinalObserve(l)
      ensures !down && err.Some? ==> world.pc == Report(l, err, false)
    {
      ReachesSelf(world);
      for i := 0 to |Settings.STEPS|
        invariant Valid() && Safe(world) && Reaches(old(world), world)
        invariant world.pc == if i < |Settings.STEPS| then Read(l, i) else FinalObserve(l)
      {
        ghost var start := world;
        var stop;
        down, err, stop := ReconcileSetting(l, i);
        ReachesTransitive(old(world), start, world);
        if stop { return; }
      }
      return false, None;
    }

    method ReconcileSetting(l: Local, i: nat) returns (down: bool, err: Option<Error>, stop: bool)
      requires Valid() && Safe(world) && i < |Settings.STEPS| && world.pc == Read(l, i)
      modifies this
      ensures Valid() && Safe(world) && Reaches(old(world), world)
      ensures stop <==> down || err.Some?
      ensures !down && err.None? ==> world.pc == if i + 1 < |Settings.STEPS| then Read(l, i + 1) else FinalObserve(l)
      ensures !down && err.Some? ==> world.pc == Report(l, err, false)
    {
      var a, seen;
      ghost var before;
      var w, d := Settings.STEPS[i], l.bucket.spec.desired;
      down, a, seen, before := Invoke();
      if down { return true, None, true; }
      if !a.reply.Ok? && !Settings.SkipsReadError(w, a.reply.error) { return false, Some(Wrap(a.reply.error)), true; }
      var matches := Settings.WantsNothing(w, d);
      if a.reply.Ok? {
        matches := seen.settings.Some? && Settings.Matches(w, d, seen.settings.value);
      }
      if matches { return false, None, false; }
      ghost var start := world;
      down, err, stop := WriteSetting(l, i);
      ReachesTransitive(old(world), start, world);
    }

    method WriteSetting(l: Local, i: nat) returns (down: bool, err: Option<Error>, stop: bool)
      requires Valid() && Safe(world) && i < |Settings.STEPS| && world.pc == Write(l, i)
      modifies this
      ensures Valid() && Safe(world) && Reaches(old(world), world)
      ensures stop <==> down || err.Some?
      ensures !down && err.None? ==> world.pc == if i + 1 < |Settings.STEPS| then Read(l, i + 1) else FinalObserve(l)
      ensures !down && err.Some? ==> world.pc == Report(l, err, false)
    {
      var a, seen;
      ghost var before;
      var w, d := Settings.STEPS[i], l.bucket.spec.desired;
      down, a, seen, before := Invoke();
      if down { return true, None, true; }
      if !a.reply.Ok? && !Settings.SkipsWriteError(w, d, a.reply.error) {
        return false, Some(Wrap(a.reply.error)), true;
      }
      return false, None, false;
    }

    /** create, with the finalizer given up again when somebody else has the name. */
    method CreateRemote(l: Local) returns (down: bool, err: Option<Error>, local: Local)
      requires Valid() && Safe(world) && world.pc == Create(l) && l.version.None?
      modifies this
      ensures Valid() && Safe(world) && Reaches(old(world), world)
      ensures !down && err.None? ==> world.pc == Read(l, 0)
      ensures !down && err.Some? ==> world.pc == Report(local, err, false)
    {
      var a, seen;
      ghost var before;
      local := l;
      down, a, seen, before := Invoke();
      if down || a.reply.Ok? { return down, None, l; }
      if !IsCreateConflict(a.reply.error) { return false, Some(Wrap(a.reply.error)), l; }
      var conflict := Wrap(Leaf(Mark(BucketAlreadyExists)));
      ghost var start := world;
      down, a, seen, before := Invoke();
      ReachesTransitive(old(world), start, world);
      if down { return down, None, l; }
      var rest := l.bucket.finalizers - {FINALIZER};
      if a.reply.Ok? && seen.obj.Some? {
        return false, Some(conflict), l.(bucket := seen.obj.value.(finalizers := rest));
      }
      var removeErr := if a.reply.Ok? then Leaf(Kube(true)) else a.reply.error;
      return false, Some(Join([conflict, Wrap(removeErr)])), l.(bucket := l.bucket.(finalizers := rest));
    }

    /** The part of Reconcile that follows a successful first observation. */
    method Act(l: Local, exists': bool, ghost observed: State) returns (down: bool, err: Option<Error>)
      requires Valid() && Safe(world) && (!exists' ==> l.version.None?)
      requires world == AfterObserve(observed, l, exists')
      modifies this
      ensures Valid() && Safe(world) && Reaches(old(world), world)
      ensures !down ==> world.pc.Idle? && (err.Some? <==> world.failed) && (err.Some? ==> world.queued)
    {
      var bucket := l.bucket;
      ghost var start := world;
      ReachesSelf(world);
      if bucket.deleting {
        if exists' {
          var park;
          down, err, park := DeleteRemote(l);
          if down { return; }
          if err.Some? {
            start := world;
            down, err := PatchStatus(l.(version := None), err, park);
            ReachesTransitive(old(world), start, world);
            return;
          }
        }
        start := world;
        down, err := PatchFinalizer(l);
        ReachesTransitive(old(world), start, world);
        return;
      }
      if FINALIZER !in bucket.finalizers {
        if exists' {
          down, err := PatchStatus(l.(version := None), Some(Wrap(Leaf(Mark(BucketAlreadyExists)))), false);
          return;
        }
        down, err := PatchFinalizer(l);
        return;
      } else if !exists' {
        var local;
        down, err, local := CreateRemote(l);
        if down { return; }
        if err.Some? {
          start := world;
          down, err := PatchStatus(local, err, false);
          ReachesTransitive(old(world), start, world);
          return;
        }
      }
      start := world;
      down, err := Update(l);
      ReachesTransitive(old(world), start, world);
      if down { return; }
      start := world;
      if err.Some? {
        down, err := PatchStatus(l, err, false);
        ReachesTransitive(old(world), start, world);
        return;
      }
      var a, seen;
      ghost var before;
      down, a, seen, before := Invoke();
      ReachesTransitive(old(world), start, world);
      if down { return; }
      start := world;
      if !a.reply.Ok? && !IsBucketNotFound(a.reply.error) {
        down, err := PatchStatus(l.(version := None), Some(Wrap(a.reply.error)), false);
      } else {
        down, err := PatchStatus(l.(version := if a.reply.Ok? then Some(a.version) else None), None, false);
      }
      ReachesTransitive(old(world), start, world);
    }

    /**
     * Reconcile. Whatever the schedule, the cluster has moved along a run of the protocol; when the
     * reconciler returns an error the key is queued again, and when it returns with nothing queued
     * the object is gone or settled.
     */
    method Reconcile() returns (down: bool, err: Option<Error>)
      requires Valid() && Safe(world) && Progressing(world) && world.pc.Idle?
      modifies this
      ensures Valid() && Reaches(old(world), world) && Safe(world) && Progressing(world)
      ensures !down ==> world.pc.Idle? && (err.Some? <==> world.failed) && (err.Some? ==> world.queued)
      ensures !down && !world.queued ==> world.obj.None? || Settled(world.obj.value, world.cause)
    {
      down, err := Work();
      ReachedStatesAreGood(old(world), world);
    }

    method Work() returns (down: bool, err: Option<Error>)
      requires Valid() && Safe(world) && world.pc.Idle?
      modifies this
      ensures Valid() && Safe(world) && Reaches(old(world), world)
      ensures !down ==> world.pc.Idle? && (err.Some? <==> world.failed) && (err.Some? ==> world.queued)
    {
      err := None;
      var readOk, obj;
      ghost var before;
      down, readOk, obj, before := Get();
      if down { return; }
      if !readOk { return false, Some(Leaf(Other)); }
      if obj.None? { return false, None; }
      var bucket := obj.value;
      if bucket.deleting && FINALIZER !in bucket.finalizers { return false, None; }
      var l := Local(bucket, None, None);
      ghost var start := world;
      var a, seen;
      down, a, seen, before := Invoke();
      ReachesTransitive(old(world), start, world);
      if down { return; }
      start := world;
      if !a.reply.Ok? {
        down, err := PatchStatus(l, Some(a.reply.error), false);
        ReachesTransitive(old(world), start, world);
        return;
      }
      l := l.(location := Some(a.location));
      down, a, seen, before := Invoke();
      ReachesTransitive(old(world), start, world);
      if down { return; }
      start := world;
      var exists' := a.reply.Ok?;
      if !a.reply.Ok? && !IsBucketNotFound(a.reply.error) {
        down, err := PatchStatus(l, Some(Wrap(a.reply.error)), false);
        ReachesTransitive(old(world), start, world);
        return;
      }
      l := l.(version := if exists' then Some(a.version) else None);
      down, err := Act(l, exists', before);
      ReachesTransitive(old(world), start, world);
    }
  }
}
