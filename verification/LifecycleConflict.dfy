/** A create that is refused because somebody else has the name, with others acting between the calls. */
module LifecycleConflict {
  import opened Common
  import opened Errors
  import opened Lifecycle
  import opened LifecycleSafety
  import opened LifecycleReady
  import opened LifecycleConvergence
  import LifecycleProgress
  import Status

  const CONFLICT := Wrap(Leaf(Mark(BucketAlreadyExists)))

  lemma {:induction false} ConflictReason()
    ensures ReadyReason(CONFLICT) == ReasonBucketAlreadyExists
  {
    assert Atoms(CONFLICT) == [Mark(BucketAlreadyExists)];
    assert FirstKube(Atoms(CONFLICT)) == None;
  }

  // ----- The remote bucket -----

  /** The remote bucket after what other OBS clients do in a run. */
  function ByOthers(remote: Remote, run: seq<Step>): Remote
    decreases |run|
  {
    if run == [] then remote
    else
      var next :=
        match run[0]
        case ForeignCreate(settings, contents) => Present(Foreign, settings, contents)
        case ForeignDelete => Absent
        case ForeignChange(settings, contents) =>
          if remote.Present? then remote.(settings := settings, contents := contents) else remote
        case _ => remote;
      ByOthers(next, run[1..])
  }

  predicate AfterRefusal(pc: Pc) {
    pc.Disown? || pc.Report? || pc.Idle?
  }

  lemma {:induction false} PatchLeavesRemoteAlone(s: State, a: Answer)
    requires Enabled(s, Advance(a)) && (s.pc.Disown? || s.pc.Report?)
    ensures AdvanceStep(s, a).remote == s.remote && AfterRefusal(AdvanceStep(s, a).pc)
  {
  }

  /**
   * After a refused create the reconcile leaves the remote bucket to the others: whatever they do,
   * however the patches end and wherever the controller crashes, it is as they made it.
   */
  lemma {:induction false} ConflictPathLeavesRemoteAlone(s: State, run: seq<Step>)
    requires AfterRefusal(s.pc) && Legal(s, run) && NoStart(run)
    ensures Exec(s, run).remote == ByOthers(s.remote, run)
    decreases |run|
  {
    if run != [] {
      assert run[0] in run;
      if run[0].Advance? { PatchLeavesRemoteAlone(s, run[0].answer); }
      ConflictPathLeavesRemoteAlone(Apply(s, run[0]), run[1..]);
    }
  }

  // ----- The object -----

  predicate ShowsConflict(o: Object) {
    && Status.ReadyCondition(o.status).Some?
    && var ready := Status.ReadyCondition(o.status).value;
       !ready.status && ready.reason == ReasonBucketAlreadyExists
  }

  /** The object shows the conflict, or it was created since and shows nothing. */
  predicate ConflictShown(s: State, since: nat) {
    s.obj.Some? ==>
      ShowsConflict(s.obj.value) || (s.obj.value.uid >= since && Status.ReadyCondition(s.obj.value.status).None?)
  }

  /** The way from the refused create to the end of the reconcile when the patches succeed. */
  predicate Yielding(s: State, since: nat) {
    && Bookkeeping(s) && since <= s.nextUID && AfterRefusal(s.pc)
    && (!s.pc.Idle? && s.obj.Some? ==> s.obj.value.uid == s.pc.l.bucket.uid || s.obj.value.uid >= since)
    && (s.pc.Report? ==> s.pc.err == Some(CONFLICT))
    && (!s.pc.Disown? ==> !Held(s))
    && (s.pc.Idle? ==> ConflictShown(s, since))
  }

  lemma {:induction false} DisownYields(s: State, since: nat, a: Answer)
    requires Yielding(s, since) && s.pc.Disown? && Enabled(s, Advance(a)) && a.reply.Ok?
    ensures Yielding(AdvanceStep(s, a), since)
  {
    DisownKeepsBookkeeping(s, a);
  }

  /** Patched onto the status it was computed from, a report is shown; onto an empty one, it is shown or nothing is. */
  lemma PatchedReport(old': Status.BucketStatus, server: Status.BucketStatus, r: Status.Report, now: nat)
    requires r.condition.kind == Status.READY && (server == old' || server == Status.EMPTY_STATUS)
    ensures var shown := Status.ReadyCondition(Status.MergePatch(server, old', Status.Updated(old', r, now)));
            if shown.Some? then shown.value.status == r.condition.status && shown.value.reason == r.condition.reason
            else server != old'
  {
    var next := Status.Updated(old', r, now);
    Status.UpdatedShowsReport(old', r, now);
    if server == old' {
      assert Status.MergePatch(server, old', next) == next;
    }
  }

  lemma {:induction false} ConflictStatus(s: State, a: Answer)
    requires Bookkeeping(s) && s.pc.Report? && s.pc.err == Some(CONFLICT) && Enabled(s, Advance(a)) && a.reply.Ok?
    ensures var t := AdvanceStep(s, a);
            && t.pc.Idle? && t.nextUID == s.nextUID && s.obj.Some? && t.obj.Some?
            && t.obj.value == s.obj.value.(status := t.obj.value.status)
            && (ShowsConflict(t.obj.value) ||
                (s.obj.value.uid != s.pc.l.bucket.uid && Status.ReadyCondition(t.obj.value.status).None?))
  {
    ConflictReason();
    var old', r := s.pc.l.bucket.status, ReportOf(s.pc.l, s.pc.err);
    PatchedReport(old', s.obj.value.status, r, a.now);
    ReportEffect(s, a);
    if !Status.Changed(old', Status.Next(old', r, a.now)) {
      Status.UpdatedShowsReport(old', r, a.now);
    }
  }

  lemma {:induction false} ReportYields(s: State, since: nat, a: Answer)
    requires Yielding(s, since) && s.pc.Report? && Enabled(s, Advance(a)) && a.reply.Ok?
    ensures Yielding(AdvanceStep(s, a), since)
  {
    ReportKeepsBookkeeping(s, a);
    ConflictStatus(s, a);
  }

  lemma {:induction false} OthersYield(s: State, since: nat, step: Step)
    requires Yielding(s, since) && SuccessTracks(s) && Enabled(s, step)
    requires !step.Advance? && !step.Start? && !step.Crash?
    ensures Yielding(Apply(s, step), since)
  {
    OthersKeepBookkeeping(s, step);
    match step
    case Wake =>
    case UserCreate(_, _) =>
    case UserUpdate(_) =>
    case UserDelete =>
    case OtherFinalizers(_) =>
    case ForeignCreate(_, _) =>
    case ForeignDelete =>
    case ForeignChange(_, _) =>
  }

  /** Both patches succeed; users, other finalizer owners and other OBS clients act at will. */
  predicate Uninterrupted(step: Step) {
    !step.Start? && !step.Crash? && (step.Advance? ==> step.answer.reply.Ok?)
  }

  lemma {:induction false} RunYields(s: State, since: nat, run: seq<Step>)
    requires Yielding(s, since) && Legal(s, run) && forall step | step in run :: Uninterrupted(step)
    ensures Yielding(Exec(s, run), since)
    decreases |run|
  {
    if run != [] {
      var step := run[0];
      assert step in run;
      if !step.Advance? { OthersYield(s, since, step); }
      else if s.pc.Disown? { DisownYields(s, since, step.answer); }
      else { ReportYields(s, since, step.answer); }
      RunYields(Apply(s, step), since, run[1..]);
    }
  }

  /**
   * A bucket that appears between the observation and the create is left to its owner. When the two
   * patches go through, whoever acts in between, the object ends without the finalizer and with
   * reason BucketAlreadyExists; only an object that was re-created meanwhile may show nothing.
   */
  lemma {:induction false} CreateConflict(s: State, a: Answer, run: seq<Step>)
    requires Safe(s) && Bookkeeping(s) && s.pc.Create?
    requires Enabled(s, Advance(a)) && a.reply.Failed? && IsCreateConflict(a.reply.error)
    requires Legal(AdvanceStep(s, a), run) && forall step | step in run :: Uninterrupted(step)
    ensures var t := Exec(AdvanceStep(s, a), run);
            && t.remote == ByOthers(s.remote, run)
            && (t.pc.Idle? ==> !Held(t) && ConflictShown(t, s.nextUID))
  {
    var s1 := AdvanceStep(s, a);
    ProbeLeavesObject(s, a);
    ConflictPathLeavesRemoteAlone(s1, run);
    RunYields(s1, s.nextUID, run);
  }

  // ----- A name that is taken -----

  lemma {:induction false} ConflictWaits(b: Object)
    ensures Correctable(CONFLICT) && LifecycleProgress.WaitsForUser(CONFLICT, b)
  {
    assert Atoms(CONFLICT) == [Mark(BucketAlreadyExists)];
    assert Is(CONFLICT, BucketAlreadyExists);
    JoinFreeVerdict(CONFLICT);
  }

  /**
   * An unclaimed object whose name somebody else has: every smooth reconcile leaves the bucket as it
   * is, claims nothing, says so in the status and waits for the user with nothing queued.
   */
  lemma {:induction false} TakenNameIsReported(s: State, run: seq<Step>, f: Facts)
    requires s.remote.Present? && s.obj.Some? && !Held(s) && !s.obj.value.deleting && SmoothReconcile(s, run, f)
    ensures var t := Exec(s, run);
            && t.remote == s.remote && t.pc.Idle? && !t.queued && !t.failed && !Held(t)
            && t.obj.Some? && t.obj.value == s.obj.value.(status := t.obj.value.status) && ShowsConflict(t.obj.value)
            && LifecycleProgress.Settled(t.obj.value, t.cause)
  {
    var o := s.obj.value;
    var s1, rest := SmoothStart(s, run, f);
    assert s1.pc.Report?;
    var a := NextCall(s1, rest, f);
    NoCallWhenIdle(AdvanceStep(s1, a), rest[1..], f);
    ConflictWaits(o);
    ConflictReason();
    var l := s1.pc.l;
    assert LifecycleProgress.GoodReport(Report(l, Some(CONFLICT), false));
    LifecycleProgress.ReportLands(s1, a);
    LifecycleProgress.ReportSettles(o, l, Some(CONFLICT), false, a.now, Some(CONFLICT));
    Status.UpdatedShowsReport(o.status, ReportOf(l, Some(CONFLICT)), a.now);
  }
}
