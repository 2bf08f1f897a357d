/** Work is never dropped: whenever nothing is queued the object is gone or settled. */
module LifecycleProgress {
  import opened Common
  import opened Errors
  import opened Lifecycle
  import opened LifecycleSafety
  import Settings
  import Status

  // ----- No dropped work -----

  /**
   * A failure that waits for the user: every failure it joins is the user's to correct, or a bucket
   * under deletion is not empty and may not be emptied.
   */
  ghost predicate WaitsForUser(e: Error, o: Object) {
    EveryBranchCorrectable(e) || (e.Wrap? && SaysNotEmpty(e.child) && o.deleting && !o.spec.forceDestroy)
  }

  /**
   * Nothing is left to do until an event arrives: the object is not tracked, or its Ready condition
   * for this generation is true, or it is false with the reason of the failure that was reported last,
   * and that failure waits for the user.
   */
  ghost predicate Settled(o: Object, cause: Option<Error>) {
    || (o.deleting && FINALIZER !in o.finalizers)
    || (&& Status.ReadyCondition(o.status).Some?
        && o.status.observedGeneration == o.generation
        && var ready := Status.ReadyCondition(o.status).value;
           && ready.observedGeneration == o.generation
           && (if ready.status then FINALIZER in o.finalizers && !o.deleting
               else
                 && ready.reason != ReasonReconcileFailed && ready.reason != ReasonBucketReady
                 && cause.Some? && ready.reason == ReadyReason(cause.value) && WaitsForUser(cause.value, o)))
  }

  /** The errors that reach the status are shallow, so the classifier decides them by their meaning. */
  predicate GoodReport(pc: Pc) {
    pc.Report? ==>
      && (pc.err.Some? ==> Shallow(pc.err.value))
      && (pc.err.None? ==> FINALIZER in pc.l.bucket.finalizers && !pc.l.bucket.deleting && !pc.park)
      && (pc.err.Some? && pc.park ==>
            && pc.err.value.Wrap? && SaysNotEmpty(pc.err.value.child)
            && ReadyReason(pc.err.value) == ReasonBucketNotEmpty
            && pc.l.bucket.deleting && !pc.l.bucket.spec.forceDestroy)
  }

  /** While no event has arrived, the reconciler's copy is the object. */
  predicate InSync(s: State) {
    !s.pc.Idle? && !s.queued && !(s.pc.Report? && !ReturnsNil(s.pc.err, s.pc.park)) ==> s.obj == Some(s.pc.l.bucket)
  }

  ghost predicate Progressing(s: State) {
    && GoodReport(s.pc) && InSync(s)
    && (s.pc.Idle? && !s.queued ==> s.obj.None? || Settled(s.obj.value, s.cause))
  }

  lemma {:induction false} ReportSettles(
    b: Object, l: Local, err: Option<Error>, park: bool, now: nat, cause: Option<Error>)
    requires GoodReport(Report(l, err, park)) && ReturnsNil(err, park) && b == l.bucket
    requires err.Some? ==> cause == err
    ensures Settled(b.(status := Status.Updated(b.status, ReportOf(l, err), now)), cause)
  {
    Status.UpdatedShowsReport(b.status, ReportOf(l, err), now);
    if err.Some? {
      if !park {
        CorrectableReason(err.value);
        ClassifierMeaning(err.value);
      }
      assert WaitsForUser(err.value, b);
    }
  }

  lemma {:induction false} ReportLands(s: State, a: Answer)
    requires s.pc.Report? && s.obj == Some(s.pc.l.bucket) && !AdvanceStep(s, a).queued
    ensures var b := s.pc.l.bucket;
            && AdvanceStep(s, a).obj == Some(b.(status := Status.Updated(b.status, ReportOf(s.pc.l, s.pc.err), a.now)))
            && AdvanceStep(s, a).cause == if s.pc.err.Some? then s.pc.err else s.cause
  {
    var b := s.pc.l.bucket;
    var next := Status.Updated(b.status, ReportOf(s.pc.l, s.pc.err), a.now);
    assert Status.MergePatch(b.status, b.status, next) == next;
  }

  lemma {:induction false} ReportReturns(s: State, a: Answer)
    requires s.pc.Report?
    ensures AdvanceStep(s, a).pc.Idle?
    ensures !AdvanceStep(s, a).queued ==> !s.queued && ReturnsNil(s.pc.err, s.pc.park)
  {
  }

  lemma {:induction false} ReportingProgresses(s: State, a: Answer)
    requires Progressing(s) && s.pc.Report?
    ensures Progressing(AdvanceStep(s, a))
  {
    ReportReturns(s, a);
    var t := AdvanceStep(s, a);
    if !t.queued {
      ReportLands(s, a);
      ReportSettles(s.pc.l.bucket, s.pc.l, s.pc.err, s.pc.park, a.now, t.cause);
    }
  }

  lemma {:induction false} NotEmptyReason(e: Error)
    requires SaysNotEmpty(e)
    ensures ReadyReason(Wrap(e)) == ReasonBucketNotEmpty
  {
    AnswerReason(e.atom.status, e.atom.code);
  }

  lemma {:induction false} DeletionProgresses(s: State, a: Answer)
    requires Safe(s) && Progressing(s) && s.pc.Delete? && Enabled(s, Advance(a))
    ensures Progressing(AdvanceStep(s, a))
  {
    if !a.reply.Ok? {
      AnswersAreUnderstood(a.reply.error);
      if SaysNotEmpty(a.reply.error) { NotEmptyReason(a.reply.error); }
    }
  }

  lemma {:induction false} FinalizerProgresses(s: State, a: Answer)
    requires Safe(s) && Progressing(s) && Enabled(s, Advance(a))
    requires s.pc.Claim? || s.pc.Release? || s.pc.Disown?
    ensures Progressing(AdvanceStep(s, a))
  {
    if s.pc.Disown? {
      if a.reply.Ok? {
        assert Shallow(Wrap(Leaf(Mark(BucketAlreadyExists))));
      } else {
        ConflictWithFailedRemoval(a.reply.error);
      }
    }
  }

  lemma {:induction false} SettingProgresses(s: State, t: State, o: Settings.Outcome)
    requires Safe(s) && Progressing(s) && (s.pc.Read? || s.pc.Write?)
    requires t.obj == s.obj && t.queued == s.queued && t.pc == s.pc
    requires o.Broken? ==> Shallow(o.error)
    ensures Progressing(AfterSetting(t, s.pc.l, s.pc.i, o))
  {
  }

  lemma {:induction false} ReadingProgresses(s: State, a: Answer)
    requires Safe(s) && Progressing(s) && Enabled(s, Advance(a)) && s.pc.Read?
    ensures Progressing(AdvanceStep(s, a))
  {
    SettingProgresses(s, s, ReadOutcome(s, s.pc.l, s.pc.i, a.reply));
  }

  lemma {:induction false} WritingProgresses(s: State, a: Answer)
    requires Safe(s) && Progressing(s) && Enabled(s, Advance(a)) && s.pc.Write?
    ensures Progressing(AdvanceStep(s, a))
  {
    var t := Written(s, s.pc.l, Settings.STEPS[s.pc.i], a.reply);
    SettingProgresses(s, t, WriteOutcome(s.pc.l, s.pc.i, a.reply));
  }

  lemma {:induction false} ProbeProgresses(s: State, a: Answer)
    requires Safe(s) && Progressing(s) && Enabled(s, Advance(a))
    requires s.pc.Resolve? || s.pc.Observe? || s.pc.FinalObserve?
    ensures Progressing(AdvanceStep(s, a))
  {
  }

  lemma {:induction false} EmptyingProgresses(s: State, a: Answer)
    requires Safe(s) && Progressing(s) && Enabled(s, Advance(a)) && (s.pc.List? || s.pc.DeleteListed?)
    ensures Progressing(AdvanceStep(s, a))
  {
  }

  lemma {:induction false} CreationProgresses(s: State, a: Answer)
    requires Safe(s) && Progressing(s) && Enabled(s, Advance(a)) && s.pc.Create?
    ensures Progressing(AdvanceStep(s, a))
  {
  }

  lemma {:induction false} AdvanceProgresses(s: State, a: Answer)
    requires Safe(s) && Progressing(s) && Enabled(s, Advance(a))
    ensures Progressing(AdvanceStep(s, a))
  {
    match s.pc
    case Resolve(_) => ProbeProgresses(s, a);
    case Observe(_) => ProbeProgresses(s, a);
    case FinalObserve(_) => ProbeProgresses(s, a);
    case Delete(_, _) => DeletionProgresses(s, a);
    case List(_) => EmptyingProgresses(s, a);
    case DeleteListed(_, _, _) => EmptyingProgresses(s, a);
    case Create(_) => CreationProgresses(s, a);
    case Release(_) => FinalizerProgresses(s, a);
    case Claim(_) => FinalizerProgresses(s, a);
    case Disown(_) => FinalizerProgresses(s, a);
    case Read(_, _) => ReadingProgresses(s, a);
    case Write(_, _) => WritingProgresses(s, a);
    case Report(_, _, _) => ReportingProgresses(s, a);
  }

  lemma {:induction false} StepProgresses(s: State, step: Step)
    requires Safe(s) && Progressing(s) && Enabled(s, step)
    ensures Progressing(Apply(s, step))
  {
    if step.Advance? {
      AdvanceProgresses(s, step.answer);
    }
  }

  lemma {:induction false} RunProgresses(s: State, run: seq<Step>)
    requires Safe(s) && Progressing(s) && Legal(s, run)
    ensures Safe(Exec(s, run)) && Progressing(Exec(s, run))
    decreases |run|
  {
    if run != [] {
      StepKeepsSafe(s, run[0]);
      StepProgresses(s, run[0]);
      RunProgresses(Apply(s, run[0]), run[1..]);
    }
  }

  /**
   * Whenever no reconcile runs and none is queued, the object is gone or settled: a failure that was
   * reported and not retried is one that waits for the user.
   */
  lemma {:induction false} NoDroppedWork(s: State, run: seq<Step>)
    requires Initial(s) && Legal(s, run)
    ensures var t := Exec(s, run); t.pc.Idle? && !t.queued ==> t.obj.None? || Settled(t.obj.value, t.cause)
  {
    RunProgresses(s, run);
  }

  /**
   * An error is dropped from the queue exactly when everything it reports is for the user to correct,
   * or it is parked because a bucket under deletion is not empty and may not be emptied.
   */
  lemma {:induction false} ParkedExactlyWhenCorrectable(s: State, run: seq<Step>)
    requires Initial(s) && Legal(s, run) && Exec(s, run).pc.Report? && Exec(s, run).pc.err.Some?
    ensures var pc := Exec(s, run).pc;
            && (ReturnsNil(pc.err, pc.park) <==> EveryBranchCorrectable(pc.err.value) || pc.park)
            && (pc.park ==>
                  && pc.err.value.Wrap? && SaysNotEmpty(pc.err.value.child)
                  && pc.l.bucket.deleting && !pc.l.bucket.spec.forceDestroy)
  {
    RunProgresses(s, run);
    ClassifierMeaning(Exec(s, run).pc.err.value);
  }
}
