/** What single answers of the service lead to, in the terms of their status and code. */
module LifecycleAnswers {
  import opened Common
  import opened Errors
  import opened Lifecycle
  import opened LifecycleSafety
  import opened LifecycleProgress
  import Settings
  import Status

  // ----- Deletion -----

  /** A delete call that is answered with an error that does not say that the bucket is gone keeps the finalizer. */
  lemma {:induction false} RefusedDeletionKeepsFinalizer(s: State, a: Answer)
    requires Safe(s) && s.pc.Delete? && Enabled(s, Advance(a)) && !a.reply.Ok? && !SaysAbsent(a.reply.error)
    ensures var t := AdvanceStep(s, a);
            && Held(t) && t.obj == s.obj
            && (t.pc == List(s.pc.l) || (t.pc.Report? && t.pc.err == Some(Wrap(a.reply.error))))
  {
    AnswersAreUnderstood(a.reply.error);
  }

  /**
   * A delete call that finds nothing, because somebody else was faster, is followed by the release of
   * the finalizer. The second delete of a forced deletion is not: its answer is reported.
   */
  lemma {:induction false} AbsentAtDeletion(s: State, a: Answer)
    requires Safe(s) && s.pc.Delete? && Enabled(s, Advance(a)) && a.reply.Failed? && SaysAbsent(a.reply.error)
    ensures var t := AdvanceStep(s, a);
            && t.obj == s.obj && t.remote == s.remote && s.remote.Absent?
            && if s.pc.again then t.pc.Report? && t.pc.err == Some(Wrap(a.reply.error))
               else t.pc == Release(s.pc.l)
  {
    AnswersAreUnderstood(a.reply.error);
  }

  lemma {:induction false} ReleaseReleases(s: State, b: Answer)
    requires Safe(s) && s.pc.Release? && Enabled(s, Advance(b)) && b.reply.Ok?
    ensures var t := AdvanceStep(s, b); t.pc.Idle? && !t.failed && !Held(t) && t.remote == s.remote
  {
  }

  /** Both together: the bucket was gone, and the object ends without the finalizer. */
  lemma {:induction false} AbsentAtDeletionReleases(s: State, a: Answer, b: Answer)
    requires Safe(s) && s.pc.Delete? && !s.pc.again
    requires Enabled(s, Advance(a)) && a.reply.Failed? && SaysAbsent(a.reply.error)
    requires b.reply.Ok? && Enabled(AdvanceStep(s, a), Advance(b))
    ensures var t := AdvanceStep(AdvanceStep(s, a), b); t.pc.Idle? && !t.failed && !Held(t) && t.remote.Absent?
  {
    AbsentAtDeletion(s, a);
    StepKeepsSafe(s, Advance(a));
    ReleaseReleases(AdvanceStep(s, a), b);
  }

  // ----- Failed calls -----

  predicate ObsCall(pc: Pc) {
    pc.Observe? || pc.FinalObserve? || pc.Delete? || pc.List? || pc.DeleteListed? || pc.Create? || pc.Read? || pc.Write?
  }

  /** The answers that the reconciler takes for something else than a failure of the call. */
  predicate Expected(pc: Pc, e: Error)
    requires pc.Read? || pc.Write? ==> pc.i < |Settings.STEPS|
  {
    match pc
    case Observe(_) => SaysAbsent(e)
    case FinalObserve(_) => SaysAbsent(e)
    case Delete(l, again) => !again && (SaysAbsent(e) || (SaysNotEmpty(e) && l.bucket.spec.forceDestroy))
    case Create(_) => SaysTaken(e)
    case Read(_, i) => Settings.SaysUnset(Settings.STEPS[i], e)
    case Write(l, i) => Settings.SaysUnset(Settings.STEPS[i], e)
    case _ => false
  }

  /** A bucket under deletion is not empty and may not be emptied. */
  predicate Blocked(pc: Pc, e: Error) {
    pc.Delete? && SaysNotEmpty(e) && !pc.l.bucket.spec.forceDestroy
  }

  /** What is reported besides: the object, where the provider points to, and in the settings the version observed. */
  predicate SameFacts(was: Pc, is': Pc)
    requires !was.Idle? && !is'.Idle?
  {
    && is'.l.bucket == was.l.bucket && is'.l.location == was.l.location
    && is'.l.version == if was.Read? || was.Write? || was.Observe? || was.Create? then was.l.version else None
  }

  /** Every other answer is reported as the failure of the call that it is. */
  lemma {:induction false} FailedCallIsReported(s: State, a: Answer)
    requires ObsCall(s.pc) && Enabled(s, Advance(a)) && !a.reply.Ok? && ObsFailure(a.reply.error)
    requires !Expected(s.pc, a.reply.error)
    ensures var t := AdvanceStep(s, a);
            && t.pc.Report? && t.pc.err == Some(Wrap(a.reply.error)) && t.obj == s.obj && SameFacts(s.pc, t.pc)
            && (t.pc.park <==> Blocked(s.pc, a.reply.error))
  {
    AnswersAreUnderstood(a.reply.error);
    if s.pc.Read? { FailedReadIsReported(s, a); }
    else if s.pc.Write? { FailedWriteIsReported(s, a); }
    else if s.pc.Delete? { FailedDeleteIsReported(s, a); }
    else { FailedProbeIsReported(s, a); }
  }

  lemma {:induction false} FailedReadIsReported(s: State, a: Answer)
    requires s.pc.Read? && Enabled(s, Advance(a)) && !a.reply.Ok? && !Expected(s.pc, a.reply.error)
    ensures AdvanceStep(s, a) == Fail(s, s.pc.l, Wrap(a.reply.error))
  {
    AnswersAreUnderstood(a.reply.error);
  }

  lemma {:induction false} FailedWriteIsReported(s: State, a: Answer)
    requires s.pc.Write? && Enabled(s, Advance(a)) && !a.reply.Ok? && ObsFailure(a.reply.error)
    requires !Expected(s.pc, a.reply.error)
    ensures AdvanceStep(s, a) == Fail(Written(s, s.pc.l, Settings.STEPS[s.pc.i], a.reply), s.pc.l, Wrap(a.reply.error))
  {
    AnswersAreUnderstood(a.reply.error);
  }

  lemma {:induction false} FailedDeleteIsReported(s: State, a: Answer)
    requires s.pc.Delete? && Enabled(s, Advance(a)) && !a.reply.Ok? && !Expected(s.pc, a.reply.error)
    ensures var t := AdvanceStep(s, a);
            && t.pc.Report? && t.pc.err == Some(Wrap(a.reply.error)) && t.obj == s.obj && SameFacts(s.pc, t.pc)
            && (t.pc.park <==> Blocked(s.pc, a.reply.error))
  {
    AnswersAreUnderstood(a.reply.error);
  }

  lemma {:induction false} FailedProbeIsReported(s: State, a: Answer)
    requires s.pc.Observe? || s.pc.FinalObserve? || s.pc.List? || s.pc.DeleteListed? || s.pc.Create?
    requires Enabled(s, Advance(a)) && !a.reply.Ok? && ObsFailure(a.reply.error) && !Expected(s.pc, a.reply.error)
    ensures var t := AdvanceStep(s, a);
            && t.pc.Report? && t.pc.err == Some(Wrap(a.reply.error)) && t.obj == s.obj && SameFacts(s.pc, t.pc)
            && !t.pc.park
  {
    AnswersAreUnderstood(a.reply.error);
  }

  // ----- Retried or left to the user -----

  /** Users, other finalizer owners and other OBS clients act; the reconciler waits for its next answer. */
  predicate Bystanders(run: seq<Step>) {
    forall i | 0 <= i < |run| :: !run[i].Advance? && !run[i].Start? && !run[i].Crash?
  }

  lemma {:induction false} BystandersLeavePoint(s: State, run: seq<Step>)
    requires Legal(s, run) && Bystanders(run)
    ensures Exec(s, run).pc == s.pc
    decreases |run|
  {
    if run != [] { BystandersLeavePoint(Apply(s, run[0]), run[1..]); }
  }

  /** The service refuses the request as such: 4xx, but not 404, 408, 409 and 429. */
  predicate RefusesCall(e: Error) {
    && e.Leaf? && e.atom.Obs?
    && 400 <= e.atom.status <= 499 && e.atom.status !in {404, 408, 409, 429}
  }

  lemma RefusalIsForUser(e: Error)
    requires ObsFailure(e)
    ensures Correctable(Wrap(e)) <==> RefusesCall(e)
  {
    AnswerForUser(e);
  }

  lemma {:induction false} RetriedReport(s: State, b: Answer)
    requires s.pc.Report? && !ReturnsNil(s.pc.err, s.pc.park)
    ensures AdvanceStep(s, b).queued && AdvanceStep(s, b).failed
  {
  }

  /**
   * No answer that may have passed tomorrow is dropped: unless the service refuses the call as such,
   * or a bucket must not be emptied, a failed call (404, 408, 409, 429, any 5xx, no answer at all)
   * ends with the key queued again and an error returned, however the report itself goes.
   */
  lemma {:induction false} TransientAnswerIsRetried(s: State, a: Answer, run: seq<Step>, b: Answer)
    requires ObsCall(s.pc) && Enabled(s, Advance(a)) && !a.reply.Ok? && ObsFailure(a.reply.error)
    requires !Expected(s.pc, a.reply.error) && !RefusesCall(a.reply.error) && !Blocked(s.pc, a.reply.error)
    requires Legal(AdvanceStep(s, a), run) && Bystanders(run)
    ensures var t := Exec(AdvanceStep(s, a), run); t.pc.Report? && AdvanceStep(t, b).queued && AdvanceStep(t, b).failed
  {
    FailedCallIsReported(s, a);
    BystandersLeavePoint(AdvanceStep(s, a), run);
    RefusalIsForUser(a.reply.error);
    RetriedReport(Exec(AdvanceStep(s, a), run), b);
  }

  /** Quiet end of a reconcile: nil is returned, and the object shows the reason. */
  predicate LeftToUser(s: State, t: State, reason: Reason) {
    && t.pc.Idle? && !t.failed && t.queued == s.queued && t.obj.Some?
    && Status.ReadyCondition(t.obj.value.status).Some?
    && var ready := Status.ReadyCondition(t.obj.value.status).value; !ready.status && ready.reason == reason
  }

  lemma {:induction false} ParkedReport(s: State, b: Answer)
    requires s.pc.Report? && s.pc.err.Some? && ReturnsNil(s.pc.err, s.pc.park)
    requires s.obj == Some(s.pc.l.bucket) && b.reply.Ok?
    ensures LeftToUser(s, AdvanceStep(s, b), ReadyReason(s.pc.err.value))
  {
    var o := s.pc.l.bucket;
    var r := ReportOf(s.pc.l, s.pc.err);
    Status.UpdatedShowsReport(o.status, r, b.now);
    var next := Status.Updated(o.status, r, b.now);
    assert Status.MergePatch(o.status, o.status, next) == next;
  }

  function RefusalReason(e: Error): Reason
    requires RefusesCall(e)
  {
    if e.atom.code == "BucketNotEmpty" then ReasonBucketNotEmpty
    else if e.atom.code == "NoSuchBucket" then ReasonBucketNotFound
    else ReasonRequestRejected
  }

  /** A call that the service refuses as such is left to the user, under RequestRejected unless its code says more. */
  lemma {:induction false} RefusalIsLeftToUser(s: State, a: Answer, t: State, b: Answer)
    requires ObsCall(s.pc) && Enabled(s, Advance(a)) && !a.reply.Ok? && ObsFailure(a.reply.error)
    requires !Expected(s.pc, a.reply.error) && RefusesCall(a.reply.error)
    requires s.obj == Some(s.pc.l.bucket) && b.reply.Ok? && t == AdvanceStep(s, a) && t.pc.Report?
    ensures LeftToUser(t, AdvanceStep(t, b), RefusalReason(a.reply.error))
  {
    FailedCallIsReported(s, a);
    RefusalIsForUser(a.reply.error);
    AnswerReason(a.reply.error.atom.status, a.reply.error.atom.code);
    ParkedReport(t, b);
  }

  /** A bucket under deletion that is not empty and may not be emptied is left to the user as well. */
  lemma {:induction false} BlockedIsLeftToUser(s: State, a: Answer, b: Answer)
    requires s.pc.Delete? && Enabled(s, Advance(a)) && !a.reply.Ok? && Blocked(s.pc, a.reply.error)
    requires !Expected(s.pc, a.reply.error) && s.obj == Some(s.pc.l.bucket) && b.reply.Ok?
    ensures LeftToUser(AdvanceStep(s, a), AdvanceStep(AdvanceStep(s, a), b), ReasonBucketNotEmpty)
  {
    FailedCallIsReported(s, a);
    AnswerReason(a.reply.error.atom.status, a.reply.error.atom.code);
    ParkedReport(AdvanceStep(s, a), b);
  }

  /** A provider that is missing or invalid is left to the user under its own reason; other failures are retried. */
  lemma {:induction false} ProviderFailure(s: State, a: Answer, b: Answer)
    requires s.pc.Resolve? && Enabled(s, Advance(a)) && !a.reply.Ok? && s.obj == Some(s.pc.l.bucket) && b.reply.Ok?
    ensures var t, e := AdvanceStep(AdvanceStep(s, a), b), a.reply.error;
            var s1 := AdvanceStep(s, a);
            && s1.pc.Report?
            && (e == Tagged(ProviderConfigNotFound, Leaf(Kube(true))) ==>
                  LeftToUser(s1, t, ReasonProviderConfigNotFound))
            && (e == Tagged(CredentialsSecretNotFound, Leaf(Kube(true))) ==>
                  LeftToUser(s1, t, ReasonCredentialsSecretNotFound))
            && (e == Wrap(Leaf(Mark(MissingCredentials))) ==> LeftToUser(s1, t, ReasonCredentialsSecretInvalid))
            && (e == Wrap(Leaf(Mark(InvalidEndpoint))) ==> LeftToUser(s1, t, ReasonInvalidEndpoint))
            && (e == Wrap(Leaf(Other)) || KubeFailure(e) ==> t.queued && t.failed)
  {
    var s1 := AdvanceStep(s, a);
    assert s1.pc == Report(s.pc.l, Some(a.reply.error), false);
    NamedFailuresAreParked();
    MissingReasons();
    InvalidReasons();
    if Correctable(a.reply.error) {
      ParkedReport(s1, b);
    } else {
      RetriedReport(s1, b);
    }
    if KubeFailure(a.reply.error) { KubeFailureIsRetried(a.reply.error); }
  }

  // ----- Failed patches -----

  /** A patch of the finalizers that is not confirmed is retried, whether or not it reached the server. */
  lemma {:induction false} UnconfirmedClaimIsRetried(s: State, a: Answer)
    requires (s.pc.Claim? || s.pc.Release?) && !a.reply.Ok?
    ensures var t := AdvanceStep(s, a); t.pc.Idle? && t.failed && t.queued
  {
  }

  /** So is a status patch, even one that reports a success. */
  lemma {:induction false} UnconfirmedReportIsRetried(s: State, a: Answer)
    requires s.pc.Report? && !a.reply.Ok?
    requires var status := s.pc.l.bucket.status;
             Status.Changed(status, Status.Next(status, ReportOf(s.pc.l, s.pc.err), a.now))
    ensures var t := AdvanceStep(s, a); t.pc.Idle? && t.failed && t.queued
  {
  }

  /** And so is the conflict itself, when the removal of the finalizer is not confirmed. */
  lemma {:induction false} UnconfirmedRemovalIsRetried(s: State, a: Answer, run: seq<Step>, b: Answer)
    requires s.pc.Disown? && Enabled(s, Advance(a)) && !a.reply.Ok?
    requires Legal(AdvanceStep(s, a), run) && Bystanders(run)
    ensures var t := Exec(AdvanceStep(s, a), run); t.pc.Report? && AdvanceStep(t, b).queued && AdvanceStep(t, b).failed
  {
    var t := AdvanceStep(s, a);
    BystandersLeavePoint(t, run);
    ConflictWithFailedRemoval(a.reply.error);
    assert t.pc.Report? && t.pc.err == Some(Join([Wrap(Leaf(Mark(BucketAlreadyExists))), Wrap(a.reply.error)]));
    RetriedReport(Exec(t, run), b);
  }

  // ----- Finalizer patches -----

  /**
   * A finalizer patch that reaches the server replaces the whole list: it sets or clears the
   * controller's own entry, and it leaves those of other owners as they are exactly if the copy had
   * them all and no others. An object under deletion goes when no entry is left.
   */
  lemma {:induction false} PatchOnOtherFinalizers(s: State, a: Answer)
    requires (s.pc.Claim? || s.pc.Release? || s.pc.Disown?) && s.obj.Some? && !a.reply.Failed?
    ensures var t := AdvanceStep(s, a);
            var o, copy := s.obj.value, s.pc.l.bucket.finalizers - {"buckets.obs.wilaris.de/finalizer"};
            if t.obj.None? then o.deleting && copy == {} && !s.pc.Claim?
            else
              && t.obj.value == o.(finalizers := t.obj.value.finalizers)
              && ("buckets.obs.wilaris.de/finalizer" in t.obj.value.finalizers <==> s.pc.Claim?)
              && (t.obj.value.finalizers - {FINALIZER} == o.finalizers - {FINALIZER} <==>
                    copy == o.finalizers - {FINALIZER})
  {
  }
}
