/** Convergence of an undisturbed Bucket, its fixpoint, and the bookkeeping of observed generations. */
module LifecycleConvergence {
  import opened Common
  import opened Errors
  import opened Lifecycle
  import opened LifecycleSafety
  import opened LifecycleReady
  import Settings
  import Status

  // ----- One setting in the protocol -----

  lemma {:induction false} ReadCall(s: State, a: Answer)
    requires s.pc.Read? && s.pc.i < |Settings.STEPS|
    ensures AdvanceStep(s, a) == AfterSetting(s, s.pc.l, s.pc.i, ReadOutcome(s, s.pc.l, s.pc.i, a.reply))
  {
  }

  lemma {:induction false} WriteCall(s: State, a: Answer)
    requires s.pc.Write? && s.pc.i < |Settings.STEPS|
    ensures var l, i := s.pc.l, s.pc.i;
            AdvanceStep(s, a) == AfterSetting(Written(s, l, Settings.STEPS[i], a.reply), l, i,
              WriteOutcome(l, i, a.reply))
  {
  }

  /** The calls of the protocol about one setting are the step of update() on it, with the same effect and end. */
  lemma {:induction false} ProtocolTakesUpdateStep(s: State, a: Answer, b: Answer)
    requires s.pc.Read? && s.pc.i < |Settings.STEPS| && s.remote.Present?
    ensures var l, i := s.pc.l, s.pc.i;
            var wire := Settings.Wire(a.reply, b.reply);
            var r := Settings.Stepped(Settings.STEPS[i], l.bucket.spec.desired, s.remote.settings, wire);
            var s1 := AdvanceStep(s, a);
            var t := if s1.pc.Write? then AdvanceStep(s1, b) else s1;
            && t.remote == s.remote.(settings := r.settings) && |t.log| == |s.log| + r.writes
            && t.pc == if r.err.Some? then Report(l, r.err, false) else NextSetting(s, l, i).pc
  {
    ReadCall(s, a);
    var s1 := AdvanceStep(s, a);
    if s1.pc.Write? {
      WriteCall(s1, b);
      WrittenEffect(s1, s.pc.l, Settings.STEPS[s.pc.i], b.reply);
    }
  }

  /** The effect of a write call on a bucket that exists. */
  lemma {:induction false} WrittenEffect(s: State, l: Local, w: Settings.Setting, r: Reply)
    requires s.remote.Present?
    ensures var t := Written(s, l, w, r);
            var settings := s.remote.settings;
            var after := if r.Failed? then settings else Settings.Put(w, l.bucket.spec.desired, settings);
            t == s.(remote := s.remote.(settings := after), log := t.log) && |t.log| == |s.log| + 1
  {
  }

  // ----- Reconciles without failures and interference -----

  /** What is the same in every successful answer: the resolved location and the version of the bucket. */
  datatype Facts = Facts(location: (string, string), version: string)

  /** A call succeeds; an observation of a bucket that is not there succeeds by saying so. */
  predicate Agrees(s: State, step: Step, f: Facts) {
    && step.Advance? && step.answer.location == f.location && step.answer.version == f.version
    && if (s.pc.Observe? || s.pc.FinalObserve?) && s.remote.Absent? then
         step.answer.reply.Failed? && SaysAbsent(step.answer.reply.error)
       else step.answer.reply.Ok?
  }

  ghost predicate SmoothCalls(s: State, run: seq<Step>, f: Facts)
    requires Legal(s, run)
    decreases |run|
  {
    run != [] ==> Agrees(s, run[0], f) && SmoothCalls(Apply(s, run[0]), run[1..], f)
  }

  /** The remaining calls of a smooth reconcile. */
  ghost predicate SmoothRest(s: State, run: seq<Step>, f: Facts) {
    Legal(s, run) && SmoothCalls(s, run, f) && Exec(s, run).pc.Idle?
  }

  /** One whole reconcile in which every call succeeds; the calls may answer at different times. */
  ghost predicate SmoothReconcile(s: State, run: seq<Step>, f: Facts) {
    |run| > 0 && run[0] == Start(true) && Legal(s, run) && SmoothRest(Apply(s, run[0]), run[1..], f)
  }

  lemma {:induction false} NextCall(s: State, run: seq<Step>, f: Facts) returns (a: Answer)
    requires !s.pc.Idle? && SmoothRest(s, run, f)
    ensures run != [] && run[0] == Advance(a) && Agrees(s, run[0], f) && Enabled(s, Advance(a))
    ensures SmoothRest(AdvanceStep(s, a), run[1..], f) && Exec(s, run) == Exec(AdvanceStep(s, a), run[1..])
  {
    a := run[0].answer;
  }

  lemma {:induction false} PrependCall(s: State, a: Answer, run: seq<Step>, f: Facts)
    requires Enabled(s, Advance(a)) && Agrees(s, Advance(a), f) && SmoothRest(AdvanceStep(s, a), run, f)
    ensures SmoothRest(s, [Advance(a)] + run, f)
  {
    Prepend(s, Advance(a), run);
    assert ([Advance(a)] + run)[1..] == run;
  }

  lemma {:induction false} NoCallWhenIdle(s: State, run: seq<Step>, f: Facts)
    requires s.pc.Idle? && SmoothRest(s, run, f)
    ensures run == []
  {
  }

  // ----- From the first setting to the end of the reconcile -----

  function ReadyReport(o: Object, f: Facts): Status.Report {
    ReportOf(Local(o, Some(f.location), Some(f.version)), None)
  }

  /** The reconciler works on the object as it is and has brought the settings up to its point to the spec. */
  ghost predicate OnTrack(s: State, o: Object, f: Facts) {
    && s.obj == Some(o) && s.remote.Present?
    && (s.pc.Read? || s.pc.Write? || s.pc.FinalObserve? || s.pc.Report?)
    && s.pc.l.bucket == o && s.pc.l.location == Some(f.location)
    && (s.pc.Read? || s.pc.Write? ==>
          s.pc.i < |Settings.STEPS| && AttainedBelow(o.spec.desired, s.remote.settings, s.pc.i))
    && (s.pc.FinalObserve? || s.pc.Report? ==> AllAttained(o.spec.desired, s.remote.settings))
    && (s.pc.Report? ==> s.pc == Report(Local(o, Some(f.location), Some(f.version)), None, false))
  }

  /** A call on the way changes settings and the log only, and not even those when all settings match. */
  ghost predicate Onward(s: State, t: State, d: Settings.Desired) {
    && s.remote.Present? && t.remote.Present?
    && t == s.(pc := t.pc, remote := t.remote, log := t.log)
    && t.remote == s.remote.(settings := t.remote.settings)
    && t.remote.settings.policy.owner == s.remote.settings.policy.owner
    && (Settings.AllMatch(d, s.remote.settings) && !s.pc.Write? ==>
          t.remote == s.remote && t.log == s.log && !t.pc.Write?)
  }

  lemma {:induction false} ReadOnTrack(s: State, o: Object, f: Facts, a: Answer)
    requires OnTrack(s, o, f) && s.pc.Read? && a.reply.Ok?
    ensures OnTrack(AdvanceStep(s, a), o, f) && Onward(s, AdvanceStep(s, a), o.spec.desired)
  {
    ReadCall(s, a);
    var d, i := o.spec.desired, s.pc.i;
    if Settings.Matches(Settings.STEPS[i], d, s.remote.settings) && i + 1 == |Settings.STEPS| {
      AttainedBelowAll(d, s.remote.settings);
    }
  }

  /** Writing the next setting extends what is attained. */
  lemma {:induction false} PutAttains(d: Settings.Desired, r: Settings.Remote, i: nat)
    requires i < |Settings.STEPS| && AttainedBelow(d, r, i)
    ensures var r' := Settings.Put(Settings.STEPS[i], d, r);
            && AttainedBelow(d, r', i + 1) && r'.policy.owner == r.policy.owner
            && (i + 1 == |Settings.STEPS| ==> AllAttained(d, r'))
  {
    var w := Settings.STEPS[i];
    Settings.PutEstablishes(w, d, r);
    PutKeepsAttained(w, d, r, i);
    if i + 1 == |Settings.STEPS| { AttainedBelowAll(d, Settings.Put(w, d, r)); }
  }

  lemma {:induction false} WriteOnTrack(s: State, o: Object, f: Facts, a: Answer)
    requires OnTrack(s, o, f) && s.pc.Write? && a.reply.Ok?
    ensures OnTrack(AdvanceStep(s, a), o, f) && Onward(s, AdvanceStep(s, a), o.spec.desired)
  {
    WriteCall(s, a);
    PutAttains(o.spec.desired, s.remote.settings, s.pc.i);
  }

  lemma {:induction false} CallOnTrack(s: State, o: Object, f: Facts, a: Answer)
    requires OnTrack(s, o, f) && !s.pc.Report? && Agrees(s, Advance(a), f)
    ensures OnTrack(AdvanceStep(s, a), o, f) && Onward(s, AdvanceStep(s, a), o.spec.desired)
  {
    if s.pc.Read? { ReadOnTrack(s, o, f, a); } else if s.pc.Write? { WriteOnTrack(s, o, f, a); }
  }

  /** The status says Ready, and saying it again would change nothing, at whatever time. */
  ghost predicate ReadySaid(o: Object, f: Facts) {
    forall later :: !Status.Changed(o.status, Status.Next(o.status, ReadyReport(o, f), later))
  }

  /** The reconcile has ended with every setting as specified and Ready said. */
  ghost predicate Ended(s: State, t: State, o: Object, f: Facts) {
    && t.pc.Idle? && t.obj.Some? && t.obj.value == o.(status := t.obj.value.status) && ReadySaid(t.obj.value, f)
    && s.remote.Present? && t.remote.Present? && t.remote == s.remote.(settings := t.remote.settings)
    && t.remote.settings.policy.owner == s.remote.settings.policy.owner
    && AllAttained(o.spec.desired, t.remote.settings)
    && t == s.(pc := Idle, failed := false, obj := t.obj, remote := t.remote, log := t.log)
    && (Settings.AllMatch(o.spec.desired, s.remote.settings) && !s.pc.Write? && ReadySaid(o, f) ==>
          t == s.(pc := Idle, failed := false))
  }

  lemma {:induction false} ReportEnds(s: State, o: Object, f: Facts, a: Answer)
    requires OnTrack(s, o, f) && s.pc.Report? && a.reply.Ok?
    ensures Ended(s, AdvanceStep(s, a), o, f)
  {
    var r := ReadyReport(o, f);
    var next := Status.Updated(o.status, r, a.now);
    assert Status.MergePatch(o.status, o.status, next) == next;
    var o' := o.(status := next);
    forall later ensures !Status.Changed(next, Status.Next(next, ReadyReport(o', f), later)) {
      Status.RepeatedReportPatchesNothing(o.status, r, a.now, later);
      assert ReadyReport(o', f) == r;
    }
  }

  /** However the calls answer in time, a smooth reconcile on track ends with everything done. */
  lemma {:induction false} TrackEnds(s: State, o: Object, f: Facts, run: seq<Step>)
    requires OnTrack(s, o, f) && SmoothRest(s, run, f)
    ensures Ended(s, Exec(s, run), o, f)
    decreases |run|
  {
    var a := NextCall(s, run, f);
    if s.pc.Report? {
      ReportEnds(s, o, f, a);
      NoCallWhenIdle(AdvanceStep(s, a), run[1..], f);
    } else {
      CallOnTrack(s, o, f, a);
      TrackEnds(AdvanceStep(s, a), o, f, run[1..]);
    }
  }

  // ----- Convergence -----

  /** The bucket is the controller's, every setting is attained, nothing is queued, and the status says so. */
  ghost predicate Finished(s: State, f: Facts) {
    && s.pc.Idle? && !s.queued && s.obj.Some? && Held(s) && !s.obj.value.deleting
    && Exists(s, Controller) && AllAttained(s.obj.value.spec.desired, s.remote.settings)
    && ReadySaid(s.obj.value, f)
  }

  /** The bucket is the controller's, has every specified setting, and the status says so. */
  ghost predicate Converged(s: State, f: Facts) {
    && s.pc.Idle? && s.obj.Some? && Held(s) && !s.obj.value.deleting
    && Exists(s, Controller) && Settings.AsSpecified(s.obj.value.spec.desired, s.remote.settings)
    && ReadySaid(s.obj.value, f)
  }

  /** What is finished has converged, unless the ACL has no owner. */
  lemma FinishedConverges(s: State, f: Facts)
    requires Finished(s, f)
    ensures Converged(s, f) <==> s.remote.settings.policy.owner != ""
  {
    AttainedMatches(s.obj.value.spec.desired, s.remote.settings);
  }

  lemma {:induction false} ConvergedIsReady(s: State, f: Facts)
    requires Converged(s, f)
    ensures s.obj.value.status.observedGeneration == s.obj.value.generation
    ensures Status.ReadyCondition(s.obj.value.status).Some? && Status.ReadyCondition(s.obj.value.status).value.status
    ensures Status.ReadyCondition(s.obj.value.status).value.reason == ReasonBucketReady
    ensures var status := s.obj.value.status;
            (status.region, status.domain) == f.location && status.version == f.version
  {
    var o := s.obj.value;
    Status.UpdatedShowsBucket(o.status, ReadyReport(o, f), 0);
    assert !Status.Changed(o.status, Status.Next(o.status, ReadyReport(o, f), 0));
    Status.UpdatedShowsReport(o.status, ReadyReport(o, f), 0);
  }

  /** From the start of a smooth reconcile to the branch after the observation. */
  lemma {:induction false} SmoothStart(s: State, run: seq<Step>, f: Facts) returns (t: State, rest: seq<Step>)
    requires SmoothReconcile(s, run, f) && s.obj.Some? && (s.obj.value.deleting ==> Held(s))
    ensures var l := Local(s.obj.value, Some(f.location), if s.remote.Present? then Some(f.version) else None);
            t == AfterObserve(s.(queued := false), l, s.remote.Present?)
    ensures SmoothRest(t, rest, f) && Exec(s, run) == Exec(t, rest)
  {
    var s1 := Apply(s, Start(true));
    var a := NextCall(s1, run[1..], f);
    var s2 := AdvanceStep(s1, a);
    var b := NextCall(s2, run[1..][1..], f);
    if s.remote.Absent? { AnswersAreUnderstood(b.reply.error); }
    t, rest := AdvanceStep(s2, b), run[1..][1..][1..];
  }

  /** The first reconcile of an unclaimed absent bucket claims the name and hands over to the next. */
  lemma {:induction false} FirstReconcileClaims(s: State, run: seq<Step>, f: Facts)
    requires s.remote.Absent? && s.obj.Some? && !Held(s) && !s.obj.value.deleting && SmoothReconcile(s, run, f)
    ensures var t := Exec(s, run);
            && t.queued && Held(t) && t.remote.Absent?
            && t.obj == Some(s.obj.value.(finalizers := s.obj.value.finalizers + {FINALIZER}))
            && t == s.(obj := t.obj, failed := false, queued := true, log := t.log)
  {
    var s1, rest := SmoothStart(s, run, f);
    assert s1.pc.Claim?;
    var a := NextCall(s1, rest, f);
    NoCallWhenIdle(AdvanceStep(s1, a), rest[1..], f);
  }

  /** The next reconcile creates the bucket, applies the settings and reports Ready. */
  lemma {:induction false} SecondReconcileConverges(s: State, run: seq<Step>, f: Facts)
    requires s.remote.Absent? && Held(s) && !s.obj.value.deleting && SmoothReconcile(s, run, f)
    ensures Finished(Exec(s, run), f) && (Converged(Exec(s, run), f) <==> s.account != "")
    ensures Exec(s, run).obj.value == s.obj.value.(status := Exec(s, run).obj.value.status)
  {
    var s1, rest := SmoothStart(s, run, f);
    assert s1.pc.Create?;
    var a := NextCall(s1, rest, f);
    var s2 := AdvanceStep(s1, a);
    assert s2.remote.settings.policy.owner == s.account;
    TrackEnds(s2, s.obj.value, f, rest[1..]);
    FinishedConverges(Exec(s, run), f);
  }

  /**
   * An unclaimed absent bucket is ready after exactly two smooth reconciles: after the first it does
   * not exist and the status is as before, and the finalizer event queues the second; nothing follows.
   */
  lemma {:induction false} TwoReconcilesConverge(s: State, first: seq<Step>, second: seq<Step>, f: Facts)
    requires s.remote.Absent? && s.obj.Some? && !Held(s) && !s.obj.value.deleting
    requires SmoothReconcile(s, first, f) && SmoothReconcile(Exec(s, first), second, f)
    ensures var t := Exec(s, first);
            && t.remote.Absent? && t.queued && t.obj.Some? && t.obj.value.status == s.obj.value.status
            && PassesPredicate(s.obj.value, t.obj.value)
            && Finished(Exec(t, second), f) && (Converged(Exec(t, second), f) <==> s.account != "")
  {
    FirstReconcileClaims(s, first, f);
    SecondReconcileConverges(Exec(s, first), second, f);
  }

  /** Any further smooth reconcile of a converged bucket issues no write and no patch and changes nothing. */
  lemma {:induction false} ConvergedIsFixpoint(s: State, run: seq<Step>, f: Facts)
    requires Converged(s, f) && SmoothReconcile(s, run, f)
    ensures Exec(s, run) == s.(queued := false, failed := false)
  {
    Settings.AllMatchMeans(s.obj.value.spec.desired, s.remote.settings);
    var s1, rest := SmoothStart(s, run, f);
    TrackEnds(s1, s.obj.value, f, rest);
  }

  /** A drifted bucket of the controller is repaired: whatever its settings, a smooth reconcile converges. */
  lemma {:induction false} DriftIsRepaired(s: State, run: seq<Step>, f: Facts)
    requires Exists(s, Controller) && Held(s) && !s.obj.value.deleting && SmoothReconcile(s, run, f)
    ensures var t := Exec(s, run);
            && Finished(t, f) && t.remote.settings.policy.owner == s.remote.settings.policy.owner
            && (Converged(t, f) <==> s.remote.settings.policy.owner != "")
  {
    var s1, rest := SmoothStart(s, run, f);
    TrackEnds(s1, s.obj.value, f, rest);
    FinishedConverges(Exec(s, run), f);
  }

  /**
   * From every reachable state in which no foreign bucket stands in the way, smooth reconciles of an
   * object that is not being deleted finish: one if it is claimed, two if it is not. They converge
   * unless the ACL has no owner.
   */
  lemma {:induction false} SmoothReconcilesConverge(s: State, first: seq<Step>, second: seq<Step>, f: Facts)
    requires Safe(s) && s.obj.Some? && !s.obj.value.deleting && !Exists(s, Foreign)
    requires SmoothReconcile(s, first, f)
    ensures var t := Exec(s, first);
            Held(s) ==> Finished(t, f) && (Converged(t, f) <==> t.remote.settings.policy.owner != "")
    ensures !Held(s) && SmoothReconcile(Exec(s, first), second, f) ==>
              var t := Exec(Exec(s, first), second);
              Finished(t, f) && (Converged(t, f) <==> t.remote.settings.policy.owner != "")
  {
    if !Held(s) {
      FirstReconcileClaims(s, first, f);
      if SmoothReconcile(Exec(s, first), second, f) {
        SecondReconcileConverges(Exec(s, first), second, f);
        FinishedConverges(Exec(Exec(s, first), second), f);
      }
    } else if s.remote.Present? {
      DriftIsRepaired(s, first, f);
    } else {
      SecondReconcileConverges(s, first, f);
      FinishedConverges(Exec(s, first), f);
    }
  }

  // ----- Smooth reconciles exist -----

  function Rank(pc: Pc): nat {
    if pc.Read? then 3 * (if pc.i < |Settings.STEPS| then |Settings.STEPS| - pc.i else 0) + 2
    else if pc.Write? then 3 * (if pc.i < |Settings.STEPS| then |Settings.STEPS| - pc.i else 0) + 1
    else if pc.FinalObserve? then 1
    else 0
  }

  lemma {:induction false} TrackCompletes(s: State, o: Object, a: Answer) returns (run: seq<Step>)
    requires OnTrack(s, o, Facts(a.location, a.version)) && a.reply.Ok?
    ensures SmoothRest(s, run, Facts(a.location, a.version))
    decreases Rank(s.pc)
  {
    var f := Facts(a.location, a.version);
    var rest := [];
    if s.pc.Report? {
      ReportEnds(s, o, f, a);
    } else {
      CallOnTrack(s, o, f, a);
      rest := TrackCompletes(AdvanceStep(s, a), o, a);
    }
    PrependCall(s, a, rest, f);
    run := [Advance(a)] + rest;
  }

  /** Every tracked Bucket that is not being deleted and has no foreign bucket in its way has a smooth reconcile. */
  lemma {:induction false} SmoothReconcileExists(s: State, a: Answer) returns (run: seq<Step>)
    requires s.pc.Idle? && s.queued && s.obj.Some? && !s.obj.value.deleting && a.reply.Ok?
    requires s.remote.Present? ==> Held(s)
    ensures SmoothReconcile(s, run, Facts(a.location, a.version))
  {
    var f := Facts(a.location, a.version);
    var absent := Leaf(Obs(404, "NoSuchBucket"));
    AnswersAreUnderstood(absent);
    var observed := if s.remote.Present? then a else a.(reply := Settings.Failed(absent));
    var s1 := Apply(s, Start(true));
    var s2 := Apply(s1, Advance(a));
    var s3 := Apply(s2, Advance(observed));
    var rest := Branch(s3, s.obj.value, a);
    PrependCall(s2, observed, rest, f);
    PrependCall(s1, a, [Advance(observed)] + rest, f);
    var calls := [Advance(a)] + ([Advance(observed)] + rest);
    Prepend(s, Start(true), calls);
    run := [Start(true)] + calls;
    assert run[1..] == calls;
  }

  lemma {:induction false} Branch(s: State, o: Object, a: Answer) returns (run: seq<Step>)
    requires a.reply.Ok? && s.obj == Some(o) && !o.deleting
    requires || (s.pc.Claim? && s.pc.l.bucket == o)
             || (s.pc == Create(Local(o, Some(a.location), None)) && s.remote.Absent?)
             || (s.pc.Read? && s.pc.i == 0 && OnTrack(s, o, Facts(a.location, a.version)))
    ensures SmoothRest(s, run, Facts(a.location, a.version))
  {
    var f := Facts(a.location, a.version);
    if s.pc.Read? {
      run := TrackCompletes(s, o, a);
    } else {
      var rest := [];
      var t := Apply(s, Advance(a));
      if s.pc.Create? {
        rest := TrackCompletes(t, o, a);
      }
      PrependCall(s, a, rest, f);
      run := [Advance(a)] + rest;
    }
  }

  // ----- Observed generations -----

  predicate OwnGenerationBounded(o: Object) {
    o.status.observedGeneration <= o.generation
  }

  /** The reconciler works on the present incarnation of the object and its copy is not newer. */
  predicate GenerationsBounded(s: State) {
    && (s.obj.Some? ==> OwnGenerationBounded(s.obj.value) && s.obj.value.uid < s.nextUID)
    && (!s.pc.Idle? ==> OwnGenerationBounded(s.pc.l.bucket) && s.pc.l.bucket.uid < s.nextUID)
    && (!s.pc.Idle? && s.obj.Some? ==>
          && s.obj.value.uid == s.pc.l.bucket.uid
          && s.pc.l.bucket.generation <= s.obj.value.generation
          && s.obj.value.status == s.pc.l.bucket.status)
  }

  /** The object is not re-created under its name in the middle of a reconcile. */
  ghost predicate StableIdentity(s: State, run: seq<Step>)
    requires Legal(s, run)
    decreases |run|
  {
    run != [] ==> (run[0].UserCreate? ==> s.pc.Idle?) && StableIdentity(Apply(s, run[0]), run[1..])
  }

  /** On one incarnation of the object the observed generation does not go back. */
  predicate ObservedForward(s: State, t: State) {
    s.obj.Some? && t.obj.Some? && s.obj.value.uid == t.obj.value.uid ==>
      s.obj.value.status.observedGeneration <= t.obj.value.status.observedGeneration
  }

  lemma {:induction false} ReportKeepsGenerations(s: State, a: Answer)
    requires GenerationsBounded(s) && s.pc.Report? && Enabled(s, Advance(a))
    ensures GenerationsBounded(AdvanceStep(s, a)) && ObservedForward(s, AdvanceStep(s, a))
  {
    if s.obj.Some? {
      var l := s.pc.l;
      var next := Status.Updated(l.bucket.status, ReportOf(l, s.pc.err), a.now);
      assert Status.MergePatch(l.bucket.status, l.bucket.status, next) == next;
    }
  }

  lemma {:induction false} PatchKeepsGenerations(s: State, a: Answer)
    requires GenerationsBounded(s) && (s.pc.Claim? || s.pc.Release? || s.pc.Disown?) && Enabled(s, Advance(a))
    ensures GenerationsBounded(AdvanceStep(s, a)) && ObservedForward(s, AdvanceStep(s, a))
  {
    if s.pc.Disown? { DisownEffect(s, a); } else { ClosingPatchEffect(s, a); }
  }

  lemma {:induction false} StepKeepsGenerations(s: State, step: Step)
    requires GenerationsBounded(s) && Enabled(s, step) && (step.UserCreate? ==> s.pc.Idle?)
    ensures GenerationsBounded(Apply(s, step)) && ObservedForward(s, Apply(s, step))
  {
    if step.Advance? {
      if s.pc.Report? { ReportKeepsGenerations(s, step.answer); }
      else if WritesObject(s.pc) { PatchKeepsGenerations(s, step.answer); }
      else { CallLeavesObject(s, step.answer); }
    }
  }

  /** An identity that has been given up does not come back. */
  predicate Retired(s: State, uid: nat) {
    uid < s.nextUID && (s.obj.Some? ==> s.obj.value.uid != uid)
  }

  lemma {:induction false} StepKeepsRetired(s: State, step: Step, uid: nat)
    requires Enabled(s, step)
    ensures s.nextUID <= Apply(s, step).nextUID && (Retired(s, uid) ==> Retired(Apply(s, step), uid))
  {
    if step.Advance? {
      if s.pc.Report? { ReportEffect(s, step.answer); }
      else if s.pc.Disown? { DisownEffect(s, step.answer); }
      else if WritesObject(s.pc) { ClosingPatchEffect(s, step.answer); }
      else { CallLeavesObject(s, step.answer); }
    }
  }

  lemma {:induction false} RunKeepsRetired(s: State, run: seq<Step>, uid: nat)
    requires Legal(s, run) && Retired(s, uid)
    ensures Retired(Exec(s, run), uid)
    decreases |run|
  {
    if run != [] {
      StepKeepsRetired(s, run[0], uid);
      RunKeepsRetired(Apply(s, run[0]), run[1..], uid);
    }
  }

  /** Over a run the observed generation never exceeds the generation and never goes back. */
  lemma {:induction false} ObservedGenerationIsMonotone(s: State, run: seq<Step>)
    requires GenerationsBounded(s) && Legal(s, run) && StableIdentity(s, run)
    ensures GenerationsBounded(Exec(s, run)) && ObservedForward(s, Exec(s, run))
    decreases |run|
  {
    if run != [] {
      var t := Apply(s, run[0]);
      StepKeepsGenerations(s, run[0]);
      ObservedGenerationIsMonotone(t, run[1..]);
      if s.obj.Some? && !(t.obj.Some? && t.obj.value.uid == s.obj.value.uid) {
        StepKeepsRetired(s, run[0], s.obj.value.uid);
        RunKeepsRetired(t, run[1..], s.obj.value.uid);
      }
    }
  }

  /**
   * Without that hypothesis, a status patch keeps the bound exactly when the reconciler's copy is not
   * newer than the object the patch lands on, or the patch does not carry the observed generation.
   */
  lemma {:induction false} ReportStaysBoundedExactly(s: State, a: Answer)
    requires s.pc.Report? && Enabled(s, Advance(a)) && a.reply.Ok? && s.obj.Some? && OwnGenerationBounded(s.obj.value)
    ensures var b := s.pc.l.bucket;
            OwnGenerationBounded(AdvanceStep(s, a).obj.value)
            <==> (b.generation <= s.obj.value.generation || b.status.observedGeneration == b.generation)
  {
    var b := s.pc.l.bucket;
    var next := Status.Updated(b.status, ReportOf(s.pc.l, s.pc.err), a.now);
    Status.UpdatedShowsReport(b.status, ReportOf(s.pc.l, s.pc.err), a.now);
    assert next.observedGeneration == b.generation;
  }

  /** A report about an object of generation 2 lands on a successor of generation 1. */
  lemma {:induction false} StaleReportLands(s: State, spec: Spec) returns (run: seq<Step>)
    requires s.pc.Resolve? && s.pc.l.bucket.generation == 2 && s.pc.l.bucket.status == Status.EMPTY_STATUS
    requires s.obj.Some? && s.obj.value.finalizers == {}
    ensures Legal(s, run) && Exec(s, run).obj.Some? && !OwnGenerationBounded(Exec(s, run).obj.value)
  {
    var failed := Settings.Failed(Tagged(ProviderConfigNotFound, Leaf(Kube(true))));
    var create, resolve, report := UserCreate(spec, {}), Advance(Answered(failed)), Advance(Answered(Settings.Ok));
    var s1 := Apply(s, UserDelete);
    var s2 := Apply(s1, create);
    var s3 := Apply(s2, resolve);
    assert s3.pc.Report? && s3.pc.l.bucket == s.pc.l.bucket;
    var s4 := Apply(s3, report);
    assert s4.obj.value.generation == 1 && s4.obj.value.status.observedGeneration == 2;
    Prepend(s3, report, []);
    Prepend(s2, resolve, [report] + []);
    Prepend(s1, create, [resolve] + ([report] + []));
    run := [UserDelete] + ([create] + ([resolve] + ([report] + [])));
    Prepend(s, UserDelete, [create] + ([resolve] + ([report] + [])));
  }

  /** The hypothesis is needed: a status patch addresses the object by name, and the name may have changed hands. */
  lemma {:induction false} StaleReportOvertakesGeneration(s: State, spec: Spec) returns (run: seq<Step>)
    requires Initial(s) && s.remote.Absent?
    ensures Legal(s, run) && Exec(s, run).obj.Some? && !OwnGenerationBounded(Exec(s, run).obj.value)
  {
    var create, update := UserCreate(spec, {}), UserUpdate(spec);
    var s1 := Apply(s, create);
    var s2 := Apply(s1, update);
    var s3 := Apply(s2, Start(true));
    var rest := StaleReportLands(s3, spec);
    Prepend(s2, Start(true), rest);
    Prepend(s1, update, [Start(true)] + rest);
    run := [create] + ([update] + ([Start(true)] + rest));
    Prepend(s, create, [update] + ([Start(true)] + rest));
  }
}
