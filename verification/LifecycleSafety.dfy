/** What every run of the lifecycle protocol keeps: no leaked bucket, no foreign writes, no lost data. */
module LifecycleSafety {
  import opened Common
  import opened Errors
  import opened Lifecycle
  import Settings

  // ----- The claim behind each program point -----

  /** A finalizer in the reconciler's copy is a finalizer on the server, on the same object. */
  predicate Tracks(s: State, b: Object) {
    FINALIZER in b.finalizers ==> Held(s) && s.obj.value.uid == b.uid && (b.deleting ==> s.obj.value.deleting)
  }

  predicate Shape(s: State) {
    match s.pc
    case Idle => true
    case Resolve(l) => Tracks(s, l.bucket) && (l.bucket.deleting ==> FINALIZER in l.bucket.finalizers)
    case Observe(l) => Tracks(s, l.bucket) && (l.bucket.deleting ==> FINALIZER in l.bucket.finalizers)
    case Delete(l, again) => Tracks(s, l.bucket) && l.bucket.deleting && FINALIZER in l.bucket.finalizers
    case List(l) =>
      Tracks(s, l.bucket) && l.bucket.deleting && FINALIZER in l.bucket.finalizers && l.bucket.spec.forceDestroy
    case DeleteListed(l, _, _) =>
      Tracks(s, l.bucket) && l.bucket.deleting && FINALIZER in l.bucket.finalizers && l.bucket.spec.forceDestroy
    case Release(l) => Tracks(s, l.bucket) && l.bucket.deleting && FINALIZER in l.bucket.finalizers
    case Claim(l) => !l.bucket.deleting && FINALIZER !in l.bucket.finalizers
    case Create(l) => Tracks(s, l.bucket) && !l.bucket.deleting && FINALIZER in l.bucket.finalizers
    case Disown(l) => Tracks(s, l.bucket) && !l.bucket.deleting && FINALIZER in l.bucket.finalizers
    case Read(l, i) =>
      Tracks(s, l.bucket) && !l.bucket.deleting && FINALIZER in l.bucket.finalizers && i < |Settings.STEPS|
    case Write(l, i) =>
      Tracks(s, l.bucket) && !l.bucket.deleting && FINALIZER in l.bucket.finalizers && i < |Settings.STEPS|
    case FinalObserve(l) => Tracks(s, l.bucket) && !l.bucket.deleting && FINALIZER in l.bucket.finalizers
    case Report(_, _, _) => true
  }

  /** Points at which the reconciler has seen that a bucket of its own does not exist. */
  predicate KnowsOwnAbsent(pc: Pc) {
    pc.Claim? || pc.Create? || pc.Disown? || pc.Release?
  }

  predicate NoLeak(s: State) {
    && (Exists(s, Controller) ==> Held(s))
    && (KnowsOwnAbsent(s.pc) ==> !Exists(s, Controller))
  }

  predicate Safe(s: State) {
    Shape(s) && NoLeak(s) && DeletionsAuthorised(s.log)
  }

  /**
   * Object versions were deleted only under deletion, with the finalizer held, and with forceDestroy
   * set when the object was read.
   */
  predicate DeletionsAuthorised(log: seq<Record>) {
    forall r | r in log && r.call.DeleteObjects? :: r.deleting && r.held && r.forceAsRead
  }

  /** From the observation that the name is free until the finalizer is gone, the name is claimed. */
  predicate Claimed(s: State) {
    Held(s) || s.pc.Claim?
  }

  predicate NameFree(s: State) {
    Claimed(s) ==> !Exists(s, Foreign)
  }

  /** A settings write, bucket delete or object delete that hit a bucket of somebody else. */
  predicate ForeignWrite(r: Record) {
    (r.call.WriteSetting? || r.call.DeleteBucket? || r.call.DeleteObjects?) && r.target == Some(Foreign)
  }

  predicate Owned(s: State) {
    NameFree(s) && forall r | r in s.log :: !ForeignWrite(r)
  }

  // ----- One step -----

  /** The call that is recorded at a program point. */
  function CallAt(pc: Pc): Option<Call>
    requires pc.Write? ==> pc.i < |Settings.STEPS|
  {
    match pc
    case Delete(_, _) => Some(DeleteBucket)
    case DeleteListed(_, _, _) => Some(DeleteObjects)
    case Create(_) => Some(CreateBucket)
    case Write(_, i) => Some(WriteSetting(Settings.STEPS[i]))
    case Release(_) => Some(PatchFinalizers)
    case Claim(_) => Some(PatchFinalizers)
    case Disown(_) => Some(PatchFinalizers)
    case Report(_, _, _) => Some(PatchStatus)
    case _ => None
  }

  /** A step records at most the call of its program point. */
  predicate Records(s: State, t: State)
    requires !s.pc.Idle? && (s.pc.Write? ==> s.pc.i < |Settings.STEPS|)
  {
    t.log == s.log || (CallAt(s.pc).Some? && t.log == Logged(s, CallAt(s.pc).value, s.pc.l).log)
  }

  lemma {:induction false} RecordsKeepLog(s: State, t: State)
    requires Safe(s) && !s.pc.Idle? && Records(s, t)
    ensures DeletionsAuthorised(t.log) && (Owned(s) ==> forall r | r in t.log :: !ForeignWrite(r))
  {
  }

  lemma {:induction false} ProbeKeepsClaim(s: State, a: Answer)
    requires Shape(s) && NoLeak(s) && (s.pc.Resolve? || s.pc.FinalObserve?)
    ensures var t := AdvanceStep(s, a); Shape(t) && NoLeak(t) && (NameFree(s) ==> NameFree(t)) && Records(s, t)
  {
  }

  lemma {:induction false} ObservationKeepsClaim(s: State, a: Answer)
    requires Shape(s) && NoLeak(s) && s.pc.Observe? && Enabled(s, Advance(a))
    ensures var t := AdvanceStep(s, a); Shape(t) && NoLeak(t) && (NameFree(s) ==> NameFree(t)) && Records(s, t)
  {
    if !a.reply.Ok? { AnswersAreUnderstood(a.reply.error); }
  }

  /** The three ways a delete call ends; the bucket is known to be gone before the finalizer goes. */
  lemma {:induction false} DeletionEffect(s: State, a: Answer)
    requires s.pc.Delete? && Enabled(s, Advance(a))
    ensures var t := AdvanceStep(s, a);
            && t.obj == s.obj && (t.remote == s.remote || t.remote.Absent?)
            && t.log == Logged(s, DeleteBucket, s.pc.l).log
            && (t.pc == Release(s.pc.l) || (t.pc == List(s.pc.l) && s.pc.l.bucket.spec.forceDestroy) || t.pc.Report?)
            && (t.pc.Release? ==> t.remote.Absent?)
  {
    if !a.reply.Ok? { AnswersAreUnderstood(a.reply.error); }
  }

  lemma {:induction false} DeletionKeepsClaim(s: State, a: Answer)
    requires Shape(s) && NoLeak(s) && s.pc.Delete? && Enabled(s, Advance(a))
    ensures var t := AdvanceStep(s, a); Shape(t) && NoLeak(t) && (NameFree(s) ==> NameFree(t)) && Records(s, t)
  {
    DeletionEffect(s, a);
  }

  lemma {:induction false} EmptyingKeepsClaim(s: State, a: Answer)
    requires Shape(s) && NoLeak(s) && (s.pc.List? || s.pc.DeleteListed?)
    ensures var t := AdvanceStep(s, a); Shape(t) && NoLeak(t) && (NameFree(s) ==> NameFree(t)) && Records(s, t)
  {
  }

  lemma {:induction false} CreationKeepsClaim(s: State, a: Answer)
    requires Shape(s) && NoLeak(s) && s.pc.Create? && Enabled(s, Advance(a))
    ensures var t := AdvanceStep(s, a); Shape(t) && NoLeak(t) && (NameFree(s) ==> NameFree(t)) && Records(s, t)
  {
    if !a.reply.Ok? { AnswersAreUnderstood(a.reply.error); }
  }

  lemma {:induction false} DisownKeepsClaim(s: State, a: Answer)
    requires Shape(s) && NoLeak(s) && s.pc.Disown?
    ensures var t := AdvanceStep(s, a); Shape(t) && NoLeak(t) && (NameFree(s) ==> NameFree(t)) && Records(s, t)
  {
  }

  lemma {:induction false} PatchKeepsClaim(s: State, a: Answer)
    requires Shape(s) && NoLeak(s) && (s.pc.Release? || s.pc.Claim?)
    ensures var t := AdvanceStep(s, a); Shape(t) && NoLeak(t) && (NameFree(s) ==> NameFree(t)) && Records(s, t)
  {
  }

  lemma {:induction false} SettingKeepsClaim(s: State, t: State, i: nat, o: Settings.Outcome)
    requires Shape(s) && NoLeak(s) && (s.pc.Read? || s.pc.Write?) && i == s.pc.i
    requires t.obj == s.obj && t.pc == s.pc && t.remote.Present? == s.remote.Present?
    requires s.remote.Present? ==> t.remote.creator == s.remote.creator
    ensures var u := AfterSetting(t, s.pc.l, i, o);
            Shape(u) && NoLeak(u) && (NameFree(s) ==> NameFree(u)) && u.log == t.log
  {
  }

  lemma {:induction false} ReadingKeepsClaim(s: State, a: Answer)
    requires Shape(s) && NoLeak(s) && s.pc.Read?
    ensures var t := AdvanceStep(s, a); Shape(t) && NoLeak(t) && (NameFree(s) ==> NameFree(t)) && Records(s, t)
  {
    SettingKeepsClaim(s, s, s.pc.i, ReadOutcome(s, s.pc.l, s.pc.i, a.reply));
  }

  lemma {:induction false} WritingKeepsClaim(s: State, a: Answer)
    requires Shape(s) && NoLeak(s) && s.pc.Write?
    ensures var t := AdvanceStep(s, a); Shape(t) && NoLeak(t) && (NameFree(s) ==> NameFree(t)) && Records(s, t)
  {
    var w := Settings.STEPS[s.pc.i];
    SettingKeepsClaim(s, Written(s, s.pc.l, w, a.reply), s.pc.i, WriteOutcome(s.pc.l, s.pc.i, a.reply));
  }

  /** The reconcile has ended and at most the status was written. */
  predicate OnlyStatus(s: State, t: State, l: Local) {
    && t.pc.Idle? && t.remote == s.remote && t.nextUID == s.nextUID && t.account == s.account
    && (t.log == s.log || t.log == Logged(s, PatchStatus, l).log)
    && (t.obj == s.obj ||
        (s.obj.Some? && t.obj.Some? && t.obj.value == s.obj.value.(status := t.obj.value.status)))
  }

  lemma {:induction false} StatusEffect(s: State, l: Local, err: Option<Error>, park: bool, a: Answer)
    ensures OnlyStatus(s, UpdateStatus(s, l, err, park, a), l)
  {
  }

  lemma {:induction false} ReportEffect(s: State, a: Answer)
    requires s.pc.Report?
    ensures OnlyStatus(s, AdvanceStep(s, a), s.pc.l)
  {
    StatusEffect(if s.pc.err.Some? then s.(cause := s.pc.err) else s, s.pc.l, s.pc.err, s.pc.park, a);
  }

  lemma {:induction false} ReportingKeepsClaim(s: State, a: Answer)
    requires Shape(s) && NoLeak(s) && s.pc.Report?
    ensures var t := AdvanceStep(s, a); Shape(t) && NoLeak(t) && (NameFree(s) ==> NameFree(t)) && Records(s, t)
  {
    ReportEffect(s, a);
  }

  lemma {:induction false} AdvanceKeepsSafe(s: State, a: Answer)
    requires Safe(s) && Enabled(s, Advance(a))
    ensures Safe(AdvanceStep(s, a)) && (Owned(s) ==> Owned(AdvanceStep(s, a)))
  {
    AdvanceKeepsClaim(s, a);
    RecordsKeepLog(s, AdvanceStep(s, a));
  }

  lemma {:induction false} AdvanceKeepsClaim(s: State, a: Answer)
    requires Shape(s) && NoLeak(s) && Enabled(s, Advance(a))
    ensures var t := AdvanceStep(s, a); Shape(t) && NoLeak(t) && (NameFree(s) ==> NameFree(t)) && Records(s, t)
  {
    match s.pc
    case Resolve(_) => ProbeKeepsClaim(s, a);
    case FinalObserve(_) => ProbeKeepsClaim(s, a);
    case Observe(_) => ObservationKeepsClaim(s, a);
    case Delete(_, _) => DeletionKeepsClaim(s, a);
    case List(_) => EmptyingKeepsClaim(s, a);
    case DeleteListed(_, _, _) => EmptyingKeepsClaim(s, a);
    case Create(_) => CreationKeepsClaim(s, a);
    case Release(_) => PatchKeepsClaim(s, a);
    case Claim(_) => PatchKeepsClaim(s, a);
    case Disown(_) => DisownKeepsClaim(s, a);
    case Read(_, _) => ReadingKeepsClaim(s, a);
    case Write(_, _) => WritingKeepsClaim(s, a);
    case Report(_, _, _) => ReportingKeepsClaim(s, a);
  }

  /** What users and other OBS clients do. */
  lemma {:induction false} OthersKeepClaim(s: State, step: Step)
    requires Shape(s) && NoLeak(s) && Enabled(s, step) && !step.Advance? && !step.Start?
    ensures var t := Apply(s, step); Shape(t) && NoLeak(t) && t.log == s.log
    ensures NameFree(s) && (step.ForeignCreate? ==> !Claimed(s)) ==> NameFree(Apply(s, step))
  {
    match step
    case Crash =>
    case Wake =>
    case UserCreate(_, _) =>
    case UserUpdate(_) =>
    case UserDelete =>
    case OtherFinalizers(_) =>
    case ForeignCreate(_, _) =>
    case ForeignDelete =>
    case ForeignChange(_, _) =>
  }

  lemma {:induction false} StepKeepsSafe(s: State, step: Step)
    requires Safe(s) && Enabled(s, step)
    ensures Safe(Apply(s, step))
    ensures Owned(s) && (step.ForeignCreate? ==> !Claimed(s)) ==> Owned(Apply(s, step))
  {
    match step
    case Advance(a) => AdvanceKeepsSafe(s, a);
    case Start(readOk) => assert Apply(s, step).obj == s.obj && Apply(s, step).remote == s.remote
        && Apply(s, step).log == s.log;
    case _ => OthersKeepClaim(s, step);
  }

  /** Every state of every run, with crashes and lost replies anywhere, is safe. */
  lemma {:induction false} RunKeepsSafe(s: State, run: seq<Step>)
    requires Safe(s) && Legal(s, run)
    ensures Safe(Exec(s, run))
    decreases |run|
  {
    if run != [] {
      StepKeepsSafe(s, run[0]);
      RunKeepsSafe(Apply(s, run[0]), run[1..]);
    }
  }

  /** A remote bucket that the controller created always has a Bucket object that carries the finalizer. */
  lemma {:induction false} NoLeakedBucket(s: State, run: seq<Step>)
    requires Initial(s) && Legal(s, run)
    ensures Exists(Exec(s, run), Controller) ==> Held(Exec(s, run))
  {
    RunKeepsSafe(s, run);
  }

  predicate WritesObject(pc: Pc) {
    pc.Idle? || pc.Report? || pc.Claim? || pc.Release? || pc.Disown?
  }

  /** The object and the reconciler's copy of it are as they were; success follows only a final observation. */
  predicate SameObject(s: State, t: State)
    requires !s.pc.Idle?
  {
    && t.obj == s.obj && t.nextUID == s.nextUID && !t.pc.Idle? && t.pc.l.bucket == s.pc.l.bucket
    && (t.pc.Report? && t.pc.err.None? ==> s.pc.FinalObserve?)
  }

  lemma {:induction false} ReadingLeavesObject(s: State, a: Answer)
    requires s.pc.Read? && Enabled(s, Advance(a))
    ensures SameObject(s, AdvanceStep(s, a))
  {
  }

  lemma {:induction false} WritingLeavesObject(s: State, a: Answer)
    requires s.pc.Write? && Enabled(s, Advance(a))
    ensures SameObject(s, AdvanceStep(s, a))
  {
  }

  lemma {:induction false} ProbeLeavesObject(s: State, a: Answer)
    requires s.pc.Resolve? || s.pc.Observe? || s.pc.FinalObserve? || s.pc.Create?
    ensures SameObject(s, AdvanceStep(s, a))
  {
  }

  lemma {:induction false} DeletionLeavesObject(s: State, a: Answer)
    requires s.pc.Delete? || s.pc.List? || s.pc.DeleteListed?
    ensures SameObject(s, AdvanceStep(s, a))
  {
  }

  /** Calls to OBS do not change the object, nor the reconciler's copy of it. */
  lemma {:induction false} CallLeavesObject(s: State, a: Answer)
    requires !WritesObject(s.pc) && Enabled(s, Advance(a))
    ensures SameObject(s, AdvanceStep(s, a))
  {
    if s.pc.Read? { ReadingLeavesObject(s, a); }
    else if s.pc.Write? { WritingLeavesObject(s, a); }
    else if s.pc.Delete? || s.pc.List? || s.pc.DeleteListed? { DeletionLeavesObject(s, a); }
    else { ProbeLeavesObject(s, a); }
  }

  lemma {:induction false} OnlyPatchesClearFinalizer(s: State, step: Step)
    requires Safe(s) && Enabled(s, step) && Held(s) && !Held(Apply(s, step))
    ensures step.Advance? && (s.pc.Release? || s.pc.Disown?) && Apply(s, step).remote == s.remote
  {
    if step.Advance? && !WritesObject(s.pc) {
      CallLeavesObject(s, step.answer);
    }
  }

  /** The finalizer is given up only by the controller, and only while its own bucket does not exist. */
  lemma {:induction false} FinalizerLeavesLast(s: State, run: seq<Step>, step: Step)
    requires Initial(s) && Legal(s, run) && Enabled(Exec(s, run), step)
    requires Held(Exec(s, run)) && !Held(Apply(Exec(s, run), step))
    ensures step.Advance? && (Exec(s, run).pc.Release? || Exec(s, run).pc.Disown?)
    ensures !Exists(Exec(s, run), Controller) && !Exists(Apply(Exec(s, run), step), Controller)
  {
    RunKeepsSafe(s, run);
    OnlyPatchesClearFinalizer(Exec(s, run), step);
  }

  lemma {:induction false} ObjectDeletionsAuthorised(s: State, run: seq<Step>)
    requires Initial(s) && Legal(s, run)
    ensures DeletionsAuthorised(Exec(s, run).log)
  {
    RunKeepsSafe(s, run);
  }

  // ----- Ownership -----

  /** Nobody else creates a bucket of this name while it is claimed. */
  ghost predicate QuietRun(s: State, run: seq<Step>)
    requires Legal(s, run)
    decreases |run|
  {
    run != [] ==> (run[0].ForeignCreate? ==> !Claimed(s)) && QuietRun(Apply(s, run[0]), run[1..])
  }

  lemma {:induction false} RunKeepsOwned(s: State, run: seq<Step>)
    requires Safe(s) && Owned(s) && Legal(s, run) && QuietRun(s, run)
    ensures Owned(Exec(s, run))
    decreases |run|
  {
    if run != [] {
      StepKeepsSafe(s, run[0]);
      RunKeepsOwned(Apply(s, run[0]), run[1..]);
    }
  }

  /** Everything the controller ever modified or deleted, over a whole run, it had created itself. */
  lemma {:induction false} OwnershipSafety(s: State, run: seq<Step>)
    requires Initial(s) && Legal(s, run) && QuietRun(s, run)
    ensures forall r | r in Exec(s, run).log :: !ForeignWrite(r)
  {
    RunKeepsOwned(s, run);
  }

  // ----- Putting runs together -----

  function Answered(r: Reply): Answer {
    Answer(r, {}, false, ("", ""), "", 0)
  }

  lemma {:induction false} Prepend(s: State, step: Step, run: seq<Step>)
    requires Enabled(s, step) && Legal(Apply(s, step), run)
    ensures Legal(s, [step] + run) && Exec(s, [step] + run) == Exec(Apply(s, step), run)
  {
    assert ([step] + run)[1..] == run;
  }

  lemma {:induction false} Concat(s: State, front: seq<Step>, back: seq<Step>)
    requires Legal(s, front) && Legal(Exec(s, front), back)
    ensures Legal(s, front + back) && Exec(s, front + back) == Exec(Exec(s, front), back)
    decreases |front|
  {
    if front == [] {
      assert front + back == back;
    } else {
      Concat(Apply(s, front[0]), front[1..], back);
      assert (front + back)[1..] == front[1..] + back;
    }
  }

  // ----- A bucket that must not be destroyed -----

  /**
   * A bucket with contents whose object is being deleted without forceDestroy, however far a reconcile
   * has got: its copy may be older than the deletion, and if it is not it has no forceDestroy either.
   */
  predicate Protected(s: State, contents: set<Entry>) {
    && s.obj.Some? && s.obj.value.deleting && Held(s) && !s.obj.value.spec.forceDestroy
    && s.remote.Present? && contents <= s.remote.contents && contents != {}
    && !KnowsOwnAbsent(s.pc)
    && (!s.pc.Idle? && !s.pc.Report? && s.pc.l.bucket.deleting ==> !s.pc.l.bucket.spec.forceDestroy)
  }

  /** Nobody sets forceDestroy, and other OBS clients take nothing away; they may add to the bucket. */
  predicate Sparing(s: State, step: Step) {
    && (step.UserUpdate? ==> !step.spec.forceDestroy)
    && !step.ForeignDelete? && (step.ForeignChange? && s.remote.Present? ==> s.remote.contents <= step.contents)
  }

  ghost predicate SparingRun(s: State, run: seq<Step>)
    requires Legal(s, run)
    decreases |run|
  {
    run != [] ==> Sparing(s, run[0]) && SparingRun(Apply(s, run[0]), run[1..])
  }

  lemma {:induction false} ProbeKeepsProtected(s: State, a: Answer, contents: set<Entry>)
    requires Shape(s) && Protected(s, contents) && Enabled(s, Advance(a))
    requires s.pc.Resolve? || s.pc.Observe? || s.pc.FinalObserve?
    ensures Protected(AdvanceStep(s, a), contents)
  {
    if !s.pc.Resolve? && !a.reply.Ok? { AnswersAreUnderstood(a.reply.error); }
  }

  lemma {:induction false} RefusalKeepsProtected(s: State, a: Answer, contents: set<Entry>)
    requires Shape(s) && Protected(s, contents) && Enabled(s, Advance(a)) && s.pc.Delete?
    ensures Protected(AdvanceStep(s, a), contents)
  {
    if !a.reply.Ok? { AnswersAreUnderstood(a.reply.error); }
  }

  lemma {:induction false} ReportKeepsProtected(s: State, a: Answer, contents: set<Entry>)
    requires Protected(s, contents) && s.pc.Report?
    ensures Protected(AdvanceStep(s, a), contents)
  {
    ReportEffect(s, a);
  }

  lemma {:induction false} SettingKeepsProtected(s: State, t: State, o: Settings.Outcome, contents: set<Entry>)
    requires Shape(s) && Protected(s, contents) && (s.pc.Read? || s.pc.Write?)
    requires t.obj == s.obj && t.remote.Present? && t.remote.contents == s.remote.contents && t.pc == s.pc
    ensures Protected(AfterSetting(t, s.pc.l, s.pc.i, o), contents)
  {
  }

  lemma {:induction false} CallKeepsProtected(s: State, a: Answer, contents: set<Entry>)
    requires Shape(s) && Protected(s, contents) && Enabled(s, Advance(a))
    ensures Protected(AdvanceStep(s, a), contents)
  {
    if s.pc.Read? {
      SettingKeepsProtected(s, s, ReadOutcome(s, s.pc.l, s.pc.i, a.reply), contents);
    } else if s.pc.Write? {
      var t := Written(s, s.pc.l, Settings.STEPS[s.pc.i], a.reply);
      SettingKeepsProtected(s, t, WriteOutcome(s.pc.l, s.pc.i, a.reply), contents);
    } else if s.pc.Delete? {
      RefusalKeepsProtected(s, a, contents);
    } else if s.pc.Report? {
      ReportKeepsProtected(s, a, contents);
    } else {
      ProbeKeepsProtected(s, a, contents);
    }
  }

  lemma {:induction false} StepKeepsProtected(s: State, step: Step, contents: set<Entry>)
    requires Shape(s) && Protected(s, contents) && Enabled(s, step) && Sparing(s, step)
    ensures Protected(Apply(s, step), contents)
  {
    if step.Advance? {
      CallKeepsProtected(s, step.answer, contents);
    }
  }

  /** Through any number of reconciles nothing of its contents is lost and the object keeps its finalizer. */
  lemma {:induction false} ProtectedContentsSurvive(s: State, run: seq<Step>, contents: set<Entry>)
    requires Safe(s) && Protected(s, contents) && Legal(s, run) && SparingRun(s, run)
    ensures Protected(Exec(s, run), contents)
    decreases |run|
  {
    if run != [] {
      StepKeepsSafe(s, run[0]);
      StepKeepsProtected(s, run[0], contents);
      ProtectedContentsSurvive(Apply(s, run[0]), run[1..], contents);
    }
  }

  /** A user's deletion protects the contents of a bucket of the controller from the moment it arrives. */
  lemma {:induction false} DeletionProtects(s: State)
    requires Safe(s) && Held(s) && !s.obj.value.deleting && !s.obj.value.spec.forceDestroy
    requires Exists(s, Controller) && s.remote.contents != {}
    ensures Protected(Apply(s, UserDelete), s.remote.contents)
  {
  }
}
