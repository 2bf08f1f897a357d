/**
 * What Ready=True says. A report is trusted while nobody else has changed the remote bucket since the
 * reconcile that made it began to read the settings; then the bucket exists and is as the spec asks.
 */
module LifecycleReady {
  import opened Common
  import opened Errors
  import opened Lifecycle
  import opened LifecycleSafety
  import Settings
  import Status

  predicate ReadyTrue(status: Status.BucketStatus) {
    Status.ReadyCondition(status).Some? && Status.ReadyCondition(status).value.status
  }

  /** The object reports Ready=True for its present generation. */
  predicate ReadyShown(s: State) {
    s.obj.Some? && ReadyTrue(s.obj.value.status) && s.obj.value.status.observedGeneration == s.obj.value.generation
  }

  predicate AllAttained(d: Settings.Desired, r: Settings.Remote) {
    forall w :: Settings.Attained(w, d, r)
  }

  /** The bucket exists with every setting as specified. */
  ghost predicate MeetsSpec(s: State)
    requires s.obj.Some?
  {
    s.remote.Present? && Settings.AsSpecified(s.obj.value.spec.desired, s.remote.settings)
  }

  /** An ACL without an owner is the only thing that can keep an attained bucket from matching. */
  lemma AttainedMatches(d: Settings.Desired, r: Settings.Remote)
    requires AllAttained(d, r)
    ensures Settings.AsSpecified(d, r) <==> r.policy.owner != ""
    ensures Settings.AllMatch(d, r) <==> r.policy.owner != ""
  {
    Settings.AllMatchMeans(d, r);
    if r.policy.owner != "" {
      forall w ensures Settings.Matches(w, d, r) {
        assert Settings.Attained(w, d, r);
      }
    } else {
      assert !Settings.Matches(Settings.CannedAcl, d, r);
    }
  }

  predicate ForeignStep(step: Step) {
    step.ForeignCreate? || step.ForeignDelete? || step.ForeignChange?
  }

  // ----- Copy and object -----

  /** A report of success is about the generation it names, or an older one, and not about a deletion. */
  predicate HonestReport(o: Object) {
    ReadyTrue(o.status) ==>
      o.status.observedGeneration <= o.generation && (o.status.observedGeneration == o.generation ==> !o.deleting)
  }

  /** The object is the one that was copied, possibly with a newer spec, or a new one without a status. */
  predicate CopyOf(b: Object, o: Object) {
    if o.uid == b.uid then
      && o.status == b.status && b.generation <= o.generation
      && (b.generation == o.generation ==> b.spec == o.spec && b.deleting == o.deleting)
    else o.status == Status.EMPTY_STATUS
  }

  predicate Bookkeeping(s: State) {
    && (s.obj.Some? ==> HonestReport(s.obj.value) && s.obj.value.uid < s.nextUID)
    && (!s.pc.Idle? ==> HonestReport(s.pc.l.bucket) && s.pc.l.bucket.uid < s.nextUID)
    && (!s.pc.Idle? && s.obj.Some? ==> CopyOf(s.pc.l.bucket, s.obj.value))
  }

  /** A success is reported only for an object that carries the finalizer. */
  predicate SuccessTracks(s: State) {
    s.pc.Report? && s.pc.err.None? ==>
      Tracks(s, s.pc.l.bucket) && FINALIZER in s.pc.l.bucket.finalizers && !s.pc.l.bucket.deleting
  }

  /** What the object shows after a report of success: what it showed before, or the copy's generation. */
  lemma {:induction false} SuccessEffect(s: State, a: Answer)
    requires Bookkeeping(s) && SuccessTracks(s) && s.pc.Report? && s.pc.err.None?
    ensures var t := AdvanceStep(s, a);
            && t.pc.Idle? && t.remote == s.remote && t.obj.Some? && s.obj.Some?
            && t.nextUID == s.nextUID && t.obj.value == s.obj.value.(status := t.obj.value.status)
            && (t.obj == s.obj || t.obj.value.status.observedGeneration == s.pc.l.bucket.generation)
  {
    var b := s.pc.l.bucket;
    var next := Status.Updated(b.status, ReportOf(s.pc.l, None), a.now);
    assert Status.MergePatch(b.status, b.status, next) == next;
  }

  /** A report of a failure leaves the object as it is, or not ready. */
  lemma {:induction false} FailureEffect(s: State, a: Answer)
    requires Bookkeeping(s) && s.pc.Report? && s.pc.err.Some?
    ensures var t := AdvanceStep(s, a);
            && t.pc.Idle? && t.remote == s.remote && t.nextUID == s.nextUID
            && (t.obj == s.obj || (s.obj.Some? && t.obj.Some? && !ReadyTrue(t.obj.value.status)
                                   && t.obj.value == s.obj.value.(status := t.obj.value.status)))
  {
    var l := s.pc.l;
    var r := ReportOf(l, s.pc.err);
    Status.UpdatedShowsReport(l.bucket.status, r, a.now);
  }

  lemma {:induction false} ReportKeepsBookkeeping(s: State, a: Answer)
    requires Bookkeeping(s) && SuccessTracks(s) && s.pc.Report?
    ensures Bookkeeping(AdvanceStep(s, a))
  {
    if s.pc.err.None? { SuccessEffect(s, a); } else { FailureEffect(s, a); }
  }

  lemma {:induction false} ClosingPatchKeepsBookkeeping(s: State, a: Answer)
    requires Bookkeeping(s) && (s.pc.Claim? || s.pc.Release?) && Enabled(s, Advance(a))
    ensures Bookkeeping(AdvanceStep(s, a)) && SuccessTracks(AdvanceStep(s, a))
  {
    ClosingPatchEffect(s, a);
  }

  predicate DiffersInFinalizers(o: Object, o': Object) {
    o' == o.(finalizers := o'.finalizers)
  }

  /** The patch after a conflict changes finalizers only; the copy is then the object's or stays its own. */
  lemma {:induction false} DisownEffect(s: State, a: Answer)
    requires s.pc.Disown? && Enabled(s, Advance(a))
    ensures var t := AdvanceStep(s, a);
            && t.pc.Report? && t.pc.err.Some? && t.nextUID == s.nextUID && t.remote == s.remote
            && (t.obj.Some? ==> s.obj.Some? && DiffersInFinalizers(s.obj.value, t.obj.value))
            && (|| DiffersInFinalizers(s.pc.l.bucket, t.pc.l.bucket)
                || (s.obj.Some? && DiffersInFinalizers(s.obj.value, t.pc.l.bucket)))
  {
  }

  lemma {:induction false} DisownKeepsBookkeeping(s: State, a: Answer)
    requires Bookkeeping(s) && s.pc.Disown? && Enabled(s, Advance(a))
    ensures Bookkeeping(AdvanceStep(s, a)) && SuccessTracks(AdvanceStep(s, a))
  {
    DisownEffect(s, a);
  }

  lemma {:induction false} FinalObserveTracks(s: State, a: Answer)
    requires Shape(s) && s.pc.FinalObserve?
    ensures SuccessTracks(AdvanceStep(s, a))
  {
  }

  lemma {:induction false} AdvanceKeepsBookkeeping(s: State, a: Answer)
    requires Safe(s) && Bookkeeping(s) && SuccessTracks(s) && Enabled(s, Advance(a))
    ensures Bookkeeping(AdvanceStep(s, a)) && SuccessTracks(AdvanceStep(s, a))
  {
    if s.pc.Report? {
      ReportKeepsBookkeeping(s, a);
    } else if s.pc.Disown? {
      DisownKeepsBookkeeping(s, a);
    } else if WritesObject(s.pc) {
      ClosingPatchKeepsBookkeeping(s, a);
    } else {
      CallLeavesObject(s, a);
      if s.pc.FinalObserve? { FinalObserveTracks(s, a); }
    }
  }

  lemma {:induction false} OthersKeepBookkeeping(s: State, step: Step)
    requires Bookkeeping(s) && SuccessTracks(s) && Enabled(s, step) && !step.Advance?
    ensures Bookkeeping(Apply(s, step)) && SuccessTracks(Apply(s, step))
  {
    match step
    case Start(_) =>
    case Crash =>
    case Wake =>
    case UserCreate(_, _) =>
    case UserUpdate(_) =>
    case UserDelete =>
    case OtherFinalizers(_) =>
    case ForeignCreate(_, _) =>
    case ForeignDelete =>
    case ForeignChange(_, _) =>
  }

  // ----- The settings that a reconcile has verified -----

  predicate Verifying(pc: Pc) {
    pc.Read? || pc.Write? || pc.FinalObserve? || (pc.Report? && pc.err.None?)
  }

  /** How many settings have been dealt with. */
  function Reached(pc: Pc): nat {
    if pc.Read? || pc.Write? then pc.i else |Settings.STEPS|
  }

  predicate AttainedBelow(d: Settings.Desired, r: Settings.Remote, i: nat) {
    forall j | 0 <= j < i && j < |Settings.STEPS| :: Settings.Attained(Settings.STEPS[j], d, r)
  }

  predicate Verified(s: State)
    requires Verifying(s.pc)
  {
    s.remote.Present? && AttainedBelow(s.pc.l.bucket.spec.desired, s.remote.settings, Reached(s.pc))
  }

  /** The bucket is claimed, exists, is not about to be created, and has what the spec asks. */
  predicate Truthful(s: State)
    requires s.obj.Some?
  {
    && Held(s) && !s.pc.Create? && !s.pc.Disown?
    && s.remote.Present? && AllAttained(s.obj.value.spec.desired, s.remote.settings)
  }

  lemma AttainedBelowAll(d: Settings.Desired, r: Settings.Remote)
    requires AttainedBelow(d, r, |Settings.STEPS|)
    ensures AllAttained(d, r)
  {
    forall w ensures Settings.Attained(w, d, r) {
      assert Settings.STEPS[Settings.Position(w)] == w;
    }
  }

  /** A write loses nothing that was attained. */
  lemma PutKeepsAttained(w: Settings.Setting, d: Settings.Desired, r: Settings.Remote, i: nat)
    ensures AllAttained(d, r) ==> AllAttained(d, Settings.Put(w, d, r))
    ensures AttainedBelow(d, r, i) ==> AttainedBelow(d, Settings.Put(w, d, r), i)
  {
    var r' := Settings.Put(w, d, r);
    Settings.PutEstablishes(w, d, r);
    forall v ensures Settings.Attained(v, d, r) ==> Settings.Attained(v, d, r') {
      if v != w { Settings.MatchesElsewhere(w, v, d, r, r'); }
    }
  }

  // ----- Which reports are trusted -----

  /**
   * `clean`: since a reconcile last began to read the settings nobody else has changed the bucket.
   * `trusted`: the same of the last reconcile that reported success.
   */
  datatype Watch = Watch(clean: bool, trusted: bool)

  ghost function Watched(s: State, w: Watch, step: Step): Watch
    requires Enabled(s, step)
  {
    if ForeignStep(step) then Watch(false, false)
    else if !step.Advance? then w
    else if (s.pc.Observe? || s.pc.Create?) && Apply(s, step).pc.Read? then w.(clean := true)
    else if s.pc.Report? && s.pc.err.None? then w.(trusted := w.clean)
    else w
  }

  ghost function WatchOver(s: State, w: Watch, run: seq<Step>): Watch
    requires Legal(s, run)
    decreases |run|
  {
    if run == [] then w else WatchOver(Apply(s, run[0]), Watched(s, w, run[0]), run[1..])
  }

  predicate Truth(s: State, w: Watch) {
    && (w.clean && Verifying(s.pc) ==> Verified(s))
    && (w.trusted && ReadyShown(s) ==> Truthful(s))
  }

  /** What a report of success shows for the present generation is about the present spec. */
  lemma ShownSpec(s: State)
    requires Bookkeeping(s) && ReadyShown(s) && !s.pc.Idle? && s.obj.value.uid == s.pc.l.bucket.uid
    ensures s.pc.l.bucket.spec == s.obj.value.spec && s.pc.l.bucket.generation == s.obj.value.generation
  {
  }

  /** Going on after a call about a setting, when that setting is attained. */
  lemma {:induction false} SettingKeepsTruth(s: State, w: Watch, o: Settings.Outcome)
    requires (s.pc.Read? || s.pc.Write?) && s.pc.i < |Settings.STEPS| && Truth(s, w)
    requires w.clean && o.Proceed? ==>
               Settings.Attained(Settings.STEPS[s.pc.i], s.pc.l.bucket.spec.desired, s.remote.settings)
    ensures Truth(AfterSetting(s, s.pc.l, s.pc.i, o), w)
  {
  }

  lemma {:induction false} ReadingKeepsTruth(s: State, w: Watch, a: Answer)
    requires Shape(s) && Truth(s, w) && s.pc.Read? && Enabled(s, Advance(a))
    ensures Truth(AdvanceStep(s, a), w)
  {
    var l, i := s.pc.l, s.pc.i;
    if s.remote.Present? {
      Settings.ReadIsRight(Settings.STEPS[i], l.bucket.spec.desired, s.remote.settings, a.reply);
    }
    SettingKeepsTruth(s, w, ReadOutcome(s, l, i, a.reply));
  }

  /** A setting that is written loses neither what was verified nor what is shown. */
  lemma {:induction false} WrittenKeepsTruth(s: State, w: Watch, a: Answer)
    requires Shape(s) && Bookkeeping(s) && Truth(s, w) && s.pc.Write?
    ensures Truth(Written(s, s.pc.l, Settings.STEPS[s.pc.i], a.reply), w)
  {
    if s.remote.Present? {
      if ReadyShown(s) { ShownSpec(s); }
      PutKeepsAttained(Settings.STEPS[s.pc.i], s.pc.l.bucket.spec.desired, s.remote.settings, s.pc.i);
    }
  }

  lemma {:induction false} WritingKeepsTruth(s: State, w: Watch, a: Answer)
    requires Shape(s) && Bookkeeping(s) && Truth(s, w) && s.pc.Write? && Enabled(s, Advance(a))
    ensures Truth(AdvanceStep(s, a), w)
  {
    var l, i := s.pc.l, s.pc.i;
    var x := Settings.STEPS[i];
    WrittenKeepsTruth(s, w, a);
    if s.remote.Present? && WriteOutcome(l, i, a.reply).Proceed? {
      Settings.WriteIsRight(x, l.bucket.spec.desired, s.remote.settings, a.reply);
    }
    SettingKeepsTruth(Written(s, l, x, a.reply), w, WriteOutcome(l, i, a.reply));
  }

  lemma {:induction false} DeletingKeepsTruth(s: State, w: Watch, a: Answer)
    requires Shape(s) && Bookkeeping(s) && Truth(s, w) && (s.pc.Delete? || s.pc.List? || s.pc.DeleteListed?)
    requires Enabled(s, Advance(a))
    ensures Truth(AdvanceStep(s, a), w)
  {
    assert !ReadyShown(s);
    DeletionLeavesObject(s, a);
  }

  lemma {:induction false} ProbingKeepsTruth(s: State, w: Watch, a: Answer)
    requires Truth(s, w) && (s.pc.Resolve? || s.pc.FinalObserve?)
    ensures Truth(AdvanceStep(s, a), w)
  {
    ProbeLeavesObject(s, a);
  }

  lemma {:induction false} ObservingKeepsTruth(s: State, w: Watch, a: Answer)
    requires Truth(s, w) && s.pc.Observe? && Enabled(s, Advance(a))
    ensures Truth(AdvanceStep(s, a), Watched(s, w, Advance(a)))
  {
    ProbeLeavesObject(s, a);
  }

  /** A create that had an effect found no bucket, so no trusted report was shown. */
  lemma {:induction false} CreatingKeepsTruth(s: State, w: Watch, a: Answer)
    requires Truth(s, w) && s.pc.Create? && (!a.reply.Failed? ==> s.remote.Absent?)
    ensures var t := AdvanceStep(s, a); Truth(t, if t.pc.Read? then w.(clean := true) else w)
  {
    ProbeLeavesObject(s, a);
  }

  /** The patches that end a reconcile change finalizers only. */
  lemma {:induction false} ClosingPatchEffect(s: State, a: Answer)
    requires s.pc.Claim? || s.pc.Release?
    ensures var t := AdvanceStep(s, a);
            && t.pc.Idle? && t.remote == s.remote && t.nextUID == s.nextUID
            && (t.obj.Some? ==> s.obj.Some? && DiffersInFinalizers(s.obj.value, t.obj.value))
  {
  }

  lemma {:induction false} ClaimingKeepsTruth(s: State, w: Watch, a: Answer)
    requires Truth(s, w) && s.pc.Claim?
    ensures Truth(AdvanceStep(s, a), w)
  {
    ClosingPatchEffect(s, a);
    assert Held(s) && AdvanceStep(s, a).obj.Some? ==> Held(AdvanceStep(s, a));
  }

  lemma {:induction false} ReleasingKeepsTruth(s: State, w: Watch, a: Answer)
    requires Shape(s) && Bookkeeping(s) && Truth(s, w) && s.pc.Release?
    ensures Truth(AdvanceStep(s, a), w)
  {
    assert !ReadyShown(s);
    ClosingPatchEffect(s, a);
  }

  lemma {:induction false} DisowningKeepsTruth(s: State, w: Watch, a: Answer)
    requires Truth(s, w) && s.pc.Disown? && Enabled(s, Advance(a))
    ensures Truth(AdvanceStep(s, a), w)
  {
    DisownEffect(s, a);
  }

  lemma {:induction false} SuccessKeepsTruth(s: State, w: Watch, a: Answer)
    requires Bookkeeping(s) && SuccessTracks(s) && Truth(s, w) && s.pc.Report? && s.pc.err.None?
    ensures Truth(AdvanceStep(s, a), w.(trusted := w.clean))
  {
    SuccessEffect(s, a);
    if ReadyShown(AdvanceStep(s, a)) {
      if ReadyShown(s) { ShownSpec(s); }
      assert s.pc.l.bucket.spec == s.obj.value.spec;
      if w.clean { AttainedBelowAll(s.pc.l.bucket.spec.desired, s.remote.settings); }
    }
  }

  lemma {:induction false} FailureKeepsTruth(s: State, w: Watch, a: Answer)
    requires Bookkeeping(s) && Truth(s, w) && s.pc.Report? && s.pc.err.Some?
    ensures Truth(AdvanceStep(s, a), w)
  {
    FailureEffect(s, a);
  }

  lemma {:induction false} ReportingKeepsTruth(s: State, w: Watch, a: Answer)
    requires Bookkeeping(s) && SuccessTracks(s) && Truth(s, w) && s.pc.Report?
    ensures Truth(AdvanceStep(s, a), if s.pc.err.None? then w.(trusted := w.clean) else w)
  {
    if s.pc.err.None? { SuccessKeepsTruth(s, w, a); } else { FailureKeepsTruth(s, w, a); }
  }

  lemma {:induction false} CallKeepsTruth(s: State, w: Watch, a: Answer)
    requires Safe(s) && Bookkeeping(s) && Truth(s, w) && Enabled(s, Advance(a))
    requires !s.pc.Observe? && !s.pc.Create? && !s.pc.Report?
    ensures Truth(AdvanceStep(s, a), w)
  {
    match s.pc
    case Resolve(_) => ProbingKeepsTruth(s, w, a);
    case FinalObserve(_) => ProbingKeepsTruth(s, w, a);
    case Delete(_, _) => DeletingKeepsTruth(s, w, a);
    case List(_) => DeletingKeepsTruth(s, w, a);
    case DeleteListed(_, _, _) => DeletingKeepsTruth(s, w, a);
    case Release(_) => ReleasingKeepsTruth(s, w, a);
    case Claim(_) => ClaimingKeepsTruth(s, w, a);
    case Disown(_) => DisowningKeepsTruth(s, w, a);
    case Read(_, _) => ReadingKeepsTruth(s, w, a);
    case Write(_, _) => WritingKeepsTruth(s, w, a);
  }

  lemma {:induction false} CallKeepsWatched(s: State, w: Watch, a: Answer)
    requires Safe(s) && Bookkeeping(s) && Truth(s, w) && Enabled(s, Advance(a))
    requires !s.pc.Observe? && !s.pc.Create? && !s.pc.Report?
    ensures Truth(AdvanceStep(s, a), Watched(s, w, Advance(a)))
  {
    CallKeepsTruth(s, w, a);
  }

  lemma {:induction false} CreatingKeepsWatched(s: State, w: Watch, a: Answer)
    requires Truth(s, w) && s.pc.Create? && Enabled(s, Advance(a))
    ensures Truth(AdvanceStep(s, a), Watched(s, w, Advance(a)))
  {
    CreatingKeepsTruth(s, w, a);
  }

  lemma {:induction false} ReportingKeepsWatched(s: State, w: Watch, a: Answer)
    requires Bookkeeping(s) && SuccessTracks(s) && Truth(s, w) && s.pc.Report? && Enabled(s, Advance(a))
    ensures Truth(AdvanceStep(s, a), Watched(s, w, Advance(a)))
  {
    ReportingKeepsTruth(s, w, a);
  }

  lemma {:induction false} AdvanceKeepsTruth(s: State, w: Watch, a: Answer)
    requires Safe(s) && Bookkeeping(s) && SuccessTracks(s) && Truth(s, w) && Enabled(s, Advance(a))
    ensures Truth(AdvanceStep(s, a), Watched(s, w, Advance(a)))
  {
    if s.pc.Observe? { ObservingKeepsTruth(s, w, a); }
    else if s.pc.Create? { CreatingKeepsWatched(s, w, a); }
    else if s.pc.Report? { ReportingKeepsWatched(s, w, a); }
    else { CallKeepsWatched(s, w, a); }
  }

  lemma {:induction false} OthersKeepTruth(s: State, w: Watch, step: Step)
    requires Bookkeeping(s) && Truth(s, w) && Enabled(s, step) && !step.Advance?
    ensures Truth(Apply(s, step), Watched(s, w, step))
  {
    match step
    case Start(_) =>
    case Crash =>
    case Wake =>
    case UserCreate(_, _) =>
    case UserUpdate(_) =>
    case UserDelete =>
    case OtherFinalizers(_) =>
    case ForeignCreate(_, _) =>
    case ForeignDelete =>
    case ForeignChange(_, _) =>
  }

  // ----- Runs -----

  predicate Reporting(s: State, w: Watch) {
    Safe(s) && Bookkeeping(s) && SuccessTracks(s) && Truth(s, w)
  }

  lemma {:induction false} StepKeepsReporting(s: State, w: Watch, step: Step)
    requires Reporting(s, w) && Enabled(s, step)
    ensures Reporting(Apply(s, step), Watched(s, w, step))
  {
    StepKeepsSafe(s, step);
    if step.Advance? {
      AdvanceKeepsBookkeeping(s, step.answer);
      AdvanceKeepsTruth(s, w, step.answer);
    } else {
      OthersKeepBookkeeping(s, step);
      OthersKeepTruth(s, w, step);
    }
  }

  lemma {:induction false} RunKeepsReporting(s: State, w: Watch, run: seq<Step>)
    requires Reporting(s, w) && Legal(s, run)
    ensures Reporting(Exec(s, run), WatchOver(s, w, run))
    decreases |run|
  {
    if run != [] {
      StepKeepsReporting(s, w, run[0]);
      RunKeepsReporting(Apply(s, run[0]), Watched(s, w, run[0]), run[1..]);
    }
  }

  const UNWATCHED := Watch(false, false)

  /**
   * Over every run, with crashes, failures and lost replies anywhere: a trusted Ready=True for the
   * present generation means that the object carries the finalizer and that the bucket exists with
   * every setting as specified, unless its ACL has lost its owner; and it is the controller's own
   * bucket if nobody else created one while the name was claimed.
   */
  lemma {:induction false} ReadyIsTruthful(s: State, run: seq<Step>)
    requires Initial(s) && Legal(s, run)
    requires WatchOver(s, UNWATCHED, run).trusted && ReadyShown(Exec(s, run))
    ensures var t := Exec(s, run);
            && Held(t) && t.remote.Present?
            && (MeetsSpec(t) <==> t.remote.settings.policy.owner != "")
            && (QuietRun(s, run) ==> Exists(t, Controller))
  {
    RunKeepsReporting(s, UNWATCHED, run);
    var t := Exec(s, run);
    AttainedMatches(t.obj.value.spec.desired, t.remote.settings);
    if QuietRun(s, run) {
      RunKeepsOwned(s, run);
    }
  }

  // ----- Runs in which nobody else touches the bucket -----

  predicate NoForeignSteps(run: seq<Step>) {
    forall step | step in run :: !ForeignStep(step)
  }

  /** Everything that is shown or verified is trusted, and the account owns the bucket. */
  predicate Alone(s: State, w: Watch) {
    && (Verifying(s.pc) ==> w.clean) && (ReadyShown(s) ==> w.trusted)
    && OwnBucket(s) && s.account != ""
  }

  /** Only a report of success makes Ready shown. */
  lemma {:induction false} ShownBySuccess(s: State, step: Step)
    requires Safe(s) && Bookkeeping(s) && Enabled(s, step)
    ensures ReadyShown(Apply(s, step)) && !ReadyShown(s) ==> step.Advance? && s.pc.Report? && s.pc.err.None?
  {
    if step.Advance? {
      var a := step.answer;
      if s.pc.Report? { if s.pc.err.Some? { FailureEffect(s, a); } }
      else if s.pc.Disown? { DisownEffect(s, a); }
      else if WritesObject(s.pc) { ClosingPatchEffect(s, a); }
      else { CallLeavesObject(s, a); }
    }
  }

  lemma {:induction false} ProbeEntersVerifying(s: State, a: Answer)
    requires s.pc.Resolve? || s.pc.Observe? || s.pc.Create?
    ensures var t := AdvanceStep(s, a); Verifying(t.pc) ==> t.pc.Read? && !s.pc.Resolve?
  {
  }

  lemma {:induction false} DeletionAvoidsVerifying(s: State, a: Answer)
    requires s.pc.Delete? || s.pc.List? || s.pc.DeleteListed?
    ensures !Verifying(AdvanceStep(s, a).pc)
  {
  }

  /** The settings are entered through the observation or the creation of the bucket only. */
  lemma {:induction false} VerifyingIsEntered(s: State, step: Step)
    requires Bookkeeping(s) && Enabled(s, step) && Verifying(Apply(s, step).pc) && !Verifying(s.pc)
    ensures step.Advance? && (s.pc.Observe? || s.pc.Create?) && Apply(s, step).pc.Read?
  {
    if step.Advance? {
      var a := step.answer;
      if s.pc.Report? { FailureEffect(s, a); }
      else if s.pc.Disown? { DisownEffect(s, a); }
      else if WritesObject(s.pc) { ClosingPatchEffect(s, a); }
      else if s.pc.Delete? || s.pc.List? || s.pc.DeleteListed? { DeletionAvoidsVerifying(s, a); }
      else { ProbeEntersVerifying(s, a); }
    }
  }

  /** The controller's bucket belongs to the account. */
  predicate OwnBucket(s: State) {
    Exists(s, Controller) ==> s.remote.settings.policy.owner == s.account
  }

  lemma {:induction false} SettingKeepsOwner(s: State, a: Answer)
    requires OwnBucket(s) && (s.pc.Read? || s.pc.Write?) && Enabled(s, Advance(a))
    ensures OwnBucket(AdvanceStep(s, a)) && AdvanceStep(s, a).account == s.account
  {
    if s.remote.Present? {
      Settings.PutEstablishes(Settings.STEPS[s.pc.i], s.pc.l.bucket.spec.desired, s.remote.settings);
    }
  }

  lemma {:induction false} ProbeKeepsOwner(s: State, a: Answer)
    requires OwnBucket(s) && (s.pc.Resolve? || s.pc.Observe? || s.pc.FinalObserve? || s.pc.Create?)
    ensures OwnBucket(AdvanceStep(s, a)) && AdvanceStep(s, a).account == s.account
  {
    if s.pc.Create? { assert NewSettings(s.account, s.pc.l.bucket.spec.desired).policy.owner == s.account; }
  }

  lemma {:induction false} DeletionKeepsOwner(s: State, a: Answer)
    requires OwnBucket(s) && (s.pc.Delete? || s.pc.List? || s.pc.DeleteListed?)
    ensures OwnBucket(AdvanceStep(s, a)) && AdvanceStep(s, a).account == s.account
  {
  }

  lemma {:induction false} PatchKeepsOwner(s: State, a: Answer)
    requires OwnBucket(s) && (s.pc.Claim? || s.pc.Release? || s.pc.Disown?)
    ensures OwnBucket(AdvanceStep(s, a)) && AdvanceStep(s, a).account == s.account
  {
  }

  lemma {:induction false} CallKeepsOwner(s: State, a: Answer)
    requires OwnBucket(s) && Enabled(s, Advance(a))
    ensures OwnBucket(AdvanceStep(s, a)) && AdvanceStep(s, a).account == s.account
  {
    if s.pc.Read? || s.pc.Write? { SettingKeepsOwner(s, a); }
    else if s.pc.Report? { ReportEffect(s, a); }
    else if WritesObject(s.pc) { PatchKeepsOwner(s, a); }
    else if s.pc.Delete? || s.pc.List? || s.pc.DeleteListed? { DeletionKeepsOwner(s, a); }
    else { ProbeKeepsOwner(s, a); }
  }

  lemma {:induction false} StepKeepsAlone(s: State, w: Watch, step: Step)
    requires Reporting(s, w) && Alone(s, w) && Enabled(s, step) && !ForeignStep(step)
    ensures Alone(Apply(s, step), Watched(s, w, step))
  {
    var t := Apply(s, step);
    ShownBySuccess(s, step);
    if Verifying(t.pc) && !Verifying(s.pc) { VerifyingIsEntered(s, step); }
    if step.Advance? { CallKeepsOwner(s, step.answer); }
  }

  lemma {:induction false} RunKeepsAlone(s: State, w: Watch, run: seq<Step>)
    requires Reporting(s, w) && Alone(s, w) && Legal(s, run) && NoForeignSteps(run)
    ensures Alone(Exec(s, run), WatchOver(s, w, run))
    decreases |run|
  {
    if run != [] {
      assert run[0] in run;
      StepKeepsReporting(s, w, run[0]);
      StepKeepsAlone(s, w, run[0]);
      RunKeepsAlone(Apply(s, run[0]), Watched(s, w, run[0]), run[1..]);
    }
  }

  lemma {:induction false} NoForeignStepsIsQuiet(s: State, run: seq<Step>)
    requires Legal(s, run) && NoForeignSteps(run)
    ensures QuietRun(s, run)
    decreases |run|
  {
    if run != [] {
      assert run[0] in run;
      NoForeignStepsIsQuiet(Apply(s, run[0]), run[1..]);
    }
  }

  /** While nobody else touches the bucket, Ready=True for the present generation always tells the truth. */
  lemma {:induction false} ReadyIsTruthfulAlone(s: State, run: seq<Step>)
    requires Initial(s) && Legal(s, run) && NoForeignSteps(run) && ReadyShown(Exec(s, run))
    ensures var t := Exec(s, run);
            Held(t) && Exists(t, Controller) && MeetsSpec(t)
  {
    RunKeepsAlone(s, UNWATCHED, run);
    NoForeignStepsIsQuiet(s, run);
    ReadyIsTruthful(s, run);
  }

  // ----- The final observation -----

  /** No further reconcile begins. */
  predicate NoStart(run: seq<Step>) {
    forall step | step in run :: !step.Start?
  }

  /** From the final observation on: the remote bucket stays, and what is shown is about that spec. */
  predicate Closing(s: State, spec: Spec, remote: Remote) {
    && Safe(s) && Bookkeeping(s) && SuccessTracks(s) && s.remote == remote
    && (s.pc.FinalObserve? || s.pc.Report? || s.pc.Idle?)
    && (!s.pc.Idle? ==> s.pc.l.bucket.spec == spec)
    && (ReadyShown(s) ==> s.obj.value.spec == spec)
  }

  lemma {:induction false} CallKeepsClosing(s: State, a: Answer, spec: Spec, remote: Remote)
    requires Closing(s, spec, remote) && Enabled(s, Advance(a))
    ensures Closing(AdvanceStep(s, a), spec, remote)
  {
    StepKeepsSafe(s, Advance(a));
    AdvanceKeepsBookkeeping(s, a);
    if s.pc.FinalObserve? { ProbeLeavesObject(s, a); }
    else if s.pc.err.None? { SuccessEffect(s, a); }
    else { FailureEffect(s, a); }
  }

  lemma {:induction false} OthersKeepClosing(s: State, step: Step, spec: Spec, remote: Remote)
    requires Closing(s, spec, remote) && Enabled(s, step) && !step.Advance? && !step.Start? && !ForeignStep(step)
    ensures Closing(Apply(s, step), spec, remote)
  {
    StepKeepsSafe(s, step);
    OthersKeepBookkeeping(s, step);
  }

  lemma {:induction false} RunKeepsClosing(s: State, run: seq<Step>, spec: Spec, remote: Remote)
    requires Closing(s, spec, remote) && Legal(s, run) && NoForeignSteps(run) && NoStart(run)
    ensures Closing(Exec(s, run), spec, remote)
    decreases |run|
  {
    if run != [] {
      assert run[0] in run;
      if run[0].Advance? {
        CallKeepsClosing(s, run[0].answer, spec, remote);
      } else {
        OthersKeepClosing(s, run[0], spec, remote);
      }
      RunKeepsClosing(Apply(s, run[0]), run[1..], spec, remote);
    }
  }

  /**
   * Exactly what the final observation would have to check: until the next reconcile, a Ready=True
   * for the present generation is true of the bucket if and only if at the final observation the
   * bucket existed and had every setting of the spec that the reconcile worked for.
   */
  lemma {:induction false} FinalObservationDecides(s: State, run: seq<Step>)
    requires Safe(s) && Bookkeeping(s) && s.pc.FinalObserve?
    requires Legal(s, run) && NoForeignSteps(run) && NoStart(run)
    requires ReadyShown(Exec(s, run))
    ensures MeetsSpec(Exec(s, run)) <==>
              s.remote.Present? && Settings.AsSpecified(s.pc.l.bucket.spec.desired, s.remote.settings)
  {
    if ReadyShown(s) { ShownSpec(s); }
    RunKeepsClosing(s, run, s.pc.l.bucket.spec, s.remote);
  }

  lemma {:induction false} SuccessIsShown(s: State, b: Answer)
    requires s.pc.Report? && s.pc.err.None? && b.reply.Ok? && s.obj == Some(s.pc.l.bucket)
    ensures Enabled(s, Advance(b))
    ensures var t := AdvanceStep(s, b); ReadyShown(t) && t.obj.value.spec == s.obj.value.spec && t.remote == s.remote
  {
    var o := s.pc.l.bucket;
    Status.UpdatedShowsReport(o.status, ReportOf(s.pc.l, None), b.now);
    var next := Status.Updated(o.status, ReportOf(s.pc.l, None), b.now);
    assert Status.MergePatch(o.status, o.status, next) == next;
  }

  /** A final observation is reported as Ready whether it saw the bucket or that it is not there. */
  lemma {:induction false} FinalObservationReports(s: State, a: Answer, b: Answer) returns (run: seq<Step>)
    requires s.pc.FinalObserve? && Enabled(s, Advance(a)) && b.reply.Ok? && s.obj == Some(s.pc.l.bucket)
    requires a.reply.Ok? || SaysAbsent(a.reply.error)
    ensures Legal(s, run) && Exec(s, run).remote == s.remote && ReadyShown(Exec(s, run))
    ensures Exec(s, run).obj.value.spec == s.obj.value.spec
  {
    if !a.reply.Ok? { AnswersAreUnderstood(a.reply.error); }
    var s1 := Apply(s, Advance(a));
    SuccessIsShown(s1, b);
    Prepend(s1, Advance(b), []);
    Prepend(s, Advance(a), [Advance(b)] + []);
    run := [Advance(a)] + ([Advance(b)] + []);
  }

  /** A bucket that somebody else deletes just before the final observation is reported Ready although it is gone. */
  lemma {:induction false} ReadyDoesNotRecheckExistence(s: State, a: Answer) returns (run: seq<Step>)
    requires s.pc.FinalObserve? && a.reply.Ok? && s.remote.Present? && s.obj == Some(s.pc.l.bucket)
    ensures Legal(s, run) && ReadyShown(Exec(s, run)) && Exec(s, run).remote.Absent?
  {
    var gone := a.(reply := Settings.Failed(Leaf(Obs(404, "NoSuchBucket"))));
    var rest := FinalObservationReports(Apply(s, ForeignDelete), gone, a);
    Prepend(s, ForeignDelete, rest);
    run := [ForeignDelete] + rest;
  }

  /** The same for settings that somebody else changes. */
  lemma {:induction false} ReadyDoesNotRecheckSettings(s: State, a: Answer, settings: Settings.Remote)
    returns (run: seq<Step>)
    requires s.pc.FinalObserve? && a.reply.Ok? && s.remote.Present? && s.obj == Some(s.pc.l.bucket)
    requires !Settings.AsSpecified(s.obj.value.spec.desired, settings)
    ensures Legal(s, run) && ReadyShown(Exec(s, run)) && Exec(s, run).remote.Present? && !MeetsSpec(Exec(s, run))
  {
    var change := ForeignChange(settings, s.remote.contents);
    var rest := FinalObservationReports(Apply(s, change), a, a);
    Prepend(s, change, rest);
    run := [change] + rest;
  }
}
