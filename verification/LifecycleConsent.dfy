/**
 * Whether object versions are deleted with the consent of the live object. The reconciler decides by
 * forceDestroy as it read it; a consent that is withdrawn afterwards comes too late.
 */
module LifecycleConsent {
  import opened Errors
  import opened Lifecycle
  import opened LifecycleSafety
  import opened LifecycleReady
  import LifecycleDeletion
  import Settings

  /** A reconcile that has read a deleted object with forceDestroy and may still delete its object versions. */
  predicate Destroying(s: State) {
    && (s.pc.Resolve? || s.pc.Observe? || (s.pc.Delete? && !s.pc.again) || s.pc.List? || s.pc.DeleteListed?)
    && s.pc.l.bucket.deleting && s.pc.l.bucket.spec.forceDestroy
  }

  predicate Consents(s: State) {
    s.obj.Some? && s.obj.value.spec.forceDestroy
  }

  /** Every deletion of object versions hit a live object that is deleted, held and has forceDestroy set. */
  predicate AllConsented(log: seq<Record>) {
    forall r | r in log && r.call.DeleteObjects? :: r.deleting && r.held && r.force
  }

  predicate Consented(s: State) {
    (Destroying(s) ==> Consents(s)) && AllConsented(s.log)
  }

  predicate Withdraws(step: Step) {
    step.UserUpdate? && !step.spec.forceDestroy
  }

  // ----- Consent that is not withdrawn -----

  /** Nobody unsets forceDestroy while a reconcile acts on it. */
  ghost predicate SteadyRun(s: State, run: seq<Step>)
    requires Legal(s, run)
    decreases |run|
  {
    run != [] ==> (Withdraws(run[0]) ==> !Destroying(s)) && SteadyRun(Apply(s, run[0]), run[1..])
  }

  /** Calls enter the destructive part of a reconcile from itself only. */
  lemma {:induction false} CallsStayDestroying(s: State, a: Answer)
    requires Shape(s) && Enabled(s, Advance(a)) && Destroying(AdvanceStep(s, a))
    ensures Destroying(s) && AdvanceStep(s, a).obj == s.obj
  {
    if s.pc.Read? || s.pc.Write? { SettingAvoidsDestroying(s, a); }
    else if s.pc.Report? { ReportEffect(s, a); }
    else if s.pc.Disown? { ConflictAvoidsDestroying(s, a); }
    else if WritesObject(s.pc) { ClosingPatchEffect(s, a); }
    else {
      CallLeavesObject(s, a);
      if s.pc.Delete? || s.pc.List? || s.pc.DeleteListed? { DeletionStaysDestroying(s, a); }
      else { ProbeAvoidsDestroying(s, a); }
    }
  }

  lemma {:induction false} SettingAvoidsDestroying(s: State, a: Answer)
    requires (s.pc.Read? || s.pc.Write?) && Enabled(s, Advance(a))
    ensures !Destroying(AdvanceStep(s, a))
  {
  }

  lemma {:induction false} ConflictAvoidsDestroying(s: State, a: Answer)
    requires s.pc.Disown?
    ensures AdvanceStep(s, a).pc.Report?
  {
  }

  lemma {:induction false} ProbeAvoidsDestroying(s: State, a: Answer)
    requires s.pc.Resolve? || s.pc.Observe? || s.pc.FinalObserve? || s.pc.Create?
    requires Destroying(AdvanceStep(s, a))
    ensures Destroying(s)
  {
  }

  lemma {:induction false} DeletionStaysDestroying(s: State, a: Answer)
    requires s.pc.Delete? || s.pc.List? || s.pc.DeleteListed?
    requires Destroying(AdvanceStep(s, a))
    ensures Destroying(s)
  {
  }

  lemma {:induction false} AdvanceKeepsConsent(s: State, a: Answer)
    requires Safe(s) && Consented(s) && Enabled(s, Advance(a))
    ensures Consented(AdvanceStep(s, a))
  {
    if Destroying(AdvanceStep(s, a)) { CallsStayDestroying(s, a); }
    AdvanceKeepsClaim(s, a);
    assert AllConsented(AdvanceStep(s, a).log);
  }

  lemma {:induction false} OthersKeepConsent(s: State, step: Step)
    requires Safe(s) && Consented(s) && Enabled(s, step) && !step.Advance? && (Withdraws(step) ==> !Destroying(s))
    ensures Consented(Apply(s, step))
  {
    match step
    case Start(_) =>
    case Crash =>
    case Wake =>
    case UserCreate(_, _) =>
    case UserUpdate(_) =>
    case UserDelete =>
    case OtherFinalizers(_) =>
    case ForeignCreate(_, _) =>
    case ForeignDelete =>
    case ForeignChange(_, _) =>
  }

  lemma {:induction false} RunKeepsConsent(s: State, run: seq<Step>)
    requires Safe(s) && Consented(s) && Legal(s, run) && SteadyRun(s, run)
    ensures Consented(Exec(s, run))
    decreases |run|
  {
    if run != [] {
      StepKeepsSafe(s, run[0]);
      if run[0].Advance? { AdvanceKeepsConsent(s, run[0].answer); } else { OthersKeepConsent(s, run[0]); }
      RunKeepsConsent(Apply(s, run[0]), run[1..]);
    }
  }

  /**
   * Over every run in which nobody unsets forceDestroy while a reconcile acts on it, object versions
   * are deleted only while the live object is deleted, held and has forceDestroy set.
   */
  lemma {:induction false} DeletionsAreConsented(s: State, run: seq<Step>)
    requires Initial(s) && Legal(s, run) && SteadyRun(s, run)
    ensures AllConsented(Exec(s, run).log)
  {
    RunKeepsConsent(s, run);
  }

  /**
   * Over every run without exception: the object whose versions are about to be deleted is the one
   * that was read, deleted and held, and it consents unless its spec was changed since.
   */
  lemma {:induction false} ConsentIsAsOldAsTheCopy(s: State, run: seq<Step>)
    requires Initial(s) && Legal(s, run) && Exec(s, run).pc.DeleteListed?
    ensures var t := Exec(s, run);
            && t.obj.Some? && t.obj.value.uid == t.pc.l.bucket.uid && t.obj.value.deleting && Held(t)
            && (Consents(t) || t.obj.value.generation > t.pc.l.bucket.generation)
  {
    RunKeepsReporting(s, UNWATCHED, run);
  }

  // ----- Consent that is withdrawn -----

  predicate Unconsented(s: State) {
    !Consents(s) && exists r :: r in s.log && r.call.DeleteObjects? && r.target.Some? && !r.force
  }

  predicate NoUpdate(run: seq<Step>) {
    forall i | 0 <= i < |run| :: !run[i].UserUpdate?
  }

  predicate Filled(s: State) {
    s.remote.Present? && s.remote.contents != {}
  }

  function CallsLeft(pc: Pc): nat {
    if pc.Resolve? then 4 else if pc.Observe? then 3 else if pc.Delete? then 2 else if pc.List? then 1 else 0
  }

  /** One call on the way to the deletion of object versions, or that deletion itself. */
  lemma {:induction false} NextDestroys(s: State)
    requires Shape(s) && Destroying(s) && !Consents(s) && Filled(s)
    ensures var a := LifecycleDeletion.AnswerFor(s);
            && Enabled(s, Advance(a))
            && var t := AdvanceStep(s, a);
               && t.obj == s.obj
               && if s.pc.DeleteListed? then Unconsented(t)
                  else Shape(t) && Destroying(t) && t.remote == s.remote && CallsLeft(t.pc) < CallsLeft(s.pc)
  {
    AnswersAreUnderstood(Leaf(Obs(409, "BucketNotEmpty")));
    var t := AdvanceStep(s, LifecycleDeletion.AnswerFor(s));
    if s.pc.DeleteListed? {
      var r := t.log[|t.log| - 1];
      assert r in t.log && r.call.DeleteObjects? && r.target.Some? && !r.force;
    }
  }

  lemma {:induction false} DestroysAnyway(s: State) returns (run: seq<Step>)
    requires Shape(s) && Destroying(s) && !Consents(s) && Filled(s)
    ensures Legal(s, run) && NoUpdate(run) && Unconsented(Exec(s, run))
    decreases CallsLeft(s.pc)
  {
    var a := LifecycleDeletion.AnswerFor(s);
    NextDestroys(s);
    var rest := [];
    if !s.pc.DeleteListed? {
      rest := DestroysAnyway(AdvanceStep(s, a));
    }
    Prepend(s, Advance(a), rest);
    run := [Advance(a)] + rest;
  }

  /** Somebody else may fill the bucket at any time. */
  lemma {:induction false} FillThenDestroy(s: State, settings: Settings.Remote, e: Entry) returns (run: seq<Step>)
    requires Shape(s) && Destroying(s) && !Consents(s)
    ensures Legal(s, run) && NoUpdate(run) && Unconsented(Exec(s, run))
  {
    if Filled(s) {
      run := DestroysAnyway(s);
    } else {
      var fill := if s.remote.Absent? then ForeignCreate(settings, {e}) else ForeignChange(settings, {e});
      var rest := DestroysAnyway(Apply(s, fill));
      Prepend(s, fill, rest);
      run := [fill] + rest;
    }
  }

  /**
   * The hypothesis of DeletionsAreConsented cannot be weakened: at every moment at which a reconcile
   * acts on forceDestroy, unsetting it can be followed by a run in which object versions are deleted
   * although the live object forbids it.
   */
  lemma {:induction false} WithdrawnConsentComesTooLate(s: State, spec: Spec, settings: Settings.Remote, e: Entry)
    returns (run: seq<Step>)
    requires Safe(s) && Destroying(s) && !spec.forceDestroy
    ensures Legal(s, run) && |run| > 0 && run[0] == UserUpdate(spec) && NoUpdate(run[1..])
    ensures Unconsented(Exec(s, run))
  {
    var withdraw := UserUpdate(spec);
    var t := Apply(s, withdraw);
    StepKeepsSafe(s, withdraw);
    var rest := FillThenDestroy(t, settings, e);
    Prepend(s, withdraw, rest);
    run := [withdraw] + rest;
    assert run[1..] == rest;
  }

  /** At worst the bucket is emptied: its last page is deleted as it was listed. */
  lemma {:induction false} WithdrawnConsentEmpties(s: State, spec: Spec) returns (run: seq<Step>)
    requires Safe(s) && s.pc.DeleteListed? && Filled(s) && s.pc.page == s.remote.contents && !spec.forceDestroy
    ensures Legal(s, run) && |run| == 2 && run[0] == UserUpdate(spec)
    ensures var t := Exec(s, run); Unconsented(t) && t.remote.Present? && t.remote.contents == {}
  {
    var withdraw := UserUpdate(spec);
    var t := Apply(s, withdraw);
    StepKeepsSafe(s, withdraw);
    var a := LifecycleDeletion.AnswerFor(t);
    NextDestroys(t);
    Prepend(t, Advance(a), []);
    Prepend(s, withdraw, [Advance(a)] + []);
    run := [withdraw] + ([Advance(a)] + []);
  }
}
