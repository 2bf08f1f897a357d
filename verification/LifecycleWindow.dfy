/**
 * The window in which the name is claimed is exact: a bucket that somebody else creates in it can be
 * deleted by the controller, contents and all.
 */
module LifecycleWindow {
  import opened Common
  import opened Lifecycle
  import opened LifecycleSafety
  import LifecycleDeletion
  import Settings

  predicate NoForeignCreate(run: seq<Step>) {
    forall i | 0 <= i < |run| :: !run[i].ForeignCreate?
  }

  /** The controller has deleted a bucket of somebody else, and it is gone. */
  predicate Harmed(s: State) {
    s.remote.Absent? && exists r :: r in s.log && ForeignWrite(r) && r.call.DeleteBucket?
  }

  lemma {:induction false} DeletionHarmsForeign(s: State) returns (run: seq<Step>)
    requires s.pc.Idle? && s.queued && Held(s) && s.obj.value.deleting && s.obj.value.spec.forceDestroy
    requires Exists(s, Foreign)
    ensures Legal(s, run) && NoForeignCreate(run) && Harmed(Exec(s, run))
  {
    var o := s.obj.value;
    run := LifecycleDeletion.FaultlessReconcileExists(s);
    LifecycleDeletion.DeletionConverges(s, run);
    LifecycleDeletion.RestDeletes(Apply(s, Start(true)), o, run[1..], Foreign);
    var r :| r in Exec(s, run).log && r.call.DeleteBucket? && r.target == Some(Foreign);
    assert ForeignWrite(r);
    assert forall i | 0 < i < |run| :: run[i] == run[1..][i - 1];
  }

  /** Once a foreign bucket stands under a held finalizer, the user's wishes for their own bucket destroy it. */
  lemma {:induction false} HeldForeignIsHarmed(s: State) returns (run: seq<Step>)
    requires Held(s) && Exists(s, Foreign)
    ensures Legal(s, run) && NoForeignCreate(run) && Harmed(Exec(s, run))
  {
    var force := UserUpdate(s.obj.value.spec.(forceDestroy := true));
    var s1 := Apply(s, Crash);
    var s2 := Apply(s1, force);
    var s3 := Apply(s2, UserDelete);
    var rest := DeletionHarmsForeign(s3);
    Prepend(s2, UserDelete, rest);
    Prepend(s1, force, [UserDelete] + rest);
    run := [Crash] + ([force] + ([UserDelete] + rest));
    Prepend(s, Crash, [force] + ([UserDelete] + rest));
  }

  /** A claim that is about to be written for a name without an object lands on the next one. */
  lemma {:induction false} ClaimOfNextIsHarmed(s: State, spec: Spec) returns (run: seq<Step>)
    requires s.pc.Claim? && s.obj.None? && Exists(s, Foreign)
    ensures Legal(s, run) && NoForeignCreate(run) && Harmed(Exec(s, run))
  {
    var create, ok := UserCreate(spec, {}), Advance(Answered(Settings.Ok));
    var s1 := Apply(s, create);
    var s2 := Apply(s1, ok);
    var rest := HeldForeignIsHarmed(s2);
    Prepend(s1, ok, rest);
    Prepend(s, create, [ok] + rest);
    run := [create] + ([ok] + rest);
  }

  /** A claim that is about to be written lands on whatever object then has the name. */
  lemma {:induction false} PendingClaimIsHarmed(s: State, spec: Spec) returns (run: seq<Step>)
    requires Safe(s) && s.pc.Claim? && Exists(s, Foreign)
    ensures Legal(s, run) && NoForeignCreate(run) && Harmed(Exec(s, run))
  {
    if Held(s) {
      run := HeldForeignIsHarmed(s);
    } else if s.obj.None? {
      run := ClaimOfNextIsHarmed(s, spec);
    } else if !s.obj.value.deleting {
      var ok := Advance(Answered(Settings.Ok));
      var rest := HeldForeignIsHarmed(Apply(s, ok));
      Prepend(s, ok, rest);
      run := [ok] + rest;
    } else {
      var clear := OtherFinalizers({});
      var rest := ClaimOfNextIsHarmed(Apply(s, clear), spec);
      Prepend(s, clear, rest);
      run := [clear] + rest;
    }
  }

  /**
   * The hypothesis of OwnershipSafety cannot be weakened: at every reachable moment of the window a
   * foreign create can be followed by a run in which the controller deletes the foreign bucket. The
   * window opens before the finalizer is set, with the observation that precedes the claim.
   */
  lemma {:induction false} ForeignCreateInWindowIsHarmful(
    s: State, settings: Settings.Remote, contents: set<Entry>, spec: Spec)
    returns (run: seq<Step>)
    requires Safe(s) && Claimed(s) && s.remote.Absent?
    ensures Legal(s, run) && |run| > 0 && run[0] == ForeignCreate(settings, contents) && NoForeignCreate(run[1..])
    ensures Harmed(Exec(s, run))
  {
    var s1 := Apply(s, ForeignCreate(settings, contents));
    StepKeepsSafe(s, ForeignCreate(settings, contents));
    var rest: seq<Step>;
    if Held(s1) {
      rest := HeldForeignIsHarmed(s1);
    } else {
      rest := PendingClaimIsHarmed(s1, spec);
    }
    Prepend(s, ForeignCreate(settings, contents), rest);
    run := [ForeignCreate(settings, contents)] + rest;
    assert run[1..] == rest;
  }
}
