/** Deletion converges: what may be destroyed is gone after one reconcile without failures. */
module LifecycleDeletion {
  import opened Common
  import opened Errors
  import opened Lifecycle
  import opened LifecycleSafety
  import Settings
  import ForceDestroy

  // ----- The paged deletion -----

  /** A page as the answer to the list call. */
  function ListAnswer(p: ForceDestroy.Page): Answer {
    Answer(Settings.Ok, ForceDestroy.Listed(p), p.truncated, ("", ""), "", 0)
  }

  /** An honest page is a possible answer, and the protocol goes on after it exactly when the loop does. */
  lemma {:induction false} PageIsAnswer(s: State, p: ForceDestroy.Page)
    requires s.pc.List? && s.remote.Present?
    requires ForceDestroy.Existing(p, s.remote.contents) && ForceDestroy.Honest(p, s.remote.contents)
    ensures Enabled(s, Advance(ListAnswer(p)))
    ensures var objects := |p.versions| + |p.markers|;
            AdvanceStep(s, ListAnswer(p)).pc ==
              if objects == 0 then Delete(s.pc.l, true)
              else DeleteListed(s.pc.l, ForceDestroy.Listed(p), !(objects < ForceDestroy.PAGE_LIMIT && !p.truncated))
  {
  }

  // ----- One reconcile -----

  /**
   * Every call succeeds, except that a bucket with contents refuses to be deleted; an observation of
   * a bucket that is not there succeeds by saying so.
   */
  predicate Faultless(s: State, a: Answer) {
    if s.pc.Delete? && s.remote.Present? && s.remote.contents != {} then a.reply.Failed? && SaysNotEmpty(a.reply.error)
    else if s.pc.Observe? && s.remote.Absent? then a.reply.Failed? && SaysAbsent(a.reply.error)
    else a.reply.Ok?
  }

  ghost predicate FaultlessRest(s: State, run: seq<Step>)
    requires Legal(s, run)
    decreases |run|
  {
    run != [] ==> run[0].Advance? && Faultless(s, run[0].answer) && FaultlessRest(Apply(s, run[0]), run[1..])
  }

  /** A whole reconcile of that kind. */
  ghost predicate FaultlessReconcile(s: State, run: seq<Step>) {
    && |run| > 0 && run[0] == Start(true) && Legal(s, run)
    && FaultlessRest(Apply(s, run[0]), run[1..]) && Exec(s, run).pc.Idle?
  }

  /** The contents are gone or may be destroyed. */
  predicate Destroyable(o: Object, remote: Remote) {
    remote.Present? && remote.contents != {} ==> o.spec.forceDestroy
  }

  /** The reconciler is on the way to delete the bucket of the object as it is. */
  predicate Removing(s: State, o: Object) {
    && s.obj == Some(o) && o.deleting && FINALIZER in o.finalizers && Destroyable(o, s.remote)
    && (s.pc.Resolve? || s.pc.Observe? || s.pc.Delete? || s.pc.List? || s.pc.DeleteListed? || s.pc.Release?)
    && s.pc.l.bucket == o
    && (s.pc.Delete? || s.pc.List? || s.pc.DeleteListed? ==> s.remote.Present?)
    && (s.pc.Delete? && s.pc.again ==> s.remote.contents == {})
    && (s.pc.DeleteListed? && !s.pc.more ==> s.pc.page == s.remote.contents)
    && (s.pc.DeleteListed? ==> s.pc.page != {} && s.pc.page <= s.remote.contents)
    && (s.pc.Release? ==> s.remote.Absent?)
  }

  /** The bucket is gone, and the object with it unless others hold it. */
  predicate Removed(t: State, o: Object) {
    && t.pc.Idle? && !t.failed && t.remote.Absent? && !Held(t)
    && t.obj == (if o.finalizers == {FINALIZER} then None else Some(o.(finalizers := o.finalizers - {FINALIZER})))
  }

  lemma {:induction false} ProbeRemoves(s: State, o: Object, a: Answer)
    requires Removing(s, o) && (s.pc.Resolve? || s.pc.Observe?) && Enabled(s, Advance(a)) && Faultless(s, a)
    ensures Removing(AdvanceStep(s, a), o)
  {
    if !a.reply.Ok? { AnswersAreUnderstood(a.reply.error); }
  }

  lemma {:induction false} DeleteRemoves(s: State, o: Object, a: Answer)
    requires Removing(s, o) && s.pc.Delete? && Enabled(s, Advance(a)) && Faultless(s, a)
    ensures Removing(AdvanceStep(s, a), o)
  {
    if !a.reply.Ok? { AnswersAreUnderstood(a.reply.error); }
  }

  lemma {:induction false} PageRemoves(s: State, o: Object, a: Answer)
    requires Removing(s, o) && (s.pc.List? || s.pc.DeleteListed?) && Enabled(s, Advance(a)) && a.reply.Ok?
    ensures Removing(AdvanceStep(s, a), o)
  {
  }

  lemma {:induction false} ReleaseRemoves(s: State, o: Object, a: Answer)
    requires Removing(s, o) && s.pc.Release? && Enabled(s, Advance(a)) && a.reply.Ok?
    ensures Removed(AdvanceStep(s, a), o)
  {
    assert o.finalizers - {FINALIZER} == {} <==> o.finalizers == {FINALIZER};
  }

  lemma {:induction false} CallRemoves(s: State, o: Object, a: Answer)
    requires Removing(s, o) && !s.pc.Release? && Enabled(s, Advance(a)) && Faultless(s, a)
    ensures Removing(AdvanceStep(s, a), o)
  {
    if s.pc.Delete? { DeleteRemoves(s, o, a); }
    else if s.pc.List? || s.pc.DeleteListed? { PageRemoves(s, o, a); }
    else { ProbeRemoves(s, o, a); }
  }

  lemma {:induction false} RestRemoves(s: State, o: Object, run: seq<Step>)
    requires Removing(s, o) && Legal(s, run) && FaultlessRest(s, run) && Exec(s, run).pc.Idle?
    ensures Removed(Exec(s, run), o)
    decreases |run|
  {
    var a := run[0].answer;
    if s.pc.Release? {
      ReleaseRemoves(s, o, a);
      assert run[1..] == [];
    } else {
      CallRemoves(s, o, a);
      RestRemoves(AdvanceStep(s, a), o, run[1..]);
    }
  }

  /**
   * Deletion converges in one reconcile: if the bucket is absent, empty or may be emptied, then after
   * any reconcile without failures, whatever pages the service lists, the bucket is absent and the
   * finalizer is gone, and with it the object unless other finalizers hold it.
   */
  lemma {:induction false} DeletionConverges(s: State, run: seq<Step>)
    requires s.obj.Some? && s.obj.value.deleting && Held(s) && Destroyable(s.obj.value, s.remote)
    requires FaultlessReconcile(s, run)
    ensures Removed(Exec(s, run), s.obj.value)
  {
    RestRemoves(Apply(s, Start(true)), s.obj.value, run[1..]);
  }

  // ----- What it deletes -----

  /** A bucket of that creator was deleted. */
  predicate Deleted(log: seq<Record>, c: Creator) {
    exists r :: r in log && r.call.DeleteBucket? && r.target == Some(c)
  }

  lemma {:induction false} DeleteDeletes(s: State, o: Object, a: Answer, c: Creator)
    requires Removing(s, o) && s.pc.Delete? && Enabled(s, Advance(a))
    ensures var t := AdvanceStep(s, a);
            && s.log <= t.log
            && (Exists(s, c) ==> Exists(t, c) || Deleted(t.log, c))
  {
    DeletionEffect(s, a);
    var t := AdvanceStep(s, a);
    if Exists(s, c) {
      var r := t.log[|t.log| - 1];
      assert r in t.log && r.call.DeleteBucket? && r.target == Some(c);
    }
  }

  lemma {:induction false} OthersDelete(s: State, o: Object, a: Answer, c: Creator)
    requires Removing(s, o) && !s.pc.Delete? && Enabled(s, Advance(a)) && Faultless(s, a)
    ensures var t := AdvanceStep(s, a); s.log <= t.log && (Exists(s, c) ==> Exists(t, c))
  {
  }

  lemma {:induction false} CallDeletes(s: State, o: Object, a: Answer, c: Creator)
    requires Removing(s, o) && Enabled(s, Advance(a)) && Faultless(s, a)
    ensures var t := AdvanceStep(s, a);
            && s.log <= t.log
            && (Exists(s, c) ==> Exists(t, c) || Deleted(t.log, c))
  {
    if s.pc.Delete? { DeleteDeletes(s, o, a, c); } else { OthersDelete(s, o, a, c); }
  }

  lemma DeletedStays(log: seq<Record>, longer: seq<Record>, c: Creator)
    requires log <= longer && Deleted(log, c)
    ensures Deleted(longer, c)
  {
    var r :| r in log && r.call.DeleteBucket? && r.target == Some(c);
    assert r in longer;
  }

  /** Whose bucket it finds, that bucket it deletes. */
  lemma {:induction false} RestDeletes(s: State, o: Object, run: seq<Step>, c: Creator)
    requires Removing(s, o) && Legal(s, run) && FaultlessRest(s, run) && Exec(s, run).pc.Idle?
    requires Exists(s, c) || Deleted(s.log, c)
    ensures Deleted(Exec(s, run).log, c) && forall i | 0 <= i < |run| :: run[i].Advance?
    decreases |run|
  {
    var a := run[0].answer;
    var t := AdvanceStep(s, a);
    CallDeletes(s, o, a, c);
    if Deleted(s.log, c) { DeletedStays(s.log, t.log, c); }
    if s.pc.Release? {
      ReleaseRemoves(s, o, a);
      assert run[1..] == [];
    } else {
      CallRemoves(s, o, a);
      RestDeletes(t, o, run[1..], c);
    }
  }

  // ----- Such reconciles exist -----

  function Rank(pc: Pc): nat {
    match pc
    case Resolve(_) => 7
    case Observe(_) => 6
    case Delete(_, again) => if again then 2 else 5
    case List(_) => 4
    case DeleteListed(_, _, _) => 3
    case _ => 1
  }

  /** The whole contents in one page; nothing is gained by smaller ones. */
  function AnswerFor(s: State): Answer {
    var contents := if s.remote.Present? then s.remote.contents else {};
    var reply :=
      if s.pc.Delete? && contents != {} then Settings.Failed(Leaf(Obs(409, "BucketNotEmpty")))
      else if s.pc.Observe? && s.remote.Absent? then Settings.Failed(Leaf(Obs(404, "NoSuchBucket")))
      else Settings.Ok;
    Answer(reply, contents, false, ("", ""), "", 0)
  }

  lemma {:induction false} AnswerIsFaultless(s: State, o: Object)
    requires Removing(s, o)
    ensures Enabled(s, Advance(AnswerFor(s))) && Faultless(s, AnswerFor(s))
  {
  }

  function Size(s: State): nat {
    if s.remote.Present? then |s.remote.contents| else 0
  }

  /** Every call without a failure, whatever page it lists, leaves less to do. */
  lemma {:induction false} RankFalls(s: State, o: Object, a: Answer)
    requires Removing(s, o) && !s.pc.Release? && Enabled(s, Advance(a)) && Faultless(s, a)
    ensures var t := AdvanceStep(s, a);
            Size(t) < Size(s) || (Size(t) == Size(s) && Rank(t.pc) < Rank(s.pc))
  {
    if s.pc.DeleteListed? {
      ForceDestroy.CardinalityOfRest(s.remote.contents, s.pc.page);
    }
  }

  /** However the service cuts the contents into pages, no reconcile without failures goes on forever. */
  lemma {:induction false} FaultlessRestIsBounded(s: State, o: Object, run: seq<Step>)
    requires Removing(s, o) && Legal(s, run) && FaultlessRest(s, run)
    ensures |run| <= 8 * Size(s) + Rank(s.pc)
    decreases |run|
  {
    if run != [] {
      var a := run[0].answer;
      if s.pc.Release? {
        ReleaseRemoves(s, o, a);
        assert |run| == 1;
      } else {
        CallRemoves(s, o, a);
        RankFalls(s, o, a);
        FaultlessRestIsBounded(AdvanceStep(s, a), o, run[1..]);
      }
    }
  }

  /** At every moment a reconcile without failures can go on, and it can do so only so often. */
  lemma {:induction false} DeletionEnds(s: State, run: seq<Step>)
    requires s.pc.Idle? && s.queued && s.obj.Some? && s.obj.value.deleting && Held(s)
    requires Destroyable(s.obj.value, s.remote)
    requires Legal(s, run) && |run| > 0 && run[0] == Start(true) && FaultlessRest(Apply(s, run[0]), run[1..])
    ensures |run| <= 8 * Size(s) + 8
    ensures !Exec(s, run).pc.Idle? ==> exists a :: Enabled(Exec(s, run), Advance(a)) && Faultless(Exec(s, run), a)
  {
    var o := s.obj.value;
    FaultlessRestIsBounded(Apply(s, run[0]), o, run[1..]);
    RestKeepsRemoving(Apply(s, run[0]), o, run[1..]);
    var t := Exec(s, run);
    if !t.pc.Idle? { AnswerIsFaultless(t, o); }
  }

  lemma {:induction false} RestKeepsRemoving(s: State, o: Object, run: seq<Step>)
    requires Removing(s, o) && Legal(s, run) && FaultlessRest(s, run)
    ensures Exec(s, run).pc.Idle? || Removing(Exec(s, run), o)
    decreases |run|
  {
    if run != [] {
      var a := run[0].answer;
      if s.pc.Release? {
        ReleaseRemoves(s, o, a);
        assert run[1..] == [];
      } else {
        CallRemoves(s, o, a);
        RestKeepsRemoving(AdvanceStep(s, a), o, run[1..]);
      }
    }
  }

  lemma {:induction false} RemovalCompletes(s: State, o: Object) returns (run: seq<Step>)
    requires Removing(s, o)
    ensures Legal(s, run) && FaultlessRest(s, run) && Exec(s, run).pc.Idle?
    decreases Size(s), Rank(s.pc)
  {
    var a := AnswerFor(s);
    AnswerIsFaultless(s, o);
    var rest := [];
    if s.pc.Release? {
      ReleaseRemoves(s, o, a);
    } else {
      CallRemoves(s, o, a);
      RankFalls(s, o, a);
      rest := RemovalCompletes(AdvanceStep(s, a), o);
    }
    Prepend(s, Advance(a), rest);
    run := [Advance(a)] + rest;
    assert run[1..] == rest;
  }

  /** For every deleted object whose bucket may go there is a reconcile without failures. */
  lemma {:induction false} FaultlessReconcileExists(s: State) returns (run: seq<Step>)
    requires s.pc.Idle? && s.queued && s.obj.Some? && s.obj.value.deleting && Held(s)
    requires Destroyable(s.obj.value, s.remote)
    ensures FaultlessReconcile(s, run)
  {
    var rest := RemovalCompletes(Apply(s, Start(true)), s.obj.value);
    Prepend(s, Start(true), rest);
    run := [Start(true)] + rest;
    assert run[1..] == rest;
  }
}
