/**
 * BucketReconciler.Reconcile as a protocol between a Kubernetes Bucket object and a remote OBS bucket.
 *
 * Every API call is one atomic step. It may succeed, fail without effect, or take effect while its
 * reply is lost; users, other finalizer owners and other OBS clients act between any two calls; and
 * the controller may crash at any point. Reads are fresh, one reconcile runs at a time, one Bucket
 * object has the name of the OBS bucket, and nobody but the controller sets or clears its finalizer.
 */
module Lifecycle {
  import opened Common
  import opened Errors
  import Settings
  import Status
  import ForceDestroy
  import Acl

  type Entry = ForceDestroy.Entry
  type Reply = Settings.Reply

  const FINALIZER := "buckets.obs.wilaris.de/finalizer"

  // ----- State -----

  datatype Spec = Spec(desired: Settings.Desired, forceDestroy: bool)

  datatype Object = Object(
    uid: nat, generation: nat, spec: Spec, deleting: bool, finalizers: set<string>, status: Status.BucketStatus)

  datatype Creator = Controller | Foreign

  datatype Remote = Absent | Present(creator: Creator, settings: Settings.Remote, contents: set<Entry>)

  /** The mutating API calls, recorded when they are issued with what they hit and under which claim. */
  datatype Call =
    | CreateBucket | DeleteBucket | DeleteObjects | WriteSetting(setting: Settings.Setting)
    | PatchFinalizers | PatchStatus
  datatype Record = Record(
    call: Call, target: Option<Creator>, deleting: bool, held: bool, force: bool, forceAsRead: bool)

  /** The Bucket as the reconciler holds it, where the provider points to, and the observed version. */
  datatype Local = Local(bucket: Object, location: Option<(string, string)>, version: Option<string>)

  /** The API call that the reconciler makes next. */
  datatype Pc =
    | Idle
    | Resolve(l: Local)
    | Observe(l: Local)
    | Delete(l: Local, again: bool)
    | List(l: Local)
    | DeleteListed(l: Local, page: set<Entry>, more: bool)
    | Release(l: Local)
    | Claim(l: Local)
    | Create(l: Local)
    | Disown(l: Local)
    | Read(l: Local, i: nat)
    | Write(l: Local, i: nat)
    | FinalObserve(l: Local)
    | Report(l: Local, err: Option<Error>, park: bool)

  /** `failed` and `cause` are about the last reconcile that returned and the last failure that was reported. */
  datatype State = State(
    obj: Option<Object>, remote: Remote, pc: Pc, queued: bool, failed: bool, cause: Option<Error>,
    nextUID: nat, account: string, log: seq<Record>)

  predicate Held(s: State) {
    s.obj.Some? && FINALIZER in s.obj.value.finalizers
  }

  predicate Exists(s: State, c: Creator) {
    s.remote.Present? && s.remote.creator == c
  }

  // ----- Steps -----

  /** What an API call answers; each call uses the parts that concern it. */
  datatype Answer = Answer(
    reply: Reply, page: set<Entry>, truncated: bool, location: (string, string), version: string, now: nat)

  datatype Step =
    | Start(readOk: bool)
    | Advance(answer: Answer)
    | Crash
    | Wake
    | UserCreate(spec: Spec, others: set<string>)
    | UserUpdate(spec: Spec)
    | UserDelete
    | OtherFinalizers(finalizers: set<string>)
    | ForeignCreate(settings: Settings.Remote, contents: set<Entry>)
    | ForeignDelete
    | ForeignChange(settings: Settings.Remote, contents: set<Entry>)

  /** The reconciler returns, with or without an error; an error puts the key back on the queue. */
  function Return(s: State, failed: bool): State {
    s.(pc := Idle, queued := s.queued || failed, failed := failed)
  }

  function Logged(s: State, call: Call, l: Local): State {
    s.(log := s.log + [Record(call, if s.remote.Present? then Some(s.remote.creator) else None,
                              s.obj.Some? && s.obj.value.deleting, Held(s),
                              s.obj.Some? && s.obj.value.spec.forceDestroy, l.bucket.spec.forceDestroy)])
  }

  function Fail(s: State, l: Local, e: Error): State {
    s.(pc := Report(l, Some(e), false))
  }

  /** New finalizers may not be added to an object that is being deleted. */
  predicate PatchAccepted(o: Object, finalizers: set<string>) {
    o.deleting ==> finalizers <= o.finalizers
  }

  /** bucketEventPredicate on an update event: status-only updates are filtered out. */
  predicate PassesPredicate(o: Object, o': Object) {
    o.generation != o'.generation || o.deleting != o'.deleting || o.finalizers != o'.finalizers
  }

  /** A write to the API server with the event it causes: creations and deletions always pass. */
  function Store(s: State, obj: Option<Object>): State {
    var event :=
      if s.obj.Some? && obj.Some? then PassesPredicate(s.obj.value, obj.value) else s.obj.Some? || obj.Some?;
    s.(obj := obj, queued := s.queued || event)
  }

  /** A finalizer patch replaces the whole list; an object under deletion without finalizers is removed. */
  function WithFinalizers(s: State, finalizers: set<string>): State
    requires s.obj.Some?
  {
    var o := s.obj.value;
    Store(s, if o.deleting && finalizers == {} then None else Some(o.(finalizers := finalizers)))
  }

  /** Settings of a bucket just created: the create call carries the storage class and the ACL. */
  ghost function NewSettings(account: string, d: Settings.Desired): Settings.Remote {
    Settings.Put(Settings.CannedAcl, d,
      Settings.Remote(Settings.BucketStorageClass(d), Acl.Policy(account, []), "", [],
        Settings.LogTarget("", "", ""), None))
  }

  function NextSetting(s: State, l: Local, i: nat): State {
    s.(pc := if i + 1 < |Settings.STEPS| then Read(l, i + 1) else FinalObserve(l))
  }

  /** What an observation finds: the bucket, nothing, or an error that does not tell. */
  function Observed(r: Reply): Option<bool> {
    if r.Ok? then Some(true) else if IsBucketNotFound(r.error) then Some(false) else None
  }

  function AfterObserve(s: State, l: Local, exists': bool): State {
    var b := l.bucket;
    if b.deleting then s.(pc := if exists' then Delete(l, false) else Release(l))
    else if FINALIZER !in b.finalizers then
      if exists' then Fail(s, l.(version := None), Wrap(Leaf(Mark(BucketAlreadyExists)))) else s.(pc := Claim(l))
    else s.(pc := if exists' then Read(l, 0) else Create(l))
  }

  function AfterDelete(s: State, l: Local, again: bool, r: Reply): State {
    var none := l.(version := None);
    if r.Ok? then s.(pc := Release(l))
    else if !again && IsBucketNotFound(r.error) then s.(pc := Release(l))
    else if !again && IsBucketNotEmpty(r.error) && l.bucket.spec.forceDestroy then s.(pc := List(l))
    else s.(pc := Report(none, Some(Wrap(r.error)), IsBucketNotEmpty(r.error) && !l.bucket.spec.forceDestroy))
  }

  function ReadyConditionFor(b: Object, err: Option<Error>): Status.Condition {
    Status.Condition(
      Status.READY, err.None?, if err.None? then ReasonBucketReady else ReadyReason(err.value), "", b.generation, 0)
  }

  function ReportOf(l: Local, err: Option<Error>): Status.Report {
    Status.Report(l.bucket.generation, l.location, l.version, ReadyConditionFor(l.bucket, err))
  }

  /** patchStatus parks user-correctable errors and hands the others back. */
  predicate ReturnsNil(err: Option<Error>, park: bool) {
    park || err.None? || Correctable(err.value)
  }

  ghost function AdvanceReport(s: State, l: Local, err: Option<Error>, park: bool, a: Answer): State {
    UpdateStatus(if err.Some? then s.(cause := err) else s, l, err, park, a)
  }

  ghost function UpdateStatus(s: State, l: Local, err: Option<Error>, park: bool, a: Answer): State {
    var old' := l.bucket.status;
    var next := Status.Updated(old', ReportOf(l, err), a.now);
    if !Status.Changed(old', Status.Next(old', ReportOf(l, err), a.now)) then Return(s, !ReturnsNil(err, park))
    else
      var s1 := Logged(s, PatchStatus, l);
      if a.reply.Failed? || s.obj.None? then Return(s1, true)
      else
        var o := s.obj.value;
        Return(Store(s1, Some(o.(status := Status.MergePatch(o.status, old', next)))),
               a.reply.Lost? || !ReturnsNil(err, park))
  }

  function ReadOutcome(s: State, l: Local, i: nat, r: Reply): Settings.Outcome
    requires i < |Settings.STEPS|
  {
    var settings := if s.remote.Present? then Some(s.remote.settings) else None;
    Settings.ReadOutcome(Settings.STEPS[i], l.bucket.spec.desired, settings, r)
  }

  function WriteOutcome(l: Local, i: nat, r: Reply): Settings.Outcome
    requires i < |Settings.STEPS|
  {
    Settings.WriteOutcome(Settings.STEPS[i], l.bucket.spec.desired, r)
  }

  function AfterSetting(s: State, l: Local, i: nat, o: Settings.Outcome): State {
    match o
    case Proceed => NextSetting(s, l, i)
    case MustWrite => s.(pc := Write(l, i))
    case Broken(e) => Fail(s, l, e)
  }

  ghost function Written(s: State, l: Local, w: Settings.Setting, r: Reply): State {
    var s1 := Logged(s, WriteSetting(w), l);
    if r.Failed? || s.remote.Absent? then s1
    else s1.(remote := s.remote.(settings := Settings.Put(w, l.bucket.spec.desired, s.remote.settings)))
  }

  ghost function AdvanceFinalizer(s: State, l: Local, a: Answer): State {
    var finalizers := if s.pc.Claim? then l.bucket.finalizers + {FINALIZER} else l.bucket.finalizers - {FINALIZER};
    var s1 := Logged(s, PatchFinalizers, l);
    var s2 := if a.reply.Failed? || s.obj.None? then s1 else WithFinalizers(s1, finalizers);
    if !s.pc.Disown? then Return(s2, !a.reply.Ok?)
    else
      var conflict := Wrap(Leaf(Mark(BucketAlreadyExists)));
      var l1 := l.(version := None);
      if a.reply.Ok? && s.obj.Some? then Fail(s2, l1.(bucket := s.obj.value.(finalizers := finalizers)), conflict)
      else
        var e := if a.reply.Ok? then Leaf(Kube(true)) else a.reply.error;
        Fail(s2, l1.(bucket := l.bucket.(finalizers := finalizers)), Join([conflict, Wrap(e)]))
  }

  ghost function AdvanceStep(s: State, a: Answer): State
    requires !s.pc.Idle?
    requires s.pc.Read? || s.pc.Write? ==> s.pc.i < |Settings.STEPS|
  {
    match s.pc
    case Resolve(l) =>
      if a.reply.Ok? then s.(pc := Observe(l.(location := Some(a.location))))
      else Fail(s, l, a.reply.error)
    case Observe(l) =>
      var found := Observed(a.reply);
      if found.Some? then AfterObserve(s, l.(version := if found.value then Some(a.version) else None), found.value)
      else Fail(s, l, Wrap(a.reply.error))
    case Delete(l, again) =>
      var s1 := Logged(s, DeleteBucket, l);
      AfterDelete(if a.reply.Failed? then s1 else s1.(remote := Absent), l, again, a.reply)
    case List(l) =>
      if !a.reply.Ok? then Fail(s, l.(version := None), Wrap(a.reply.error))
      else if a.page == {} then s.(pc := Delete(l, true))
      else s.(pc := DeleteListed(l, a.page, !(|a.page| < ForceDestroy.PAGE_LIMIT && !a.truncated)))
    case DeleteListed(l, page, more) =>
      var s1 := Logged(s, DeleteObjects, l);
      var gone := if a.reply.Ok? then page else page * a.page;
      var s2 := if s.remote.Absent? then s1 else s1.(remote := s.remote.(contents := s.remote.contents - gone));
      if !a.reply.Ok? then Fail(s2, l.(version := None), Wrap(a.reply.error))
      else s2.(pc := if more then List(l) else Delete(l, true))
    case Release(l) => AdvanceFinalizer(s, l, a)
    case Claim(l) => AdvanceFinalizer(s, l, a)
    case Disown(l) => AdvanceFinalizer(s, l, a)
    case Create(l) =>
      var s1 := Logged(s, CreateBucket, l);
      var s2 := if a.reply.Failed? then s1
                else s1.(remote := Present(Controller, NewSettings(s.account, l.bucket.spec.desired), {}));
      if a.reply.Ok? then s2.(pc := Read(l, 0))
      else if IsCreateConflict(a.reply.error) then s2.(pc := Disown(l))
      else Fail(s2, l, Wrap(a.reply.error))
    case Read(l, i) => AfterSetting(s, l, i, ReadOutcome(s, l, i, a.reply))
    case Write(l, i) => AfterSetting(Written(s, l, Settings.STEPS[i], a.reply), l, i, WriteOutcome(l, i, a.reply))
    case FinalObserve(l) =>
      var found := Observed(a.reply);
      if found.Some? then s.(pc := Report(l.(version := if found.value then Some(a.version) else None), None, false))
      else Fail(s, l.(version := None), Wrap(a.reply.error))
    case Report(l, err, park) => AdvanceReport(s, l, err, park, a)
  }

  // ----- Contracts of the API calls -----

  /** An error answer that may hide an effect: any but that the name is taken, which means that nothing was done. */
  predicate Ambiguous(e: Error) {
    ObsFailure(e) && !SaysTaken(e)
  }

  /** A call that failed without effect; only of a bucket that is not there it is said that it is not. */
  predicate Refused(s: State, r: Reply) {
    r.Failed? && ObsFailure(r.error) && (SaysAbsent(r.error) ==> s.remote.Absent?)
  }

  /** The errors that resolving the provider can end with. */
  predicate ResolveFailure(e: Error) {
    || (e.Tagged? && e.kind in {ProviderConfigNotFound, CredentialsSecretNotFound} && e.child == Leaf(Kube(true)))
    || e == Wrap(Leaf(Mark(MissingCredentials)))
    || e == Wrap(Leaf(Mark(InvalidEndpoint)))
    || (e.Wrap? && e.child == Leaf(Other))
    || KubeFailure(e)
  }

  predicate Possible(s: State, a: Answer) {
    match s.pc
    case Idle => false
    case Resolve(_) => a.reply.Ok? || (a.reply.Failed? && ResolveFailure(a.reply.error))
    case Observe(_) => if a.reply.Ok? then s.remote.Present? else Refused(s, a.reply)
    case FinalObserve(_) => if a.reply.Ok? then s.remote.Present? else Refused(s, a.reply)
    case Delete(_, _) =>
      if a.reply.Failed? then Refused(s, a.reply)
      else s.remote.Present? && s.remote.contents == {} && (a.reply.Lost? ==> Ambiguous(a.reply.error))
    case List(_) =>
      if a.reply.Ok? then
        && s.remote.Present? && a.page <= s.remote.contents
        && (s.remote.contents != {} ==> a.page != {}) && (!a.truncated ==> a.page == s.remote.contents)
      else Refused(s, a.reply)
    case DeleteListed(_, _, _) => if a.reply.Ok? then s.remote.Present? else ObsFailure(a.reply.error)
    case Create(_) =>
      if a.reply.Failed? then ObsFailure(a.reply.error)
      else s.remote.Absent? && (a.reply.Lost? ==> Ambiguous(a.reply.error))
    case Read(_, i) =>
      && i < |Settings.STEPS|
      && if a.reply.Ok? then s.remote.Present?
         else
           && Refused(s, a.reply)
           && (s.remote.Present? ==> Settings.TruthfulRead(Settings.STEPS[i], s.remote.settings, a.reply))
    case Write(l, i) =>
      && i < |Settings.STEPS|
      && if a.reply.Failed? then
           && Refused(s, a.reply)
           && (s.remote.Present? ==>
                 Settings.TruthfulWrite(Settings.STEPS[i], l.bucket.spec.desired, s.remote.settings, a.reply))
         else s.remote.Present? && (a.reply.Lost? ==> Ambiguous(a.reply.error))
    case Release(l) => PatchPossible(s, a, l.bucket.finalizers - {FINALIZER})
    case Disown(l) => PatchPossible(s, a, l.bucket.finalizers - {FINALIZER})
    case Claim(l) => PatchPossible(s, a, l.bucket.finalizers + {FINALIZER})
    case Report(_, _, _) =>
      if a.reply.Failed? then KubeFailure(a.reply.error)
      else s.obj.Some? && (a.reply.Lost? ==> KubeFailure(a.reply.error))
  }

  predicate PatchPossible(s: State, a: Answer, finalizers: set<string>) {
    if a.reply.Failed? then KubeFailure(a.reply.error)
    else s.obj.Some? && PatchAccepted(s.obj.value, finalizers) && (a.reply.Lost? ==> KubeFailure(a.reply.error))
  }

  ghost predicate Enabled(s: State, step: Step) {
    match step
    case Start(_) => s.pc.Idle? && s.queued
    case Advance(a) => Possible(s, a)
    case Crash => true
    case Wake => true
    case UserCreate(_, others) => s.obj.None? && FINALIZER !in others
    case UserUpdate(_) => s.obj.Some?
    case UserDelete => s.obj.Some?
    case OtherFinalizers(f) =>
      s.obj.Some? && (FINALIZER in f <==> FINALIZER in s.obj.value.finalizers) && PatchAccepted(s.obj.value, f)
    case ForeignCreate(_, _) => s.remote.Absent?
    case ForeignDelete => s.remote.Present?
    case ForeignChange(_, _) => s.remote.Present?
  }

  /** The beginning of Reconcile: read the object, and leave it alone when it is gone or untracked. */
  function Begin(s: State, readOk: bool): State {
    if !readOk then Return(s.(queued := false), true)
    else if s.obj.None? then Return(s.(queued := false), false)
    else if s.obj.value.deleting && FINALIZER !in s.obj.value.finalizers then Return(s.(queued := false), false)
    else s.(queued := false, pc := Resolve(Local(s.obj.value, None, None)))
  }

  ghost function Apply(s: State, step: Step): State
    requires Enabled(s, step)
  {
    match step
    case Start(readOk) => Begin(s, readOk)
    case Advance(a) => AdvanceStep(s, a)
    case Crash => s.(pc := Idle, queued := true)
    case Wake => s.(queued := true)
    case UserCreate(spec, others) =>
      Store(s, Some(Object(s.nextUID, 1, spec, false, others, Status.EMPTY_STATUS))).(nextUID := s.nextUID + 1)
    case UserUpdate(spec) =>
      Store(s, Some(s.obj.value.(spec := spec, generation := s.obj.value.generation + 1)))
    case UserDelete =>
      var o := s.obj.value;
      if o.finalizers == {} then Store(s, None)
      else if o.deleting then s
      else Store(s, Some(o.(deleting := true, generation := o.generation + 1)))
    case OtherFinalizers(f) => WithFinalizers(s, f)
    case ForeignCreate(settings, contents) => s.(remote := Present(Foreign, settings, contents))
    case ForeignDelete => s.(remote := Absent)
    case ForeignChange(settings, contents) => s.(remote := s.remote.(settings := settings, contents := contents))
  }

  // ----- Runs -----

  ghost predicate Legal(s: State, run: seq<Step>)
    decreases |run|
  {
    run == [] || (Enabled(s, run[0]) && Legal(Apply(s, run[0]), run[1..]))
  }

  ghost function Exec(s: State, run: seq<Step>): State
    requires Legal(s, run)
    decreases |run|
  {
    if run == [] then s else Exec(Apply(s, run[0]), run[1..])
  }

  /** No Bucket object, no reconcile and no calls so far; the OBS bucket may exist and is then foreign. */
  predicate Initial(s: State) {
    s.obj.None? && s.pc.Idle? && s.log == [] && !Exists(s, Controller) && s.account != ""
  }
}
