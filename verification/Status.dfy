/** Status bookkeeping of a Bucket: conditions, change detection and the merge patch that is sent. */
module Status {
  import opened Common
  import opened Errors

  const READY := "Ready"

  datatype Condition = Condition(
    kind: string, status: bool, reason: Reason, message: string, observedGeneration: nat, transitionTime: nat)

  /** A status as a value. */
  datatype BucketStatus = BucketStatus(
    observedGeneration: nat, region: string, domain: string, version: string,
    lastSync: Option<nat>, conditions: seq<Condition>)

  /** What one reconcile reports: the resolved region and domain, the bucket version, the condition. */
  datatype Report = Report(
    generation: nat, location: Option<(string, string)>, version: Option<string>, condition: Condition)

  const EMPTY_STATUS := BucketStatus(0, "", "", "", None, [])

  // ----- meta.SetStatusCondition -----

  /** The position of the first condition of a kind, or the length of the list. */
  function Find(cs: seq<Condition>, kind: string): (i: nat)
    ensures i <= |cs| && (i < |cs| ==> cs[i].kind == kind)
    ensures forall j | 0 <= j < i :: cs[j].kind != kind
  {
    if cs == [] || cs[0].kind == kind then 0 else 1 + Find(cs[1..], kind)
  }

  /** The entry after an update: the transition time moves only when the status flips. */
  function Refresh(entry: Condition, c: Condition, now: nat): Condition {
    c.(transitionTime := if entry.status != c.status then now else entry.transitionTime)
  }

  function SetCondition(cs: seq<Condition>, c: Condition, now: nat): seq<Condition> {
    var i := Find(cs, c.kind);
    if i < |cs| then cs[i := Refresh(cs[i], c, now)] else cs + [c.(transitionTime := now)]
  }

  function ReadyCondition(s: BucketStatus): Option<Condition> {
    var i := Find(s.conditions, READY);
    if i < |s.conditions| then Some(s.conditions[i]) else None
  }

  predicate OneEntryPerKind(cs: seq<Condition>) {
    forall i, j | 0 <= i < j < |cs| :: cs[i].kind != cs[j].kind
  }

  // ----- The status that a report leads to -----

  function Next(s: BucketStatus, r: Report, now: nat): BucketStatus {
    BucketStatus(
      r.generation,
      if r.location.Some? then r.location.value.0 else s.region,
      if r.location.Some? then r.location.value.1 else s.domain,
      if r.version.Some? then r.version.value else s.version,
      s.lastSync,
      SetCondition(s.conditions, r.condition, now))
  }

  predicate Changed(s: BucketStatus, n: BucketStatus) {
    || s.observedGeneration != n.observedGeneration
    || s.region != n.region
    || s.domain != n.domain
    || s.version != n.version
    || s.lastSync.None?
    || s.conditions != n.conditions
  }

  /** The status after updateBucketStatus. */
  function Updated(s: BucketStatus, r: Report, now: nat): BucketStatus {
    var n := Next(s, r, now);
    if Changed(s, n) then n.(lastSync := Some(now)) else s
  }

  /** JSON Merge Patch (section 2 of RFC 7396): members that differ replace the target's, lists as a whole. */
  function MergePatch(server: BucketStatus, original: BucketStatus, modified: BucketStatus): BucketStatus {
    BucketStatus(
      if original.observedGeneration != modified.observedGeneration then modified.observedGeneration
        else server.observedGeneration,
      if original.region != modified.region then modified.region else server.region,
      if original.domain != modified.domain then modified.domain else server.domain,
      if original.version != modified.version then modified.version else server.version,
      if original.lastSync != modified.lastSync then modified.lastSync else server.lastSync,
      if original.conditions != modified.conditions then modified.conditions else server.conditions)
  }

  lemma {:induction false} FindAfterSet(cs: seq<Condition>, c: Condition, now: nat)
    ensures var cs' := SetCondition(cs, c, now);
            var i := Find(cs', c.kind);
            i < |cs'| && cs'[i] == c.(transitionTime := cs'[i].transitionTime)
  {
    var cs' := SetCondition(cs, c, now);
    var i := Find(cs, c.kind);
    assert cs'[i].kind == c.kind;
    assert forall j | 0 <= j < i :: cs'[j].kind == cs[j].kind;
    assert Find(cs', c.kind) == i by {
      var k := Find(cs', c.kind);
      assert !(k > i);
      assert !(k < i);
    }
  }

  lemma SetConditionKeepsListMap(cs: seq<Condition>, c: Condition, now: nat)
    requires OneEntryPerKind(cs)
    ensures OneEntryPerKind(SetCondition(cs, c, now))
    ensures |cs| <= |SetCondition(cs, c, now)| <= |cs| + 1
    ensures forall i | 0 <= i < |cs| && cs[i].kind != c.kind :: SetCondition(cs, c, now)[i] == cs[i]
  {
  }

  /** The whole report can be read off the updated status, whether or not a patch was needed. */
  lemma UpdatedShowsReport(s: BucketStatus, r: Report, now: nat)
    requires r.condition.kind == READY
    ensures var u := Updated(s, r, now);
            && u.observedGeneration == r.generation
            && ReadyCondition(u).Some?
            && var c := ReadyCondition(u).value;
               && c.status == r.condition.status && c.reason == r.condition.reason
               && c.observedGeneration == r.condition.observedGeneration && c.message == r.condition.message
  {
    FindAfterSet(s.conditions, r.condition, now);
  }

  /** What the report does not know stays as it was; the time of the last synchronization is set. */
  lemma UpdatedShowsBucket(s: BucketStatus, r: Report, now: nat)
    ensures var u := Updated(s, r, now);
            && u.region == (if r.location.Some? then r.location.value.0 else s.region)
            && u.domain == (if r.location.Some? then r.location.value.1 else s.domain)
            && u.version == (if r.version.Some? then r.version.value else s.version)
            && u.lastSync.Some?
  {
  }

  /** The transition time moves exactly when the condition is new or flips between true and false. */
  lemma TransitionTime(s: BucketStatus, r: Report, now: nat)
    requires r.condition.kind == READY
    ensures var was := ReadyCondition(s);
            var is' := ReadyCondition(Updated(s, r, now));
            && is'.Some?
            && is'.value.transitionTime ==
               if was.Some? && was.value.status == r.condition.status then was.value.transitionTime else now
  {
    FindAfterSet(s.conditions, r.condition, now);
    var i := Find(s.conditions, READY);
    var cs := SetCondition(s.conditions, r.condition, now);
    assert Find(cs, READY) == i by {
      assert cs[i].kind == READY;
      assert forall j | 0 <= j < i :: cs[j].kind == s.conditions[j].kind;
      var k := Find(cs, READY);
      assert !(k > i);
      assert !(k < i);
    }
  }

  /** Section 2 of RFC 7396: a patch carries just what differs, so on its own original it gives the result. */
  lemma PatchCarriesDifferences(server: BucketStatus, original: BucketStatus, modified: BucketStatus)
    ensures MergePatch(original, original, modified) == modified && MergePatch(server, original, original) == server
    ensures MergePatch(modified, original, modified) == modified
  {
  }

  /** A repeated report patches nothing, at whatever time it comes. */
  lemma RepeatedReportPatchesNothing(s: BucketStatus, r: Report, now: nat, later: nat)
    ensures var u := Updated(s, r, now); !Changed(u, Next(u, r, later)) && Updated(u, r, later) == u
  {
    var u := Updated(s, r, now);
    FindAfterSet(s.conditions, r.condition, now);
    var i := Find(u.conditions, r.condition.kind);
    var entry := Refresh(u.conditions[i], r.condition, later);
    assert SetCondition(u.conditions, r.condition, later) == u.conditions[i := entry];
    assert entry == u.conditions[i];
    assert u.conditions[i := u.conditions[i]] == u.conditions;
  }

  // ----- The implementation, with the condition list shared -----

  /** A Go status value: a copy shares the backing store of the condition list. */
  datatype StatusRecord = StatusRecord(
    observedGeneration: nat, region: string, domain: string, version: string,
    lastSync: Option<nat>, conditions: array<Condition>)
  {
    ghost function View(): BucketStatus
      reads conditions
    {
      BucketStatus(observedGeneration, region, domain, version, lastSync, conditions[..])
    }
  }

  class BucketObject {
    var status: StatusRecord

    constructor (s: StatusRecord)
      ensures status == s
    {
      status := s;
    }
  }

  datatype Patch = Patch(original: BucketStatus, modified: BucketStatus)

  /** Rewrites a present condition in place; appends a missing one to a new list. */
  method SetStatusCondition(conditions: array<Condition>, c: Condition, now: nat) returns (list: array<Condition>)
    modifies conditions
    ensures list[..] == SetCondition(old(conditions[..]), c, now)
    ensures list == conditions || (fresh(list) && conditions[..] == old(conditions[..]))
  {
    ghost var before := conditions[..];
    var i := 0;
    while i < conditions.Length && conditions[i].kind != c.kind
      invariant i <= conditions.Length && conditions[..] == before
      invariant forall j | 0 <= j < i :: before[j].kind != c.kind
    {
      i := i + 1;
    }
    assert i == Find(before, c.kind) by {
      var k := Find(before, c.kind);
      assert !(k < i);
      assert !(k > i);
    }
    if i == conditions.Length {
      var items := conditions[..];
      var entry := c.(transitionTime := now);
      list := new Condition[|items| + 1](k requires 0 <= k <= |items| => if k < |items| then items[k] else entry);
      assert list[..] == before + [entry];
      return;
    }
    conditions[i] := Refresh(conditions[i], c, now);
    assert conditions[..] == before[i := Refresh(before[i], c, now)];
    list := conditions;
  }

  /** The generated deep copy: a value with its own condition list. */
  method DeepCopy(s: StatusRecord) returns (copy: StatusRecord)
    ensures fresh(copy.conditions) && copy.View() == s.View()
  {
    var view := s.conditions[..];
    var conditions := new Condition[|view|](k requires 0 <= k < |view| => view[k]);
    assert conditions[..] == view;
    copy := s.(conditions := conditions);
  }

  /**
   * updateBucketStatus up to the patch request. The working copy shares its condition list with the
   * object, so setting the condition already changes the object; the comparison is exact because it
   * is made against the deep copy.
   */
  method UpdateBucketStatus(bucket: BucketObject, r: Report, now: nat) returns (patch: Option<Patch>)
    modifies bucket, bucket.status.conditions
    ensures patch.Some? <==> Changed(old(bucket.status.View()), Next(old(bucket.status.View()), r, now))
    ensures bucket.status.View() == Updated(old(bucket.status.View()), r, now)
    ensures patch.Some? ==> patch.value == Patch(old(bucket.status.View()), bucket.status.View())
  {
    ghost var before := bucket.status.View();
    var original := DeepCopy(bucket.status);
    var next := bucket.status;
    next := next.(observedGeneration := r.generation);
    if r.location.Some? {
      next := next.(region := r.location.value.0, domain := r.location.value.1);
    }
    if r.version.Some? {
      next := next.(version := r.version.value);
    }
    var list := SetStatusCondition(next.conditions, r.condition, now);
    next := next.(conditions := list);
    assert original.View() == before;
    assert next.View() == Next(before, r, now);
    var changed :=
      || original.observedGeneration != next.observedGeneration
      || original.region != next.region
      || original.domain != next.domain
      || original.version != next.version
      || original.lastSync.None?
      || original.conditions[..] != next.conditions[..];
    if !changed {
      return None;
    }
    next := next.(lastSync := Some(now));
    bucket.status := next;
    return Some(Patch(
      BucketStatus(original.observedGeneration, original.region, original.domain, original.version,
        original.lastSync, original.conditions[..]),
      BucketStatus(next.observedGeneration, next.region, next.domain, next.version, next.lastSync,
        next.conditions[..])));
  }
}
