/** The six bucket settings and the update that brings each of them to its specified value. */
module Settings {
  import opened Common
  import opened Errors
  import Acl
  import Tags

  datatype Setting = StorageClass | CannedAcl | Versioning | TagSet | Logging | Encryption

  const STEPS := [StorageClass, CannedAcl, Versioning, TagSet, Logging, Encryption]

  datatype LogTarget = LogTarget(bucket: string, prefix: string, agency: string)
  datatype KmsSpec = KmsSpec(keyID: string, projectID: string)
  datatype KmsConfig = KmsConfig(algorithm: string, keyID: string, projectID: string)

  /** The part of a Bucket spec that update() enforces. */
  datatype Desired = Desired(
    storageClass: string, acl: Option<Acl.Canned>, versioning: bool,
    tags: map<string, string>, logging: Option<LogTarget>, encryption: Option<KmsSpec>)

  /** The corresponding state of the remote bucket, as the OBS read calls report it. */
  datatype Remote = Remote(
    storageClass: string, policy: Acl.Policy, versioning: string,
    tags: seq<Tags.Tag>, logging: LogTarget, encryption: Option<KmsConfig>)

  /** How an API call ended: a lost reply means that the effect happened and the caller saw an error. */
  datatype Reply = Ok | Failed(error: Error) | Lost(error: Error)

  function NormalizeStorageClass(name: string): string {
    if name == "STANDARD_IA" then "WARM" else if name == "GLACIER" then "COLD" else name
  }

  function BucketStorageClass(d: Desired): string {
    if d.storageClass == "" then "STANDARD" else d.storageClass
  }

  function BucketAcl(d: Desired): Acl.Canned {
    if d.acl.None? then Acl.Private else d.acl.value
  }

  function VersioningStatus(d: Desired): string {
    if d.versioning then "Enabled" else "Suspended"
  }

  function LoggingInput(d: Desired): LogTarget {
    if d.logging.None? then LogTarget("", "", "") else d.logging.value
  }

  function EncryptionConfig(k: KmsSpec): KmsConfig {
    KmsConfig("kms", k.keyID, k.projectID)
  }

  /** The remote value of one setting is what the spec asks for. */
  predicate Matches(w: Setting, d: Desired, r: Remote) {
    match w
    case StorageClass => NormalizeStorageClass(r.storageClass) == NormalizeStorageClass(BucketStorageClass(d))
    case CannedAcl => Acl.Recognised(r.policy, BucketAcl(d))
    case Versioning => r.versioning == VersioningStatus(d)
    case TagSet => Tags.Fold(r.tags) == d.tags
    case Logging => r.logging == LoggingInput(d)
    case Encryption =>
      if d.encryption.None? then r.encryption.None?
      else r.encryption == Some(EncryptionConfig(d.encryption.value))
  }

  // ----- What a matching setting is, in the terms of the spec and of the wire -----

  /** The old and the new names of the cold classes mean the same. */
  predicate SameClass(a: string, b: string) {
    a == b || {a, b} == {"STANDARD_IA", "WARM"} || {a, b} == {"GLACIER", "COLD"}
  }

  ghost predicate Specified(w: Setting, d: Desired, r: Remote) {
    match w
    case StorageClass => SameClass(r.storageClass, if d.storageClass == "" then "STANDARD" else d.storageClass)
    case CannedAcl => Acl.Grants(r.policy, if d.acl.Some? then d.acl.value else Acl.Private)
    case Versioning => if d.versioning then r.versioning == "Enabled" else r.versioning == "Suspended"
    case TagSet => Tags.Denotes(r.tags, d.tags)
    case Logging =>
      if d.logging.None? then r.logging.bucket == "" && r.logging.prefix == "" && r.logging.agency == ""
      else
        && r.logging.bucket == d.logging.value.bucket && r.logging.prefix == d.logging.value.prefix
        && r.logging.agency == d.logging.value.agency
    case Encryption =>
      if d.encryption.None? then r.encryption.None?
      else
        && r.encryption.Some? && r.encryption.value.algorithm == "kms"
        && r.encryption.value.keyID == d.encryption.value.keyID
        && r.encryption.value.projectID == d.encryption.value.projectID
  }

  /** All six settings are as the spec asks. */
  ghost predicate AsSpecified(d: Desired, r: Remote) {
    forall w :: Specified(w, d, r)
  }

  lemma MatchMeans(w: Setting, d: Desired, r: Remote)
    ensures Matches(w, d, r) <==> Specified(w, d, r)
  {
    match w
    case CannedAcl => Acl.RecognisedMeans(r.policy, BucketAcl(d));
    case TagSet => Tags.FoldMeans(r.tags, d.tags);
    case StorageClass => ClassMeans(r.storageClass, BucketStorageClass(d));
    case _ =>
  }

  lemma ClassMeans(a: string, b: string)
    ensures NormalizeStorageClass(a) == NormalizeStorageClass(b) <==> SameClass(a, b)
  {
    var names := ["STANDARD_IA", "WARM", "GLACIER", "COLD"];
    assert |names[0]| == 11 && |names[1]| == 4 && |names[2]| == 7 && names[3][0] == 'C' != names[1][0];
    if SameClass(a, b) && a != b {
      assert a in {a, b} && b in {a, b};
    }
    if NormalizeStorageClass(a) == NormalizeStorageClass(b) && a != b {
      assert {a, b} == {"STANDARD_IA", "WARM"} || {a, b} == {"GLACIER", "COLD"};
    }
  }

  /** A bucket matches exactly when all six settings are as the spec asks. */
  lemma AllMatchMeans(d: Desired, r: Remote)
    ensures AllMatch(d, r) <==> AsSpecified(d, r)
  {
    forall w ensures Matches(w, d, r) <==> Specified(w, d, r) {
      MatchMeans(w, d, r);
    }
  }

  predicate AllMatch(d: Desired, r: Remote) {
    forall w :: Matches(w, d, r)
  }

  /** Every setting other than w has the same value in both states. */
  predicate SameExcept(w: Setting, a: Remote, b: Remote) {
    && (w != StorageClass ==> a.storageClass == b.storageClass)
    && (w != CannedAcl ==> a.policy == b.policy)
    && (w != Versioning ==> a.versioning == b.versioning)
    && (w != TagSet ==> a.tags == b.tags)
    && (w != Logging ==> a.logging == b.logging)
    && (w != Encryption ==> a.encryption == b.encryption)
    && a.policy.owner == b.policy.owner
  }

  const GROUP_URI := "http://acs.amazonaws.com/groups/global"

  /** The effect that OBS applies for a write of one setting. */
  ghost function Put(w: Setting, d: Desired, r: Remote): Remote {
    match w
    case StorageClass => r.(storageClass := NormalizeStorageClass(BucketStorageClass(d)))
    case CannedAcl => r.(policy := r.policy.(grants := Acl.CannedGrants(r.policy.owner, BucketAcl(d), GROUP_URI)))
    case Versioning => r.(versioning := VersioningStatus(d))
    case TagSet => r.(tags := Tags.TagsOf(d.tags))
    case Logging => r.(logging := LoggingInput(d))
    case Encryption =>
      r.(encryption := if d.encryption.None? then None else Some(EncryptionConfig(d.encryption.value)))
  }

  /**
   * A setting is as the spec asks, or it is an ACL without an owner, which is never recognised
   * whatever is written.
   */
  predicate Attained(w: Setting, d: Desired, r: Remote) {
    Matches(w, d, r) || (w == CannedAcl && r.policy.owner == "")
  }

  /** A write makes its own setting match, except for an ACL without an owner, and leaves the others alone. */
  lemma PutEstablishes(w: Setting, d: Desired, r: Remote)
    ensures Matches(w, d, Put(w, d, r)) <==> w != CannedAcl || r.policy.owner != ""
    ensures SameExcept(w, r, Put(w, d, r))
  {
    if w == CannedAcl && r.policy.owner != "" {
      var acl := BucketAcl(d);
      Acl.CannedGrantsAreRecognised(r.policy.owner, acl, GROUP_URI, Acl.CannedGrants(r.policy.owner, acl, GROUP_URI));
    }
  }

  lemma MatchesElsewhere(w: Setting, v: Setting, d: Desired, a: Remote, b: Remote)
    requires SameExcept(w, a, b) && v != w
    ensures Matches(v, d, a) == Matches(v, d, b)
  {
  }

  predicate NamesNoTags(e: Error) {
    IsBucketCode(e, "NoSuchTagSet") || IsBucketNotFound(e)
  }

  predicate NamesNoEncryption(e: Error) {
    IsBucketCode(e, "NoSuchEncryptionConfiguration") || IsBucketNotFound(e)
  }

  // ----- One step: read the setting, write it when it differs -----

  predicate SkipsReadError(w: Setting, e: Error) {
    || (w == TagSet && NamesNoTags(e))
    || (w == Encryption && (NamesNoEncryption(e) || IsBucketCode(e, "FsNotSupport")))
  }

  /** The setting counts as deleted when the delete call finds nothing to delete. */
  predicate SkipsWriteError(w: Setting, d: Desired, e: Error) {
    || (w == TagSet && d.tags == map[] && NamesNoTags(e))
    || (w == Encryption && d.encryption.None? && NamesNoEncryption(e))
  }

  /** What the read of a setting that reports absence is compared with. */
  predicate WantsNothing(w: Setting, d: Desired) {
    (w == TagSet && d.tags == map[]) || (w == Encryption && d.encryption.None?)
  }

  /** How a call about one setting ends for the reconciler. */
  datatype Outcome = Proceed | MustWrite | Broken(error: Error)

  /** Compare what was read with the spec. */
  function ReadOutcome(w: Setting, d: Desired, r: Option<Remote>, reply: Reply): Outcome {
    if reply.Ok? then
      if r.Some? && Matches(w, d, r.value) then Proceed else MustWrite
    else if !SkipsReadError(w, reply.error) then Broken(Wrap(reply.error))
    else if WantsNothing(w, d) then Proceed
    else MustWrite
  }

  function WriteOutcome(w: Setting, d: Desired, reply: Reply): Outcome {
    if reply.Ok? || SkipsWriteError(w, d, reply.error) then Proceed else Broken(Wrap(reply.error))
  }

  /** What the wire does to the two calls of a step; a read has no effect that a lost reply could hide. */
  datatype Wire = Wire(read: Reply, write: Reply)

  datatype StepResult = StepResult(settings: Remote, writes: nat, err: Option<Error>)

  /** The two calls of a step put together. */
  ghost function Stepped(w: Setting, d: Desired, r: Remote, wire: Wire): StepResult {
    match ReadOutcome(w, d, Some(r), wire.read)
    case Proceed => StepResult(r, 0, None)
    case Broken(e) => StepResult(r, 0, Some(e))
    case MustWrite =>
      var after := if wire.write.Failed? then r else Put(w, d, r);
      var out := WriteOutcome(w, d, wire.write);
      StepResult(after, 1, if out.Broken? then Some(out.error) else None)
  }

  /** The answer says that there is no such setting, or that the bucket cannot have it. */
  predicate SaysUnset(w: Setting, e: Error) {
    match w
    case TagSet => SaysCode(e, "NoSuchTagSet") || SaysAbsent(e)
    case Encryption =>
      SaysCode(e, "NoSuchEncryptionConfiguration") || SaysCode(e, "FsNotSupport") || SaysAbsent(e)
    case _ => false
  }

  predicate Unset(w: Setting, r: Remote) {
    if w == TagSet then r.tags == [] else r.encryption.None?
  }

  /** Service contract: an answer that names the absence of a setting is given only when it is absent. */
  predicate TruthfulRead(w: Setting, r: Remote, reply: Reply) {
    !reply.Ok? ==> ObsFailure(reply.error) && (SaysUnset(w, reply.error) ==> Unset(w, r))
  }

  predicate TruthfulWrite(w: Setting, d: Desired, r: Remote, reply: Reply) {
    reply.Failed? ==> ObsFailure(reply.error) && (SaysUnset(w, reply.error) && WantsNothing(w, d) ==> Unset(w, r))
  }

  predicate Truthful(w: Setting, d: Desired, r: Remote, wire: Wire) {
    TruthfulRead(w, r, wire.read) && TruthfulWrite(w, d, r, wire.write)
  }

  /** With truthful answers a read that lets the step end, or reports absence, is right about the setting. */
  lemma ReadIsRight(w: Setting, d: Desired, r: Remote, reply: Reply)
    requires TruthfulRead(w, r, reply)
    ensures ReadOutcome(w, d, Some(r), reply).Proceed? ==> Matches(w, d, r)
    ensures ReadOutcome(w, d, Some(r), reply).MustWrite? ==> !Matches(w, d, r)
  {
    Tags.FoldIsEmpty(r.tags);
    if !reply.Ok? { AnswersAreUnderstood(reply.error); }
  }

  lemma WriteIsRight(w: Setting, d: Desired, r: Remote, reply: Reply)
    requires TruthfulWrite(w, d, r, reply) && WriteOutcome(w, d, reply).Proceed?
    ensures Attained(w, d, if reply.Failed? then r else Put(w, d, r))
  {
    Tags.FoldIsEmpty(r.tags);
    PutEstablishes(w, d, r);
    if reply.Failed? { AnswersAreUnderstood(reply.error); }
  }

  /** A read that says that there are no tags or no encryption ends the step quietly when none are wanted. */
  lemma AbsenceIsWanted(w: Setting, d: Desired, r: Remote, e: Error, write: Reply)
    requires ObsFailure(e) && SaysUnset(w, e)
    requires if w == TagSet then d.tags == map[] else d.encryption.None?
    ensures Stepped(w, d, r, Wire(Failed(e), write)) == StepResult(r, 0, None)
  {
    AnswersAreUnderstood(e);
  }

  /** Otherwise what is wanted is written, and a read that fails for another reason ends the step with it. */
  lemma AbsenceIsFilled(w: Setting, d: Desired, r: Remote, e: Error)
    requires ObsFailure(e)
    ensures Stepped(w, d, r, Wire(Failed(e), Ok)) ==
              if !SaysUnset(w, e) then StepResult(r, 0, Some(Wrap(e)))
              else if (w == TagSet && d.tags == map[]) || (w == Encryption && d.encryption.None?) then
                StepResult(r, 0, None)
              else StepResult(Put(w, d, r), 1, None)
  {
    AnswersAreUnderstood(e);
  }

  /** Deleting tags or encryption that are gone already is done; any other failed write ends the step with it. */
  lemma DeletionOfNothingIsDone(w: Setting, d: Desired, r: Remote, e: Error)
    requires ObsFailure(e) && !Matches(w, d, r)
    ensures var t := Stepped(w, d, r, Wire(Ok, Failed(e)));
            && t.settings == r && t.writes == 1
            && (t.err.None? <==>
                  || (w == TagSet && d.tags == map[] && (SaysCode(e, "NoSuchTagSet") || SaysAbsent(e)))
                  || (w == Encryption && d.encryption.None? &&
                      (SaysCode(e, "NoSuchEncryptionConfiguration") || SaysAbsent(e))))
            && (t.err.Some? ==> t.err == Some(Wrap(e)))
  {
    AnswersAreUnderstood(e);
  }

  /**
   * What one step may do: it touches its own setting only, and that only when it did not match;
   * whatever happens on the wire the setting ends as it was or as specified; success means specified.
   */
  predicate StepAllowed(w: Setting, d: Desired, before: Remote, t: StepResult) {
    && SameExcept(w, before, t.settings)
    && (t.settings == before || Attained(w, d, t.settings))
    && (Matches(w, d, before) ==> t.settings == before && t.writes == 0)
    && t.writes <= 1
    && (t.err.None? ==> Attained(w, d, t.settings))
  }

  lemma StepIsAllowed(w: Setting, d: Desired, r: Remote, wire: Wire)
    requires Truthful(w, d, r, wire)
    ensures StepAllowed(w, d, r, Stepped(w, d, r, wire))
  {
    ReadIsRight(w, d, r, wire.read);
    PutEstablishes(w, d, r);
    if WriteOutcome(w, d, wire.write).Proceed? {
      WriteIsRight(w, d, r, wire.write);
    }
  }

  /** The remote bucket as its update sees it. */
  class ObsBucket {
    var settings: Remote
    var writes: nat

    constructor (initial: Remote)
      ensures settings == initial && writes == 0
    {
      settings, writes := initial, 0;
    }

    method ReconcileStorageClass(d: Desired, wire: Wire) returns (err: Option<Error>)
      modifies this
      ensures old(writes) <= writes
      ensures StepResult(settings, writes - old(writes), err) == Stepped(StorageClass, d, old(settings), wire)
    {
      var desired := NormalizeStorageClass(BucketStorageClass(d));
      if !wire.read.Ok? { return Some(Wrap(wire.read.error)); }
      if NormalizeStorageClass(settings.storageClass) == desired { return None; }
      writes := writes + 1;
      if !wire.write.Failed? { settings := settings.(storageClass := desired); }
      if !wire.write.Ok? { return Some(Wrap(wire.write.error)); }
      return None;
    }

    method ReconcileAcl(d: Desired, wire: Wire) returns (err: Option<Error>)
      modifies this
      ensures old(writes) <= writes
      ensures StepResult(settings, writes - old(writes), err) == Stepped(CannedAcl, d, old(settings), wire)
    {
      var desired := BucketAcl(d);
      if !wire.read.Ok? { return Some(Wrap(wire.read.error)); }
      var current := Acl.FlattenCanned(settings.policy);
      if current == Some(desired) { return None; }
      writes := writes + 1;
      if !wire.write.Failed? {
        var grants := Acl.CannedGrants(settings.policy.owner, desired, GROUP_URI);
        settings := settings.(policy := settings.policy.(grants := grants));
      }
      if !wire.write.Ok? { return Some(Wrap(wire.write.error)); }
      return None;
    }

    method ReconcileVersioning(d: Desired, wire: Wire) returns (err: Option<Error>)
      modifies this
      ensures old(writes) <= writes
      ensures StepResult(settings, writes - old(writes), err) == Stepped(Versioning, d, old(settings), wire)
    {
      var desired := "Suspended";
      if d.versioning { desired := "Enabled"; }
      if !wire.read.Ok? { return Some(Wrap(wire.read.error)); }
      if settings.versioning == desired { return None; }
      writes := writes + 1;
      if !wire.write.Failed? { settings := settings.(versioning := desired); }
      if !wire.write.Ok? { return Some(Wrap(wire.write.error)); }
      return None;
    }

    /** An empty tag map is written by deleting the tag set; a tag set that is not there counts as deleted. */
    method ReconcileTags(d: Desired, order: seq<string>, wire: Wire) returns (err: Option<Error>)
      requires Tags.Distinct(order) && Tags.Elements(order) == d.tags.Keys
      modifies this
      ensures old(writes) <= writes
      ensures StepResult(settings, writes - old(writes), err) == Stepped(TagSet, d, old(settings), wire)
    {
      var current: map<string, string> := map[];
      if wire.read.Ok? {
        current := Tags.BucketTags(settings.tags);
      } else if !NamesNoTags(wire.read.error) {
        return Some(Wrap(wire.read.error));
      }
      if current == d.tags { return None; }
      err := WriteTags(d, order, wire.write);
    }

    method WriteTags(d: Desired, order: seq<string>, reply: Reply) returns (err: Option<Error>)
      requires Tags.Distinct(order) && Tags.Elements(order) == d.tags.Keys
      modifies this
      ensures writes == old(writes) + 1
      ensures settings == if reply.Failed? then old(settings) else Put(TagSet, d, old(settings))
      ensures err == var out := WriteOutcome(TagSet, d, reply); if out.Broken? then Some(out.error) else None
    {
      writes := writes + 1;
      if |d.tags| == 0 {
        Tags.FoldIsEmpty(Tags.TagsOf(d.tags));
        if !reply.Failed? { settings := settings.(tags := []); }
        if !reply.Ok? && !NamesNoTags(reply.error) { return Some(Wrap(reply.error)); }
        return None;
      }
      var tags := Tags.TagsFromMap(d.tags, order);
      Tags.CanonicalTags(tags, Tags.TagsOf(d.tags));
      if !reply.Failed? { settings := settings.(tags := tags); }
      if !reply.Ok? { return Some(Wrap(reply.error)); }
      return None;
    }

    method ReconcileLogging(d: Desired, wire: Wire) returns (err: Option<Error>)
      modifies this
      ensures old(writes) <= writes
      ensures StepResult(settings, writes - old(writes), err) == Stepped(Logging, d, old(settings), wire)
    {
      if !wire.read.Ok? { return Some(Wrap(wire.read.error)); }
      var desired := LoggingInput(d);
      if settings.logging == desired { return None; }
      writes := writes + 1;
      if !wire.write.Failed? { settings := settings.(logging := desired); }
      if !wire.write.Ok? { return Some(Wrap(wire.write.error)); }
      return None;
    }

    method ReconcileEncryption(d: Desired, wire: Wire) returns (err: Option<Error>)
      modifies this
      ensures old(writes) <= writes
      ensures StepResult(settings, writes - old(writes), err) == Stepped(Encryption, d, old(settings), wire)
    {
      var current := None;
      if wire.read.Ok? {
        current := settings.encryption;
      } else if !NamesNoEncryption(wire.read.error) && !IsBucketCode(wire.read.error, "FsNotSupport") {
        return Some(Wrap(wire.read.error));
      }
      if d.encryption.None? {
        if current.None? { return None; }
        writes := writes + 1;
        if !wire.write.Failed? { settings := settings.(encryption := None); }
        if !wire.write.Ok? && !NamesNoEncryption(wire.write.error) { return Some(Wrap(wire.write.error)); }
        return None;
      }
      var desired := EncryptionConfig(d.encryption.value);
      if current == Some(desired) { return None; }
      writes := writes + 1;
      if !wire.write.Failed? { settings := settings.(encryption := Some(desired)); }
      if !wire.write.Ok? { return Some(Wrap(wire.write.error)); }
      return None;
    }

    method ReconcileSetting(w: Setting, d: Desired, order: seq<string>, wire: Wire) returns (err: Option<Error>)
      requires Tags.Distinct(order) && Tags.Elements(order) == d.tags.Keys
      modifies this
      ensures old(writes) <= writes
      ensures StepResult(settings, writes - old(writes), err) == Stepped(w, d, old(settings), wire)
    {
      match w {
        case StorageClass => err := ReconcileStorageClass(d, wire);
        case CannedAcl => err := ReconcileAcl(d, wire);
        case Versioning => err := ReconcileVersioning(d, wire);
        case TagSet => err := ReconcileTags(d, order, wire);
        case Logging => err := ReconcileLogging(d, wire);
        case Encryption => err := ReconcileEncryption(d, wire);
      }
    }

    /**
     * update(): the steps run in order up to the first failure, the step `at`. Steps before it have
     * reached the spec, settings after it are untouched, no setting that matched stops matching, and
     * a bucket that matched already is not written to.
     */
    method Update(d: Desired, order: seq<string>, wires: Setting -> Wire) returns (err: Option<Error>, at: nat)
      requires Tags.Distinct(order) && Tags.Elements(order) == d.tags.Keys
      requires forall w :: Truthful(w, d, settings, wires(w))
      modifies this
      ensures err.None? <==> at == |STEPS|
      ensures forall i | 0 <= i < at <= |STEPS| :: Attained(STEPS[i], d, settings)
      ensures forall i | 0 <= at < i < |STEPS| :: Value(STEPS[i], settings) == Value(STEPS[i], old(settings))
      ensures forall w | Matches(w, d, old(settings)) :: Matches(w, d, settings)
      ensures Mismatches(d, settings) <= Mismatches(d, old(settings))
      ensures err.None? ==> (AsSpecified(d, settings) <==> old(settings).policy.owner != "")
      ensures AsSpecified(d, old(settings)) ==> settings == old(settings) && writes == old(writes)
    {
      AllMatchMeans(d, settings);
      err, at := None, 0;
      while at < |STEPS|
        invariant at <= |STEPS| && err.None? && settings.policy.owner == old(settings).policy.owner
        invariant forall i | 0 <= i < at :: Attained(STEPS[i], d, settings)
        invariant forall i | at <= i < |STEPS| :: Value(STEPS[i], settings) == Value(STEPS[i], old(settings))
        invariant forall w | Matches(w, d, old(settings)) :: Matches(w, d, settings)
        invariant AllMatch(d, old(settings)) ==> settings == old(settings) && writes == old(writes)
      {
        ghost var before := settings;
        var w := STEPS[at];
        ValueDecides(w, d, old(settings), settings, wires(w));
        StepIsAllowed(w, d, settings, wires(w));
        err := ReconcileSetting(w, d, order, wires(w));
        OthersKeepTheirValue(w, d, before, settings);
        if err.Some? {
          return;
        }
        at := at + 1;
      }
      forall w ensures settings.policy.owner != "" ==> Matches(w, d, settings) {
        assert STEPS[Position(w)] == w;
      }
      assert AllMatch(d, settings) ==> Matches(CannedAcl, d, settings);
      AllMatchMeans(d, settings);
    }
  }

  /** The value of one setting. */
  datatype SettingValue =
    | Text(text: string) | Grants(policy: Acl.Policy) | TagList(tags: seq<Tags.Tag>)
    | Target(target: LogTarget) | Kms(kms: Option<KmsConfig>)

  function Value(w: Setting, r: Remote): SettingValue {
    match w
    case StorageClass => Text(r.storageClass)
    case CannedAcl => Grants(r.policy)
    case Versioning => Text(r.versioning)
    case TagSet => TagList(r.tags)
    case Logging => Target(r.logging)
    case Encryption => Kms(r.encryption)
  }

  /** The settings that do not match. */
  function Mismatches(d: Desired, r: Remote): set<Setting> {
    set w: Setting | w in {StorageClass, CannedAcl, Versioning, TagSet, Logging, Encryption} && !Matches(w, d, r)
  }

  /** The place of a setting in the update; every setting has exactly one. */
  function Position(w: Setting): (i: nat)
    ensures i < |STEPS| && STEPS[i] == w
    ensures forall j | 0 <= j < |STEPS| && STEPS[j] == w :: j == i
  {
    match w
    case StorageClass => 0
    case CannedAcl => 1
    case Versioning => 2
    case TagSet => 3
    case Logging => 4
    case Encryption => 5
  }

  lemma ValueDecides(w: Setting, d: Desired, a: Remote, b: Remote, wire: Wire)
    requires Value(w, a) == Value(w, b)
    ensures Matches(w, d, a) == Matches(w, d, b) && Truthful(w, d, a, wire) == Truthful(w, d, b, wire)
  {
  }

  lemma OthersKeepTheirValue(w: Setting, d: Desired, a: Remote, b: Remote)
    requires SameExcept(w, a, b)
    ensures forall v | v != w :: Value(v, a) == Value(v, b) && Matches(v, d, a) == Matches(v, d, b)
    ensures forall j | 0 <= j < |STEPS| && j != Position(w) ::
              Value(STEPS[j], a) == Value(STEPS[j], b) && Matches(STEPS[j], d, a) == Matches(STEPS[j], d, b)
  {
    forall v | v != w ensures Value(v, a) == Value(v, b) && Matches(v, d, a) == Matches(v, d, b) {
      MatchesElsewhere(w, v, d, a, b);
    }
    assert STEPS[Position(w)] == w;
  }
}
