/**
 * The chain of events from a credentials Secret over its ProviderConfigs to their Buckets: two work
 * queues, the reconciles in flight, and the status revision that links the two controllers.
 *
 * Reads are fresh, listing for event mapping does not fail, resource versions are never reused, and
 * a client can be built from every endpoint that resolves. A transient failure of a Secret read in
 * the ProviderConfig reconciler is a step of its own, so that runs with and without it can be told apart.
 */
module WakeUp {
  import opened Common
  import opened Encoding
  import opened ClientCache

  // ----- Objects -----

  datatype Secret = Secret(uid: nat, resourceVersion: nat, hasKeys: bool)

  datatype ConfigSpec = ConfigSpec(secretRef: Bytes, region: Bytes, endpoint: Bytes, endpointOk: bool)

  datatype Verdict = ClientValidated | ValidationFailed | SecretNotFound | SecretInvalid | EndpointInvalid | ReadFailed

  datatype ConfigStatus = ConfigStatus(
    observedGeneration: nat, revision: Option<Digest>, validated: bool, condition: Option<(Verdict, nat)>)

  datatype Config = Config(uid: nat, generation: nat, spec: ConfigSpec, status: ConfigStatus)

  /** A Bucket and the provider revision it last acted under; none if its provider did not resolve. */
  datatype Bucket = Bucket(provider: Bytes, acted: Option<Digest>)

  /** What one ProviderConfig reconcile found. */
  datatype Finding = Resolved(digest: Digest, valid: bool) | Unresolved(cause: Verdict) {
    function Revision(): Option<Digest> {
      if Resolved? then Some(digest) else None
    }

    function Verdict(): Verdict {
      if Unresolved? then cause else if valid then ClientValidated else ValidationFailed
    }
  }

  datatype ConfigWork = GotObject(config: Config) | GotFinding(config: Config, finding: Finding)

  /** A Bucket reconcile goes on with its copy, so it knows its provider even if the Bucket is deleted. */
  datatype BucketWork = GotConfig(provider: NamespacedName, config: Config) | Acting(revision: Option<Digest>)

  datatype State = State(
    secrets: map<NamespacedName, Secret>,
    configs: map<NamespacedName, Config>,
    buckets: map<NamespacedName, Bucket>,
    configQueue: set<NamespacedName>, configWork: map<NamespacedName, ConfigWork>,
    bucketQueue: set<NamespacedName>, bucketWork: map<NamespacedName, BucketWork>,
    nextVersion: nat)

  function SecretOf(n: NamespacedName, c: Config): NamespacedName {
    NamespacedName(n.namespace, c.spec.secretRef)
  }

  function ProviderOf(m: NamespacedName, b: Bucket): NamespacedName {
    NamespacedName(m.namespace, b.provider)
  }

  // ----- Event mapping -----

  /** An indexed object: its key and the name it refers to in its own namespace. */
  datatype Item = Item(key: NamespacedName, ref: Bytes)

  ghost predicate Requested(requests: seq<NamespacedName>, items: seq<Item>, obj: NamespacedName) {
    forall k :: k in requests <==> k.namespace == obj.namespace && Item(k, obj.name) in items
  }

  /** providerConfigsForSecret and bucketsForProviderConfig: the keys of the listed objects that refer to `obj`. */
  method RequestsFor(items: seq<Item>, obj: NamespacedName) returns (requests: seq<NamespacedName>)
    ensures Requested(requests, items, obj)
  {
    requests := [];
    for i := 0 to |items|
      invariant Requested(requests, items[..i], obj)
    {
      if items[i].key.namespace == obj.namespace && items[i].ref == obj.name {
        requests := requests + [items[i].key];
      }
      assert items[..i + 1] == items[..i] + [items[i]];
    }
    assert items[..|items|] == items;
  }

  function ConfigsOf(s: State, secret: NamespacedName): set<NamespacedName> {
    set n | n in s.configs && SecretOf(n, s.configs[n]) == secret
  }

  function BucketsOf(s: State, config: NamespacedName): set<NamespacedName> {
    set m | m in s.buckets && ProviderOf(m, s.buckets[m]) == config
  }

  /** The mapped requests of a Secret event are the ProviderConfigs that refer to it. */
  lemma RequestsAreConfigs(s: State, items: seq<Item>, requests: seq<NamespacedName>, secret: NamespacedName)
    requires forall n, ref :: Item(n, ref) in items <==> n in s.configs && s.configs[n].spec.secretRef == ref
    requires Requested(requests, items, secret)
    ensures (set k | k in requests) == ConfigsOf(s, secret)
  {
    forall k ensures k in requests <==> k in ConfigsOf(s, secret) {
      assert Item(k, secret.name) in items <==> k in s.configs && s.configs[k].spec.secretRef == secret.name;
    }
  }

  /** The mapped requests of a ProviderConfig event are the Buckets that refer to it. */
  lemma RequestsAreBuckets(s: State, items: seq<Item>, requests: seq<NamespacedName>, config: NamespacedName)
    requires forall m, ref :: Item(m, ref) in items <==> m in s.buckets && s.buckets[m].provider == ref
    requires Requested(requests, items, config)
    ensures (set k | k in requests) == BucketsOf(s, config)
  {
    forall k ensures k in requests <==> k in BucketsOf(s, config) {
      assert Item(k, config.name) in items <==> k in s.buckets && s.buckets[k].provider == config.name;
    }
  }

  /** A Secret event enqueues the ProviderConfigs that refer to it. */
  function SecretEvent(s: State, secret: NamespacedName): State {
    s.(configQueue := s.configQueue + ConfigsOf(s, secret))
  }

  /** A ProviderConfig event, also one caused by a status patch, enqueues it and the Buckets that refer to it. */
  function ConfigEvent(s: State, n: NamespacedName): State {
    s.(configQueue := s.configQueue + {n}, bucketQueue := s.bucketQueue + BucketsOf(s, n))
  }

  // ----- Resolution -----

  predicate Resolves(s: State, n: NamespacedName) {
    && n in s.configs && s.configs[n].spec.endpointOk
    && SecretOf(n, s.configs[n]) in s.secrets && s.secrets[SecretOf(n, s.configs[n])].hasKeys
  }

  function InputsOf(n: NamespacedName, c: Config, secret: Secret): RevisionInputs {
    RevisionInputs(n.namespace, n.name, Decimal(c.uid), c.generation,
                   n.namespace, c.spec.secretRef, Decimal(secret.uid), Decimal(secret.resourceVersion),
                   c.spec.region, c.spec.endpoint)
  }

  /** The revision of the current inputs; none while they do not resolve. */
  function CurrentRevision(s: State, n: NamespacedName): Option<Digest> {
    if Resolves(s, n) then Some(RevisionOf(InputsOf(n, s.configs[n], s.secrets[SecretOf(n, s.configs[n])]))) else None
  }

  /** What a reconcile that has read config c finds; `valid` is the answer of the validation request. */
  function Find(s: State, n: NamespacedName, c: Config, valid: bool): Finding {
    var key := SecretOf(n, c);
    if key !in s.secrets then Unresolved(SecretNotFound)
    else if !s.secrets[key].hasKeys then Unresolved(SecretInvalid)
    else if !c.spec.endpointOk then Unresolved(EndpointInvalid)
    else Resolved(RevisionOf(InputsOf(n, c, s.secrets[key])), valid)
  }

  /** updateProviderConfigStatus. */
  function NextStatus(c: Config, f: Finding): ConfigStatus {
    ConfigStatus(c.generation, f.Revision(), c.status.validated, Some((f.Verdict(), c.generation)))
  }

  predicate StatusChanged(c: Config, f: Finding) {
    var next := NextStatus(c, f);
    || c.status.observedGeneration != next.observedGeneration
    || c.status.revision != next.revision
    || !c.status.validated
    || c.status.condition != next.condition
  }

  /** The merge patch carries the members that differ from the reconciler's copy. */
  function PatchedStatus(server: ConfigStatus, c: Config, f: Finding): ConfigStatus {
    var next := NextStatus(c, f);
    ConfigStatus(
      if c.status.observedGeneration != next.observedGeneration then next.observedGeneration
        else server.observedGeneration,
      if c.status.revision != next.revision then next.revision else server.revision,
      true,
      if c.status.condition != next.condition then next.condition else server.condition)
  }

  // ----- Steps -----

  datatype Reply = Ok | Failed | Lost

  datatype Step =
    | SecretWrite(secret: NamespacedName, uid: nat, hasKeys: bool)
    | SecretDelete(secret: NamespacedName)
    | ConfigCreate(config: NamespacedName, uid: nat, spec: ConfigSpec)
    | ConfigUpdate(config: NamespacedName, spec: ConfigSpec)
    | ConfigTouch(config: NamespacedName)
    | ConfigDelete(config: NamespacedName)
    | BucketCreate(bucket: NamespacedName, provider: Bytes)
    | BucketTouch(bucket: NamespacedName)
    | BucketDelete(bucket: NamespacedName)
    | Crash
    | ConfigStart(config: NamespacedName, readOk: bool)
    | ConfigRead(config: NamespacedName, valid: bool)
    | ConfigReadFails(config: NamespacedName)
    | ConfigPatch(config: NamespacedName, reply: Reply)
    | BucketStart(bucket: NamespacedName, readOk: bool)
    | BucketRead(bucket: NamespacedName, readOk: bool)
    | BucketFinish(bucket: NamespacedName, reply: Reply)

  predicate NulFreeSpec(spec: ConfigSpec) {
    NulFree(spec.secretRef) && NulFree(spec.region) && NulFree(spec.endpoint)
  }

  predicate IsConfigStep(step: Step) {
    step.ConfigCreate? || step.ConfigUpdate? || step.ConfigTouch? || step.ConfigDelete?
  }

  predicate ConfigEnabled(s: State, step: Step)
    requires IsConfigStep(step)
  {
    if step.ConfigCreate? then
      step.config !in s.configs && NulFree(step.config.namespace) && NulFree(step.config.name) && NulFreeSpec(step.spec)
    else
      step.config in s.configs && (step.ConfigUpdate? ==> NulFreeSpec(step.spec))
  }

  predicate Patchable(s: State, n: NamespacedName, reply: Reply) {
    n in s.configWork && s.configWork[n].GotFinding? && (!reply.Failed? ==> n in s.configs)
  }

  predicate IsConfigReconcile(step: Step) {
    step.ConfigStart? || step.ConfigRead? || step.ConfigReadFails? || step.ConfigPatch?
  }

  predicate ConfigReconcileEnabled(s: State, step: Step)
    requires IsConfigReconcile(step)
  {
    var n := step.config;
    if step.ConfigStart? then n in s.configQueue && n !in s.configWork
    else if step.ConfigPatch? then Patchable(s, n, step.reply)
    else n in s.configWork && s.configWork[n].GotObject?
  }

  predicate IsBucketReconcile(step: Step) {
    step.BucketStart? || step.BucketRead? || step.BucketFinish?
  }

  predicate BucketReconcileEnabled(s: State, step: Step)
    requires IsBucketReconcile(step)
  {
    var m := step.bucket;
    if step.BucketStart? then m in s.bucketQueue && m !in s.bucketWork
    else
      && m in s.bucketWork
      && if step.BucketFinish? then s.bucketWork[m].Acting? && (!step.reply.Failed? ==> m in s.buckets)
         else s.bucketWork[m].GotConfig?
  }

  predicate Enabled(s: State, step: Step) {
    if IsConfigStep(step) then ConfigEnabled(s, step)
    else if IsConfigReconcile(step) then ConfigReconcileEnabled(s, step)
    else if IsBucketReconcile(step) then BucketReconcileEnabled(s, step)
    else match step
      case SecretDelete(x) => x in s.secrets
      case BucketCreate(m, _) => m !in s.buckets
      case BucketDelete(m) => m in s.buckets
      case _ => true
  }

  function ApplySecret(s: State, step: Step): State
    requires step.SecretWrite? || step.SecretDelete?
  {
    if step.SecretWrite? then
      var uid := if step.secret in s.secrets then s.secrets[step.secret].uid else step.uid;
      SecretEvent(s.(secrets := s.secrets[step.secret := Secret(uid, s.nextVersion, step.hasKeys)],
                     nextVersion := s.nextVersion + 1), step.secret)
    else
      SecretEvent(s.(secrets := s.secrets - {step.secret}), step.secret)
  }

  function ApplyConfig(s: State, step: Step): State
    requires IsConfigStep(step) && ConfigEnabled(s, step)
  {
    match step
    case ConfigCreate(n, uid, spec) =>
      ConfigEvent(s.(configs := s.configs[n := Config(uid, 1, spec, ConfigStatus(0, None, false, None))]), n)
    case ConfigUpdate(n, spec) =>
      var c := s.configs[n];
      ConfigEvent(s.(configs := s.configs[n := c.(spec := spec, generation := c.generation + 1)]), n)
    case ConfigTouch(n) => ConfigEvent(s, n)
    case ConfigDelete(n) => ConfigEvent(s.(configs := s.configs - {n}), n)
  }

  function StartConfig(s: State, n: NamespacedName, readOk: bool): State {
    if !readOk then s
    else if n !in s.configs then s.(configQueue := s.configQueue - {n})
    else s.(configQueue := s.configQueue - {n}, configWork := s.configWork[n := GotObject(s.configs[n])])
  }

  function Report(s: State, n: NamespacedName, f: Finding): State
    requires n in s.configWork
  {
    s.(configWork := s.configWork[n := GotFinding(s.configWork[n].config, f)])
  }

  function PatchConfig(s: State, n: NamespacedName, reply: Reply): State
    requires Patchable(s, n, reply)
  {
    var c, f := s.configWork[n].config, s.configWork[n].finding;
    var work := s.configWork - {n};
    if !StatusChanged(c, f) then s.(configWork := work)
    else if reply.Failed? then s.(configWork := work, configQueue := s.configQueue + {n})
    else
      ConfigEvent(s.(configWork := work,
                     configs := s.configs[n := s.configs[n].(status := PatchedStatus(s.configs[n].status, c, f))]), n)
  }

  /** ProviderConfigReconciler.Reconcile: read the object, resolve and validate, patch the status. */
  function ApplyConfigReconcile(s: State, step: Step): State
    requires IsConfigReconcile(step) && ConfigReconcileEnabled(s, step)
  {
    match step
    case ConfigStart(n, readOk) => StartConfig(s, n, readOk)
    case ConfigRead(n, valid) => Report(s, n, Find(s, n, s.configWork[n].config, valid))
    case ConfigReadFails(n) => Report(s, n, Unresolved(ReadFailed))
    case ConfigPatch(n, reply) => PatchConfig(s, n, reply)
  }

  function StartBucket(s: State, m: NamespacedName, readOk: bool): State {
    if !readOk then s
    else if m !in s.buckets then s.(bucketQueue := s.bucketQueue - {m})
    else
      var n := ProviderOf(m, s.buckets[m]);
      s.(bucketQueue := s.bucketQueue - {m},
         bucketWork := s.bucketWork[m := if n in s.configs then GotConfig(n, s.configs[n]) else Acting(None)])
  }

  function ReadCredentials(s: State, m: NamespacedName, readOk: bool): State
    requires m in s.bucketWork && s.bucketWork[m].GotConfig?
  {
    if !readOk then s.(bucketWork := s.bucketWork - {m}, bucketQueue := s.bucketQueue + {m})
    else
      var found := Find(s, s.bucketWork[m].provider, s.bucketWork[m].config, true);
      s.(bucketWork := s.bucketWork[m := Acting(found.Revision())])
  }

  /** The reconcile ends: quietly, whether it succeeded or was parked, or to be retried. */
  function FinishBucket(s: State, m: NamespacedName, reply: Reply): State
    requires m in s.bucketWork && s.bucketWork[m].Acting? && (!reply.Failed? ==> m in s.buckets)
  {
    s.(bucketWork := s.bucketWork - {m},
       bucketQueue := if reply.Ok? then s.bucketQueue else s.bucketQueue + {m},
       buckets := if reply.Failed? then s.buckets else s.buckets[m := s.buckets[m].(acted := s.bucketWork[m].revision)])
  }

  /** BucketReconciler.Reconcile: resolve the provider, act under what it is or park, and end. */
  function ApplyBucketReconcile(s: State, step: Step): State
    requires IsBucketReconcile(step) && BucketReconcileEnabled(s, step)
  {
    match step
    case BucketStart(m, readOk) => StartBucket(s, m, readOk)
    case BucketRead(m, readOk) => ReadCredentials(s, m, readOk)
    case BucketFinish(m, reply) => FinishBucket(s, m, reply)
  }

  function ApplyBucket(s: State, step: Step): State
    requires step.BucketCreate? || step.BucketTouch? || step.BucketDelete?
  {
    match step
    case BucketCreate(m, provider) =>
      s.(buckets := s.buckets[m := Bucket(provider, None)], bucketQueue := s.bucketQueue + {m})
    case BucketTouch(m) => s.(bucketQueue := s.bucketQueue + {m})
    case BucketDelete(m) => s.(buckets := s.buckets - {m}, bucketQueue := s.bucketQueue + {m})
  }

  function Apply(s: State, step: Step): State
    requires Enabled(s, step)
  {
    if step.SecretWrite? || step.SecretDelete? then ApplySecret(s, step)
    else if IsConfigStep(step) then ApplyConfig(s, step)
    else if step.BucketCreate? || step.BucketTouch? || step.BucketDelete? then ApplyBucket(s, step)
    else if step.Crash? then
      s.(configWork := map[], bucketWork := map[],
         configQueue := s.configQueue + s.configs.Keys, bucketQueue := s.bucketQueue + s.buckets.Keys)
    else if IsBucketReconcile(step) then ApplyBucketReconcile(s, step)
    else ApplyConfigReconcile(s, step)
  }

  ghost predicate Legal(s: State, run: seq<Step>)
    decreases |run|
  {
    run == [] || (Enabled(s, run[0]) && Legal(Apply(s, run[0]), run[1..]))
  }

  ghost function Exec(s: State, run: seq<Step>): State
    requires Legal(s, run)
    decreases |run|
  {
    if run == [] then s else Exec(Apply(s, run[0]), run[1..])
  }

  const EMPTY := State(map[], map[], map[], {}, map[], {}, map[], 0)
}
