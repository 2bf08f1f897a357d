/** What holds of the event chain in every reachable state, and what failed reads cost. */
module WakeUpSafety {
  import opened Common
  import opened Encoding
  import opened ClientCache
  import opened WakeUp

  // ----- The invariant -----

  predicate NulFreeConfig(n: NamespacedName, c: Config) {
    NulFree(n.namespace) && NulFree(n.name) && NulFreeSpec(c.spec)
  }

  /** Names that are hashed are free of NULs, and the Secrets are older than the next version. */
  predicate WellFormed(s: State) {
    && (forall n | n in s.configs :: NulFreeConfig(n, s.configs[n]))
    && (forall n | n in s.configWork :: NulFreeConfig(n, s.configWork[n].config))
    && (forall x | x in s.secrets :: s.secrets[x].resourceVersion < s.nextVersion)
  }

  predicate Names(d: Digest, r: RevisionInputs, k: nat) {
    NulFreeInputs(r) && r.resourceVersion == Decimal(k) && d == RevisionOf(r)
  }

  /** A revision that was computed from a resource version below the bound. */
  ghost predicate Dated(d: Option<Digest>, bound: nat) {
    d.Some? ==> exists r, k: nat :: k < bound && Names(d.value, r, k)
  }

  ghost predicate AllDated(s: State) {
    && (forall n | n in s.configs :: Dated(s.configs[n].status.revision, s.nextVersion))
    && (forall n | n in s.configWork
          && s.configWork[n].GotFinding? :: Dated(s.configWork[n].finding.Revision(), s.nextVersion))
  }

  /** The recorded or found outcome is that of a failed read. */
  predicate Unread(status: ConfigStatus) {
    status.condition.Some? && status.condition.value.0.ReadFailed?
  }

  /**
   * A ProviderConfig that is not queued has been read as it is, and its status names its current
   * inputs unless it reports a failed read.
   */
  predicate ConfigSynced(s: State, n: NamespacedName) {
    n in s.configs && n !in s.configQueue ==>
      if n !in s.configWork then
        Unread(s.configs[n].status) || s.configs[n].status.revision == CurrentRevision(s, n)
      else
        s.configWork[n].config == s.configs[n] &&
        (s.configWork[n].GotFinding? ==>
           s.configWork[n].finding.Verdict().ReadFailed? || s.configWork[n].finding.Revision() == CurrentRevision(s, n))
  }

  /** Nothing is about to change the status of n although its Buckets could proceed. */
  predicate Stuck(s: State, n: NamespacedName) {
    Resolves(s, n) && s.configs[n].status.revision == CurrentRevision(s, n)
  }

  /** A revision that may be left standing: nothing is about to correct it only if it is the current one. */
  predicate Acceptable(s: State, n: NamespacedName, acted: Option<Digest>) {
    Stuck(s, n) ==> acted == CurrentRevision(s, n)
  }

  /** A Bucket that is not queued acted, or acts, under an acceptable revision. */
  predicate BucketSynced(s: State, m: NamespacedName) {
    m in s.buckets && m !in s.bucketQueue ==>
      var n := ProviderOf(m, s.buckets[m]);
      if m !in s.bucketWork then Acceptable(s, n, s.buckets[m].acted)
      else if s.bucketWork[m].GotConfig? then n in s.configs && s.bucketWork[m] == GotConfig(n, s.configs[n])
      else Acceptable(s, n, s.bucketWork[m].revision)
  }

  ghost predicate Inv(s: State) {
    && WellFormed(s) && AllDated(s)
    && (forall n :: ConfigSynced(s, n))
    && (forall m :: BucketSynced(s, m))
  }

  // ----- Revisions tell the versions of a Secret apart -----

  lemma InputsAreNulFree(n: NamespacedName, c: Config, secret: Secret)
    requires NulFreeConfig(n, c)
    ensures NulFreeInputs(InputsOf(n, c, secret))
  {
  }

  lemma NewRevisionIsDated(s: State, n: NamespacedName, c: Config, valid: bool)
    requires WellFormed(s) && NulFreeConfig(n, c)
    ensures Dated(Find(s, n, c, valid).Revision(), s.nextVersion)
  {
    var f := Find(s, n, c, valid);
    if f.Revision().Some? {
      var secret := s.secrets[SecretOf(n, c)];
      InputsAreNulFree(n, c, secret);
      assert Names(f.Revision().value, InputsOf(n, c, secret), secret.resourceVersion);
    }
  }

  lemma LaterIsDated(d: Option<Digest>, bound: nat, later: nat)
    requires Dated(d, bound) && bound <= later
    ensures Dated(d, later)
  {
    if d.Some? {
      var r, k: nat :| k < bound && Names(d.value, r, k);
    }
  }

  /** A Secret that was just written has a version no recorded revision was computed from. */
  lemma FreshRevisionDiffers(n: NamespacedName, c: Config, secret: Secret, d: Digest)
    requires NulFreeConfig(n, c) && Dated(Some(d), secret.resourceVersion)
    ensures RevisionOf(InputsOf(n, c, secret)) != d
  {
    var r, k: nat :| k < secret.resourceVersion && Names(d, r, k);
    InputsAreNulFree(n, c, secret);
    RevisionIdentifiesInputs(r, InputsOf(n, c, secret));
    DecimalRoundTrip(k);
    DecimalRoundTrip(secret.resourceVersion);
  }

  // ----- Every step keeps the invariant -----

  lemma {:induction false} SecretStepKeepsDates(s: State, step: Step)
    requires WellFormed(s) && AllDated(s) && (step.SecretWrite? || step.SecretDelete?)
    ensures WellFormed(ApplySecret(s, step)) && AllDated(ApplySecret(s, step))
  {
    var t := ApplySecret(s, step);
    forall n | n in s.configs ensures Dated(t.configs[n].status.revision, t.nextVersion) {
      LaterIsDated(s.configs[n].status.revision, s.nextVersion, t.nextVersion);
    }
    forall n | n in s.configWork && s.configWork[n].GotFinding?
      ensures Dated(t.configWork[n].finding.Revision(), t.nextVersion)
    {
      LaterIsDated(s.configWork[n].finding.Revision(), s.nextVersion, t.nextVersion);
    }
  }

  lemma {:induction false} SecretStepKeepsInv(s: State, step: Step)
    requires Inv(s) && (step.SecretWrite? || step.SecretDelete?)
    ensures Inv(ApplySecret(s, step))
  {
    var t := ApplySecret(s, step);
    SecretStepKeepsDates(s, step);
    forall n ensures ConfigSynced(t, n) {
      assert ConfigSynced(s, n);
    }
    forall n | Stuck(t, n) ensures Stuck(s, n) && CurrentRevision(t, n) == CurrentRevision(s, n) {
      StuckAcrossSecretStep(s, step, n);
    }
    forall m ensures BucketSynced(t, m) {
      assert BucketSynced(s, m);
    }
  }

  lemma StuckAcrossSecretStep(s: State, step: Step, n: NamespacedName)
    requires WellFormed(s) && AllDated(s) && (step.SecretWrite? || step.SecretDelete?)
    requires Stuck(ApplySecret(s, step), n)
    ensures Stuck(s, n) && CurrentRevision(ApplySecret(s, step), n) == CurrentRevision(s, n)
  {
    var t := ApplySecret(s, step);
    var c := s.configs[n];
    if SecretOf(n, c) == step.secret && c.status.revision.Some? {
      FreshRevisionDiffers(n, c, t.secrets[step.secret], c.status.revision.value);
    }
  }

  lemma {:induction false} ConfigStepKeepsInv(s: State, step: Step)
    requires Inv(s) && IsConfigStep(step) && ConfigEnabled(s, step)
    ensures Inv(ApplyConfig(s, step))
  {
    var t := ApplyConfig(s, step);
    forall n ensures ConfigSynced(t, n) {
      assert ConfigSynced(s, n);
    }
    forall m ensures BucketSynced(t, m) {
      ConfigChangeKeepsBucketSynced(s, t, step.config, m);
    }
  }

  /** A change to ProviderConfig n that also queues n's Buckets. */
  predicate ChangesConfig(s: State, t: State, n: NamespacedName) {
    && t.secrets == s.secrets && t.buckets == s.buckets && t.bucketWork == s.bucketWork
    && t.configs - {n} == s.configs - {n}
    && t.bucketQueue == s.bucketQueue + BucketsOf(s, n)
  }

  lemma ConfigChangeKeepsBucketSynced(s: State, t: State, n: NamespacedName, m: NamespacedName)
    requires ChangesConfig(s, t, n) && BucketSynced(s, m)
    ensures BucketSynced(t, m)
  {
    if m in t.buckets && m !in t.bucketQueue {
      var p := ProviderOf(m, s.buckets[m]);
      assert p != n;
      assert p in s.configs <==> p in s.configs - {n};
      assert p in t.configs <==> p in t.configs - {n};
      if p in s.configs {
        assert s.configs[p] == (s.configs - {n})[p] == t.configs[p];
      }
    }
  }

  /** Steps of the Bucket side change neither ProviderConfigs and Secrets nor their controller. */
  predicate SameProviders(s: State, t: State) {
    && t.secrets == s.secrets && t.configs == s.configs && t.configQueue == s.configQueue
    && t.configWork == s.configWork && t.nextVersion == s.nextVersion
  }

  /** Only Bucket k differs. */
  predicate ChangesBucket(s: State, t: State, k: NamespacedName) {
    && SameProviders(s, t)
    && t.buckets - {k} == s.buckets - {k} && t.bucketWork - {k} == s.bucketWork - {k}
    && t.bucketQueue - {k} == s.bucketQueue - {k}
  }

  lemma OtherBucketsStaySynced(s: State, t: State, k: NamespacedName, m: NamespacedName)
    requires ChangesBucket(s, t, k) && m != k && BucketSynced(s, m)
    ensures BucketSynced(t, m)
  {
    assert m in s.buckets <==> m in s.buckets - {k};
    assert m in t.buckets <==> m in t.buckets - {k};
    assert m in s.bucketWork <==> m in s.bucketWork - {k};
    assert m in t.bucketWork <==> m in t.bucketWork - {k};
    assert m in s.bucketQueue <==> m in s.bucketQueue - {k};
    assert m in t.bucketQueue <==> m in t.bucketQueue - {k};
    if m in s.buckets {
      assert t.buckets[m] == (t.buckets - {k})[m] == s.buckets[m];
    }
    if m in s.bucketWork {
      assert t.bucketWork[m] == (t.bucketWork - {k})[m] == s.bucketWork[m];
    }
  }

  lemma {:induction false} BucketChangeKeepsInv(s: State, t: State, k: NamespacedName)
    requires Inv(s) && ChangesBucket(s, t, k) && BucketSynced(t, k)
    ensures Inv(t)
  {
    forall n ensures ConfigSynced(t, n) {
      assert ConfigSynced(s, n);
    }
    forall m ensures BucketSynced(t, m) {
      assert BucketSynced(s, m);
      if m != k {
        OtherBucketsStaySynced(s, t, k, m);
      }
    }
  }

  lemma StartKeepsBucketSynced(s: State, m: NamespacedName, readOk: bool)
    requires BucketSynced(s, m)
    ensures BucketSynced(StartBucket(s, m, readOk), m) && ChangesBucket(s, StartBucket(s, m, readOk), m)
  {
    var t := StartBucket(s, m, readOk);
    assert t.bucketWork - {m} == s.bucketWork - {m};
  }

  lemma ReadKeepsBucketSynced(s: State, m: NamespacedName, readOk: bool)
    requires m in s.bucketWork && s.bucketWork[m].GotConfig? && BucketSynced(s, m)
    ensures BucketSynced(ReadCredentials(s, m, readOk), m) && ChangesBucket(s, ReadCredentials(s, m, readOk), m)
  {
    var t := ReadCredentials(s, m, readOk);
    assert t.bucketWork - {m} == s.bucketWork - {m};
    assert t.buckets - {m} == s.buckets - {m};
  }

  lemma FinishKeepsBucketSynced(s: State, m: NamespacedName, reply: Reply)
    requires m in s.bucketWork && s.bucketWork[m].Acting? && (!reply.Failed? ==> m in s.buckets)
    requires BucketSynced(s, m)
    ensures BucketSynced(FinishBucket(s, m, reply), m) && ChangesBucket(s, FinishBucket(s, m, reply), m)
  {
    var t := FinishBucket(s, m, reply);
    assert t.bucketWork - {m} == s.bucketWork - {m};
    assert t.buckets - {m} == s.buckets - {m};
  }

  lemma {:induction false} BucketReconcileKeepsInv(s: State, step: Step)
    requires Inv(s) && IsBucketReconcile(step) && BucketReconcileEnabled(s, step)
    ensures Inv(ApplyBucketReconcile(s, step))
  {
    assert BucketSynced(s, step.bucket);
    match step {
      case BucketStart(m, readOk) => StartKeepsBucketSynced(s, m, readOk);
      case BucketRead(m, readOk) => ReadKeepsBucketSynced(s, m, readOk);
      case BucketFinish(m, reply) => FinishKeepsBucketSynced(s, m, reply);
    }
    BucketChangeKeepsInv(s, ApplyBucketReconcile(s, step), step.bucket);
  }

  lemma {:induction false} ConfigReadKeepsBucketSynced(s: State, t: State)
    requires t.secrets == s.secrets && t.configs == s.configs
    requires t.buckets == s.buckets && t.bucketQueue == s.bucketQueue && t.bucketWork == s.bucketWork
    requires forall m :: BucketSynced(s, m)
    ensures forall m :: BucketSynced(t, m)
  {
    forall m ensures BucketSynced(t, m) {
      assert BucketSynced(s, m);
    }
  }

  lemma StartKeepsConfigSynced(s: State, n: NamespacedName, readOk: bool, k: NamespacedName)
    requires n !in s.configWork && ConfigSynced(s, k)
    ensures ConfigSynced(StartConfig(s, n, readOk), k)
  {
    assert CurrentRevision(StartConfig(s, n, readOk), k) == CurrentRevision(s, k);
  }

  lemma StartKeepsDates(s: State, n: NamespacedName, readOk: bool)
    requires WellFormed(s) && AllDated(s)
    ensures WellFormed(StartConfig(s, n, readOk)) && AllDated(StartConfig(s, n, readOk))
  {
  }

  lemma {:induction false} StartConfigKeepsInv(s: State, n: NamespacedName, readOk: bool)
    requires Inv(s) && n !in s.configWork
    ensures Inv(StartConfig(s, n, readOk))
  {
    if readOk {
      var t := StartConfig(s, n, true);
      StartKeepsDates(s, n, true);
      forall k ensures ConfigSynced(t, k) {
        assert ConfigSynced(s, k);
        StartKeepsConfigSynced(s, n, true, k);
      }
      ConfigReadKeepsBucketSynced(s, t);
    }
  }

  lemma {:induction false} ReportKeepsInv(s: State, n: NamespacedName, f: Finding)
    requires Inv(s) && n in s.configWork && s.configWork[n].GotObject? && Dated(f.Revision(), s.nextVersion)
    requires f.Verdict().ReadFailed? || exists valid :: f == Find(s, n, s.configWork[n].config, valid)
    ensures Inv(Report(s, n, f))
  {
    var t := Report(s, n, f);
    forall k ensures ConfigSynced(t, k) {
      assert ConfigSynced(s, k);
    }
    ConfigReadKeepsBucketSynced(s, t);
  }

  /** A patch that is skipped leaves a status that names the current inputs already. */
  lemma {:induction false} PatchKeepsConfigSynced(s: State, n: NamespacedName, reply: Reply, k: NamespacedName)
    requires Patchable(s, n, reply) && ConfigSynced(s, k)
    ensures ConfigSynced(PatchConfig(s, n, reply), k)
  {
  }

  lemma {:induction false} PatchKeepsDates(s: State, n: NamespacedName, reply: Reply)
    requires WellFormed(s) && AllDated(s) && Patchable(s, n, reply)
    ensures WellFormed(PatchConfig(s, n, reply)) && AllDated(PatchConfig(s, n, reply))
  {
  }

  lemma {:induction false} PatchKeepsBucketSynced(s: State, n: NamespacedName, reply: Reply)
    requires Patchable(s, n, reply) && forall m :: BucketSynced(s, m)
    ensures forall m :: BucketSynced(PatchConfig(s, n, reply), m)
  {
    var t := PatchConfig(s, n, reply);
    if !StatusChanged(s.configWork[n].config, s.configWork[n].finding) || reply.Failed? {
      ConfigReadKeepsBucketSynced(s, t);
    } else {
      assert t.configs - {n} == s.configs - {n};
      forall m ensures BucketSynced(t, m) {
        assert BucketSynced(s, m);
        ConfigChangeKeepsBucketSynced(s, t, n, m);
      }
    }
  }

  lemma {:induction false} PatchKeepsInv(s: State, n: NamespacedName, reply: Reply)
    requires Inv(s) && Patchable(s, n, reply)
    ensures Inv(PatchConfig(s, n, reply))
  {
    PatchKeepsDates(s, n, reply);
    forall k ensures ConfigSynced(PatchConfig(s, n, reply), k) {
      assert ConfigSynced(s, k);
      PatchKeepsConfigSynced(s, n, reply, k);
    }
    PatchKeepsBucketSynced(s, n, reply);
  }

  lemma {:induction false} StepKeepsInv(s: State, step: Step)
    requires Inv(s) && Enabled(s, step)
    ensures Inv(Apply(s, step))
  {
    if step.SecretWrite? || step.SecretDelete? {
      SecretStepKeepsInv(s, step);
    } else if IsConfigStep(step) {
      ConfigStepKeepsInv(s, step);
    } else if step.BucketCreate? || step.BucketTouch? || step.BucketDelete? {
      BucketChangeKeepsInv(s, Apply(s, step), step.bucket);
    } else if IsBucketReconcile(step) {
      BucketReconcileKeepsInv(s, step);
    } else if step.ConfigPatch? {
      PatchKeepsInv(s, step.config, step.reply);
    } else if step.ConfigStart? {
      StartConfigKeepsInv(s, step.config, step.readOk);
    } else if step.ConfigReadFails? {
      ReportKeepsInv(s, step.config, Unresolved(ReadFailed));
    } else if step.ConfigRead? {
      var c := s.configWork[step.config].config;
      NewRevisionIsDated(s, step.config, c, step.valid);
      ReportKeepsInv(s, step.config, Find(s, step.config, c, step.valid));
    }
  }

  lemma {:induction false} RunKeepsInv(s: State, run: seq<Step>)
    requires Inv(s) && Legal(s, run)
    ensures Inv(Exec(s, run))
    decreases |run|
  {
    if run != [] {
      StepKeepsInv(s, run[0]);
      RunKeepsInv(Apply(s, run[0]), run[1..]);
    }
  }

  // ----- No lost wake-up -----

  /** A Bucket that is neither queued nor being reconciled. */
  predicate AtRest(s: State, m: NamespacedName) {
    m in s.buckets && m !in s.bucketQueue && m !in s.bucketWork
  }

  /** It acted under another revision than that of its provider now, or was parked without one. */
  predicate Outdated(s: State, m: NamespacedName)
    requires m in s.buckets
  {
    var n := ProviderOf(m, s.buckets[m]);
    Resolves(s, n) && s.buckets[m].acted != CurrentRevision(s, n)
  }

  /** Nothing will happen to the ProviderConfig of m by itself. */
  predicate ProviderIdle(s: State, m: NamespacedName)
    requires m in s.buckets
  {
    var n := ProviderOf(m, s.buckets[m]);
    n !in s.configQueue && n !in s.configWork
  }

  /** A wake-up is lost: the Bucket could act under new inputs and nothing will tell it. */
  predicate Lost(s: State, m: NamespacedName) {
    AtRest(s, m) && ProviderIdle(s, m) && Outdated(s, m)
  }

  /**
   * Over every run, failed reads included: if a wake-up is lost, then the status of the ProviderConfig
   * reports a failed read.
   */
  lemma LostWakeUpIsReported(run: seq<Step>, m: NamespacedName)
    requires Legal(EMPTY, run) && Lost(Exec(EMPTY, run), m)
    ensures var s := Exec(EMPTY, run);
            Unread(s.configs[ProviderOf(m, s.buckets[m])].status)
  {
    RunKeepsInv(EMPTY, run);
    var s := Exec(EMPTY, run);
    assert BucketSynced(s, m) && ConfigSynced(s, ProviderOf(m, s.buckets[m]));
  }

  /** No failed read is recorded or about to be. */
  predicate AllRead(s: State) {
    && (forall n | n in s.configs :: !Unread(s.configs[n].status))
    && (forall n | n in s.configWork && s.configWork[n].GotFinding? :: !s.configWork[n].finding.Verdict().ReadFailed?)
  }

  lemma PatchKeepsAllRead(s: State, n: NamespacedName, reply: Reply)
    requires AllRead(s) && Patchable(s, n, reply)
    ensures AllRead(PatchConfig(s, n, reply))
  {
    if n in s.configs {
      assert !Unread(PatchedStatus(s.configs[n].status, s.configWork[n].config, s.configWork[n].finding));
    }
  }

  lemma StartKeepsProviders(s: State, m: NamespacedName, readOk: bool)
    ensures SameProviders(s, StartBucket(s, m, readOk))
  {
  }

  lemma ReadKeepsProviders(s: State, m: NamespacedName, readOk: bool)
    requires m in s.bucketWork && s.bucketWork[m].GotConfig?
    ensures SameProviders(s, ReadCredentials(s, m, readOk))
  {
  }

  lemma BucketReconcileKeepsProviders(s: State, step: Step)
    requires IsBucketReconcile(step) && BucketReconcileEnabled(s, step)
    ensures SameProviders(s, ApplyBucketReconcile(s, step))
  {
    match step
    case BucketStart(m, readOk) => StartKeepsProviders(s, m, readOk);
    case BucketRead(m, readOk) => ReadKeepsProviders(s, m, readOk);
    case BucketFinish(m, reply) => assert SameProviders(s, FinishBucket(s, m, reply));
  }

  lemma {:induction false} ConfigStepKeepsAllRead(s: State, step: Step)
    requires AllRead(s) && IsConfigStep(step) && ConfigEnabled(s, step)
    ensures AllRead(ApplyConfig(s, step))
  {
  }

  lemma {:induction false} ReadKeepsAllRead(s: State, step: Step)
    requires AllRead(s) && (step.ConfigStart? || step.ConfigRead?) && ConfigReconcileEnabled(s, step)
    ensures AllRead(ApplyConfigReconcile(s, step))
  {
  }

  lemma {:induction false} StepKeepsAllRead(s: State, step: Step)
    requires AllRead(s) && Enabled(s, step) && !step.ConfigReadFails?
    ensures AllRead(Apply(s, step))
  {
    if step.ConfigPatch? {
      PatchKeepsAllRead(s, step.config, step.reply);
    } else if IsConfigReconcile(step) {
      ReadKeepsAllRead(s, step);
    } else if IsBucketReconcile(step) {
      BucketReconcileKeepsProviders(s, step);
    } else if IsConfigStep(step) {
      ConfigStepKeepsAllRead(s, step);
    }
  }

  predicate ReadsSucceed(run: seq<Step>) {
    forall i | 0 <= i < |run| :: !run[i].ConfigReadFails?
  }

  lemma {:induction false} RunKeepsAllRead(s: State, run: seq<Step>)
    requires AllRead(s) && Legal(s, run) && ReadsSucceed(run)
    ensures AllRead(Exec(s, run))
    decreases |run|
  {
    if run != [] {
      StepKeepsAllRead(s, run[0]);
      RunKeepsAllRead(Apply(s, run[0]), run[1..]);
    }
  }

  /**
   * While reads succeed or find nothing, no Bucket rests on an idle provider that resolves unless it
   * acted under exactly the provider's present revision, be it parked, rejected or ready.
   */
  lemma NoLostWakeUp(run: seq<Step>, m: NamespacedName)
    requires Legal(EMPTY, run) && ReadsSucceed(run)
    ensures !Lost(Exec(EMPTY, run), m)
  {
    RunKeepsAllRead(EMPTY, run);
    if Lost(Exec(EMPTY, run), m) {
      LostWakeUpIsReported(run, m);
    }
  }

  /** The Bucket acted under another revision than the present one, which its ProviderConfig is about to report. */
  predicate Poised(s: State, m: NamespacedName) {
    && AtRest(s, m)
    && var n := ProviderOf(m, s.buckets[m]);
       && n in s.configs && s.buckets[m].acted != CurrentRevision(s, n)
       && n !in s.configQueue && n in s.configWork && s.configWork[n].GotFinding?
  }

  /** The patch is not skipped, and once it reaches the server the Bucket is queued. */
  predicate PatchWakes(s: State, m: NamespacedName, reply: Reply)
    requires Poised(s, m)
  {
    var n := ProviderOf(m, s.buckets[m]);
    var t := Apply(s, ConfigPatch(n, reply));
    n in t.configQueue && (m in t.bucketQueue <==> !reply.Failed?)
  }

  /** A failure, of a read or another one, that the status of the ProviderConfig reports already. */
  predicate RepeatedFailure(s: State, m: NamespacedName)
    requires Poised(s, m)
  {
    var n := ProviderOf(m, s.buckets[m]);
    var f := s.configWork[n].finding;
    f.Unresolved? && s.configs[n].status == Reported(s.configs[n].generation, f.cause)
  }

  lemma PoisedWakes(s: State, m: NamespacedName, reply: Reply)
    requires Poised(s, m) && BucketSynced(s, m) && ConfigSynced(s, ProviderOf(m, s.buckets[m]))
    ensures PatchWakes(s, m, reply) <==> !RepeatedFailure(s, m)
  {
    var n := ProviderOf(m, s.buckets[m]);
    var c, f := s.configWork[n].config, s.configWork[n].finding;
    assert StatusChanged(c, f) <==> !RepeatedFailure(s, m);
  }

  /**
   * Over every run, whether or not the provider resolves: the pending status patch wakes the Bucket
   * exactly unless it repeats a failure that is reported already.
   */
  lemma PendingPatchWakes(run: seq<Step>, m: NamespacedName, reply: Reply)
    requires Legal(EMPTY, run) && Poised(Exec(EMPTY, run), m)
    ensures PatchWakes(Exec(EMPTY, run), m, reply) <==> !RepeatedFailure(Exec(EMPTY, run), m)
  {
    RunKeepsInv(EMPTY, run);
    PoisedWakes(Exec(EMPTY, run), m, reply);
  }

  // ----- A status patch re-triggers its own reconcile, and that stops -----

  /** One undisturbed ProviderConfig reconcile. */
  function Round(s: State, n: NamespacedName, valid: bool): State
    requires n in s.configs && n in s.configQueue && n !in s.configWork
  {
    PatchConfig(Report(StartConfig(s, n, true), n, Find(s, n, s.configs[n], valid)), n, Ok)
  }

  /** Whether it patches or not, an undisturbed round leaves a status that shows its finding, and nothing of before. */
  lemma RoundShowsFinding(s: State, n: NamespacedName, valid: bool)
    requires n in s.configs && n in s.configQueue && n !in s.configWork
    ensures var c, t := s.configs[n], Round(s, n, valid);
            var f := Find(s, n, c, valid);
            && n in t.configs && t.configs[n] == c.(status := t.configs[n].status)
            && t.configs[n].status.condition == Some((f.Verdict(), c.generation))
            && t.configs[n].status.revision == f.Revision()
            && t.configs[n].status.observedGeneration == c.generation && t.configs[n].status.validated
            && (n in t.configQueue <==> t.configs[n].status != c.status)
  {
    var c := s.configs[n];
    var f := Find(s, n, c, valid);
    if StatusChanged(c, f) { RoundWithChange(s, n, valid); } else { RoundWithoutChange(s, n, valid); }
  }

  /** The revision names everything that a client is built from, and the objects it comes from. */
  lemma RevisionNamesInputs(
    n: NamespacedName, c: Config, secret: Secret, n': NamespacedName, c': Config, secret': Secret)
    requires NulFreeConfig(n, c) && NulFreeConfig(n', c')
    ensures RevisionOf(InputsOf(n, c, secret)) == RevisionOf(InputsOf(n', c', secret')) <==>
              && n == n' && c.uid == c'.uid && c.generation == c'.generation
              && c.spec.secretRef == c'.spec.secretRef && secret.uid == secret'.uid
              && secret.resourceVersion == secret'.resourceVersion
              && c.spec.region == c'.spec.region && c.spec.endpoint == c'.spec.endpoint
  {
    InputsAreNulFree(n, c, secret);
    InputsAreNulFree(n', c', secret');
    RevisionIdentifiesInputs(InputsOf(n, c, secret), InputsOf(n', c', secret'));
    DecimalRoundTrip(c.uid);
    DecimalRoundTrip(c'.uid);
    DecimalRoundTrip(secret.uid);
    DecimalRoundTrip(secret'.uid);
    DecimalRoundTrip(secret.resourceVersion);
    DecimalRoundTrip(secret'.resourceVersion);
  }

  lemma RoundWithoutChange(s: State, n: NamespacedName, valid: bool)
    requires n in s.configs && n in s.configQueue && n !in s.configWork
    requires !StatusChanged(s.configs[n], Find(s, n, s.configs[n], valid))
    ensures Round(s, n, valid) == s.(configQueue := s.configQueue - {n})
  {
    assert Round(s, n, valid).configWork == s.configWork;
  }

  lemma RoundWithChange(s: State, n: NamespacedName, valid: bool)
    requires n in s.configs && n in s.configQueue && n !in s.configWork
    requires StatusChanged(s.configs[n], Find(s, n, s.configs[n], valid))
    ensures var c, t := s.configs[n], Round(s, n, valid);
            && t.secrets == s.secrets && t.configWork == s.configWork && n in t.configQueue && n in t.configs
            && t.configs[n] == c.(status := PatchedStatus(c.status, c, Find(s, n, c, valid)))
  {
    assert Round(s, n, valid).configWork == s.configWork;
  }

  /** At most one round patches: the next one finds the same, changes nothing and leaves n idle. */
  lemma SecondRoundIsQuiet(s: State, n: NamespacedName, valid: bool)
    requires n in s.configs && n in s.configQueue && n !in s.configWork
    ensures var t := Round(s, n, valid);
            if StatusChanged(s.configs[n], Find(s, n, s.configs[n], valid)) then
              && n in t.configs && n in t.configQueue && n !in t.configWork
              && Round(t, n, valid) == t.(configQueue := t.configQueue - {n})
            else
              t == s.(configQueue := s.configQueue - {n})
  {
    var t := Round(s, n, valid);
    if StatusChanged(s.configs[n], Find(s, n, s.configs[n], valid)) {
      RoundWithChange(s, n, valid);
      assert Find(t, n, t.configs[n], valid) == Find(s, n, s.configs[n], valid);
      RoundWithoutChange(t, n, valid);
    } else {
      RoundWithoutChange(s, n, valid);
    }
  }

  // ----- Failed reads do lose a wake-up -----

  lemma {:induction false} Prepend(s: State, step: Step, run: seq<Step>)
    requires Enabled(s, step) && Legal(Apply(s, step), run)
    ensures Legal(s, [step] + run) && Exec(s, [step] + run) == Exec(Apply(s, step), run)
  {
    assert ([step] + run)[1..] == run;
  }

  /** The status that reports a verdict without a revision, for a generation. */
  function Reported(generation: nat, verdict: Verdict): ConfigStatus {
    ConfigStatus(generation, None, true, Some((verdict, generation)))
  }

  const UNREAD := Reported(1, ReadFailed)

  /** One queued ProviderConfig, one Bucket that refers to it, and no Secret. */
  function Pair(n: NamespacedName, m: NamespacedName, c: Config, queue: set<NamespacedName>): State {
    State(map[], map[n := c], map[m := Bucket(n.name, None)], {n}, map[], queue, map[], 0)
  }

  /** A reconcile whose read fails. */
  function FailedRound(s: State, n: NamespacedName): State
    requires n in s.configs && n in s.configQueue && n !in s.configWork
  {
    PatchConfig(Report(StartConfig(s, n, true), n, Unresolved(ReadFailed)), n, Ok)
  }

  ghost predicate Leads(s: State, step: Step, t: State) {
    Enabled(s, step) && Apply(s, step) == t
  }

  lemma {:induction false} ThreeSteps(
    s: State, a: Step, t: State, b: Step, u: State, c: Step, v: State, rest: seq<Step>)
    returns (run: seq<Step>)
    requires Leads(s, a, t) && Leads(t, b, u) && Leads(u, c, v) && Legal(v, rest)
    ensures Legal(s, run) && Exec(s, run) == Exec(v, rest) && run == [a, b, c] + rest
  {
    Prepend(u, c, rest);
    Prepend(t, b, [c] + rest);
    Prepend(s, a, [b] + ([c] + rest));
    run := [a] + ([b] + ([c] + rest));
  }

  lemma {:induction false} FailedRoundRun(s: State, n: NamespacedName, rest: seq<Step>) returns (run: seq<Step>)
    requires n in s.configs && n in s.configQueue && n !in s.configWork && Legal(FailedRound(s, n), rest)
    ensures Legal(s, run) && Exec(s, run) == Exec(FailedRound(s, n), rest)
  {
    var t := StartConfig(s, n, true);
    var u := Report(t, n, Unresolved(ReadFailed));
    run := ThreeSteps(s, ConfigStart(n, true), t, ConfigReadFails(n), u, ConfigPatch(n, Ok), FailedRound(s, n), rest);
  }

  lemma {:induction false} RoundRun(s: State, n: NamespacedName, valid: bool, rest: seq<Step>) returns (run: seq<Step>)
    requires n in s.configs && n in s.configQueue && n !in s.configWork && Legal(Round(s, n, valid), rest)
    ensures Legal(s, run) && Exec(s, run) == Exec(Round(s, n, valid), rest)
        && (ReadsSucceed(rest) ==> ReadsSucceed(run))
  {
    var t := StartConfig(s, n, true);
    var u := Report(t, n, Find(s, n, s.configs[n], valid));
    run := ThreeSteps(s, ConfigStart(n, true), t, ConfigRead(n, valid), u, ConfigPatch(n, Ok), Round(s, n, valid),
      rest);
  }

  /** A failed read that is reported already ends its reconcile without a trace. */
  lemma RepeatedFailureIsSwallowed(s: State, n: NamespacedName)
    requires n in s.configs && n in s.configQueue && n !in s.configWork
    requires s.configs[n].status == Reported(s.configs[n].generation, ReadFailed)
    ensures FailedRound(s, n) == s.(configQueue := s.configQueue - {n})
  {
    assert !StatusChanged(s.configs[n], Unresolved(ReadFailed));
    assert FailedRound(s, n).configWork == s.configWork;
  }

  /** A second failed read in a row, after the Secret appeared: the patch is skipped and nobody is told. */
  lemma {:induction false} SecondFailureLoses(n: NamespacedName, m: NamespacedName, spec: ConfigSpec)
    returns (run: seq<Step>)
    requires m.namespace == n.namespace && spec.endpointOk
    ensures var s := Pair(n, m, Config(0, 1, spec, UNREAD), {});
            Legal(s, run) && Lost(Exec(s, run), m)
  {
    var c := Config(0, 1, spec, UNREAD);
    var s := Pair(n, m, c, {});
    var write := SecretWrite(SecretOf(n, c), 0, true);
    var s1 := Apply(s, write);
    var rest := FailedRoundRun(s1, n, []);
    RepeatedFailureIsSwallowed(s1, n);
    Prepend(s, write, rest);
    run := [write] + rest;
  }

  /** After an undisturbed Bucket reconcile. */
  function Acted(s: State, m: NamespacedName): State
    requires m in s.buckets
  {
    var b := s.buckets[m];
    s.(bucketQueue := s.bucketQueue - {m}, buckets := s.buckets[m := b.(acted := CurrentRevision(s, ProviderOf(m, b)))])
  }

  lemma ReconcileActs(s: State, m: NamespacedName)
    requires m in s.buckets && m !in s.bucketWork && ProviderOf(m, s.buckets[m]) in s.configs
    ensures var t := StartBucket(s, m, true);
            && m in t.bucketWork && t.bucketWork[m].GotConfig? && m in t.buckets
            && var u := ReadCredentials(t, m, true);
               m in u.bucketWork && u.bucketWork[m].Acting? && m in u.buckets && FinishBucket(u, m, Ok) == Acted(s, m)
  {
    var u := ReadCredentials(StartBucket(s, m, true), m, true);
    assert u.bucketWork == s.bucketWork[m := Acting(CurrentRevision(s, ProviderOf(m, s.buckets[m])))];
    assert FinishBucket(u, m, Ok).bucketWork == s.bucketWork;
  }

  lemma {:induction false} ActRun(s: State, m: NamespacedName, rest: seq<Step>) returns (run: seq<Step>)
    requires m in s.buckets && m in s.bucketQueue && m !in s.bucketWork && ProviderOf(m, s.buckets[m]) in s.configs
    requires Legal(Acted(s, m), rest)
    ensures Legal(s, run) && Exec(s, run) == Exec(Acted(s, m), rest) && (ReadsSucceed(rest) ==> ReadsSucceed(run))
  {
    ReconcileActs(s, m);
    var t := StartBucket(s, m, true);
    var u := ReadCredentials(t, m, true);
    run := ThreeSteps(s, BucketStart(m, true), t, BucketRead(m, true), u, BucketFinish(m, Ok), Acted(s, m), rest);
  }

  /** With the first failure reported, the Bucket finds no Secret and parks. */
  lemma {:induction false} ParkThenLose(n: NamespacedName, m: NamespacedName, spec: ConfigSpec) returns (run: seq<Step>)
    requires m.namespace == n.namespace && spec.endpointOk
    ensures var s := Pair(n, m, Config(0, 1, spec, UNREAD), {m});
            Legal(s, run) && Lost(Exec(s, run), m)
  {
    var s := State(map[], map[n := Config(0, 1, spec, UNREAD)], map[m := Bucket(n.name, None)], {n}, map[], {m},
      map[], 0);
    assert Acted(s, m) == s.(bucketQueue := {});
    var rest := SecondFailureLoses(n, m, spec);
    run := ActRun(s, m, rest);
  }

  /** The first failed read of a new ProviderConfig is reported and wakes its Bucket. */
  lemma {:induction false} FirstFailureThenLose(n: NamespacedName, m: NamespacedName, spec: ConfigSpec)
    returns (run: seq<Step>)
    requires m.namespace == n.namespace && spec.endpointOk
    ensures var c := Config(0, 1, spec, ConfigStatus(0, None, false, None));
            var s := Pair(n, m, c, {m});
            Legal(s, run) && Lost(Exec(s, run), m)
  {
    var c := Config(0, 1, spec, ConfigStatus(0, None, false, None));
    var s := Pair(n, m, c, {m});
    assert PatchedStatus(c.status, c, Unresolved(ReadFailed)) == UNREAD;
    assert FailedRound(s, n) == s.(configs := map[n := Config(0, 1, spec, UNREAD)]);
    var rest := ParkThenLose(n, m, spec);
    run := FailedRoundRun(s, n, rest);
  }

  /** For every ProviderConfig whose endpoint resolves there is a run with failed reads that loses a wake-up. */
  lemma {:induction false} FailedReadsLoseWakeUp(n: NamespacedName, m: NamespacedName, spec: ConfigSpec)
    returns (run: seq<Step>)
    requires NulFreeConfig(n, Config(0, 1, spec, UNREAD)) && m.namespace == n.namespace && spec.endpointOk
    ensures Legal(EMPTY, run) && Lost(Exec(EMPTY, run), m)
  {
    var c := Config(0, 1, spec, ConfigStatus(0, None, false, None));
    var s1 := Apply(EMPTY, ConfigCreate(n, 0, spec));
    assert s1 == State(map[], map[n := c], map[], {n}, map[], {}, map[], 0);
    var s2 := Apply(s1, BucketCreate(m, n.name));
    assert s2 == Pair(n, m, c, {m});
    var rest := FirstFailureThenLose(n, m, spec);
    Prepend(s1, BucketCreate(m, n.name), rest);
    run := [ConfigCreate(n, 0, spec)] + ([BucketCreate(m, n.name)] + rest);
    Prepend(EMPTY, ConfigCreate(n, 0, spec), [BucketCreate(m, n.name)] + rest);
  }

  // ----- A provider that is gone -----

  const MISSING := Reported(1, SecretNotFound)

  /** The Secret goes again before its ProviderConfig has been reconciled: nothing new is found. */
  lemma {:induction false} GoneAgain(s: State, n: NamespacedName, m: NamespacedName) returns (run: seq<Step>)
    requires n in s.configs && n in s.configQueue && n !in s.configWork && s.configs[n].status == MISSING
    requires s.configs[n].generation == 1 && SecretOf(n, s.configs[n]) in s.secrets
    requires AtRest(s, m) && ProviderOf(m, s.buckets[m]) == n && s.buckets[m].acted.Some?
    ensures Legal(s, run) && ReadsSucceed(run) && Outlives(Exec(s, run), m)
  {
    var x := SecretOf(n, s.configs[n]);
    var t := Apply(s, SecretDelete(x));
    RoundWithoutChange(t, n, true);
    var last := RoundRun(t, n, true, []);
    Prepend(s, SecretDelete(x), last);
    run := [SecretDelete(x)] + last;
  }

  /** A Bucket that acted while its Secret existed for a moment is not told that the Secret is gone again. */
  lemma {:induction false} GoneUnnoticed(n: NamespacedName, m: NamespacedName, spec: ConfigSpec)
    returns (run: seq<Step>)
    requires m.namespace == n.namespace && spec.endpointOk
    ensures var s := Pair(n, m, Config(0, 1, spec, MISSING), {m});
            Legal(s, run) && ReadsSucceed(run) && Outlives(Exec(s, run), m)
  {
    var c := Config(0, 1, spec, MISSING);
    var s := Pair(n, m, c, {m});
    var write := SecretWrite(SecretOf(n, c), 0, true);
    var s1 := Apply(s, write);
    assert s1.bucketQueue == {m} && s1.configs == map[n := c] && Resolves(s1, n);
    var last := GoneAgain(Acted(s1, m), n, m);
    var rest := ActRun(s1, m, last);
    Prepend(s, write, rest);
    run := [write] + rest;
  }

  /** The Bucket rests having acted under a provider that does not resolve any more. */
  predicate Outlives(s: State, m: NamespacedName) {
    && AtRest(s, m) && ProviderIdle(s, m)
    && !Resolves(s, ProviderOf(m, s.buckets[m])) && s.buckets[m].acted.Some?
  }

  /**
   * NoLostWakeUp needs a provider that resolves: even while all reads succeed, a Bucket can rest
   * having acted under a provider whose Secret is gone, unreported.
   */
  lemma {:induction false} RemovedSecretGoesUnnoticed(n: NamespacedName, m: NamespacedName, spec: ConfigSpec)
    returns (run: seq<Step>)
    requires NulFreeConfig(n, Config(0, 1, spec, MISSING)) && m.namespace == n.namespace && spec.endpointOk
    ensures Legal(EMPTY, run) && ReadsSucceed(run) && Outlives(Exec(EMPTY, run), m)
  {
    var c := Config(0, 1, spec, ConfigStatus(0, None, false, None));
    var s1 := Apply(EMPTY, ConfigCreate(n, 0, spec));
    assert s1 == State(map[], map[n := c], map[], {n}, map[], {}, map[], 0);
    var s2 := Apply(s1, BucketCreate(m, n.name));
    assert s2 == Pair(n, m, c, {m});
    assert PatchedStatus(c.status, c, Unresolved(SecretNotFound)) == MISSING;
    assert Round(s2, n, true) == s2.(configs := map[n := Config(0, 1, spec, MISSING)]);
    var rest := GoneUnnoticed(n, m, spec);
    var mid := RoundRun(s2, n, true, rest);
    Prepend(s1, BucketCreate(m, n.name), mid);
    run := [ConfigCreate(n, 0, spec)] + ([BucketCreate(m, n.name)] + mid);
    Prepend(EMPTY, ConfigCreate(n, 0, spec), [BucketCreate(m, n.name)] + mid);
  }
}
