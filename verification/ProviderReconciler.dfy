/** ProviderConfigReconciler.Reconcile on the cache and on the object whose status it rewrites. */
module ProviderReconciler {
  import opened Common
  import opened Encoding
  import opened ClientCache
  import opened WakeUp
  import Endpoint
  import Secrets
  import Text

  // ----- The spec as the resolver reads it -----

  /** A ProviderConfig spec with its region trimmed and its endpoint resolved. */
  function SpecOf(secretRef: Bytes, region: string, endpoint: string): ConfigSpec {
    var r := Endpoint.ResolveEndpoint(region, endpoint);
    ConfigSpec(secretRef, Text.Utf8(Text.TrimSpace(region)), if r.Endpoint? then Text.Utf8(r.url) else [], r.Endpoint?)
  }

  ghost predicate AdmittedSpec(region: string, endpoint: string) {
    Endpoint.AdmittedRegion(region) && (endpoint == "" || exists sp :: Endpoint.AdmittedEndpoint(endpoint, sp))
  }

  lemma AdmittedAuthority(region: string, endpoint: string) returns (authority: string)
    requires AdmittedSpec(region, endpoint)
    ensures Endpoint.ResolveEndpoint(region, endpoint) ==
              Endpoint.Endpoint(Endpoint.HTTPS + Endpoint.SEPARATOR + authority)
    ensures Endpoint.AuthorityChars(authority)
  {
    if endpoint == "" {
      Endpoint.DerivedEndpointResolves(region);
      authority := Endpoint.DerivedHost(region);
    } else {
      var sp :| Endpoint.AdmittedEndpoint(endpoint, sp);
      Endpoint.AdmittedEndpointResolves(region, sp);
      Endpoint.AuthorityIsPlain(sp);
      authority := sp.Authority();
    }
  }

  lemma RegionIsPlain(region: string)
    requires Endpoint.AdmittedRegion(region)
    ensures Text.TrimSpace(region) == region && '\0' !in region
  {
    assert Endpoint.Clean(region);
    Endpoint.CleanIsUntrimmed(region);
  }

  /** A spec with a resolved endpoint in hand. */
  lemma ResolvedSpec(secretRef: Bytes, region: string, endpoint: string, url: string)
    ensures Endpoint.ResolveEndpoint(region, endpoint) == Endpoint.Endpoint(url) ==>
              SpecOf(secretRef, region, endpoint) ==
                ConfigSpec(secretRef, Text.Utf8(Text.TrimSpace(region)), Text.Utf8(url), true)
  {
  }

  /** Whatever the custom resource admits resolves, and is hashed without NULs. */
  lemma AdmittedSpecResolves(secretRef: Bytes, region: string, endpoint: string)
    requires AdmittedSpec(region, endpoint) && NulFree(secretRef)
    ensures SpecOf(secretRef, region, endpoint).endpointOk && NulFreeSpec(SpecOf(secretRef, region, endpoint))
  {
    var authority := AdmittedAuthority(region, endpoint);
    var url := Endpoint.HTTPS + Endpoint.SEPARATOR + authority;
    ComposedIsNulFree(authority);
    ResolvedSpec(secretRef, region, endpoint, url);
    RegionIsPlain(region);
  }

  lemma ComposedIsNulFree(authority: string)
    requires Endpoint.AuthorityChars(authority)
    ensures '\0' !in Endpoint.HTTPS + Endpoint.SEPARATOR + authority
  {
    var front := Endpoint.HTTPS + Endpoint.SEPARATOR;
    assert front == "https://";
  }

  /** Spellings give one spec, and so one cache key and one revision, exactly when they name one authority. */
  lemma SpellingsShareSpec(secretRef: Bytes, region: string, a: Endpoint.Spelling, b: Endpoint.Spelling)
    requires a.Admitted() && b.Admitted()
    ensures SpecOf(secretRef, region, a.Spelled()) == SpecOf(secretRef, region, b.Spelled())
       <==> a.Authority() == b.Authority()
  {
    var front := Endpoint.HTTPS + Endpoint.SEPARATOR;
    Endpoint.AdmittedEndpointResolves(region, a);
    Endpoint.AdmittedEndpointResolves(region, b);
    ResolvedSpec(secretRef, region, a.Spelled(), front + a.Authority());
    ResolvedSpec(secretRef, region, b.Spelled(), front + b.Authority());
    Text.Utf8IsInjective(front + a.Authority(), front + b.Authority());
    assert (front + a.Authority())[|front|..] == a.Authority();
    assert (front + b.Authority())[|front|..] == b.Authority();
  }

  /** White space around the region and the endpoint does not matter. */
  lemma PaddingIsIgnored(secretRef: Bytes, p: string, q: string, region: string, endpoint: string)
    requires Text.Blank(p) && Text.Blank(q)
    ensures SpecOf(secretRef, p + region + q, p + endpoint + q) == SpecOf(secretRef, region, endpoint)
  {
    Endpoint.PaddingIsIgnored(p, q, region, endpoint);
    Text.TrimOfPadded(p, region, q);
  }

  // ----- The reconcile -----

  /** The answer to the read of the Secret. */
  datatype SecretRead = Found(secret: Secret, data: Secrets.SecretData) | Missing | Unavailable

  /** Both keys hold more than white space. */
  predicate HoldsKeys(data: Secrets.SecretData) {
    !Text.Blank(Secrets.Field(data, "accessKeyID")) && !Text.Blank(Secrets.Field(data, "secretAccessKey"))
  }

  /** What the cluster state and the answer to the read have to do with each other. */
  predicate Fresh(s: State, key: NamespacedName, read: SecretRead) {
    match read
    case Found(secret, data) =>
      key in s.secrets && s.secrets[key] == secret && (secret.hasKeys <==> HoldsKeys(data))
    case Missing => key !in s.secrets
    case Unavailable => true
  }

  ghost predicate NulFreeData(read: SecretRead) {
    read.Found? ==> forall k | Secrets.HoldsCredentials(read.data, k) :: NulFreeKeys(k)
  }

  /**
   * A finding is what the event chain says of the state, except that a read without an answer and a
   * failed build are reported as such.
   */
  predicate Explains(
    f: Finding, s: State, n: NamespacedName, c: Config, read: SecretRead, built: Option<nat>, valid: bool)
  {
    if read.Unavailable? then f == Unresolved(ReadFailed)
    else f == Find(s, n, c, valid) || (built.None? && read.Found? && f == Unresolved(ReadFailed))
  }

  /** The client is one of the key that the Secret and the spec give as they were read. */
  ghost predicate ServesSecret(client: Client, c: Config, read: SecretRead) {
    && read.Found? && client.inputs.region == c.spec.region && client.inputs.endpoint == c.spec.endpoint
    && exists k :: Secrets.HoldsCredentials(read.data, k) && HashOf(client.inputs.credentials) == HashOf(k)
  }

  /** And it was built from exactly these. */
  ghost predicate BuiltFrom(client: Client, c: Config, read: SecretRead) {
    && read.Found? && client.inputs.region == c.spec.region && client.inputs.endpoint == c.spec.endpoint
    && Secrets.HoldsCredentials(read.data, client.inputs.credentials)
  }

  /**
   * The verdict, in the order in which things can go wrong: the Secret is not there or cannot be
   * read, a key is missing, the endpoint is invalid, no client can be built, the validation fails.
   */
  predicate Fits(v: Verdict, c: Config, read: SecretRead, built: Option<nat>, valid: bool) {
    if read.Missing? then v == SecretNotFound
    else if read.Unavailable? then v == ReadFailed
    else if !HoldsKeys(read.data) then v == SecretInvalid
    else if !c.spec.endpointOk then v == EndpointInvalid
    else if valid then v == ClientValidated || (built.None? && v == ReadFailed)
    else v == ValidationFailed || (built.None? && v == ReadFailed)
  }

  /** The status says of this generation that v was found, with a revision of what was read if a client was got. */
  predicate Shows(status: ConfigStatus, n: NamespacedName, c: Config, read: SecretRead, v: Verdict) {
    && status.observedGeneration == c.generation && status.condition == Some((v, c.generation)) && status.validated
    && if v == ClientValidated || v == ValidationFailed then
         read.Found? && status.revision == Some(RevisionOf(InputsOf(n, c, read.secret)))
       else status.revision.None?
  }

  /** The finding carries the verdict, and the revision of what was read exactly if a client was got. */
  predicate Tells(f: Finding, n: NamespacedName, c: Config, read: SecretRead, built: Option<nat>, valid: bool) {
    && Fits(f.Verdict(), c, read, built, valid)
    && if f.Verdict() == ClientValidated || f.Verdict() == ValidationFailed then
         read.Found? && f.Revision() == Some(RevisionOf(InputsOf(n, c, read.secret)))
       else f.Revision().None?
  }

  lemma ConnectedTells(f: Finding, n: NamespacedName, c: Config, read: SecretRead, built: Option<nat>, valid: bool)
    requires read.Found? && HoldsKeys(read.data) && c.spec.endpointOk
    requires || f == Resolved(RevisionOf(InputsOf(n, c, read.secret)), valid)
             || (built.None? && f == Unresolved(ReadFailed))
    ensures Tells(f, n, c, read, built, valid) && (f.Verdict().ClientValidated? <==> f.Resolved? && valid)
  {
  }

  lemma RemovedElsewhere<K, V>(m: map<K, V>, k: K)
    ensures (m - {k}) - {k} == m - {k}
  {
  }

  class ProviderConfig {
    var config: Config

    constructor (c: Config)
      ensures config == c
    {
      config := c;
    }
  }

  class ProviderConfigReconciler {
    const cache: Cache

    constructor (cache: Cache)
      ensures this.cache == cache
    {
      this.cache := cache;
    }

    /** ResolveProviderConfigObject and the validation request; `built` is what the client factory returns. */
    method Resolve(n: NamespacedName, c: Config, read: SecretRead, built: Option<nat>, valid: bool, ghost s: State)
      returns (f: Finding)
      requires cache.Valid() && Fresh(s, SecretOf(n, c), read)
      modifies cache
      ensures cache.Valid() && cache.contents - {n} == old(cache.contents) - {n}
      ensures Explains(f, s, n, c, read, built, valid)
      ensures f.Verdict().ClientValidated? <==> f.Resolved? && valid
      ensures Tells(f, n, c, read, built, valid)
      ensures f.Resolved? ==> n in cache.contents && ServesSecret(cache.contents[n].1, c, read)
      ensures old(cache.NulFreeClients()) && NulFreeData(read) ==>
                cache.NulFreeClients() && (f.Resolved? ==> BuiltFrom(cache.contents[n].1, c, read))
    {
      var obstacle := Precheck(n, c, read, built, valid, s);
      if obstacle.Some? {
        f := Unresolved(obstacle.value);
      } else {
        f := Connect(n, c, read, built, valid);
        ConnectedTells(f, n, c, read, built, valid);
      }
    }

    /** What keeps a client from being looked for. */
    method Precheck(
      n: NamespacedName, c: Config, read: SecretRead, built: Option<nat>, valid: bool, ghost s: State)
      returns (v: Option<Verdict>)
      requires Fresh(s, SecretOf(n, c), read)
      ensures v.Some? ==>
                && Tells(Unresolved(v.value), n, c, read, built, valid)
                && Explains(Unresolved(v.value), s, n, c, read, built, valid)
                && v.value in {SecretNotFound, ReadFailed, SecretInvalid, EndpointInvalid}
      ensures v.None? ==> read.Found? && Secrets.CredentialsFromSecret(read.data).Usable?
      ensures v.None? ==> HoldsKeys(read.data) && c.spec.endpointOk
      ensures v.None? ==> Find(s, n, c, valid) == Resolved(RevisionOf(InputsOf(n, c, read.secret)), valid)
    {
      if read.Unavailable? {
        return Some(ReadFailed);
      }
      if read.Missing? {
        return Some(SecretNotFound);
      }
      Secrets.UsableExactly(read.data);
      if Secrets.CredentialsFromSecret(read.data).MissingKey? {
        return Some(SecretInvalid);
      }
      if !c.spec.endpointOk {
        return Some(EndpointInvalid);
      }
      return None;
    }

    /** The part of the resolution that uses the cache. */
    method Connect(n: NamespacedName, c: Config, read: SecretRead, built: Option<nat>, valid: bool) returns (f: Finding)
      requires cache.Valid() && read.Found? && Secrets.CredentialsFromSecret(read.data).Usable?
      modifies cache
      ensures cache.Valid() && cache.contents - {n} == old(cache.contents) - {n}
      ensures || f == Resolved(RevisionOf(InputsOf(n, c, read.secret)), valid)
              || (built.None? && f == Unresolved(ReadFailed))
      ensures f.Resolved? ==> n in cache.contents && ServesSecret(cache.contents[n].1, c, read)
      ensures old(cache.NulFreeClients()) && NulFreeData(read) ==>
                cache.NulFreeClients() && (f.Resolved? ==> BuiltFrom(cache.contents[n].1, c, read))
    {
      var secret := read.secret;
      var revision := ObservedProviderRevision(InputsOf(n, c, secret));
      var credentials := Secrets.CredentialsFromSecret(read.data).credentials;
      Secrets.ReadsWhatIsHeld(read.data, credentials);
      var inputs := Inputs(credentials, c.spec.endpoint, c.spec.region);
      var q := Request(n, Decimal(c.uid), SecretOf(n, c), Decimal(secret.uid), inputs, revision);
      var r := ResolveObject(cache, q, built);
      if r == null {
        return Unresolved(ReadFailed);
      }
      return Resolved(r.revision.value, valid);
    }

    /** updateProviderConfigStatus up to the patch request. */
    method UpdateStatus(p: ProviderConfig, f: Finding) returns (patch: Option<(ConfigStatus, ConfigStatus)>)
      modifies p
      ensures patch.Some? <==> StatusChanged(old(p.config), f)
      ensures patch.None? ==> p.config == old(p.config)
      ensures var shown := ConfigStatus(
                old(p.config).generation, f.Revision(), true, Some((f.Verdict(), old(p.config).generation)));
              p.config.status == shown && (patch.None? <==> old(p.config).status == shown)
      ensures patch.Some? ==>
                && p.config == old(p.config).(status := PatchedStatus(old(p.config).status, old(p.config), f))
                && patch.value == (old(p.config).status, p.config.status)
    {
      var original := p.config.status;
      var next := original;
      next := next.(observedGeneration := p.config.generation);
      next := next.(revision := f.Revision());
      next := next.(condition := Some((f.Verdict(), p.config.generation)));
      if original.observedGeneration == next.observedGeneration && original.revision == next.revision
         && original.validated && original.condition == next.condition {
        return None;
      }
      next := next.(validated := true);
      p.config := p.config.(status := next);
      return Some((original, next));
    }

    /** Resolve, and give up the cached client when that or the validation fails. */
    method Examine(n: NamespacedName, c: Config, read: SecretRead, built: Option<nat>, valid: bool, ghost s: State)
      returns (f: Finding)
      requires cache.Valid() && Fresh(s, SecretOf(n, c), read)
      modifies cache
      ensures cache.Valid() && cache.contents - {n} == old(cache.contents) - {n}
      ensures Explains(f, s, n, c, read, built, valid)
      ensures Tells(f, n, c, read, built, valid)
      ensures n in cache.contents <==> f.Verdict().ClientValidated?
      ensures n in cache.contents ==> ServesSecret(cache.contents[n].1, c, read)
      ensures old(cache.NulFreeClients()) && NulFreeData(read) ==>
                cache.NulFreeClients() && (n in cache.contents ==> BuiltFrom(cache.contents[n].1, c, read))
    {
      f := Resolve(n, c, read, built, valid, s);
      if !f.Resolved? || !valid {
        RemovedElsewhere(cache.contents, n);
        cache.InvalidateProvider(n);
      }
    }

    /** Examine the provider and record what was found. */
    method Record(
      n: NamespacedName, p: ProviderConfig, read: SecretRead, built: Option<nat>, valid: bool, ghost s: State)
      returns (patch: Option<(ConfigStatus, ConfigStatus)>, ghost f: Finding)
      requires cache.Valid() && Fresh(s, SecretOf(n, p.config), read)
      modifies cache, p
      ensures cache.Valid() && cache.contents - {n} == old(cache.contents) - {n}
      ensures Explains(f, s, n, old(p.config), read, built, valid)
      ensures n in cache.contents <==> f.Verdict().ClientValidated?
      ensures n in cache.contents ==> ServesSecret(cache.contents[n].1, old(p.config), read)
      ensures old(cache.NulFreeClients()) && NulFreeData(read) ==>
                cache.NulFreeClients() && (n in cache.contents ==> BuiltFrom(cache.contents[n].1, old(p.config), read))
      ensures Fits(f.Verdict(), old(p.config), read, built, valid)
      ensures Shows(p.config.status, n, old(p.config), read, f.Verdict())
      ensures patch.None? <==> old(p.config).status == p.config.status
      ensures p.config == old(p.config).(status := p.config.status)
      ensures patch.Some? ==>
                && patch.value == (old(p.config).status, p.config.status)
                && p.config.status == PatchedStatus(old(p.config).status, old(p.config), f)
    {
      var finding := Examine(n, p.config, read, built, valid, s);
      patch := UpdateStatus(p, finding);
      f := finding;
    }

    /**
     * Reconcile after a successful read of the object, or none if it is gone. Afterwards the status
     * shows the verdict that fits, and a patch was needed exactly if it did not do so before. The cache
     * holds a client for the provider exactly when its credentials were validated, built from the
     * Secret and the spec as they were read; other providers keep their clients.
     */
    method Reconcile(
      n: NamespacedName, p: ProviderConfig?, read: SecretRead, built: Option<nat>, valid: bool, ghost s: State)
      returns (patch: Option<(ConfigStatus, ConfigStatus)>, ghost f: Option<Finding>)
      requires cache.Valid()
      requires p != null ==> Fresh(s, SecretOf(n, p.config), read)
      modifies cache, p
      ensures cache.Valid() && cache.contents - {n} == old(cache.contents) - {n}
      ensures f.None? <==> p == null
      ensures p == null ==> n !in cache.contents && patch.None?
      ensures p != null ==> Explains(f.value, s, n, old(p.config), read, built, valid)
      ensures p != null ==> (n in cache.contents <==> f.value.Verdict().ClientValidated?)
      ensures p != null && n in cache.contents ==> ServesSecret(cache.contents[n].1, old(p.config), read)
      ensures old(cache.NulFreeClients()) && NulFreeData(read) ==> cache.NulFreeClients()
      ensures old(cache.NulFreeClients()) && NulFreeData(read) && p != null && n in cache.contents ==>
                BuiltFrom(cache.contents[n].1, old(p.config), read)
      ensures p != null ==>
                && Fits(f.value.Verdict(), old(p.config), read, built, valid)
                && Shows(p.config.status, n, old(p.config), read, f.value.Verdict())
                && (patch.None? <==> old(p.config).status == p.config.status)
                && p.config == old(p.config).(status := p.config.status)
      ensures p != null && patch.Some? ==>
                && patch.value == (old(p.config).status, p.config.status)
                && p.config.status == PatchedStatus(old(p.config).status, old(p.config), f.value)
    {
      if p == null {
        cache.InvalidateProvider(n);
        return None, None;
      }
      ghost var finding;
      patch, finding := Record(n, p, read, built, valid, s);
      f := Some(finding);
    }
  }
}
