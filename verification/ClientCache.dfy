/** The provider client cache and the resolver that fills it, as used by one caller at a time. */
module ClientCache {
  import opened Common
  import opened Encoding

  datatype NamespacedName = NamespacedName(namespace: Bytes, name: Bytes)

  /** What an OBS client is built from. */
  datatype Inputs = Inputs(credentials: Credentials, endpoint: Bytes, region: Bytes)

  datatype Client = Client(id: nat, inputs: Inputs)

  datatype Key = Key(
    providerConfig: NamespacedName, providerUID: Bytes, credentialsSecret: NamespacedName, secretUID: Bytes,
    credentialsHash: Digest, region: Bytes, endpoint: Bytes)

  /** A key speaks about inputs when its discriminating parts were computed from them. */
  predicate KeyFor(key: Key, inputs: Inputs) {
    key.credentialsHash == HashOf(inputs.credentials) && key.region == inputs.region && key.endpoint == inputs.endpoint
  }

  /** Under one key lie equal inputs, because the hashed encoding can be read back. */
  lemma KeyDeterminesInputs(key: Key, a: Inputs, b: Inputs)
    requires KeyFor(key, a) && KeyFor(key, b) && NulFreeKeys(a.credentials) && NulFreeKeys(b.credentials)
    ensures a == b
  {
    HashIdentifiesCredentials(a.credentials, b.credentials);
  }

  /** The record handed to reconcilers, which write to it. */
  class ResolvedClient {
    var obs: Client
    var providerConfig: NamespacedName
    var credentialsSecret: NamespacedName
    var region: Bytes
    var endpoint: Bytes
    var revision: Option<Digest>
    var fromCache: bool

    constructor New(key: Key, client: Client)
      ensures Pristine(key, client)
    {
      obs, providerConfig, credentialsSecret := client, key.providerConfig, key.credentialsSecret;
      region, endpoint, revision, fromCache := key.region, key.endpoint, None, false;
    }

    constructor Clone(r: ResolvedClient)
      ensures obs == r.obs && providerConfig == r.providerConfig && credentialsSecret == r.credentialsSecret
      ensures region == r.region && endpoint == r.endpoint && revision == r.revision && fromCache == r.fromCache
    {
      obs, providerConfig, credentialsSecret := r.obs, r.providerConfig, r.credentialsSecret;
      region, endpoint, revision, fromCache := r.region, r.endpoint, r.revision, r.fromCache;
    }

    /** The record describes the client under the key and nobody has written to it. */
    predicate Pristine(key: Key, client: Client)
      reads this
    {
      Describes(key, client) && revision == None && !fromCache
    }

    /** The record names what the request is about, and its client was built from inputs of the same key. */
    predicate Answers(q: Request)
      reads this
    {
      && HashOf(obs.inputs.credentials) == HashOf(q.inputs.credentials)
      && obs.inputs.region == region == q.inputs.region && obs.inputs.endpoint == endpoint == q.inputs.endpoint
      && providerConfig == q.provider && credentialsSecret == q.secret
    }

    /** In addition it carries the revision of the request. */
    predicate Serves(q: Request)
      reads this
    {
      Answers(q) && revision == Some(q.revision)
    }

    predicate Describes(key: Key, client: Client)
      reads this
    {
      && obs == client && providerConfig == key.providerConfig && credentialsSecret == key.credentialsSecret
      && region == key.region && endpoint == key.endpoint
    }
  }

  datatype Entry = Entry(key: Key, resolved: ResolvedClient)

  /** What may lie under a name: a key for that name and a client built for the key. */
  predicate WellKeyed(name: NamespacedName, key: Key, client: Client) {
    key.providerConfig == name && KeyFor(key, client.inputs)
  }

  class Cache {
    var clients: map<NamespacedName, Entry>
    var closed: seq<Client>

    /** The cache as a value, and the records that belong to it. */
    ghost var contents: map<NamespacedName, (Key, Client)>
    ghost var repr: set<ResolvedClient>

    ghost predicate Valid()
      reads this, repr
    {
      && clients.Keys == contents.Keys
      && (forall k | k in contents :: WellKeyed(k, contents[k].0, contents[k].1))
      && (forall k | k in contents ::
            && clients[k].key == contents[k].0
            && clients[k].resolved in repr
            && clients[k].resolved.Pristine(contents[k].0, contents[k].1))
    }

    /** No cached client was built from keys with NULs. */
    ghost predicate NulFreeClients()
      reads this
    {
      forall k | k in contents :: NulFreeKeys(contents[k].1.inputs.credentials)
    }

    constructor ()
      ensures Valid() && contents == map[] && closed == [] && repr == {}
    {
      clients, closed, contents, repr := map[], [], map[], {};
    }

    method Get(key: Key) returns (r: ResolvedClient?)
      requires Valid()
      ensures r != null <==> key.providerConfig in contents && contents[key.providerConfig].0 == key
      ensures r != null ==> fresh(r) && r.Pristine(key, contents[key.providerConfig].1)
    {
      if key.providerConfig !in clients || clients[key.providerConfig].key != key {
        return null;
      }
      r := new ResolvedClient.Clone(clients[key.providerConfig].resolved);
    }

    method CloseClients(list: seq<Client>)
      modifies this`closed
      ensures closed == old(closed) + list
    {
      for i := 0 to |list|
        invariant closed == old(closed) + list[..i]
      {
        closed := closed + [list[i]];
      }
      assert list[..|list|] == list;
    }

    ghost predicate Hit(key: Key)
      reads this
    {
      key.providerConfig in contents && contents[key.providerConfig].0 == key
    }

    /** An equal key wins over the new client, which is closed; any other entry is replaced and closed. */
    method Set(key: Key, client: Client) returns (r: ResolvedClient)
      requires Valid() && WellKeyed(key.providerConfig, key, client)
      modifies this
      ensures Valid() && fresh(r) && r !in repr && fresh(repr - old(repr)) && r.revision == None
      ensures r.fromCache == old(Hit(key))
      ensures Hit(key) && contents[key.providerConfig].1 == r.obs
      ensures r.Describes(key, r.obs) && WellKeyed(key.providerConfig, key, r.obs)
      ensures old(Hit(key)) ==> contents == old(contents) && closed == old(closed) + [client]
      ensures !old(Hit(key)) ==> contents == old(contents)[key.providerConfig := (key, client)] && r.obs == client
      ensures !old(Hit(key)) ==>
                closed == old(closed) +
                  if key.providerConfig in old(contents) then [old(contents)[key.providerConfig].1] else []
    {
      var toClose: seq<Client> := [];
      if key.providerConfig in clients {
        var existing := clients[key.providerConfig];
        if existing.key == key {
          r := new ResolvedClient.Clone(existing.resolved);
          r.fromCache := true;
          toClose := toClose + [client];
          CloseClients(toClose);
          return;
        }
        toClose := toClose + [existing.resolved.obs];
      }
      var resolved := Store(key, client);
      CloseClients(toClose);
      r := new ResolvedClient.Clone(resolved);
    }

    method Store(key: Key, client: Client) returns (resolved: ResolvedClient)
      requires Valid() && WellKeyed(key.providerConfig, key, client)
      modifies this`clients, this`contents, this`repr
      ensures Valid() && fresh(resolved) && resolved.Pristine(key, client) && repr == old(repr) + {resolved}
      ensures contents == old(contents)[key.providerConfig := (key, client)]
    {
      resolved := new ResolvedClient.New(key, client);
      clients := clients[key.providerConfig := Entry(key, resolved)];
      contents, repr := contents[key.providerConfig := (key, client)], repr + {resolved};
    }

    method InvalidateProvider(provider: NamespacedName)
      requires Valid()
      modifies this
      ensures Valid() && repr == old(repr)
      ensures contents == old(contents) - {provider}
      ensures closed == old(closed) + (if provider in old(contents) then [old(contents)[provider].1] else [])
    {
      var toClose: seq<Client> := [];
      if provider in clients {
        toClose := toClose + [clients[provider].resolved.obs];
        clients := clients - {provider};
        contents := contents - {provider};
      }
      CloseClients(toClose);
    }
  }

  /** What the resolver has read when it consults the cache. */
  datatype Request = Request(
    provider: NamespacedName, providerUID: Bytes, secret: NamespacedName, secretUID: Bytes,
    inputs: Inputs, revision: Digest)

  /** The names and identities of the two objects, and what the client is built from. */
  ghost function RequestKey(q: Request): Key {
    Key(q.provider, q.providerUID, q.secret, q.secretUID,
        Digest(q.inputs.credentials.accessKeyID + [NUL] + q.inputs.credentials.secretAccessKey + [NUL] +
               q.inputs.credentials.securityToken),
        q.inputs.region, q.inputs.endpoint)
  }

  /** The cache key of a request. */
  method KeyOf(q: Request) returns (key: Key)
    ensures KeyFor(key, q.inputs) && key.providerConfig == q.provider && key.credentialsSecret == q.secret
    ensures key == RequestKey(q)
  {
    var hash := CredentialsHash(q.inputs.credentials);
    key := Key(q.provider, q.providerUID, q.secret, q.secretUID, hash, q.inputs.region, q.inputs.endpoint);
  }

  /** Nothing in the cache or in the request has a NUL in its keys. */
  ghost predicate NulFreeResolve(cache: Cache, q: Request)
    reads cache
  {
    cache.NulFreeClients() && NulFreeKeys(q.inputs.credentials)
  }

  /**
   * ResolveProviderConfigObject after its reads; `built` identifies the client that the factory
   * returns, if it succeeds. A resolved record carries a client of the request's own key; while no
   * keys with NULs are about, it was built from exactly the inputs just read, as if it had been built
   * afresh. The caller's record is not the cache's.
   */
  method ResolveObject(cache: Cache, q: Request, built: Option<nat>) returns (r: ResolvedClient?)
    requires cache.Valid()
    modifies cache
    ensures cache.Valid() && fresh(cache.repr - old(cache.repr))
    ensures r != null ==> fresh(r) && r !in cache.repr && r.Serves(q)
    ensures r != null ==> q.provider in cache.contents && cache.contents[q.provider].1 == r.obs
    ensures r != null && old(NulFreeResolve(cache, q)) ==> r.obs.inputs == q.inputs
    ensures old(NulFreeResolve(cache, q)) ==> cache.NulFreeClients()
    ensures built.Some? ==> r != null
    ensures r == null ==> cache.contents == old(cache.contents)
    ensures cache.contents - {q.provider} == old(cache.contents) - {q.provider}
    ensures old(cache.Hit(RequestKey(q))) ==>
              && r != null && r.fromCache && r.obs == old(cache.contents)[q.provider].1
              && cache.contents == old(cache.contents) && cache.closed == old(cache.closed)
    ensures !old(cache.Hit(RequestKey(q))) ==>
              && (r != null <==> built.Some?)
              && (r != null ==>
                    && !r.fromCache && r.obs == Client(built.value, q.inputs)
                    && cache.contents == old(cache.contents)[q.provider := (RequestKey(q), r.obs)])
              && cache.closed == old(cache.closed) +
                 if r != null && q.provider in old(cache.contents) then [old(cache.contents)[q.provider].1] else []
  {
    var key := KeyOf(q);
    var hit := cache.Get(key);
    if hit != null {
      if NulFreeResolve(cache, q) { KeyDeterminesInputs(key, hit.obs.inputs, q.inputs); }
      Annotate(cache, hit, q, true);
      return hit;
    }
    if built.None? {
      return null;
    }
    r := Fill(cache, q, key, Client(built.value, q.inputs));
  }

  method Fill(cache: Cache, q: Request, key: Key, client: Client) returns (r: ResolvedClient)
    requires cache.Valid() && client.inputs == q.inputs
    requires KeyFor(key, q.inputs) && key.providerConfig == q.provider && key.credentialsSecret == q.secret
    modifies cache
    ensures cache.Valid() && fresh(cache.repr - old(cache.repr))
    ensures fresh(r) && r !in cache.repr && r.Serves(q)
    ensures q.provider in cache.contents && cache.contents[q.provider].1 == r.obs
    ensures old(NulFreeResolve(cache, q)) ==> r.obs.inputs == q.inputs && cache.NulFreeClients()
    ensures cache.contents - {q.provider} == old(cache.contents) - {q.provider}
    ensures !old(cache.Hit(key)) ==>
              && !r.fromCache && r.obs == client && cache.contents == old(cache.contents)[q.provider := (key, client)]
              && cache.closed == old(cache.closed) +
                 if q.provider in old(cache.contents) then [old(cache.contents)[q.provider].1] else []
  {
    r := Insert(cache, q, key, client);
    Annotate(cache, r, q, r.fromCache);
  }

  method Insert(cache: Cache, q: Request, key: Key, client: Client) returns (r: ResolvedClient)
    requires cache.Valid() && client.inputs == q.inputs
    requires KeyFor(key, q.inputs) && key.providerConfig == q.provider && key.credentialsSecret == q.secret
    modifies cache
    ensures cache.Valid() && fresh(cache.repr - old(cache.repr))
    ensures fresh(r) && r !in cache.repr && r.Describes(key, r.obs) && KeyFor(key, r.obs.inputs)
    ensures q.provider in cache.contents && cache.contents[q.provider].1 == r.obs
    ensures old(NulFreeResolve(cache, q)) ==> r.obs.inputs == q.inputs && cache.NulFreeClients()
    ensures cache.contents - {q.provider} == old(cache.contents) - {q.provider}
    ensures !old(cache.Hit(key)) ==>
              && !r.fromCache && r.obs == client && cache.contents == old(cache.contents)[q.provider := (key, client)]
              && cache.closed == old(cache.closed) +
                 if q.provider in old(cache.contents) then [old(cache.contents)[q.provider].1] else []
  {
    r := cache.Set(key, client);
    ReplacedElsewhere(old(cache.contents), q.provider, (key, client));
    if old(NulFreeResolve(cache, q)) { KeyDeterminesInputs(key, r.obs.inputs, q.inputs); }
  }

  lemma ReplacedElsewhere<K, V>(m: map<K, V>, k: K, v: V)
    ensures m[k := v] - {k} == m - {k}
  {
  }

  /** What a caller writes to its record does not reach the cache. */
  method Annotate(cache: Cache, r: ResolvedClient, q: Request, fromCache: bool)
    requires cache.Valid() && r !in cache.repr && r.Answers(q)
    modifies r`fromCache, r`revision
    ensures cache.Valid() && r.Serves(q) && r.fromCache == fromCache && r.obs == old(r.obs)
    ensures cache.contents == old(cache.contents) && cache.closed == old(cache.closed)
  {
    r.fromCache := fromCache;
    r.revision := Some(q.revision);
  }
}
