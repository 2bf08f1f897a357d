/**
 * The shared cache with any number of threads, at the granularity of its lock: reading the cache,
 * building a client, storing it, and closing clients outside the lock are separate steps.
 */
module CacheLedger {
  import opened Common
  import opened Encoding
  import opened ClientCache

  datatype Thread =
    | Looking(key: Key, inputs: Inputs)
    | Missed(key: Key, inputs: Inputs)
    | Holding(key: Key, inputs: Inputs, client: Client)
    | Closing(list: seq<Client>, done: nat, result: Option<(Inputs, Client)>)
    | Returned(inputs: Inputs, client: Client)

  /** A thread that is not in the map is not using the cache. */
  datatype State = State(
    entries: map<NamespacedName, (Key, Client)>, threads: map<nat, Thread>, closed: seq<Client>, nextID: nat)

  datatype Step =
    | Begin(t: nat, key: Key, inputs: Inputs)
    | Get(t: nat)
    | Build(t: nat, ok: bool)
    | Set(t: nat)
    | Invalidate(t: nat, provider: NamespacedName)
    | Close(t: nat)
    | End(t: nat)

  predicate Running(s: State, t: nat) {
    t in s.threads
  }

  predicate Enabled(s: State, step: Step) {
    match step
    case Begin(t, key, inputs) => !Running(s, t) && KeyFor(key, inputs)
    case Get(t) => Running(s, t) && s.threads[t].Looking?
    case Build(t, _) => Running(s, t) && s.threads[t].Missed?
    case Set(t) => Running(s, t) && s.threads[t].Holding?
    case Invalidate(t, _) => !Running(s, t)
    case Close(t) => Running(s, t) && s.threads[t].Closing?
    case End(t) => Running(s, t) && s.threads[t].Returned?
  }

  function With(s: State, t: nat, th: Thread): State {
    s.(threads := s.threads[t := th])
  }

  function Without(s: State, t: nat): State {
    s.(threads := s.threads - {t})
  }

  function Apply(s: State, step: Step): State
    requires Enabled(s, step)
  {
    match step
    case Begin(t, key, inputs) => With(s, t, Looking(key, inputs))
    case Get(t) =>
      var th := s.threads[t];
      var name := th.key.providerConfig;
      if name in s.entries && s.entries[name].0 == th.key then With(s, t, Returned(th.inputs, s.entries[name].1))
      else With(s, t, Missed(th.key, th.inputs))
    case Build(t, ok) =>
      var th := s.threads[t];
      if ok then With(s, t, Holding(th.key, th.inputs, Client(s.nextID, th.inputs))).(nextID := s.nextID + 1)
      else Without(s, t)
    case Set(t) =>
      var th := s.threads[t];
      var name := th.key.providerConfig;
      if name in s.entries && s.entries[name].0 == th.key then
        With(s, t, Closing([th.client], 0, Some((th.inputs, s.entries[name].1))))
      else
        With(s, t, Closing(if name in s.entries then [s.entries[name].1] else [], 0, Some((th.inputs, th.client))))
          .(entries := s.entries[name := (th.key, th.client)])
    case Invalidate(t, name) =>
      With(s, t, Closing(if name in s.entries then [s.entries[name].1]
        else [], 0, None)).(entries := s.entries - {name})
    case Close(t) =>
      var th := s.threads[t];
      if th.done < |th.list| then With(s, t, th.(done := th.done + 1)).(closed := s.closed + [th.list[th.done]])
      else if th.result.Some? then With(s, t, Returned(th.result.value.0, th.result.value.1))
      else Without(s, t)
    case End(t) => Without(s, t)
  }

  // ----- The ledger -----

  /** Where a client can be: with the thread that built it, in the map, on a to-close list, or closed. */
  datatype Slot = HeldBy(t: nat) | InMap(name: NamespacedName) | ToClose(t: nat, i: nat) | Closed(i: nat)

  function At(s: State, slot: Slot): Option<Client> {
    match slot
    case HeldBy(t) => if Running(s, t) && s.threads[t].Holding? then Some(s.threads[t].client) else None
    case InMap(name) => if name in s.entries then Some(s.entries[name].1) else None
    case ToClose(t, i) =>
      if Running(s, t) && s.threads[t].Closing? && s.threads[t].done <= i < |s.threads[t].list|
      then Some(s.threads[t].list[i]) else None
    case Closed(i) => if i < |s.closed| then Some(s.closed[i]) else None
  }

  predicate Occupies(s: State, slot: Slot, id: nat) {
    At(s, slot).Some? && At(s, slot).value.id == id
  }

  ghost predicate Placed(s: State, id: nat) {
    exists a :: Occupies(s, a, id)
  }

  /** Every client ever built is in exactly one place, and entries lie under the name in their key. */
  ghost predicate Ledger(s: State) {
    && (forall a, b, id: nat :: Occupies(s, a, id) && Occupies(s, b, id) ==> a == b)
    && (forall a, id: nat :: Occupies(s, a, id) ==> id < s.nextID)
    && (forall id: nat | id < s.nextID :: Placed(s, id))
    && (forall name | name in s.entries :: s.entries[name].0.providerConfig == name)
  }

  /** The place that a client moves to in a step. */
  function Moved(s: State, step: Step, a: Slot): Slot
    requires Enabled(s, step)
  {
    match step
    case Set(t) =>
      var name := s.threads[t].key.providerConfig;
      var hit := name in s.entries && s.entries[name].0 == s.threads[t].key;
      if a == HeldBy(t) then (if hit then ToClose(t, 0) else InMap(name))
      else if a == InMap(name) && !hit then ToClose(t, 0)
      else a
    case Invalidate(t, name) => if a == InMap(name) then ToClose(t, 0) else a
    case Close(t) => if a == ToClose(t, s.threads[t].done) then Closed(|s.closed|) else a
    case _ => a
  }

  /** Clients move with their place, and nothing else appears. */
  lemma {:induction false} StepMoves(s: State, step: Step, a: Slot)
    requires Enabled(s, step)
    ensures At(s, a).Some? ==> At(Apply(s, step), Moved(s, step, a)) == At(s, a)
  {
  }

  /** The place that a client came from. */
  function Origin(s: State, step: Step, b: Slot): Slot
    requires Enabled(s, step)
  {
    match step
    case Set(t) =>
      var name := s.threads[t].key.providerConfig;
      var hit := name in s.entries && s.entries[name].0 == s.threads[t].key;
      if b == ToClose(t, 0) then (if hit then HeldBy(t) else InMap(name))
      else if b == InMap(name) && !hit then HeldBy(t)
      else b
    case Invalidate(t, name) => if b == ToClose(t, 0) then InMap(name) else b
    case Close(t) => if b == Closed(|s.closed|) then ToClose(t, s.threads[t].done) else b
    case _ => b
  }

  lemma {:induction false} StepOrigins(s: State, step: Step, b: Slot)
    requires Enabled(s, step) && At(Apply(s, step), b).Some?
    requires !(step.Build? && step.ok && b == HeldBy(step.t))
    ensures At(s, Origin(s, step, b)) == At(Apply(s, step), b)
    ensures Moved(s, step, Origin(s, step, b)) == b
  {
  }

  lemma {:induction false} StepKeepsLedger(s: State, step: Step)
    requires Ledger(s) && Enabled(s, step)
    ensures Ledger(Apply(s, step))
  {
    var s' := Apply(s, step);
    forall b, id: nat | Occupies(s', b, id)
      ensures (if step.Build? && step.ok && b == HeldBy(step.t) then id == s.nextID
               else Occupies(s, Origin(s, step, b), id) && Moved(s, step, Origin(s, step, b)) == b)
    {
      if !(step.Build? && step.ok && b == HeldBy(step.t)) {
        StepOrigins(s, step, b);
      }
    }
    forall id: nat | id < s'.nextID
      ensures Placed(s', id)
    {
      if id == s.nextID {
        assert Occupies(s', HeldBy(step.t), id);
      } else {
        assert Placed(s, id);
        var a :| Occupies(s, a, id);
        StepMoves(s, step, a);
        assert Occupies(s', Moved(s, step, a), id);
      }
    }
  }

  // ----- The cache refines building a client every time -----

  predicate ThreadSound(th: Thread) {
    match th
    case Looking(key, inputs) => KeyFor(key, inputs) && NulFreeKeys(inputs.credentials)
    case Missed(key, inputs) => KeyFor(key, inputs) && NulFreeKeys(inputs.credentials)
    case Holding(key, inputs, client) => KeyFor(key, inputs) && NulFreeKeys(inputs.credentials)
        && client.inputs == inputs
    case Closing(_, _, result) => result.Some? ==> result.value.1.inputs == result.value.0
    case Returned(inputs, client) => client.inputs == inputs
  }

  /** Entries are well keyed, and a thread holds or returns a client built from the inputs it has read. */
  predicate Refines(s: State) {
    && (forall name | name in s.entries ::
          WellKeyed(name, s.entries[name].0, s.entries[name].1) && NulFreeKeys(s.entries[name].1.inputs.credentials))
    && (forall t | t in s.threads :: ThreadSound(s.threads[t]))
  }

  lemma {:induction false} HitRefines(s: State, t: nat)
    requires Refines(s) && Running(s, t) && (s.threads[t].Looking? || s.threads[t].Holding?)
    ensures var th := s.threads[t];
            var name := th.key.providerConfig;
            name in s.entries && s.entries[name].0 == th.key ==> s.entries[name].1.inputs == th.inputs
  {
    var th := s.threads[t];
    var name := th.key.providerConfig;
    if name in s.entries && s.entries[name].0 == th.key {
      KeyDeterminesInputs(th.key, s.entries[name].1.inputs, th.inputs);
    }
  }

  lemma {:induction false} SetRefines(s: State, step: Step)
    requires Refines(s) && Enabled(s, step) && step.Set?
    ensures Refines(Apply(s, step))
  {
    HitRefines(s, step.t);
  }

  lemma {:induction false} StepRefines(s: State, step: Step)
    requires Refines(s) && Enabled(s, step) && (step.Begin? ==> NulFreeKeys(step.inputs.credentials))
    ensures Refines(Apply(s, step))
  {
    if step.Set? { SetRefines(s, step); }
    else if step.Get? { HitRefines(s, step.t); }
  }

  // ----- Runs -----

  const EMPTY := State(map[], map[], [], 0)

  ghost predicate Legal(s: State, run: seq<Step>)
    decreases |run|
  {
    run == [] || (Enabled(s, run[0]) && Legal(Apply(s, run[0]), run[1..]))
  }

  ghost function Exec(s: State, run: seq<Step>): State
    requires Legal(s, run)
    decreases |run|
  {
    if run == [] then s else Exec(Apply(s, run[0]), run[1..])
  }

  lemma {:induction false} RunKeepsLedger(s: State, run: seq<Step>)
    requires Ledger(s) && Legal(s, run)
    ensures Ledger(Exec(s, run))
    decreases |run|
  {
    if run != [] {
      StepKeepsLedger(s, run[0]);
      RunKeepsLedger(Apply(s, run[0]), run[1..]);
    }
  }

  /**
   * In every interleaving each built client is in exactly one place; in particular it is closed at
   * most once and the map never holds a closed client.
   */
  lemma ClientLedger(run: seq<Step>)
    requires Legal(EMPTY, run)
    ensures Ledger(Exec(EMPTY, run))
    ensures var s := Exec(EMPTY, run);
            && (forall i, j | 0 <= i < j < |s.closed| :: s.closed[i].id != s.closed[j].id)
            && (forall name, i | name in s.entries && 0 <= i < |s.closed| :: s.entries[name].1.id != s.closed[i].id)
  {
    RunKeepsLedger(EMPTY, run);
    var s := Exec(EMPTY, run);
    forall i, j | 0 <= i < j < |s.closed|
      ensures s.closed[i].id != s.closed[j].id
    {
      assert Occupies(s, Closed(i), s.closed[i].id) && Occupies(s, Closed(j), s.closed[j].id);
    }
    forall name, i | name in s.entries && 0 <= i < |s.closed|
      ensures s.entries[name].1.id != s.closed[i].id
    {
      assert Occupies(s, InMap(name), s.entries[name].1.id) && Occupies(s, Closed(i), s.closed[i].id);
    }
  }

  predicate NulFreeRun(run: seq<Step>) {
    forall step | step in run && step.Begin? :: NulFreeKeys(step.inputs.credentials)
  }

  lemma {:induction false} RunRefines(s: State, run: seq<Step>)
    requires Refines(s) && Legal(s, run) && NulFreeRun(run)
    ensures Refines(Exec(s, run))
    decreases |run|
  {
    if run != [] {
      assert run[0] in run;
      StepRefines(s, run[0]);
      RunRefines(Apply(s, run[0]), run[1..]);
    }
  }

  /** What a resolve returns was built from what that resolve has read, whatever happened meanwhile. */
  lemma CachedResolveRefinesFreshBuild(run: seq<Step>, t: nat)
    requires Legal(EMPTY, run) && NulFreeRun(run)
    requires t in Exec(EMPTY, run).threads && Exec(EMPTY, run).threads[t].Returned?
    ensures var th := Exec(EMPTY, run).threads[t]; th.client.inputs == th.inputs
  {
    RunRefines(EMPTY, run);
  }

  lemma {:induction false} Prepend(s: State, step: Step, run: seq<Step>)
    requires Enabled(s, step) && Legal(Apply(s, step), run)
    ensures Legal(s, [step] + run) && Exec(s, [step] + run) == Exec(Apply(s, step), run)
  {
    assert ([step] + run)[1..] == run;
  }

  // ----- The cache object takes the steps of the machine -----

  ghost predicate Mirrors(s: State, cache: Cache)
    reads cache
  {
    s.entries == cache.contents && s.closed == cache.closed
  }

  /** Closing steps of one thread that runs undisturbed. */
  function Closes(t: nat, n: nat): seq<Step> {
    if n == 0 then [Close(t)] else [Close(t)] + Closes(t, n - 1)
  }

  lemma {:induction false} ClosingFinishes(s: State, t: nat)
    requires Running(s, t) && s.threads[t].Closing? && s.threads[t].done <= |s.threads[t].list|
    ensures var th := s.threads[t];
            var run := Closes(t, |th.list| - th.done);
            && Legal(s, run)
            && Exec(s, run).entries == s.entries && Exec(s, run).closed == s.closed + th.list[th.done..]
            && (th.result.Some? ==>
                  && t in Exec(s, run).threads
                  && Exec(s, run).threads[t] == Returned(th.result.value.0, th.result.value.1))
    decreases |s.threads[t].list| - s.threads[t].done
  {
    var th := s.threads[t];
    var s' := Apply(s, Close(t));
    if th.done < |th.list| {
      ClosingFinishes(s', t);
      Prepend(s, Close(t), Closes(t, |th.list| - th.done - 1));
      assert s.closed + [th.list[th.done]] + th.list[th.done + 1..] == s.closed + th.list[th.done..];
    } else {
      assert [Close(t)] + [] == [Close(t)];
      Prepend(s, Close(t), []);
      assert s.closed + [] == s.closed;
    }
  }

  /** Cache.Set does what the machine's thread t does from storing its client to returning. */
  method SetSteps(cache: Cache, ghost s: State, ghost t: nat, key: Key, client: Client)
    returns (r: ResolvedClient, ghost run: seq<Step>)
    requires cache.Valid() && Mirrors(s, cache) && Refines(s)
    requires Running(s, t) && s.threads[t].Holding? && s.threads[t].key == key && s.threads[t].client == client
    modifies cache
    ensures cache.Valid() && Legal(s, run) && Mirrors(Exec(s, run), cache)
    ensures t in Exec(s, run).threads && Exec(s, run).threads[t] == Returned(s.threads[t].inputs, r.obs)
  {
    ghost var s1 := Apply(s, Set(t));
    r := cache.Set(key, client);
    ClosingFinishes(s1, t);
    ghost var closes := Closes(t, |s1.threads[t].list|);
    Prepend(s, Set(t), closes);
    run := [Set(t)] + closes;
  }

  /** Cache.InvalidateProvider does what a thread of the machine does from removing the entry to its end. */
  method InvalidateSteps(cache: Cache, ghost s: State, ghost t: nat, provider: NamespacedName)
    returns (ghost run: seq<Step>)
    requires cache.Valid() && Mirrors(s, cache) && !Running(s, t)
    modifies cache
    ensures cache.Valid() && Legal(s, run) && Mirrors(Exec(s, run), cache)
  {
    ghost var s1 := Apply(s, Invalidate(t, provider));
    cache.InvalidateProvider(provider);
    ClosingFinishes(s1, t);
    ghost var closes := Closes(t, |s1.threads[t].list|);
    Prepend(s, Invalidate(t, provider), closes);
    run := [Invalidate(t, provider)] + closes;
  }

  /**
   * Keys free of NULs are needed: two credentials that differ in the place of a NUL share a cache
   * key, and the second resolve is answered with the client of the first.
   */
  lemma {:induction false} NulInKeyServesStaleClient(key: Key, region: Bytes, endpoint: Bytes) returns (run: seq<Step>)
    requires KeyFor(key, Inputs(Credentials([1, NUL, 2], [3], [4]), endpoint, region))
    ensures Legal(EMPTY, run)
    ensures var s := Exec(EMPTY, run);
            1 in s.threads && s.threads[1].Returned? && s.threads[1].client.inputs != s.threads[1].inputs
  {
    var a := Credentials([1] + [NUL] + [2], [3], [4]);
    var b := Credentials([1], [2], [3] + [NUL] + [4]);
    HashCollision([1], [2], [3], [4]);
    assert a == Credentials([1, NUL, 2], [3], [4]);
    var ia, ib := Inputs(a, endpoint, region), Inputs(b, endpoint, region);
    var s1 := Apply(EMPTY, Begin(0, key, ia));
    var s2 := Apply(s1, Get(0));
    var s3 := Apply(s2, Build(0, true));
    var s4 := Apply(s3, Set(0));
    var s5 := Apply(s4, Begin(1, key, ib));
    var s6 := Apply(s5, Get(1));
    assert s6.threads[1] == Returned(ib, Client(0, ia));
    Prepend(s5, Get(1), []);
    Prepend(s4, Begin(1, key, ib), [Get(1)] + []);
    Prepend(s3, Set(0), [Begin(1, key, ib)] + ([Get(1)] + []));
    Prepend(s2, Build(0, true), [Set(0)] + ([Begin(1, key, ib)] + ([Get(1)] + [])));
    Prepend(s1, Get(0), [Build(0, true)] + ([Set(0)] + ([Begin(1, key, ib)] + ([Get(1)] + []))));
    run := [Begin(0, key, ia)] + ([Get(0)] + ([Build(0, true)] + ([Set(0)] + ([Begin(1, key, ib)] + ([Get(1)] + [])))));
    Prepend(EMPTY, Begin(0, key, ia),
      [Get(0)] + ([Build(0, true)] + ([Set(0)] + ([Begin(1, key, ib)] + ([Get(1)] + [])))));
  }
}
