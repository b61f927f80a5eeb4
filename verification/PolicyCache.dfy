/**
 The policy cache of one environment: asynchronous loads, cached reads, a ten-second life,
 and writers that invalidate after they have changed the database.
 */
module PolicyCache {
  import opened Common

  /** The policies as of one version of the table, or the empty list a failed load leaves. */
  datatype Policies = AsOf(version: nat) | NoPolicies

  datatype Entry = Entry(policies: Policies, loadedAt: int)

  const CACHE_TTL := 10_000

  predicate IsCacheValid(cache: Option<Entry>, now: int) {
    cache.Some? && now - cache.value.loadedAt < CACHE_TTL
  }

  /** What a read is answered from the cache, if it is. */
  function Answer(cache: Option<Entry>, now: int): Option<Policies> {
    if IsCacheValid(cache, now) then Some(cache.value.policies) else None
  }

  /** A failed query counts as an empty list. */
  function RowsOrNone(rows: Option<Policies>): Policies {
    if rows.Some? then rows.value else NoPolicies
  }

  // ---------------------------------------------------------------- every interleaving

  /** A load in flight: the table's version when it began, and what its query returned. */
  datatype Load = Load(since: nat, fetched: Option<Policies>)

  datatype Event = Event(policies: Policies, at: int)

  datatype State = State(
    clock: int, version: nat, cache: Option<Entry>, loads: map<int, Load>,
    successes: nat, failures: nat, hits: seq<Event>, completions: seq<Event>)

  datatype Action =
    | Tick(d: nat) | Write | Invalidate
    | ReadSync | Read(p: int) | Fetch(p: int, ok: bool) | Complete(p: int)

  function Hit(s: State): State {
    match Answer(s.cache, s.clock)
    case None => s
    case Some(policies) => s.(hits := s.hits + [Event(policies, s.clock)])
  }

  function Step(s: State, a: Action): State {
    match a
    case Tick(d) => s.(clock := s.clock + d)
    case Write => s.(version := s.version + 1)
    case Invalidate => s.(cache := None)
    case ReadSync => Hit(s)
    case Read(p) =>
      if Answer(s.cache, s.clock).Some? then Hit(s)
      else if p !in s.loads then s.(loads := s.loads[p := Load(s.version, None)])
      else s
    case Fetch(p, ok) =>
      if p in s.loads && s.loads[p].fetched.None? then
        var rows := if ok then Some(AsOf(s.version)) else None;
        s.(loads := s.loads[p := s.loads[p].(fetched := Some(RowsOrNone(rows)))],
           successes := s.successes + (if ok then 1 else 0), failures := s.failures + (if ok then 0 else 1))
      else s
    case Complete(p) =>
      if p in s.loads && s.loads[p].fetched.Some? then
        var policies := s.loads[p].fetched.value;
        s.(cache := Some(Entry(policies, s.clock)), loads := s.loads - {p},
           completions := s.completions + [Event(policies, s.clock)])
      else s
  }

  function Run(s: State, actions: seq<Action>): State
    decreases |actions|
  {
    if actions == [] then s else Run(Step(s, actions[0]), actions[1..])
  }

  const START := State(0, 0, None, map[], 0, 0, [], [])

  // ---------------------------------------------------------------- the module's variables

  /**
   The cache and the two counters, with the interleaving they belong to as a ghost. Each method
   is one atomic stretch of the code between awaits, and one step of the state machine.
   */
  class Cache {
    var cache: Option<Entry>
    var loadFailures: nat
    var loadSuccesses: nat
    ghost var state: State

    ghost predicate Valid()
      reads this
    {
      cache == state.cache && loadFailures == state.failures && loadSuccesses == state.successes
    }

    constructor ()
      ensures Valid() && state == START
    {
      cache, loadFailures, loadSuccesses, state := None, 0, 0, START;
    }

    /** The synchronous read: the cached policies, or none. */
    method GetActivePoliciesSync(now: int) returns (policies: Policies)
      requires Valid() && now == state.clock
      modifies this`state
      ensures Valid() && state == Step(old(state), ReadSync)
      ensures policies == NoPolicies || (state.hits != [] && Last(state.hits) == Event(policies, now))
      ensures policies ==
        if cache.Some? && now < cache.value.loadedAt + 10_000 then cache.value.policies else NoPolicies
    {
      state := Step(state, ReadSync);
      if cache.Some? && now - cache.value.loadedAt < CACHE_TTL {
        return cache.value.policies;
      }
      return NoPolicies;
    }

    /** The asynchronous read up to its first await: an answer, or a load to be made. */
    method GetActivePolicies(ghost p: int, now: int) returns (policies: Option<Policies>)
      requires Valid() && now == state.clock && p !in state.loads
      modifies this`state
      ensures Valid() && state == Step(old(state), Read(p))
      ensures policies.Some? ==> state.hits != [] && Last(state.hits) == Event(policies.value, now)
      ensures policies ==
        if cache.Some? && now < cache.value.loadedAt + 10_000 then Some(cache.value.policies) else None
      ensures policies.None? ==> p in state.loads && state.loads[p].fetched.None?
    {
      state := Step(state, Read(p));
      if cache.Some? && now - cache.value.loadedAt < CACHE_TTL {
        return Some(cache.value.policies);
      }
      return None;
    }

    /** The query has returned the rows of the table's version, or failed. */
    method LoadPoliciesFromDb(ghost p: int, rows: Option<Policies>) returns (policies: Policies)
      requires Valid() && p in state.loads && state.loads[p].fetched.None?
      requires rows.Some? ==> rows.value == AsOf(state.version)
      modifies this`loadFailures, this`loadSuccesses, this`state
      ensures Valid() && state == Step(old(state), Fetch(p, rows.Some?))
      ensures state.loads[p].fetched == Some(policies)
      ensures policies == if rows.Some? then AsOf(state.version) else NoPolicies
      ensures loadSuccesses == old(loadSuccesses) + if rows.Some? then 1 else 0
      ensures loadFailures == old(loadFailures) + if rows.Some? then 0 else 1
    {
      state := Step(state, Fetch(p, rows.Some?));
      if rows.None? {
        loadFailures := loadFailures + 1;
        return NoPolicies;
      }
      loadSuccesses := loadSuccesses + 1;
      return rows.value;
    }

    /** The asynchronous read after its await. */
    method CompleteLoad(ghost p: int, policies: Policies, now: int)
      requires Valid() && now == state.clock && p in state.loads && state.loads[p].fetched == Some(policies)
      modifies this`cache, this`state
      ensures Valid() && state == Step(old(state), Complete(p))
    {
      state := Step(state, Complete(p));
      cache := Some(Entry(policies, now));
    }

    /** What a writer does after it has changed the table. */
    method InvalidateCache()
      requires Valid()
      modifies this`cache, this`state
      ensures Valid() && state == Step(old(state), Invalidate)
    {
      state := Step(state, Invalidate);
      cache := None;
    }
  }

  // ---------------------------------------------------------------- answers are under ten seconds old

  ghost predicate Recent(s: State, h: Event) {
    exists c :: c in s.completions && c.policies == h.policies && c.at <= h.at < c.at + 10_000
  }

  ghost predicate Honest(s: State) {
    && (s.cache.Some? ==>
          s.cache.value.loadedAt <= s.clock && Event(s.cache.value.policies, s.cache.value.loadedAt) in s.completions)
    && (forall h :: h in s.hits ==> Recent(s, h))
    && (forall p :: p in s.loads ==>
          s.loads[p].since <= s.version
          && (s.loads[p].fetched.Some? && s.loads[p].fetched.value.AsOf? ==>
                s.loads[p].since <= s.loads[p].fetched.value.version <= s.version))
  }

  /** Every cached answer comes from a load completed less than ten seconds before. */
  lemma {:induction false} CachedAnswersAreRecent(s: State, actions: seq<Action>)
    requires Honest(s)
    ensures Honest(Run(s, actions))
    ensures forall h :: h in Run(s, actions).hits ==> Recent(Run(s, actions), h)
    decreases |actions|
  {
    if actions != [] {
      CachedAnswersAreRecent(Step(s, actions[0]), actions[1..]);
    }
  }

  /** What a completed load put into the cache is answered for ten seconds and no longer. */
  lemma {:induction false} LoadServesTenSeconds(s: State, actions: seq<Action>)
    requires s.cache.Some? && forall a :: a in actions ==> !a.Invalidate? && !a.Complete?
    ensures var s' := Run(s, actions);
            && s'.cache == s.cache
            && Answer(s'.cache, s'.clock) ==
               if s'.clock < s.cache.value.loadedAt + 10_000 then Some(s.cache.value.policies) else None
    decreases |actions|
  {
    if actions != [] {
      assert actions[0] in actions;
      LoadServesTenSeconds(Step(s, actions[0]), actions[1..]);
    }
  }

  // ---------------------------------------------------------------- invalidation

  predicate NotBefore(policies: Policies, v: nat) {
    policies.AsOf? ==> policies.version >= v
  }

  /** No load in flight has already been given rows older than version `v`. */
  ghost predicate NoOldRows(s: State, v: nat) {
    forall p :: p in s.loads && s.loads[p].fetched.Some? ==> NotBefore(s.loads[p].fetched.value, v)
  }

  ghost predicate Fresh(s: State, v: nat, from: nat, since: nat) {
    && v <= s.version && from <= |s.hits| && since <= |s.completions|
    && (s.cache.Some? ==> NotBefore(s.cache.value.policies, v))
    && NoOldRows(s, v)
    && (forall k :: from <= k < |s.hits| ==> NotBefore(s.hits[k].policies, v))
    && (forall k :: since <= k < |s.completions| ==> NotBefore(s.completions[k].policies, v))
  }

  lemma {:induction false} RunFresh(s: State, v: nat, from: nat, since: nat, actions: seq<Action>)
    requires Fresh(s, v, from, since)
    ensures Fresh(Run(s, actions), v, from, since)
    decreases |actions|
  {
    if actions != [] {
      assert Fresh(Step(s, actions[0]), v, from, since);
      RunFresh(Step(s, actions[0]), v, from, since, actions[1..]);
    }
  }

  /** Whatever happens after `s`, no read, cached or loaded, is answered older than version `v`. */
  ghost predicate NeverStale(s: State, v: nat) {
    forall actions ::
      && (forall k :: |s.hits| <= k < |Run(s, actions).hits| ==> NotBefore(Run(s, actions).hits[k].policies, v))
      && (forall k :: |s.completions| <= k < |Run(s, actions).completions| ==>
            NotBefore(Run(s, actions).completions[k].policies, v))
  }

  /** A late load puts old policies where the next cached read finds them. */
  lemma LateLoadPoisons(s: State, v: nat, p: int)
    requires p in s.loads && s.loads[p].fetched.Some? && !NotBefore(s.loads[p].fetched.value, v)
    ensures var hits := Run(s, [Complete(p), ReadSync]).hits;
            |hits| == |s.hits| + 1 && !NotBefore(hits[|s.hits|].policies, v)
    ensures !NeverStale(s, v)
  {
    var s1 := Step(s, Complete(p));
    var actions := [Complete(p), ReadSync];
    assert actions[1..] == [ReadSync] && [ReadSync][1..] == [];
    assert Run(s, actions) == Run(s1, [ReadSync]) == Run(Hit(s1), []) == Hit(s1);
    assert Run(s, actions).hits[|s.hits|] == Event(s.loads[p].fetched.value, s.clock);
  }

  /**
   After an invalidation, no later read is answered with policies older than the write, from
   the cache or by its own load, exactly when no load in flight at that moment was already
   given older rows.
   */
  lemma InvalidationExact(s: State, v: nat)
    requires v <= s.version
    ensures NeverStale(Step(s, Invalidate), v) <==> NoOldRows(s, v)
  {
    var s1 := Step(s, Invalidate);
    if NoOldRows(s, v) {
      forall actions
        ensures forall k :: |s1.hits| <= k < |Run(s1, actions).hits| ==> NotBefore(Run(s1, actions).hits[k].policies, v)
        ensures forall k :: |s1.completions| <= k < |Run(s1, actions).completions| ==>
                  NotBefore(Run(s1, actions).completions[k].policies, v)
      {
        RunFresh(s1, v, |s1.hits|, |s1.completions|, actions);
      }
    } else {
      var p :| p in s.loads && s.loads[p].fetched.Some? && !NotBefore(s.loads[p].fetched.value, v);
      LateLoadPoisons(s1, v, p);
    }
  }

  /** In particular when every load still in flight at the invalidation began after the write. */
  lemma NoOldLoadNoStaleRead(before: seq<Action>, v: nat)
    requires v <= Run(START, before).version
    requires forall p :: p in Run(START, before).loads ==> Run(START, before).loads[p].since >= v
    ensures NeverStale(Step(Run(START, before), Invalidate), v)
  {
    CachedAnswersAreRecent(START, before);
    InvalidationExact(Run(START, before), v);
  }
}
