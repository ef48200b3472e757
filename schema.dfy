/** The request's loader set, the `users` root resolver that decides the
    eager joins and primes the loaders from them, and the one-hop relation
    resolvers of the object types. */
module Schema {
  import opened Rows
  import opened Dictionary
  import opened Storage
  import opened Loaders

  // ---------------------------------------------------------------------------
  // Eager-join decision

  /** One entry of the simplified field map of the requested `User` selection.
      Only the map's keys are read; an entry's contents are not. */
  datatype ResolveTree = ResolveTree(name: string, alias: string)

  /** The `include` options of the root user query: a relation list is joined
      exactly when the simplified field map has an entry under that field's
      name. The map is keyed by response key, so an aliased selection of a
      relation field is not joined. */
  function IncludeOf(fields: map<string, ResolveTree>): (inc: Include)
    ensures inc.userSubscribedTo <==> "userSubscribedTo" in fields
    ensures inc.subscribedToUser <==> "subscribedToUser" in fields
  {
    Include("userSubscribedTo" in fields, "subscribedToUser" in fields)
  }

  /** Selecting or dropping any other field leaves the decision as it is. */
  lemma IncludeIgnoresOtherFields(fields: map<string, ResolveTree>, f: string, t: ResolveTree)
    requires f != "userSubscribedTo" && f != "subscribedToUser"
    ensures IncludeOf(fields[f := t]) == IncludeOf(fields)
    ensures IncludeOf(fields - {f}) == IncludeOf(fields)
  {
  }

  // ---------------------------------------------------------------------------
  // Priming a cache

  ghost function EntryKeys<V>(entries: seq<(Key, V)>): set<Key>
  {
    set i | 0 <= i < |entries| :: entries[i].0
  }

  /** `after` is `before` primed with `entries` in order: exactly the entry
      keys are added, nothing is removed, and each cached value is either the
      one cached before or a value primed for that key. Both a first-write-wins
      and a last-write-wins prime meet this. */
  ghost predicate PrimedWith<V>(before: map<Key, V>, after: map<Key, V>, entries: seq<(Key, V)>)
  {
    && after.Keys == before.Keys + EntryKeys(entries)
    && forall k | k in after :: (k in before && after[k] == before[k]) || (k, after[k]) in entries
  }

  /** Priming with `e1` and then with `e2` primes with `e1 + e2`. */
  lemma PrimedWithAppend<V>(a: map<Key, V>, b: map<Key, V>, c: map<Key, V>, e1: seq<(Key, V)>, e2: seq<(Key, V)>)
    requires PrimedWith(a, b, e1) && PrimedWith(b, c, e2)
    ensures PrimedWith(a, c, e1 + e2)
  {
    var e := e1 + e2;
    assert EntryKeys(e) == EntryKeys(e1) + EntryKeys(e2) by {
      forall k | k in EntryKeys(e) ensures k in EntryKeys(e1) + EntryKeys(e2) {
        var i :| 0 <= i < |e| && e[i].0 == k;
        if i < |e1| {
          assert e1[i] == e[i];
        } else {
          assert e2[i - |e1|] == e[i];
        }
      }
      forall k | k in EntryKeys(e1) + EntryKeys(e2) ensures k in EntryKeys(e) {
        if k in EntryKeys(e1) {
          var i :| 0 <= i < |e1| && e1[i].0 == k;
          assert e[i] == e1[i];
        } else {
          var i :| 0 <= i < |e2| && e2[i].0 == k;
          assert e[|e1| + i] == e2[i];
        }
      }
    }
  }

  /** A key that was not cached and is primed with one value only ends up
      holding that value, whichever prime rule applies. */
  lemma PrimedWithSingleValue<V>(before: map<Key, V>, after: map<Key, V>, entries: seq<(Key, V)>, i: nat)
    requires PrimedWith(before, after, entries)
    requires i < |entries| && entries[i].0 !in before
    requires forall j | 0 <= j < |entries| && entries[j].0 == entries[i].0 :: entries[j].1 == entries[i].1
    ensures entries[i].0 in after && after[entries[i].0] == entries[i].1
  {
    var k := entries[i].0;
    assert k in EntryKeys(entries);
    var j :| 0 <= j < |entries| && entries[j] == (k, after[k]);
  }

  /** If every value cached before, and every value primed, agrees with
      `answer` (seen through `view`), then so does every value cached after. */
  lemma PrimedConsistent<V, W>(before: map<Key, V>, after: map<Key, V>, entries: seq<(Key, V)>,
                                   view: V -> W, answer: Key -> W)
    requires PrimedWith(before, after, entries)
    requires forall k | k in before :: view(before[k]) == answer(k)
    requires forall i | 0 <= i < |entries| :: view(entries[i].1) == answer(entries[i].0)
    ensures forall k | k in after :: view(after[k]) == answer(k)
  {
    forall k | k in after ensures view(after[k]) == answer(k) {
      if !(k in before && after[k] == before[k]) {
        var i :| 0 <= i < |entries| && entries[i] == (k, after[k]);
      }
    }
  }

  /** The cache after `prime(k, v)`: a key not cached yet gets `v`; a cached
      key gets `v` only under the replacing rule. */
  function PrimeOne<V>(cache: map<Key, V>, k: Key, v: V, primeReplaces: bool): map<Key, V>
  {
    if primeReplaces || k !in cache then cache[k := v] else cache
  }

  /** The cache after priming `entries` in order, one `prime` per entry. */
  function PrimedBy<V>(cache: map<Key, V>, entries: seq<(Key, V)>, primeReplaces: bool): map<Key, V>
  {
    if entries == [] then cache
    else
      var last := entries[|entries| - 1];
      PrimeOne(PrimedBy(cache, entries[..|entries| - 1], primeReplaces), last.0, last.1, primeReplaces)
  }

  /** One more entry is one more `prime`. */
  lemma PrimedBySnoc<V>(cache: map<Key, V>, entries: seq<(Key, V)>, k: Key, v: V, primeReplaces: bool)
    ensures PrimedBy(cache, entries + [(k, v)], primeReplaces) == PrimeOne(PrimedBy(cache, entries, primeReplaces), k, v, primeReplaces)
  {
    assert (entries + [(k, v)])[..|entries|] == entries;
  }

  /** A single `prime`, under either rule, primes with its one entry. */
  lemma PrimeOneMeetsPrimedWith<V>(cache: map<Key, V>, k: Key, v: V, primeReplaces: bool)
    ensures PrimedWith(cache, PrimeOne(cache, k, v, primeReplaces), [(k, v)])
  {
    assert EntryKeys([(k, v)]) == {k} by {
      assert [(k, v)][0] == (k, v);
    }
  }

  /** Priming entries in order, under either rule, primes with those entries. */
  lemma {:induction false} PrimedByMeetsPrimedWith<V>(cache: map<Key, V>, entries: seq<(Key, V)>, primeReplaces: bool)
    ensures PrimedWith(cache, PrimedBy(cache, entries, primeReplaces), entries)
  {
    if entries == [] {
      assert EntryKeys(entries) == {};
    } else {
      var front, last := entries[..|entries| - 1], entries[|entries| - 1];
      assert entries == front + [last];
      PrimedByMeetsPrimedWith(cache, front, primeReplaces);
      PrimeOneMeetsPrimedWith(PrimedBy(cache, front, primeReplaces), last.0, last.1, primeReplaces);
      PrimedWithAppend(cache, PrimedBy(cache, front, primeReplaces), PrimedBy(cache, entries, primeReplaces), front, [last]);
    }
  }

  /** The entries the root resolver primes `usersLoader` with. */
  function UserEntries(users: seq<User>): (e: seq<(Key, Option<User>)>)
    ensures |e| == |users| && forall i | 0 <= i < |users| :: e[i] == (users[i].id, Some(users[i]))
  {
    seq(|users|, i requires 0 <= i < |users| => (users[i].id, Some(users[i])))
  }

  /** The entries the root resolver primes `userSubscribedToLoader` with. */
  function SubscribedToEntries(users: seq<User>): (e: seq<(Key, seq<Key>)>)
    ensures |e| == |users| && forall i | 0 <= i < |users| :: e[i] == (users[i].id, JoinedAuthorIds(users[i]))
  {
    seq(|users|, i requires 0 <= i < |users| => (users[i].id, JoinedAuthorIds(users[i])))
  }

  /** The entries the root resolver primes `subscribedToUserLoader` with. */
  function SubscribedToUserEntries(users: seq<User>): (e: seq<(Key, seq<Key>)>)
    ensures |e| == |users| && forall i | 0 <= i < |users| :: e[i] == (users[i].id, JoinedSubscriberIds(users[i]))
  {
    seq(|users|, i requires 0 <= i < |users| => (users[i].id, JoinedSubscriberIds(users[i])))
  }

  /** The entries for one more fetched row are the entries so far plus that row's. */
  lemma EntriesSnoc(users: seq<User>, i: nat)
    requires i < |users|
    ensures UserEntries(users[..i + 1]) == UserEntries(users[..i]) + [(users[i].id, Some(users[i]))]
    ensures SubscribedToEntries(users[..i + 1]) == SubscribedToEntries(users[..i]) + [(users[i].id, JoinedAuthorIds(users[i]))]
    ensures SubscribedToUserEntries(users[..i + 1]) ==
      SubscribedToUserEntries(users[..i]) + [(users[i].id, JoinedSubscriberIds(users[i]))]
  {
  }

  /** Priming with the entries of one more fetched row is one more `prime`
      on each cache. */
  lemma PrimedByNextUser(users: seq<User>, i: nat, cu: map<Key, Option<User>>, ou: bool,
                         cs: map<Key, seq<Key>>, os: bool, cr: map<Key, seq<Key>>, or: bool)
    requires i < |users|
    ensures PrimedBy(cu, UserEntries(users[..i + 1]), ou) ==
      PrimeOne(PrimedBy(cu, UserEntries(users[..i]), ou), users[i].id, Some(users[i]), ou)
    ensures PrimedBy(cs, SubscribedToEntries(users[..i + 1]), os) ==
      PrimeOne(PrimedBy(cs, SubscribedToEntries(users[..i]), os), users[i].id, JoinedAuthorIds(users[i]), os)
    ensures PrimedBy(cr, SubscribedToUserEntries(users[..i + 1]), or) ==
      PrimeOne(PrimedBy(cr, SubscribedToUserEntries(users[..i]), or), users[i].id, JoinedSubscriberIds(users[i]), or)
  {
    EntriesSnoc(users, i);
    PrimedBySnoc(cu, UserEntries(users[..i]), users[i].id, Some(users[i]), ou);
    PrimedBySnoc(cs, SubscribedToEntries(users[..i]), users[i].id, JoinedAuthorIds(users[i]), os);
    PrimedBySnoc(cr, SubscribedToUserEntries(users[..i]), users[i].id, JoinedSubscriberIds(users[i]), or);
  }

  /** A user row with its relation lists dropped. */
  function WithoutJoins(o: Option<User>): Option<User>
  {
    match o
    case Some(u) => Some(u.(userSubscribedTo := None, subscribedToUser := None))
    case None => None
  }

  /** Every user the root fetch primes is, joins aside, the row `usersLoader`
      would have fetched for its id. */
  lemma UserEntriesAgree(store: Store, inc: Include)
    requires UniqueUserIds(store)
    ensures var e := UserEntries(FindUsers(store, inc));
      forall i | 0 <= i < |e| :: WithoutJoins(e[i].1) == UserAnswer(store, e[i].0)
  {
    var f := FindUsers(store, inc);
    var g := FindUsers(store, NoJoins);
    forall i | 0 <= i < |f| ensures WithoutJoins(Some(f[i])) == UserAnswer(store, f[i].id) {
      assert g[i].id == f[i].id;
      var a := LastWith(g, UserId, f[i].id);
      var j :| 0 <= j < |g| && g[j] == a.value;
      assert store.users[j].id == store.users[i].id;
    }
  }

  /** Every neighbour list the root fetch primes into `userSubscribedToLoader`
      is the list that loader's batch would have answered for that user. */
  lemma SubscribedToEntriesAgree(store: Store, inc: Include)
    requires inc.userSubscribedTo
    ensures var e := SubscribedToEntries(FindUsers(store, inc));
      forall i | 0 <= i < |e| :: e[i].1 == UserSubscribedToAnswer(store, e[i].0)
  {
    var f := FindUsers(store, inc);
    forall i | 0 <= i < |f| ensures JoinedAuthorIds(f[i]) == UserSubscribedToAnswer(store, f[i].id) {
      UserSubscribedToAnswerIsJoin(store, f[i].id);
      assert store.users[i].id == f[i].id;
    }
  }

  /** Every neighbour list the root fetch primes into `subscribedToUserLoader`
      is the list that loader's batch would have answered for that user. */
  lemma SubscribedToUserEntriesAgree(store: Store, inc: Include)
    requires inc.subscribedToUser
    ensures var e := SubscribedToUserEntries(FindUsers(store, inc));
      forall i | 0 <= i < |e| :: e[i].1 == SubscribedToUserAnswer(store, e[i].0)
  {
    var f := FindUsers(store, inc);
    forall i | 0 <= i < |f| ensures JoinedSubscriberIds(f[i]) == SubscribedToUserAnswer(store, f[i].id) {
      SubscribedToUserAnswerIsJoin(store, f[i].id);
      assert store.users[i].id == f[i].id;
    }
  }

  /** Every cached user row agrees, joins aside, with the row the store holds. */
  ghost predicate UsersCacheAgrees(store: Store, cache: map<Key, Option<User>>)
  {
    forall k | k in cache :: WithoutJoins(cache[k]) == UserAnswer(store, k)
  }

  /** Every cached list of authors agrees with the subscription table. */
  ghost predicate SubscribedToCacheAgrees(store: Store, cache: map<Key, seq<Key>>)
  {
    forall k | k in cache :: cache[k] == UserSubscribedToAnswer(store, k)
  }

  /** Every cached list of subscribers agrees with the subscription table. */
  ghost predicate SubscribedToUserCacheAgrees(store: Store, cache: map<Key, seq<Key>>)
  {
    forall k | k in cache :: cache[k] == SubscribedToUserAnswer(store, k)
  }

  /** Priming `usersLoader` with the root fetch keeps its cache consistent with the store. */
  lemma UsersPrimingAgrees(store: Store, inc: Include, before: map<Key, Option<User>>, after: map<Key, Option<User>>)
    requires UniqueUserIds(store) && UsersCacheAgrees(store, before)
    requires PrimedWith(before, after, UserEntries(FindUsers(store, inc)))
    ensures UsersCacheAgrees(store, after)
  {
    UserEntriesAgree(store, inc);
    PrimedConsistent(before, after, UserEntries(FindUsers(store, inc)), WithoutJoins, k => UserAnswer(store, k));
  }

  /** Priming `userSubscribedToLoader` with the joined rows of the root fetch
      keeps its cache consistent with the store. */
  lemma SubscribedToPrimingAgrees(store: Store, inc: Include, before: map<Key, seq<Key>>, after: map<Key, seq<Key>>)
    requires inc.userSubscribedTo && SubscribedToCacheAgrees(store, before)
    requires PrimedWith(before, after, SubscribedToEntries(FindUsers(store, inc)))
    ensures SubscribedToCacheAgrees(store, after)
  {
    SubscribedToEntriesAgree(store, inc);
    PrimedConsistent(before, after, SubscribedToEntries(FindUsers(store, inc)),
                     (ids: seq<Key>) => ids, k => UserSubscribedToAnswer(store, k));
  }

  /** Priming `subscribedToUserLoader` with the joined rows of the root fetch
      keeps its cache consistent with the store. */
  lemma SubscribedToUserPrimingAgrees(store: Store, inc: Include, before: map<Key, seq<Key>>, after: map<Key, seq<Key>>)
    requires inc.subscribedToUser && SubscribedToUserCacheAgrees(store, before)
    requires PrimedWith(before, after, SubscribedToUserEntries(FindUsers(store, inc)))
    ensures SubscribedToUserCacheAgrees(store, after)
  {
    SubscribedToUserEntriesAgree(store, inc);
    PrimedConsistent(before, after, SubscribedToUserEntries(FindUsers(store, inc)),
                     (ids: seq<Key>) => ids, k => SubscribedToUserAnswer(store, k));
  }

  /** Priming with entries of distinct keys caches every entry key, and a key
      not cached before then holds its entry's value, whichever prime rule applies. */
  lemma PrimedEntries<V>(before: map<Key, V>, after: map<Key, V>, entries: seq<(Key, V)>)
    requires PrimedWith(before, after, entries)
    requires forall i, j | 0 <= i < |entries| && 0 <= j < |entries| && i != j :: entries[i].0 != entries[j].0
    ensures forall i | 0 <= i < |entries| :: entries[i].0 in after
    ensures forall i | 0 <= i < |entries| && entries[i].0 !in before :: after[entries[i].0] == entries[i].1
  {
    forall i | 0 <= i < |entries| ensures entries[i].0 in after {
      assert entries[i].0 in EntryKeys(entries);
    }
    forall i | 0 <= i < |entries| && entries[i].0 !in before ensures after[entries[i].0] == entries[i].1 {
      PrimedWithSingleValue(before, after, entries, i);
    }
  }

  /** After the root fetch primes `usersLoader`, under either prime rule,
      every stored user is cached under its own id, one not cached before holds
      the fetched row, and the cache still agrees with the store. */
  lemma RootFetchPrimesUsers(store: Store, inc: Include, before: map<Key, Option<User>>,
                             after: map<Key, Option<User>>)
    requires UniqueUserIds(store) && UsersCacheAgrees(store, before)
    requires PrimedWith(before, after, UserEntries(FindUsers(store, inc)))
    ensures UsersCacheAgrees(store, after)
    ensures forall i | 0 <= i < |store.users| :: store.users[i].id in after
    ensures (forall i | 0 <= i < |store.users| && store.users[i].id !in before ::
      after[store.users[i].id] == Some(Joined(store, store.users[i], inc)))
  {
    var e := UserEntries(FindUsers(store, inc));
    UsersPrimingAgrees(store, inc, before, after);
    PrimedEntries(before, after, e);
  }

  /** After the root fetch primes `userSubscribedToLoader`, under either prime
      rule, every stored user is cached, one not cached before holds the
      authors it subscribes to in subscription order, and the cache still
      agrees with the store. */
  lemma RootFetchPrimesSubscribedTo(store: Store, inc: Include, before: map<Key, seq<Key>>,
                                    after: map<Key, seq<Key>>)
    requires UniqueUserIds(store) && inc.userSubscribedTo && SubscribedToCacheAgrees(store, before)
    requires PrimedWith(before, after, SubscribedToEntries(FindUsers(store, inc)))
    ensures SubscribedToCacheAgrees(store, after)
    ensures forall i | 0 <= i < |store.users| :: store.users[i].id in after
    ensures (forall i | 0 <= i < |store.users| && store.users[i].id !in before ::
      after[store.users[i].id] == AuthorIds(Select(store.subscriptions, SubscriberId, store.users[i].id)))
  {
    var e := SubscribedToEntries(FindUsers(store, inc));
    SubscribedToPrimingAgrees(store, inc, before, after);
    PrimedEntries(before, after, e);
  }

  /** After the root fetch primes `subscribedToUserLoader`, under either prime
      rule, every stored user is cached, one not cached before holds its
      subscribers in subscription order, and the cache still agrees with the store. */
  lemma RootFetchPrimesSubscribedToUser(store: Store, inc: Include, before: map<Key, seq<Key>>,
                                        after: map<Key, seq<Key>>)
    requires UniqueUserIds(store) && inc.subscribedToUser && SubscribedToUserCacheAgrees(store, before)
    requires PrimedWith(before, after, SubscribedToUserEntries(FindUsers(store, inc)))
    ensures SubscribedToUserCacheAgrees(store, after)
    ensures forall i | 0 <= i < |store.users| :: store.users[i].id in after
    ensures (forall i | 0 <= i < |store.users| && store.users[i].id !in before ::
      after[store.users[i].id] == SubscriberIds(Select(store.subscriptions, AuthorId, store.users[i].id)))
  {
    var e := SubscribedToUserEntries(FindUsers(store, inc));
    SubscribedToUserPrimingAgrees(store, inc, before, after);
    PrimedEntries(before, after, e);
  }

  /** Two users, the first subscribed to the second, and a query selecting
      `userSubscribedTo`: priming the empty edge cache from the root fetch
      leaves exactly `u1 -> [u2]` and `u2 -> []`, so neither lookup reaches
      the edge batch. */
  lemma SubscriptionScenario(u1: Key, u2: Key, n1: string, n2: string, fields: map<string, ResolveTree>,
                             after: map<Key, seq<Key>>)
    requires u1 != u2 && "userSubscribedTo" in fields
    requires PrimedWith(map[], after, SubscribedToEntries(FindUsers(
      Store([UserRecord(u1, n1), UserRecord(u2, n2)], [Subscription(u1, u2)], [], [], []), IncludeOf(fields))))
    ensures after == map[u1 := [u2], u2 := []]
  {
    var store := Store([UserRecord(u1, n1), UserRecord(u2, n2)], [Subscription(u1, u2)], [], [], []);
    var e := SubscribedToEntries(FindUsers(store, IncludeOf(fields)));
    assert |e| == 2 && e[0].0 == u1 && e[1].0 == u2;
    PrimedEntries(map[], after, e);
    assert Select(store.subscriptions, SubscriberId, u1) == [Subscription(u1, u2)];
    assert Select(store.subscriptions, SubscriberId, u2) == [];
    assert after[u1] == [u2] by {
      assert AuthorIds([Subscription(u1, u2)])[0] == u2;
    }
    assert after[u2] == [];
    assert after.Keys == {u1, u2} by {
      assert EntryKeys(e) == {u1, u2};
    }
  }

  // The per-key answers of `Loaders` (`PostsAnswer` and so on) as function
  // values, named so that a loader's `answer` can be compared with one.
  function PostsBatch(store: Store): Key -> Option<seq<Post>> { k => PostsAnswer(store, k) }
  function MemberTypeBatch(store: Store): Key -> Option<MemberType> { k => MemberTypeAnswer(store, k) }
  function ProfileBatch(store: Store): Key -> Option<Profile> { k => ProfileAnswer(store, k) }
  function UserBatch(store: Store): Key -> Option<User> { k => UserAnswer(store, k) }
  function UserSubscribedToBatch(store: Store): Key -> seq<Key> { k => UserSubscribedToAnswer(store, k) }
  function SubscribedToUserBatch(store: Store): Key -> seq<Key> { k => SubscribedToUserAnswer(store, k) }

  // ---------------------------------------------------------------------------
  // Loaders

  /** The object types that carry relation-list fields. */
  datatype ObjectType = UserType | SubscribedToUserType | UserSubscribedToType

  /** One loader: a cache from key to resolved value, over a batch whose
      answer for a key depends on that key alone (`answer`). Whether priming
      an already cached key replaces its value is the loader library's rule,
      not this program's, so it is a parameter (`primeReplaces`). */
  class Loader<V(==)> {
    const answer: Key -> V
    const primeReplaces: bool
    var cache: map<Key, V>

    constructor (answer: Key -> V, primeReplaces: bool)
      ensures this.answer == answer && this.primeReplaces == primeReplaces && cache == map[]
    {
      this.answer := answer;
      this.primeReplaces := primeReplaces;
      cache := map[];
    }

    /** What `load(k)` resolves to: the cached value, else the batch's answer. */
    function Load(k: Key): (r: V)
      reads this
      ensures k in cache ==> r == cache[k]
      ensures k !in cache ==> r == answer(k)
    {
      if k in cache then cache[k] else answer(k)
    }

    /** What `loadMany(keys)` resolves to: one `load` per key, in order. */
    function LoadMany(keys: seq<Key>): (r: seq<V>)
      reads this
      ensures |r| == |keys| && forall i | 0 <= i < |keys| :: r[i] == Load(keys[i])
    {
      seq(|keys|, i reads this requires 0 <= i < |keys| => Load(keys[i]))
    }

    /** `prime(k, v)`: afterwards `k` is cached, with `v` unless it was cached
        already and the library keeps existing entries. */
    method Prime(k: Key, v: V)
      modifies this
      ensures cache == PrimeOne(old(cache), k, v, primeReplaces)
    {
      if primeReplaces || k !in cache {
        cache := cache[k := v];
      }
    }
  }

  /** The loader set of a request, one loader per entity and per relation edge. */
  class RequestLoaders {
    const store: Store
    const postsLoader: Loader<Option<seq<Post>>>
    const memberTypeLoader: Loader<Option<MemberType>>
    const profileLoader: Loader<Option<Profile>>
    const usersLoader: Loader<Option<User>>
    const userSubscribedToLoader: Loader<seq<Key>>
    const subscribedToUserLoader: Loader<seq<Key>>
    ghost const Repr: set<object>

    /** Each loader answers misses with its batch's per-key answer, and every
        value it has cached agrees with that answer (user rows joins aside). */
    ghost predicate Valid()
      reads this, Repr
    {
      && Repr == {postsLoader as object, memberTypeLoader as object, profileLoader as object,
                  usersLoader as object, userSubscribedToLoader as object, subscribedToUserLoader as object}
      && userSubscribedToLoader != subscribedToUserLoader
      && UniqueUserIds(store)
      && postsLoader.answer == PostsBatch(store)
      && memberTypeLoader.answer == MemberTypeBatch(store)
      && profileLoader.answer == ProfileBatch(store)
      && usersLoader.answer == UserBatch(store)
      && userSubscribedToLoader.answer == UserSubscribedToBatch(store)
      && subscribedToUserLoader.answer == SubscribedToUserBatch(store)
      && (forall k | k in postsLoader.cache :: postsLoader.cache[k] == PostsAnswer(store, k))
      && (forall k | k in memberTypeLoader.cache :: memberTypeLoader.cache[k] == MemberTypeAnswer(store, k))
      && (forall k | k in profileLoader.cache :: profileLoader.cache[k] == ProfileAnswer(store, k))
      && UsersCacheAgrees(store, usersLoader.cache)
      && SubscribedToCacheAgrees(store, userSubscribedToLoader.cache)
      && SubscribedToUserCacheAgrees(store, subscribedToUserLoader.cache)
    }

    /** `getLoaders`: fresh loaders with empty caches over the given store,
        all following the library's prime rule `primeReplaces`. */
    constructor (store: Store, primeReplaces: bool)
      requires UniqueUserIds(store)
      ensures Valid() && fresh(Repr) && this.store == store
      ensures postsLoader.cache == map[] && memberTypeLoader.cache == map[] && profileLoader.cache == map[]
      ensures usersLoader.cache == map[] && userSubscribedToLoader.cache == map[] && subscribedToUserLoader.cache == map[]
    {
      var posts := new Loader(PostsBatch(store), primeReplaces);
      var memberTypes := new Loader(MemberTypeBatch(store), primeReplaces);
      var profiles := new Loader(ProfileBatch(store), primeReplaces);
      var users := new Loader(UserBatch(store), primeReplaces);
      var subscribedTo := new Loader(UserSubscribedToBatch(store), primeReplaces);
      var subscribers := new Loader(SubscribedToUserBatch(store), primeReplaces);
      this.store := store;
      postsLoader, memberTypeLoader, profileLoader := posts, memberTypes, profiles;
      usersLoader, userSubscribedToLoader, subscribedToUserLoader := users, subscribedTo, subscribers;
      Repr := {posts as object, memberTypes as object, profiles as object,
               users as object, subscribedTo as object, subscribers as object};
    }

    /** One turn of the priming loop: primes `usersLoader` with the fetched
        row, and each edge loader with the row's joined neighbour ids when that
        join was requested. */
    method PrimeUser(user: User, inc: Include)
      requires inc.userSubscribedTo ==> user.userSubscribedTo.Some?
      requires inc.subscribedToUser ==> user.subscribedToUser.Some?
      requires userSubscribedToLoader != subscribedToUserLoader
      modifies usersLoader, userSubscribedToLoader, subscribedToUserLoader
      ensures usersLoader.cache == PrimeOne(old(usersLoader.cache), user.id, Some(user), usersLoader.primeReplaces)
      ensures userSubscribedToLoader.cache ==
        if inc.userSubscribedTo
        then PrimeOne(old(userSubscribedToLoader.cache), user.id, JoinedAuthorIds(user), userSubscribedToLoader.primeReplaces)
        else old(userSubscribedToLoader.cache)
      ensures subscribedToUserLoader.cache ==
        if inc.subscribedToUser
        then PrimeOne(old(subscribedToUserLoader.cache), user.id, JoinedSubscriberIds(user), subscribedToUserLoader.primeReplaces)
        else old(subscribedToUserLoader.cache)
    {
      usersLoader.Prime(user.id, Some(user));
      if inc.userSubscribedTo {
        userSubscribedToLoader.Prime(user.id, AuthorIds(user.userSubscribedTo.value));
      }
      if inc.subscribedToUser {
        subscribedToUserLoader.Prime(user.id, SubscriberIds(user.subscribedToUser.value));
      }
    }

    /** The priming loop of the `users` root resolver, over the fetched rows in order. */
    method PrimeAll(users: seq<User>, inc: Include)
      requires inc.userSubscribedTo ==> forall i | 0 <= i < |users| :: users[i].userSubscribedTo.Some?
      requires inc.subscribedToUser ==> forall i | 0 <= i < |users| :: users[i].subscribedToUser.Some?
      requires userSubscribedToLoader != subscribedToUserLoader
      modifies usersLoader, userSubscribedToLoader, subscribedToUserLoader
      ensures usersLoader.cache == PrimedBy(old(usersLoader.cache), UserEntries(users), usersLoader.primeReplaces)
      ensures userSubscribedToLoader.cache ==
        if inc.userSubscribedTo
        then PrimedBy(old(userSubscribedToLoader.cache), SubscribedToEntries(users), userSubscribedToLoader.primeReplaces)
        else old(userSubscribedToLoader.cache)
      ensures subscribedToUserLoader.cache ==
        if inc.subscribedToUser
        then PrimedBy(old(subscribedToUserLoader.cache), SubscribedToUserEntries(users), subscribedToUserLoader.primeReplaces)
        else old(subscribedToUserLoader.cache)
      ensures PrimedWith(old(usersLoader.cache), usersLoader.cache, UserEntries(users))
      ensures inc.userSubscribedTo ==>
        PrimedWith(old(userSubscribedToLoader.cache), userSubscribedToLoader.cache, SubscribedToEntries(users))
      ensures inc.subscribedToUser ==>
        PrimedWith(old(subscribedToUserLoader.cache), subscribedToUserLoader.cache, SubscribedToUserEntries(users))
    {
      for i := 0 to |users|
        invariant usersLoader.cache == PrimedBy(old(usersLoader.cache), UserEntries(users[..i]), usersLoader.primeReplaces)
        invariant userSubscribedToLoader.cache ==
          if inc.userSubscribedTo
          then PrimedBy(old(userSubscribedToLoader.cache), SubscribedToEntries(users[..i]), userSubscribedToLoader.primeReplaces)
          else old(userSubscribedToLoader.cache)
        invariant subscribedToUserLoader.cache ==
          if inc.subscribedToUser
          then PrimedBy(old(subscribedToUserLoader.cache), SubscribedToUserEntries(users[..i]), subscribedToUserLoader.primeReplaces)
          else old(subscribedToUserLoader.cache)
      {
        var user := users[i];
        PrimeUser(user, inc);
        PrimedByNextUser(users, i, old(usersLoader.cache), usersLoader.primeReplaces,
                         old(userSubscribedToLoader.cache), userSubscribedToLoader.primeReplaces,
                         old(subscribedToUserLoader.cache), subscribedToUserLoader.primeReplaces);
      }
      assert users[..|users|] == users;
      PrimedByMeetsPrimedWith(old(usersLoader.cache), UserEntries(users), usersLoader.primeReplaces);
      PrimedByMeetsPrimedWith(old(userSubscribedToLoader.cache), SubscribedToEntries(users), userSubscribedToLoader.primeReplaces);
      PrimedByMeetsPrimedWith(old(subscribedToUserLoader.cache), SubscribedToUserEntries(users), subscribedToUserLoader.primeReplaces);
    }

    /** The `users` root resolver: decides the joins from the selected fields,
        fetches every user with them, primes `usersLoader` with every fetched
        row and each edge loader with the rows' neighbour ids only when its
        join was requested, and returns the fetched rows as they are. Every
        fetched user is then cached under its own id, and every cache still
        agrees with the store. */
    method ResolveUsers(fields: map<string, ResolveTree>) returns (users: seq<User>)
      requires Valid()
      modifies usersLoader, userSubscribedToLoader, subscribedToUserLoader
      ensures Valid()
      ensures users == FindUsers(store, IncludeOf(fields))
      ensures PrimedWith(old(usersLoader.cache), usersLoader.cache, UserEntries(users))
      ensures IncludeOf(fields).userSubscribedTo ==>
        PrimedWith(old(userSubscribedToLoader.cache), userSubscribedToLoader.cache, SubscribedToEntries(users))
      ensures !IncludeOf(fields).userSubscribedTo ==> userSubscribedToLoader.cache == old(userSubscribedToLoader.cache)
      ensures IncludeOf(fields).subscribedToUser ==>
        PrimedWith(old(subscribedToUserLoader.cache), subscribedToUserLoader.cache, SubscribedToUserEntries(users))
      ensures !IncludeOf(fields).subscribedToUser ==> subscribedToUserLoader.cache == old(subscribedToUserLoader.cache)
      ensures forall i | 0 <= i < |users| :: users[i].id in usersLoader.cache
      ensures IncludeOf(fields).userSubscribedTo ==> forall i | 0 <= i < |users| :: users[i].id in userSubscribedToLoader.cache
      ensures IncludeOf(fields).subscribedToUser ==> forall i | 0 <= i < |users| :: users[i].id in subscribedToUserLoader.cache
    {
      var inc := IncludeOf(fields);
      users := FindUsers(store, inc);
      PrimeAll(users, inc);
      RootFetchPrimesUsers(store, inc, old(usersLoader.cache), usersLoader.cache);
      if inc.userSubscribedTo {
        RootFetchPrimesSubscribedTo(store, inc, old(userSubscribedToLoader.cache), userSubscribedToLoader.cache);
      }
      if inc.subscribedToUser {
        RootFetchPrimesSubscribedToUser(store, inc, old(subscribedToUserLoader.cache), subscribedToUserLoader.cache);
      }
    }

    // -------------------------------------------------------------------------
    // Relation resolvers

    /** `User.profile`: the profile whose `userId` is the parent's id (the last
        fetched one if several), or null. */
    function ResolveProfile(parent: User): (r: Option<Profile>)
      requires Valid()
      reads this, Repr
      ensures r == LastWith(store.profiles, ProfileUserId, parent.id)
    {
      profileLoader.Load(parent.id)
    }

    /** `User.posts`: the parent's posts in table order, or null when there are none. */
    function ResolvePosts(parent: User): (r: Option<seq<Post>>)
      requires Valid()
      reads this, Repr
      ensures r.None? <==> forall i | 0 <= i < |store.posts| :: store.posts[i].authorId != parent.id
      ensures r.Some? ==> r.value == Select(store.posts, PostAuthorId, parent.id)
    {
      postsLoader.Load(parent.id)
    }

    /** `Profile.memberType`: the member type whose id is the parent's
        `memberTypeId`, or null. */
    function ResolveMemberType(parent: Profile): (r: Option<MemberType>)
      requires Valid()
      reads this, Repr
      ensures r == LastWith(store.memberTypes, MemberTypeId, parent.memberTypeId)
    {
      memberTypeLoader.Load(parent.memberTypeId)
    }

    /** `userSubscribedTo` on `User` and on `SubscribedToUser`: one hop. The
        neighbour ids come from `userSubscribedToLoader` and are the authors
        the parent subscribes to, in subscription order; each is then loaded
        through `usersLoader`, in the same order. */
    function ResolveUserSubscribedTo(parent: User): (r: seq<Option<User>>)
      requires Valid()
      reads this, Repr
      ensures var ids := if HasUser(store, parent.id)
                         then AuthorIds(Select(store.subscriptions, SubscriberId, parent.id)) else [];
              |r| == |ids| && forall i | 0 <= i < |ids| :: WithoutJoins(r[i]) == UserAnswer(store, ids[i])
    {
      UserSubscribedToAnswerIsJoin(store, parent.id);
      usersLoader.LoadMany(userSubscribedToLoader.Load(parent.id))
    }

    /** `subscribedToUser` on `User` and on `UserSubscribedTo`: one hop. The
        neighbour ids come from `subscribedToUserLoader` and are the parent's
        subscribers, in subscription order; each is then loaded through
        `usersLoader`, in the same order. */
    function ResolveSubscribedToUser(parent: User): (r: seq<Option<User>>)
      requires Valid()
      reads this, Repr
      ensures var ids := if HasUser(store, parent.id)
                         then SubscriberIds(Select(store.subscriptions, AuthorId, parent.id)) else [];
              |r| == |ids| && forall i | 0 <= i < |ids| :: WithoutJoins(r[i]) == UserAnswer(store, ids[i])
    {
      SubscribedToUserAnswerIsJoin(store, parent.id);
      usersLoader.LoadMany(subscribedToUserLoader.Load(parent.id))
    }

    /** The relation-list field `field` of an object of type `t`, or None
        when `t` declares no such field: `User` declares both edges,
        `SubscribedToUser` only `userSubscribedTo`, `UserSubscribedTo` only
        `subscribedToUser`. */
    function ResolveEdgeField(t: ObjectType, field: string, parent: User): (r: Option<seq<Option<User>>>)
      requires Valid()
      reads this, Repr
      ensures r.Some? <==>
        ((field == "userSubscribedTo" && t != UserSubscribedToType) || (field == "subscribedToUser" && t != SubscribedToUserType))
      ensures r.Some? && field == "userSubscribedTo" ==> r.value == ResolveUserSubscribedTo(parent)
      ensures r.Some? && field == "subscribedToUser" ==> r.value == ResolveSubscribedToUser(parent)
    {
      if field == "userSubscribedTo" && t != UserSubscribedToType then Some(ResolveUserSubscribedTo(parent))
      else if field == "subscribedToUser" && t != SubscribedToUserType then Some(ResolveSubscribedToUser(parent))
      else None
    }

    /** The field name alone picks the edge loader: a relation field resolves
        the same way on every type that declares it. */
    lemma FieldNameSelectsLoader(t1: ObjectType, t2: ObjectType, field: string, parent: User)
      requires Valid()
      requires ResolveEdgeField(t1, field, parent).Some? && ResolveEdgeField(t2, field, parent).Some?
      ensures ResolveEdgeField(t1, field, parent) == ResolveEdgeField(t2, field, parent)
    {
    }
  }
}
