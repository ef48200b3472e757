# notify-graphql: batched loaders and join-aware priming

This project models the part of the notify-graphql GraphQL server that keeps
nested queries from turning into one storage query per parent row (the
"N+1" pattern). It proves what that code computes.

- **Batch functions** (`src/routes/graphql/loaders.ts`). One per loader.
  Five of the six receive a batch of keys and the rows their storage query
  returned, build a dictionary from the rows in one loop, then answer the
  keys position by position. `batchGetMemberTypes` returns its query's rows
  as they come (see Findings).
- **The `users` root resolver** (`src/routes/graphql/schema.ts`). It decides
  from the selected fields whether to join the two subscription relations
  into the root fetch. It fetches every user, then primes the user loader
  with every row. It also primes each edge loader with the joined neighbour
  ids, but only when that edge was joined.
- **Relation resolvers** (`src/routes/graphql/schema.ts`). Each does exactly
  one hop through the loaders: a single cache lookup by the parent's key, or
  a neighbour-id list mapped through the user loader.

Modules:

- `Rows` (`rows.dfy`): the row types and an abstract `Key` with equality.
- `Dictionary` (`dictionary.dfy`): the keyed views "last row with key k" and
  "all rows with key k, in order", and the two dictionary-building loops.
- `Storage` (`storage.dfy`): the storage engine at its boundary. It is a
  `Store` of tables, and each query returns the matching rows in table
  order; a joined relation list holds the matching subscription rows in
  table order.
- `Loaders` (`loaders.dfy`): the six batch functions, and per loader the
  answer an uncached key resolves to (`UserAnswer` and so on).
- `Schema` (`schema.dfy`):
  - the eager-join decision;
  - a `Loader` class (an answer function plus a mutable cache map);
  - the `RequestLoaders` class, holding the six loaders, with the priming
    loop, the root resolver and the relation resolvers.

`RequestLoaders.Valid()` is the invariant the root resolver preserves:

- each loader answers misses with its batch's per-key answer;
- every cached value agrees with that answer (user rows compared with their
  relation lists dropped).

Since every resolver reads through the loaders, with `Valid()` each
resolver's result follows from the store alone. The resolver contracts state
that result.

## Model

| member | source | states |
|---|---|---|
| Rows.AuthorIds | src/routes/graphql/loaders.ts:58 | one author id per subscription row, in the same order |
| Rows.SubscriberIds | src/routes/graphql/loaders.ts:77 | one subscriber id per subscription row, in the same order |
| Dictionary.LastWith | src/routes/graphql/loaders.ts:39-43 | None exactly when no fetched row has key k; otherwise a fetched row with key k, namely the row at `LastIndexWith`, the last position with that key |
| Dictionary.LastIndexWith | src/routes/graphql/loaders.ts:39-41 | None exactly when no row has the key; otherwise an in-range position with that key and no later position with it (last write wins) |
| Dictionary.Select | src/routes/graphql/loaders.ts:20-26 | every selected row is a fetched row with key k, and every fetched row with key k is selected |
| Dictionary.SelectAmong | src/routes/graphql/loaders.ts:14-18 | the `in: keys` filter: every returned row is a stored row whose key is among the keys, and every such stored row is returned |
| Dictionary.BuildIndex | src/routes/graphql/loaders.ts:39-41 | after the loop the dictionary holds exactly the keys of the fetched rows, each mapped to the value of the last row with that key |
| Dictionary.GroupByKey | src/routes/graphql/loaders.ts:20-26 | after the create-then-push loop the dictionary holds exactly the keys that have rows, each mapped to that key's rows in fetch order |
| Dictionary.SelectSnoc | src/routes/graphql/loaders.ts:25 | pushing a row extends the group of its own key and of no other |
| Dictionary.GroupedSnoc | src/routes/graphql/loaders.ts:22-25 | one turn of the grouping loop turns the groups of the first rows into the groups of one more row |
| Dictionary.LastWithSnoc | src/routes/graphql/loaders.ts:40 | assigning a row makes it its key's entry and leaves every other key's entry unchanged |
| Dictionary.GroupSizesConserveRows | src/routes/graphql/loaders.ts:21-26 | over distinct keys, the group sizes add up to the number of rows whose key is among the keys |
| Dictionary.SelectAmongNothing | src/routes/graphql/loaders.ts:14-18 | a query over no keys returns no rows |
| Dictionary.SelectAmongSplit | src/routes/graphql/loaders.ts:14-18 | for k not in rest, the rows selected for `[k] + rest` are, as a multiset, k's rows together with the rows selected for rest, so their numbers add up |
| Dictionary.LastWithAmong | src/routes/graphql/loaders.ts:33-41 | filtering the table to the batch's keys does not change which row is last for any batch key |
| Dictionary.SelectAmongThenSelect | src/routes/graphql/loaders.ts:14-26 | filtering the table to the batch's keys does not change the group of any batch key |
| Loaders.AlignOption | src/routes/graphql/loaders.ts:43 | one answer per key, in key order: the dictionary's value for the key, or null when the key has no entry |
| Loaders.AlignOr | src/routes/graphql/loaders.ts:62 | one answer per key, in key order: the dictionary's value for the key, or the fallback when the key has no entry |
| Loaders.AlignGroups | src/routes/graphql/loaders.ts:28 | one answer per key, in key order: the key's group when it is non-empty, otherwise null |
| Loaders.PostsOf | src/routes/graphql/loaders.ts:28 | null exactly when no fetched post has that author; otherwise that author's posts in fetch order (`Select`), never an empty list |
| Loaders.BatchGetUsers | src/routes/graphql/loaders.ts:31-44 | one answer per key; position i is the last fetched user with id `keys[i]`, or null; equal keys get equal answers |
| Loaders.BatchGetPosts | src/routes/graphql/loaders.ts:13-29 | one answer per key; position i is `keys[i]`'s posts in fetch order, or null, never an empty list; equal keys get equal answers; over distinct keys the answers hold every fetched post once |
| Loaders.PostsConserved | src/routes/graphql/loaders.ts:20-28 | over distinct keys, the answers hold as many posts as the fetched rows whose author is among the keys |
| Loaders.TotalPostsCount | src/routes/graphql/loaders.ts:28 | the answers hold, key by key, the size of that key's group |
| Loaders.PostInOwnGroupOnly | src/routes/graphql/loaders.ts:21-26 | each fetched post appears in its own author's answer and in no other author's answer |
| Loaders.BatchGetUserSubscribedTo | src/routes/graphql/loaders.ts:46-63 | one answer per key; position i is the author ids of `keys[i]`'s joined subscriptions in join order, or [] when its row is absent (never null); equal keys get equal answers |
| Loaders.BatchGetSubscribedToUser | src/routes/graphql/loaders.ts:65-82 | one answer per key; position i is the subscriber ids of `keys[i]`'s joined subscribers in join order, or [] when absent; equal keys get equal answers |
| Loaders.BatchGetProfiles | src/routes/graphql/loaders.ts:84-97 | one answer per key; position i is the last fetched profile with `userId == keys[i]`, or null; equal keys get equal answers |
| Loaders.BatchGetMemberTypes | src/routes/graphql/loaders.ts:5-11 | as written: every answer is a stored member type whose id is among the keys, and every such stored member type is an answer; nothing aligns them to the keys or pads missing keys |
| Loaders.MemberTypesOutOfOrder | src/routes/graphql/loaders.ts:5-11 | with member type b stored before a, the batch [a, b] as written answers a's position with b's row |
| Loaders.MemberTypesMissingKey | src/routes/graphql/loaders.ts:5-11 | a key with no stored member type leaves the batch as written shorter than its key list |
| Loaders.BatchGetMemberTypesAligned | src/routes/graphql/loaders.ts:5-11 | the corrected batch: one answer per key; position i is the last fetched member type with id `keys[i]`, or null |
| Loaders.BatchAnswersDependOnKeyOnly | src/routes/graphql/loaders.ts:13-97 | for the users, posts, profiles and both edge batches, and for the corrected member-type lookup: the answer for k, computed from the rows of its filtered query, equals the answer over the whole table, whatever else is in the batch |
| Loaders.UserSubscribedToAnswerIsJoin | src/routes/graphql/loaders.ts:46-63 | the `userSubscribedTo` answer for a stored user is the authors it subscribes to, in subscription order; for any other key it is [] |
| Loaders.SubscribedToUserAnswerIsJoin | src/routes/graphql/loaders.ts:65-82 | the `subscribedToUser` answer for a stored user is its subscribers, in subscription order; for any other key it is [] |
| Schema.IncludeOf | src/routes/graphql/schema.ts:164-165 | each join flag is set exactly when the simplified field map has an entry under that relation field's name |
| Schema.IncludeIgnoresOtherFields | src/routes/graphql/schema.ts:164-165 | adding or removing any other field leaves both flags unchanged |
| Schema.PrimedByMeetsPrimedWith | src/routes/graphql/schema.ts:174-190 | priming entries in order, under either prime rule, adds exactly the entry keys, removes nothing, and leaves each key with its old value or a value primed for it |
| Schema.PrimedWithAppend | src/routes/graphql/schema.ts:174-190 | priming with one list of entries and then another is priming with their concatenation |
| Schema.PrimedEntries | src/routes/graphql/schema.ts:175 | after priming entries with distinct keys, every entry key is cached, and a key not cached before holds its entry's value |
| Schema.PrimedConsistent | src/routes/graphql/schema.ts:174-190 | if the old cache and every primed value agree with the loader's answer, so does the new cache |
| Schema.UserEntriesAgree | src/routes/graphql/schema.ts:167-175 | every row the root fetch primes is, relation lists aside, the row `usersLoader` would fetch for that id |
| Schema.SubscribedToEntriesAgree | src/routes/graphql/schema.ts:177-182 | every author list primed from the join is the list `userSubscribedToLoader` would fetch for that user |
| Schema.SubscribedToUserEntriesAgree | src/routes/graphql/schema.ts:184-189 | every subscriber list primed from the join is the list `subscribedToUserLoader` would fetch for that user |
| Schema.UsersPrimingAgrees | src/routes/graphql/schema.ts:174-175 | priming `usersLoader` from the root fetch keeps its cache consistent with the store |
| Schema.SubscribedToPrimingAgrees | src/routes/graphql/schema.ts:177-182 | priming `userSubscribedToLoader` from the join keeps its cache consistent with the store |
| Schema.SubscribedToUserPrimingAgrees | src/routes/graphql/schema.ts:184-189 | priming `subscribedToUserLoader` from the join keeps its cache consistent with the store |
| Schema.RootFetchPrimesUsers | src/routes/graphql/schema.ts:167-175 | after priming, every stored user is cached under its own id; a user not cached before holds the fetched row |
| Schema.RootFetchPrimesSubscribedTo | src/routes/graphql/schema.ts:177-182 | after priming, every stored user is cached; one not cached before holds the authors it subscribes to, in subscription order |
| Schema.RootFetchPrimesSubscribedToUser | src/routes/graphql/schema.ts:184-189 | after priming, every stored user is cached; one not cached before holds its subscribers, in subscription order |
| Schema.SubscriptionScenario | src/routes/graphql/schema.ts:157-193 | users u1, u2 with u1 subscribed to u2, and `userSubscribedTo` selected: the edge cache ends as exactly u1 to [u2] and u2 to [] |
| Schema.Loader.Load | src/routes/graphql/schema.ts:97 | `load(k)` resolves to k's cached value when k is cached, and otherwise to the batch's answer for k |
| Schema.Loader.LoadMany | src/routes/graphql/schema.ts:67 | `loadMany(keys)` resolves to one `load` per key, in key order |
| Schema.Loader.Prime | src/routes/graphql/schema.ts:175 | `prime(k, v)` caches v for an uncached key; for a cached key it keeps or replaces the value according to the library's rule |
| Schema.RequestLoaders.constructor | src/routes/graphql/loaders.ts:99-117 | six loaders, each over its own batch, all caches empty, and the invariant holds |
| Schema.RequestLoaders.PrimeUser | src/routes/graphql/schema.ts:175-189 | one turn of the loop: `usersLoader` primed with the row; each edge loader primed with the row's neighbour ids when its flag is set, untouched otherwise |
| Schema.RequestLoaders.PrimeAll | src/routes/graphql/schema.ts:174-190 | each cache is the old cache primed with the rows' entries in fetch order; an edge cache whose flag is off is untouched |
| Schema.RequestLoaders.ResolveUsers | src/routes/graphql/schema.ts:157-193 | returns exactly the fetched rows with the decided joins; every fetched user is cached, and so is its entry in each joined edge cache; the edge caches change only when their flag is set; the invariant is preserved |
| Schema.RequestLoaders.ResolveProfile | src/routes/graphql/schema.ts:94-99 | the last profile whose `userId` is the parent's id, or null |
| Schema.RequestLoaders.ResolvePosts | src/routes/graphql/schema.ts:100-105 | null exactly when the parent has no posts; otherwise all its posts in table order |
| Schema.RequestLoaders.ResolveMemberType | src/routes/graphql/schema.ts:131-136 | the last member type whose id is the parent profile's `memberTypeId`, or null |
| Schema.RequestLoaders.ResolveUserSubscribedTo | src/routes/graphql/schema.ts:106-113 | one hop: one user row per author the parent subscribes to, in subscription order, each the stored user for that id |
| Schema.RequestLoaders.ResolveSubscribedToUser | src/routes/graphql/schema.ts:114-121 | one hop: one user row per subscriber of the parent, in subscription order, each the stored user for that id |
| Schema.RequestLoaders.ResolveEdgeField | src/routes/graphql/schema.ts:58-121 | `User` declares both relation fields, `SubscribedToUser` only `userSubscribedTo`, `UserSubscribedTo` only `subscribedToUser`; a declared `userSubscribedTo` resolves as `ResolveUserSubscribedTo` and a declared `subscribedToUser` as `ResolveSubscribedToUser` |
| Schema.RequestLoaders.FieldNameSelectsLoader | src/routes/graphql/schema.ts:61-121 | a relation field resolves the same way on every type that declares it |

## Left out

- Batch scheduling, promises and async/await. A loader's `load` is modelled
  as "the cached value, else the batch's per-key answer". For the users,
  posts, profiles and both edge loaders, `Loaders.BatchAnswersDependOnKeyOnly`
  shows that this per-key answer is what any batch containing the key
  answers. The model does not record that an answered load is then cached.
- Schema.RequestLoaders.constructor: the member-type loader is built over
  the corrected batch (`Loaders.BatchGetMemberTypesAligned`'s per-key answer),
  not over `batchGetMemberTypes` as written. As written, a batch of several
  keys can hand a profile another member type's row, and a batch with a key
  that has no stored row returns too few answers, which the loader library
  rejects for the whole batch (see Findings).
- Schema.RequestLoaders.ResolveMemberType: states the answer of the corrected
  batch. As written it holds only when the key is cached or when its batch
  returns its rows in key order with none missing, for example a batch of one
  key that has a stored row.
- Schema.Loader.Prime: whether priming a cached key replaces its value is the
  loader library's rule, which is not part of this model. It is a parameter,
  and every property of priming is proved for both rules.
- The storage engine: each query returns the matching rows in table order.
  User ids are unique (`Storage.UniqueUserIds`).
- The Prisma schema is not part of this model. The relation directions are
  an assumption: `userSubscribedTo` rows have the user as subscriber, and
  `subscribedToUser` rows have the user as author.
- Loaders.BatchGetUserSubscribedTo and Loaders.BatchGetSubscribedToUser
  require that every fetched row carries its joined relation list. Their
  storage query always includes it.
- `parseResolveInfo` and `simplifyParsedResolveInfoFragmentWithType` are
  foreign library calls. Their result is an input: the top-level field map.
- Schema.IncludeOf: the flags test the field map's keys, which are response
  keys. So an aliased relation selection (`s: userSubscribedTo`) is not
  joined, and a field aliased under the other relation's name sets that
  relation's flag. Only the optimisation is lost: `Valid()` keeps every
  primed value equal to the batch answer, so resolved values do not change.
- The GraphQL executor walking the selection tree is not modelled.
- Single-row resolvers wrapped in try/catch, the mutations, the type and enum
  declarations, and the float fields `balance` and `discount` are not
  modelled.
- How often `getSchema`, and so `getLoaders`, runs is not part of this model
  (the server setup is not in these files). One `RequestLoaders` stands for
  one set of loaders.
- Keys are abstract values with equality. JavaScript record quirks such as
  prototype keys are not modelled.

## Findings

| source | as written | input that shows it | evidently intended | confidence | as-written member | corrected member |
|---|---|---|---|---|---|---|
| src/routes/graphql/loaders.ts:5-11 | `batchGetMemberTypes` returns the fetched rows in table order. It neither aligns them to `keys` nor pads missing keys with null. | Member types stored as [b, a] and the batch [a, b]: it answers a with b's row. A batch [a] with a not stored: it returns fewer answers than keys. | Position i holds the member type whose id is `keys[i]`, or null, as the other batch functions do | medium (not executed) | Loaders.MemberTypesOutOfOrder | Loaders.BatchGetMemberTypesAligned |
