/** The batch functions behind the request's loaders. Five of the six receive
    the key list of one batch and the rows their storage query returned,
    build a dictionary from the rows in one loop, and then answer the keys
    position by position with a lookup in that dictionary.
    `batchGetMemberTypes` instead returns its query's rows as they come. */
module Loaders {
  import opened Rows
  import opened Dictionary
  import opened Storage

  // ---------------------------------------------------------------------------
  // Alignment: `keys.map(key => ...)`

  /** `keys.map(key => m[key] ?? null)`. */
  function AlignOption<V>(keys: seq<Key>, m: map<Key, V>): (r: seq<Option<V>>)
    ensures |r| == |keys|
    ensures forall i | 0 <= i < |keys| :: r[i] == if keys[i] in m then Some(m[keys[i]]) else None
  {
    seq(|keys|, i requires 0 <= i < |keys| => if keys[i] in m then Some(m[keys[i]]) else None)
  }

  /** `keys.map(key => m[key] ?? missing)`. */
  function AlignOr<V>(keys: seq<Key>, m: map<Key, V>, missing: V): (r: seq<V>)
    ensures |r| == |keys|
    ensures forall i | 0 <= i < |keys| :: r[i] == if keys[i] in m then m[keys[i]] else missing
  {
    seq(|keys|, i requires 0 <= i < |keys| => if keys[i] in m then m[keys[i]] else missing)
  }

  /** `keys.map(key => g[key]?.length ? g[key] : null)`. */
  function AlignGroups<V>(keys: seq<Key>, g: map<Key, seq<V>>): (r: seq<Option<seq<V>>>)
    ensures |r| == |keys|
    ensures forall i | 0 <= i < |keys| ::
      r[i] == if keys[i] in g && |g[keys[i]]| > 0 then Some(g[keys[i]]) else None
  {
    seq(|keys|, i requires 0 <= i < |keys| =>
      if keys[i] in g && |g[keys[i]]| > 0 then Some(g[keys[i]]) else None)
  }

  // ---------------------------------------------------------------------------
  // Per-key answers

  /** The answer of the posts batch for one author: that author's posts in
      fetch order, or null when there are none. */
  function PostsOf(rows: seq<Post>, k: Key): (r: Option<seq<Post>>)
    ensures r.None? <==> forall i | 0 <= i < |rows| :: rows[i].authorId != k
    ensures r.Some? ==> r.value == Select(rows, PostAuthorId, k)
    ensures r != Some([])
  {
    var s := Select(rows, PostAuthorId, k);
    if s == [] then None
    else
      assert s[0] in rows && s[0].authorId == k;
      Some(s)
  }

  /** The answer of the `userSubscribedTo` batch for one user: the author ids
      of that user's joined subscription rows, or [] when the user's row is absent. */
  function SubscribedToOf(rows: seq<User>, k: Key): (r: seq<Key>)
  {
    match LastWith(rows, UserId, k)
    case Some(u) => JoinedAuthorIds(u)
    case None => []
  }

  /** The answer of the `subscribedToUser` batch for one user: the subscriber
      ids of that user's joined subscription rows, or [] when the user's row is absent. */
  function SubscribersOf(rows: seq<User>, k: Key): (r: seq<Key>)
  {
    match LastWith(rows, UserId, k)
    case Some(u) => JoinedSubscriberIds(u)
    case None => []
  }

  /** The number of posts in a list of post-batch answers. */
  function TotalPosts(answers: seq<Option<seq<Post>>>): (n: nat)
  {
    if answers == [] then 0
    else (match answers[0] case Some(s) => |s| case None => 0) + TotalPosts(answers[1..])
  }

  /** The post-batch answers for `keys`, position by position. */
  function PostsFor(rows: seq<Post>, keys: seq<Key>): (r: seq<Option<seq<Post>>>)
    ensures |r| == |keys| && forall i | 0 <= i < |keys| :: r[i] == PostsOf(rows, keys[i])
  {
    seq(|keys|, i requires 0 <= i < |keys| => PostsOf(rows, keys[i]))
  }

  // ---------------------------------------------------------------------------
  // The batch functions

  /** `batchGetUsers`: position i holds the last fetched user whose id is
      `keys[i]`, or null. */
  method BatchGetUsers(keys: seq<Key>, rows: seq<User>) returns (r: seq<Option<User>>)
    ensures |r| == |keys|
    ensures forall i | 0 <= i < |keys| :: r[i] == LastWith(rows, UserId, keys[i])
    ensures forall i, j | 0 <= i < |keys| && 0 <= j < |keys| && keys[i] == keys[j] :: r[i] == r[j]
  {
    var usersMap := BuildIndex(rows, UserId, (u: User) => u);
    r := AlignOption(keys, usersMap);
  }

  /** `batchGetPosts`: position i holds the fetched posts of author `keys[i]`
      in fetch order, or null when there are none; never an empty list. Over
      distinct keys the answers hold every fetched post of those authors once. */
  method BatchGetPosts(keys: seq<Key>, rows: seq<Post>) returns (r: seq<Option<seq<Post>>>)
    ensures |r| == |keys|
    ensures forall i | 0 <= i < |keys| :: r[i] == PostsOf(rows, keys[i])
    ensures forall i | 0 <= i < |keys| :: r[i] != Some([])
    ensures forall i, j | 0 <= i < |keys| && 0 <= j < |keys| && keys[i] == keys[j] :: r[i] == r[j]
    ensures Distinct(keys) ==> TotalPosts(r) == |SelectAmong(rows, PostAuthorId, keys)|
  {
    var groupedPosts := GroupByKey(rows, PostAuthorId);
    r := AlignGroups(keys, groupedPosts);
    assert r == PostsFor(rows, keys);
    if Distinct(keys) {
      PostsConserved(rows, keys);
    }
  }

  /** `batchGetUserSubscribedTo`, over user rows fetched with their
      `userSubscribedTo` rows joined: position i holds the author ids of
      `keys[i]`'s subscriptions in join order, or [] when its row is absent. */
  method BatchGetUserSubscribedTo(keys: seq<Key>, rows: seq<User>) returns (r: seq<seq<Key>>)
    requires forall i | 0 <= i < |rows| :: rows[i].userSubscribedTo.Some?
    ensures |r| == |keys|
    ensures forall i | 0 <= i < |keys| :: r[i] == SubscribedToOf(rows, keys[i])
    ensures forall i | 0 <= i < |keys| :: LastWith(rows, UserId, keys[i]).None? ==> r[i] == []
    ensures forall i, j | 0 <= i < |keys| && 0 <= j < |keys| && keys[i] == keys[j] :: r[i] == r[j]
  {
    var usersMap := BuildIndex(rows, UserId, JoinedAuthorIds);
    r := AlignOr(keys, usersMap, []);
  }

  /** `batchGetSubscribedToUser`, over user rows fetched with their
      `subscribedToUser` rows joined: position i holds the subscriber ids of
      `keys[i]`'s subscribers in join order, or [] when its row is absent. */
  method BatchGetSubscribedToUser(keys: seq<Key>, rows: seq<User>) returns (r: seq<seq<Key>>)
    requires forall i | 0 <= i < |rows| :: rows[i].subscribedToUser.Some?
    ensures |r| == |keys|
    ensures forall i | 0 <= i < |keys| :: r[i] == SubscribersOf(rows, keys[i])
    ensures forall i | 0 <= i < |keys| :: LastWith(rows, UserId, keys[i]).None? ==> r[i] == []
    ensures forall i, j | 0 <= i < |keys| && 0 <= j < |keys| && keys[i] == keys[j] :: r[i] == r[j]
  {
    var usersMap := BuildIndex(rows, UserId, JoinedSubscriberIds);
    r := AlignOr(keys, usersMap, []);
  }

  /** `batchGetProfiles`: position i holds the last fetched profile whose
      `userId` is `keys[i]`, or null. */
  method BatchGetProfiles(keys: seq<Key>, rows: seq<Profile>) returns (r: seq<Option<Profile>>)
    ensures |r| == |keys|
    ensures forall i | 0 <= i < |keys| :: r[i] == LastWith(rows, ProfileUserId, keys[i])
    ensures forall i, j | 0 <= i < |keys| && 0 <= j < |keys| && keys[i] == keys[j] :: r[i] == r[j]
  {
    var profilesMap := BuildIndex(rows, ProfileUserId, (p: Profile) => p);
    r := AlignOption(keys, profilesMap);
  }

  /** `batchGetMemberTypes` as written: it answers with the rows of its
      storage query as they come, the stored member types whose id is among
      `keys` in table order, neither aligned to `keys` nor padded for keys
      without a row. */
  function BatchGetMemberTypes(store: Store, keys: seq<Key>): (r: seq<MemberType>)
    ensures |r| <= |store.memberTypes|
    ensures forall i | 0 <= i < |r| :: r[i] in store.memberTypes && r[i].id in keys
    ensures forall j | 0 <= j < |store.memberTypes| && store.memberTypes[j].id in keys ::
      store.memberTypes[j] in r
  {
    FindMemberTypesIn(store, keys)
  }

  /** A store that holds member type `b` before `a` answers the batch [a, b]
      in table order, so the batch as written hands `a`'s loader slot the row
      of `b`. */
  lemma MemberTypesOutOfOrder(a: Key, b: Key, x: int, y: int)
    requires a != b
    ensures var r := BatchGetMemberTypes(Store([], [], [], [], [MemberType(b, y), MemberType(a, x)]), [a, b]);
            |r| == 2 && r[0].id == b && r[1].id == a
  {
    var store := Store([], [], [], [], [MemberType(b, y), MemberType(a, x)]);
    var rows := store.memberTypes;
    assert rows[..1] == [MemberType(b, y)];
    assert rows[..1][..0] == [];
    assert SelectAmong(rows[..1], MemberTypeId, [a, b]) == [MemberType(b, y)];
  }

  /** A key with no stored member type leaves the batch as written one
      answer short. */
  lemma MemberTypesMissingKey(a: Key)
    ensures |BatchGetMemberTypes(Store([], [], [], [], []), [a])| != |[a]|
  {
  }

  /** `batchGetMemberTypes` as evidently intended: position i holds the last
      fetched member type whose id is `keys[i]`, or null. */
  method BatchGetMemberTypesAligned(keys: seq<Key>, rows: seq<MemberType>) returns (r: seq<Option<MemberType>>)
    ensures |r| == |keys|
    ensures forall i | 0 <= i < |keys| :: r[i] == LastWith(rows, MemberTypeId, keys[i])
    ensures forall i, j | 0 <= i < |keys| && 0 <= j < |keys| && keys[i] == keys[j] :: r[i] == r[j]
  {
    var memberTypesMap := BuildIndex(rows, MemberTypeId, (m: MemberType) => m);
    r := AlignOption(keys, memberTypesMap);
  }

  // ---------------------------------------------------------------------------
  // Properties of the answers

  /** Over distinct keys, the post-batch answers hold exactly as many posts
      as the fetched rows whose author is among the keys. */
  lemma {:induction false} PostsConserved(rows: seq<Post>, keys: seq<Key>)
    requires Distinct(keys)
    ensures TotalPosts(PostsFor(rows, keys)) == |SelectAmong(rows, PostAuthorId, keys)|
  {
    TotalPostsCount(rows, keys);
    GroupSizesConserveRows(rows, PostAuthorId, keys);
  }

  /** The post-batch answers hold, key by key, the size of each key's group. */
  lemma {:induction false} TotalPostsCount(rows: seq<Post>, keys: seq<Key>)
    ensures TotalPosts(PostsFor(rows, keys)) == SelectedCount(rows, PostAuthorId, keys)
  {
    if keys != [] {
      assert PostsFor(rows, keys)[1..] == PostsFor(rows, keys[1..]);
      TotalPostsCount(rows, keys[1..]);
    }
  }

  /** Each post lands in the answer for its own author and in no other. */
  lemma PostInOwnGroupOnly(rows: seq<Post>, i: nat, k: Key)
    requires i < |rows|
    ensures PostsOf(rows, rows[i].authorId).Some? && rows[i] in PostsOf(rows, rows[i].authorId).value
    ensures k != rows[i].authorId && PostsOf(rows, k).Some? ==> rows[i] !in PostsOf(rows, k).value
  {
  }

  /** For the users, posts, profiles and both edge batches, and for the
      corrected member-type lookup, the answer for a key depends on that key
      alone: fed the rows of its storage query, the batch answers `k` as a
      batch of `k` alone would, namely with the answer computed over the whole
      table. */
  lemma BatchAnswersDependOnKeyOnly(store: Store, keys: seq<Key>, k: Key)
    requires k in keys
    ensures LastWith(FindUsersIn(store, keys, NoJoins), UserId, k) == UserAnswer(store, k)
    ensures SubscribedToOf(FindUsersIn(store, keys, Include(true, false)), k) == UserSubscribedToAnswer(store, k)
    ensures SubscribersOf(FindUsersIn(store, keys, Include(false, true)), k) == SubscribedToUserAnswer(store, k)
    ensures PostsOf(FindPostsIn(store, keys), k) == PostsAnswer(store, k)
    ensures LastWith(FindProfilesIn(store, keys), ProfileUserId, k) == ProfileAnswer(store, k)
    ensures LastWith(FindMemberTypesIn(store, keys), MemberTypeId, k) == MemberTypeAnswer(store, k)
  {
    LastWithAmong(FindUsers(store, NoJoins), UserId, keys, k);
    LastWithAmong(FindUsers(store, Include(true, false)), UserId, keys, k);
    LastWithAmong(FindUsers(store, Include(false, true)), UserId, keys, k);
    SelectAmongThenSelect(store.posts, PostAuthorId, keys, k);
    LastWithAmong(store.profiles, ProfileUserId, keys, k);
    LastWithAmong(store.memberTypes, MemberTypeId, keys, k);
  }

  // ---------------------------------------------------------------------------
  // What each loader resolves an uncached key to

  function UserAnswer(store: Store, k: Key): (r: Option<User>)
  {
    LastWith(FindUsers(store, NoJoins), UserId, k)
  }

  function UserSubscribedToAnswer(store: Store, k: Key): (r: seq<Key>)
  {
    SubscribedToOf(FindUsers(store, Include(true, false)), k)
  }

  function SubscribedToUserAnswer(store: Store, k: Key): (r: seq<Key>)
  {
    SubscribersOf(FindUsers(store, Include(false, true)), k)
  }

  function PostsAnswer(store: Store, k: Key): (r: Option<seq<Post>>)
  {
    PostsOf(store.posts, k)
  }

  function ProfileAnswer(store: Store, k: Key): (r: Option<Profile>)
  {
    LastWith(store.profiles, ProfileUserId, k)
  }

  function MemberTypeAnswer(store: Store, k: Key): (r: Option<MemberType>)
  {
    LastWith(store.memberTypes, MemberTypeId, k)
  }

  /** The `userSubscribedTo` answer for a stored user is the list of authors
      it subscribes to, in subscription-table order; for any other key it is []. */
  lemma UserSubscribedToAnswerIsJoin(store: Store, k: Key)
    ensures UserSubscribedToAnswer(store, k) ==
      if HasUser(store, k) then AuthorIds(Select(store.subscriptions, SubscriberId, k)) else []
  {
    var rows := FindUsers(store, Include(true, false));
    match LastWith(rows, UserId, k)
    case Some(u) =>
      var i :| 0 <= i < |rows| && rows[i] == u;
      assert store.users[i].id == k;
    case None =>
  }

  /** The `subscribedToUser` answer for a stored user is the list of its
      subscribers, in subscription-table order; for any other key it is []. */
  lemma SubscribedToUserAnswerIsJoin(store: Store, k: Key)
    ensures SubscribedToUserAnswer(store, k) ==
      if HasUser(store, k) then SubscriberIds(Select(store.subscriptions, AuthorId, k)) else []
  {
    var rows := FindUsers(store, Include(false, true));
    match LastWith(rows, UserId, k)
    case Some(u) =>
      var i :| 0 <= i < |rows| && rows[i] == u;
      assert store.users[i].id == k;
    case None =>
  }
}
