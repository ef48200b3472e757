/** The storage collaborator at its boundary: the tables a request reads, and
    the few query shapes the core issues against them. Each query returns the
    matching rows in table order; a relation list joined into a user row holds
    the matching subscription rows in table order. */
module Storage {
  import opened Rows
  import opened Dictionary

  /** A stored user, without relation lists. */
  datatype UserRecord = UserRecord(id: Key, name: string)

  /** The tables, each in the order the store returns its rows. */
  datatype Store = Store(
    users: seq<UserRecord>,
    subscriptions: seq<Subscription>,
    posts: seq<Post>,
    profiles: seq<Profile>,
    memberTypes: seq<MemberType>)

  /** The user row for `rec` with the relation lists `inc` asks for:
      `userSubscribedTo` holds the subscription rows whose subscriber is the
      user, `subscribedToUser` those whose author is the user. */
  function Joined(store: Store, rec: UserRecord, inc: Include): User
  {
    User(
      rec.id,
      rec.name,
      if inc.userSubscribedTo then Some(Select(store.subscriptions, SubscriberId, rec.id)) else None,
      if inc.subscribedToUser then Some(Select(store.subscriptions, AuthorId, rec.id)) else None)
  }

  /** `user.findMany({ include })`: every user, in table order. */
  function FindUsers(store: Store, inc: Include): (r: seq<User>)
    ensures |r| == |store.users|
    ensures forall i | 0 <= i < |r| :: r[i] == Joined(store, store.users[i], inc)
  {
    seq(|store.users|, i requires 0 <= i < |store.users| => Joined(store, store.users[i], inc))
  }

  /** `user.findMany({ include, where: { id: { in: keys } } })`. */
  function FindUsersIn(store: Store, keys: seq<Key>, inc: Include): seq<User>
  {
    SelectAmong(FindUsers(store, inc), UserId, keys)
  }

  /** `post.findMany({ where: { authorId: { in: keys } } })`. */
  function FindPostsIn(store: Store, keys: seq<Key>): seq<Post>
  {
    SelectAmong(store.posts, PostAuthorId, keys)
  }

  /** `profile.findMany({ where: { userId: { in: keys } } })`. */
  function FindProfilesIn(store: Store, keys: seq<Key>): seq<Profile>
  {
    SelectAmong(store.profiles, ProfileUserId, keys)
  }

  /** `memberType.findMany({ where: { id: { in: keys } } })`. */
  function FindMemberTypesIn(store: Store, keys: seq<Key>): seq<MemberType>
  {
    SelectAmong(store.memberTypes, MemberTypeId, keys)
  }

  /** Some stored user has id `k`. */
  ghost predicate HasUser(store: Store, k: Key)
  {
    exists i | 0 <= i < |store.users| :: store.users[i].id == k
  }

  /** User ids are a primary key: no two stored users share one. */
  ghost predicate UniqueUserIds(store: Store)
  {
    forall i, j | 0 <= i < |store.users| && 0 <= j < |store.users| && i != j ::
      store.users[i].id != store.users[j].id
  }
}
