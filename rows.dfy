/** The rows the storage layer hands back, and the small vocabulary shared by
    the loaders and the resolvers. */
module Rows {

  /** A record identifier. Only equality is ever used on it. */
  type Key(==, !new)

  datatype Option<+T> = None | Some(value: T)

  /** One row of the subscription join table: `subscriberId` subscribes to `authorId`. */
  datatype Subscription = Subscription(subscriberId: Key, authorId: Key)

  /** A user row as returned by a user query. The two relation lists are
      present exactly when the query asked to include them. */
  datatype User = User(
    id: Key,
    name: string,
    userSubscribedTo: Option<seq<Subscription>>,
    subscribedToUser: Option<seq<Subscription>>)

  datatype Post = Post(id: Key, title: string, content: string, authorId: Key)

  datatype Profile = Profile(id: Key, isMale: bool, yearOfBirth: int, userId: Key, memberTypeId: Key)

  datatype MemberType = MemberType(id: Key, postsLimitPerMonth: int)

  /** The `include` options of a user query: which relation lists to join. */
  datatype Include = Include(userSubscribedTo: bool, subscribedToUser: bool)

  const NoJoins := Include(false, false)

  // Key projections, used to index rows.
  function UserId(u: User): Key { u.id }
  function PostAuthorId(p: Post): Key { p.authorId }
  function ProfileUserId(p: Profile): Key { p.userId }
  function MemberTypeId(m: MemberType): Key { m.id }
  function SubscriberId(s: Subscription): Key { s.subscriberId }
  function AuthorId(s: Subscription): Key { s.authorId }

  /** The author ids of a list of subscription rows, in order. */
  function AuthorIds(subs: seq<Subscription>): (r: seq<Key>)
    ensures |r| == |subs| && forall i | 0 <= i < |subs| :: r[i] == subs[i].authorId
  {
    seq(|subs|, i requires 0 <= i < |subs| => subs[i].authorId)
  }

  /** The subscriber ids of a list of subscription rows, in order. */
  function SubscriberIds(subs: seq<Subscription>): (r: seq<Key>)
    ensures |r| == |subs| && forall i | 0 <= i < |subs| :: r[i] == subs[i].subscriberId
  {
    seq(|subs|, i requires 0 <= i < |subs| => subs[i].subscriberId)
  }

  /** The ids of the users `u` subscribes to, read from its joined
      `userSubscribedTo` rows; a row fetched without that join contributes none. */
  function JoinedAuthorIds(u: User): (r: seq<Key>)
  {
    match u.userSubscribedTo
    case Some(subs) => AuthorIds(subs)
    case None => []
  }

  /** The ids of the users subscribed to `u`, read from its joined
      `subscribedToUser` rows; a row fetched without that join contributes none. */
  function JoinedSubscriberIds(u: User): (r: seq<Key>)
  {
    match u.subscribedToUser
    case Some(subs) => SubscriberIds(subs)
    case None => []
  }

  /** True when no key occurs twice. */
  ghost predicate Distinct(keys: seq<Key>)
  {
    forall i, j | 0 <= i < |keys| && 0 <= j < |keys| && i != j :: keys[i] != keys[j]
  }
}
