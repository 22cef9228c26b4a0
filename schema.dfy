/** The rows of the feed's tables and the session the identity provider
    hands to each request. One abstract `Post` record stands for the post
    row that both the feed route and the server actions read. */
module Schema {

  import opened Common

  type Id = string

  /** A directory user, as the authentication adapter stores one. */
  datatype User = User(
    id: Id,
    name: Option<string>,
    email: Option<string>,
    emailVerified: Option<int>,
    image: Option<string>)

  /** The optional one-to-one extension of a user. */
  datatype Profile = Profile(
    userId: Id,
    bio: Option<string>,
    location: Option<string>,
    avatarUrl: Option<string>)

  /** A post; `createdAt` is a millisecond timestamp. */
  datatype Post = Post(
    id: Id,
    userId: Id,
    caption: Option<string>,
    imageUrl: Option<string>,
    createdAt: int)

  /** One image attached to a post, with the display order it was given. */
  datatype PostImage = PostImage(postId: Id, imageUrl: string, order: int)

  /** The existence of the row is the fact "this user likes this post". */
  datatype Like = Like(userId: Id, postId: Id)

  /** Only the number of comments of a post is ever read. */
  datatype Comment = Comment(userId: Id, postId: Id)

  /** `session.user`; its `id` may be missing. */
  datatype SessionUser = SessionUser(id: Option<Id>)

  /** `session?.user`: no session, or a session with its user. */
  type Session = Option<SessionUser>

  /** `session?.user?.id` used as a condition: the caller's id when it is
      present and non-empty, nothing otherwise. */
  function CallerId(session: Session): (r: Option<Id>)
    ensures r.Some? <==> session.Some? && Truthy(session.value.id)
    ensures r.Some? ==> r == session.value.id && r.value != ""
  {
    if session.Some? && Truthy(session.value.id) then session.value.id else None
  }

  /** The whole store as a value. */
  datatype Tables = Tables(
    users: seq<User>,
    profiles: map<Id, Profile>,
    posts: seq<Post>,
    images: seq<PostImage>,
    likes: seq<Like>,
    comments: seq<Comment>)

  /** `orderBy: { createdAt: "desc" }` written as an ascending key. */
  function NewestFirstKey(p: Post): int { -p.createdAt }

  function PostId(p: Post): Id { p.id }

  function UserId(u: User): Id { u.id }

  function PostIds(posts: seq<Post>): seq<Id> { MapSeq(PostId, posts) }

  function UserIds(users: seq<User>): seq<Id> { MapSeq(UserId, users) }

  ghost predicate Distinct<T>(s: seq<T>)
  {
    forall i, j :: 0 <= i < j < |s| ==> s[i] != s[j]
  }

  /** A sequence without repeats holds each value at most once. */
  lemma {:induction false} DistinctOnce<T>(s: seq<T>, x: T)
    requires Distinct(s)
    ensures multiset(s)[x] <= 1
  {
    if s != [] {
      assert s == [s[0]] + s[1..];
      DistinctOnce(s[1..], x);
      if x == s[0] {
        assert x !in s[1..] by {
          forall k | 0 <= k < |s[1..]| ensures s[1..][k] != x {
            assert s[1..][k] == s[k + 1];
          }
        }
      }
    }
  }

  /** A sequence of copies of one value holds it as often as it is long. */
  lemma {:induction false} ConstantCount<T>(s: seq<T>, c: T)
    requires forall k :: 0 <= k < |s| ==> s[k] == c
    ensures multiset(s)[c] == |s|
  {
    if s != [] {
      assert s == [s[0]] + s[1..];
      ConstantCount(s[1..], c);
    }
  }

  /** A sequence holding each value at most once has no repeats. */
  lemma OnceDistinct<T>(s: seq<T>)
    requires forall x :: multiset(s)[x] <= 1
    ensures Distinct(s)
  {
    forall i, j | 0 <= i < j < |s| ensures s[i] != s[j] {
      assert s == s[..j] + s[j..];
      assert multiset(s) == multiset(s[..j]) + multiset(s[j..]);
      assert s[i] in multiset(s[..j]) && s[j] in multiset(s[j..]);
      assert multiset(s)[s[j]] >= multiset(s[..j])[s[j]] + 1;
    }
  }

  /** The store's keys: user ids and post ids are primary keys, a like is
      keyed by its (user, post) pair, and profiles are keyed by their user. */
  ghost predicate WellKeyed(t: Tables)
  {
    && Distinct(UserIds(t.users))
    && Distinct(PostIds(t.posts))
    && Distinct(t.likes)
    && (forall k :: k in t.profiles ==> t.profiles[k].userId == k)
  }

  /** The first user with id `id`, as `findUnique` on the primary key. */
  function FindUser(users: seq<User>, id: Id): (r: Option<User>)
    ensures r.Some? ==> r.value in users && r.value.id == id
    ensures r.None? ==> forall u :: u in users ==> u.id != id
  {
    if users == [] then None
    else if users[0].id == id then Some(users[0])
    else FindUser(users[1..], id)
  }

  /** With primary-key user ids, the lookup finds the one user carrying the id. */
  lemma FindUserUnique(users: seq<User>, u: User)
    requires Distinct(UserIds(users)) && u in users
    ensures FindUser(users, u.id) == Some(u)
  {
    var r := FindUser(users, u.id);
    var j :| 0 <= j < |users| && users[j] == u;
    var i :| 0 <= i < |users| && users[i] == r.value;
    assert UserIds(users)[i] == UserIds(users)[j];
  }
}
