/** The `/api/posts` route: `POST` creates a caption-only post for the
    signed-in user, `GET` assembles the viewer-scoped feed. */
module PostsRoute {

  import opened Common
  import opened Schema
  import opened Ordering
  import opened Store

  datatype CreateResponse = Created(postId: Id) | CreateFailed(status: nat, error: string)

  /** `POST`: the session must carry a user id; the caption is stored with
      `caption || null`; the new post has no image URL. The store supplies
      the new id `newId` and the creation time `now`; `fault` is an
      exception from reading the body or from the insert. */
  method Create(db: Database, session: Session, caption: Option<string>, newId: Id, now: int, fault: bool)
    returns (resp: CreateResponse)
    requires db.Valid() && newId !in PostIds(db.posts)
    modifies db
    ensures db.Valid()
    ensures CallerId(session).None? ==>
              resp == CreateFailed(401, "Not authenticated") && db.Snapshot() == old(db.Snapshot())
    ensures CallerId(session).Some? && fault ==>
              resp == CreateFailed(500, "Failed to create post") && db.Snapshot() == old(db.Snapshot())
    ensures CallerId(session).Some? && !fault ==>
              && resp == Created(newId)
              && db.Snapshot() == old(db.Snapshot()).(posts := old(db.posts) + [CreatedRow(session, caption, newId, now)])
  {
    var caller := CallerId(session);
    if caller.None? {
      return CreateFailed(401, "Not authenticated");
    }
    if fault {
      return CreateFailed(500, "Failed to create post");
    }
    db.InsertPost(Post(newId, caller.value, OrNull(caption), None, now));
    resp := Created(newId);
  }

  /** The row `POST` inserts for a signed-in caller. */
  function CreatedRow(session: Session, caption: Option<string>, newId: Id, now: int): Post
    requires CallerId(session).Some?
  {
    Post(newId, CallerId(session).value, OrNull(caption), None, now)
  }

  /** The inserted row belongs to the caller, carries the returned id, has no
      image URL yet, and holds the caption verbatim when it is truthy and
      null otherwise. */
  lemma CreatedRowFields(session: Session, caption: Option<string>, newId: Id, now: int)
    requires CallerId(session).Some?
    ensures var p := CreatedRow(session, caption, newId, now);
      && p.id == newId && Some(p.userId) == session.value.id && p.userId != ""
      && p.createdAt == now && p.imageUrl == None
      && (Truthy(caption) ==> p.caption == caption)
      && (!Truthy(caption) ==> p.caption == None)
  {
  }

  /** The author relation, with only `name` and `image` selected. */
  datatype Author = Author(name: Option<string>, image: Option<string>)

  /** One element of the `GET` response. */
  datatype FeedEntry = FeedEntry(
    id: Id,
    caption: Option<string>,
    imageUrl: Option<string>,
    createdAt: int,
    author: Option<Author>,
    liked: bool,
    likes: int,
    comments: int)

  datatype FeedResponse = FeedOk(entries: seq<FeedEntry>) | FeedFailed(status: nat, error: string)

  function LikeOnPost(postId: Id): Like -> bool
  {
    (l: Like) => l.postId == postId
  }

  function CommentOnPost(postId: Id): Comment -> bool
  {
    (c: Comment) => c.postId == postId
  }

  /** The included `likes` relation with `where: { userId: viewer }`; a
      viewer id that is undefined puts no condition on `userId`. */
  function ViewerLike(viewer: Option<Id>, postId: Id): Like -> bool
  {
    (l: Like) => l.postId == postId && (viewer.None? || l.userId == viewer.value)
  }

  function AuthorOf(users: seq<User>, userId: Id): Option<Author>
  {
    match FindUser(users, userId)
    case None => None
    case Some(u) => Some(Author(u.name, u.image))
  }

  /** The `map` projection of one post row with its included relations. */
  function Entry(t: Tables, viewer: Option<Id>, p: Post): FeedEntry
  {
    FeedEntry(
      p.id, p.caption, p.imageUrl, p.createdAt, AuthorOf(t.users, p.userId),
      Count(t.likes, ViewerLike(viewer, p.id)) > 0,
      Count(t.likes, LikeOnPost(p.id)),
      Count(t.comments, CommentOnPost(p.id)))
  }

  function EntryOf(t: Tables, viewer: Option<Id>): Post -> FeedEntry
  {
    (p: Post) => Entry(t, viewer, p)
  }

  function EntryId(e: FeedEntry): Id { e.id }

  /** The feed for `viewer`: every post, newest first, projected. */
  function Feed(t: Tables, viewer: Option<Id>): (r: seq<FeedEntry>)
    ensures |r| == |t.posts|
    ensures forall i, j :: 0 <= i < j < |r| ==> r[i].createdAt >= r[j].createdAt
    ensures multiset(r) == multiset(MapSeq(EntryOf(t, viewer), t.posts))
  {
    var sorted := SortBy(t.posts, NewestFirstKey);
    SortByProjection(t.posts, NewestFirstKey, EntryOf(t, viewer));
    ProjectionKeepsOrder(sorted, NewestFirstKey, EntryOf(t, viewer), EntryNewestFirstKey);
    MapSeq(EntryOf(t, viewer), sorted)
  }

  function EntryNewestFirstKey(e: FeedEntry): int { -e.createdAt }

  /** `GET`: a session (with or without a user id) is required. `fault` is
      an exception from the store. */
  function Get(session: Session, t: Tables, fault: bool): (r: FeedResponse)
    ensures r == FeedFailed(401, "Unauthorized") <==> session.None?
    ensures session.Some? && fault ==> r == FeedFailed(500, "Internal Server Error")
    ensures session.Some? && !fault ==> r.FeedOk? && r.entries == Feed(t, session.value.id)
  {
    if session.None? then FeedFailed(401, "Unauthorized")
    else if fault then FeedFailed(500, "Internal Server Error")
    else FeedOk(Feed(t, session.value.id))
  }

  /** Every feed entry is the projection of some post row. */
  lemma FeedEntryFromPost(t: Tables, viewer: Option<Id>, i: int)
    requires 0 <= i < |Feed(t, viewer)|
    ensures exists p :: p in t.posts && Feed(t, viewer)[i] == Entry(t, viewer, p)
  {
    var r := Feed(t, viewer);
    var projected := MapSeq(EntryOf(t, viewer), t.posts);
    assert r[i] in multiset(projected);
    var k :| 0 <= k < |projected| && projected[k] == r[i];
    assert t.posts[k] in t.posts;
  }

  /** There is exactly one entry per post row: the entry ids are the post ids,
      counted with multiplicity. */
  lemma FeedOneEntryPerPost(t: Tables, viewer: Option<Id>)
    ensures multiset(MapSeq(EntryId, Feed(t, viewer))) == multiset(PostIds(t.posts))
  {
    var sorted := SortBy(t.posts, NewestFirstKey);
    SortByProjection(t.posts, NewestFirstKey, PostId);
    assert MapSeq(EntryId, Feed(t, viewer)) == MapSeq(PostId, sorted);
  }

  /** What an entry states about its post: the copied columns, the viewer's
      like flag (a like row of the viewer on the post exists; with an undefined
      viewer id, any like row on the post), and the two counts, which count
      every like and comment row of the post and do not depend on the viewer. */
  lemma {:induction false} EntryMeaning(t: Tables, viewer: Option<Id>, p: Post)
    ensures var e := Entry(t, viewer, p);
      && e.id == p.id && e.caption == p.caption && e.imageUrl == p.imageUrl
      && e.createdAt == p.createdAt
      && (e.author.Some? <==> exists u :: u in t.users && u.id == p.userId)
      && (e.author.Some? ==> e.author.value == Author(FindUser(t.users, p.userId).value.name, FindUser(t.users, p.userId).value.image))
      && (viewer.Some? ==> (e.liked <==> Like(viewer.value, p.id) in t.likes))
      && (viewer.None? ==> (e.liked <==> e.likes > 0))
      && (e.liked ==> e.likes >= 1)
      && e.likes == |Filter(t.likes, LikeOnPost(p.id))| >= 0
      && e.comments == |Filter(t.comments, CommentOnPost(p.id))| >= 0
      && forall other :: Entry(t, other, p).likes == e.likes && Entry(t, other, p).comments == e.comments
  {
    var e := Entry(t, viewer, p);
    CountPositive(t.likes, ViewerLike(viewer, p.id));
    CountPositive(t.likes, LikeOnPost(p.id));
    if viewer.Some? {
      if e.liked {
        var i :| 0 <= i < |t.likes| && ViewerLike(viewer, p.id)(t.likes[i]);
        assert t.likes[i] == Like(viewer.value, p.id);
      }
      if Like(viewer.value, p.id) in t.likes {
        var i :| 0 <= i < |t.likes| && t.likes[i] == Like(viewer.value, p.id);
        assert ViewerLike(viewer, p.id)(t.likes[i]);
      }
    }
    if e.liked {
      var i :| 0 <= i < |t.likes| && ViewerLike(viewer, p.id)(t.likes[i]);
      assert LikeOnPost(p.id)(t.likes[i]);
    }
  }

  /** The author of an entry is the name and image of the post's user row,
      which is unique because user ids are keys. */
  lemma EntryAuthor(t: Tables, viewer: Option<Id>, p: Post, u: User)
    requires WellKeyed(t) && u in t.users && u.id == p.userId
    ensures Entry(t, viewer, p).author == Some(Author(u.name, u.image))
  {
    FindUserUnique(t.users, u);
  }

  /** Post ids are keys, so no two feed entries share an id (the cards'
      `key` is the entry id). */
  lemma FeedIdsDistinct(t: Tables, viewer: Option<Id>)
    requires WellKeyed(t)
    ensures Distinct(MapSeq(EntryId, Feed(t, viewer)))
  {
    var ids := MapSeq(EntryId, Feed(t, viewer));
    FeedOneEntryPerPost(t, viewer);
    forall x ensures multiset(ids)[x] <= 1 {
      DistinctOnce(PostIds(t.posts), x);
    }
    OnceDistinct(ids);
  }

  /** A like is keyed by its (user, post) pair, so the included `likes` of a
      signed-in viewer hold at most one row. */
  lemma AtMostOneViewerLike(t: Tables, viewer: Id, postId: Id)
    requires WellKeyed(t)
    ensures Count(t.likes, ViewerLike(Some(viewer), postId)) <= 1
  {
    var mine := Filter(t.likes, ViewerLike(Some(viewer), postId));
    var like := Like(viewer, postId);
    forall k | 0 <= k < |mine| ensures mine[k] == like {
      assert ViewerLike(Some(viewer), postId)(mine[k]);
    }
    ConstantCount(mine, like);
    FilterMultiset(t.likes, ViewerLike(Some(viewer), postId));
    DistinctOnce(t.likes, like);
  }

  /** Of two posts created at t1 < t2, wherever they are stored, the feed
      lists the t2 post before the t1 post. */
  lemma LaterPostListedFirst(t: Tables, viewer: Option<Id>, early: Post, late: Post)
    requires early in t.posts && late in t.posts && early.createdAt < late.createdAt
    ensures exists i, j :: 0 <= i < j < |Feed(t, viewer)|
              && Feed(t, viewer)[i] == Entry(t, viewer, late) && Feed(t, viewer)[j] == Entry(t, viewer, early)
  {
    var e, l := Entry(t, viewer, early), Entry(t, viewer, late);
    var projected := MapSeq(EntryOf(t, viewer), t.posts);
    var a :| 0 <= a < |t.posts| && t.posts[a] == early;
    var b :| 0 <= b < |t.posts| && t.posts[b] == late;
    assert projected[a] == e && projected[b] == l;
    assert e.createdAt < l.createdAt;
    LaterEntryFirst(Feed(t, viewer), e, l);
  }

  lemma LaterEntryFirst(r: seq<FeedEntry>, early: FeedEntry, late: FeedEntry)
    requires forall i, j :: 0 <= i < j < |r| ==> r[i].createdAt >= r[j].createdAt
    requires early in multiset(r) && late in multiset(r) && early.createdAt < late.createdAt
    ensures exists i, j :: 0 <= i < j < |r| && r[i] == late && r[j] == early
  {
    var j :| 0 <= j < |r| && r[j] == early;
    var i :| 0 <= i < |r| && r[i] == late;
    assert r[i].createdAt > r[j].createdAt;
  }
}
