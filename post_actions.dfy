/** The post server actions: `fetchPosts` and `fetchPostsByUserId` read
    posts newest first with their author and their images in display order;
    `createPost` inserts a post together with one image per URL, numbered
    by position. */
module PostActions {

  import opened Common
  import opened Schema
  import opened Ordering
  import opened Store

  /** A post with its included `user` and `images` relations. */
  datatype PostWithImages = PostWithImages(post: Post, user: Option<User>, images: seq<PostImage>)

  /** `images: { orderBy: { order: "asc" } }`. */
  function OrderKey(im: PostImage): int { im.order }

  function ImageOfPost(postId: Id): PostImage -> bool
  {
    (im: PostImage) => im.postId == postId
  }

  function ByAuthor(userId: Id): Post -> bool
  {
    (p: Post) => p.userId == userId
  }

  /** The included images of one post: its image rows, in ascending order. */
  function ImagesOf(images: seq<PostImage>, postId: Id): (r: seq<PostImage>)
    ensures SortedBy(r, OrderKey)
    ensures forall i :: 0 <= i < |r| ==> r[i].postId == postId
    ensures multiset(r) == multiset(Filter(images, ImageOfPost(postId)))
  {
    var mine := Filter(images, ImageOfPost(postId));
    var r := SortBy(mine, OrderKey);
    assert forall i :: 0 <= i < |r| ==> r[i].postId == postId by {
      forall i | 0 <= i < |r| ensures r[i].postId == postId {
        assert r[i] in multiset(mine);
        var k :| 0 <= k < |mine| && mine[k] == r[i];
        assert ImageOfPost(postId)(mine[k]);
      }
    }
    r
  }

  function WithRelations(t: Tables): Post -> PostWithImages
  {
    (p: Post) => PostWithImages(p, FindUser(t.users, p.userId), ImagesOf(t.images, p.id))
  }

  function PostOf(e: PostWithImages): Post { e.post }

  /** `findMany` over `rows` with `orderBy: { createdAt: "desc" }` and the
      relations included. */
  function Listing(t: Tables, rows: seq<Post>): (r: seq<PostWithImages>)
    ensures |r| == |rows|
    ensures forall i, j :: 0 <= i < j < |r| ==> r[i].post.createdAt >= r[j].post.createdAt
    ensures multiset(MapSeq(PostOf, r)) == multiset(rows)
    ensures forall i :: 0 <= i < |r| ==> r[i] == WithRelations(t)(r[i].post)
  {
    var sorted := SortBy(rows, NewestFirstKey);
    var r := MapSeq(WithRelations(t), sorted);
    ProjectionKeepsOrder(sorted, NewestFirstKey, WithRelations(t), ListedNewestFirstKey);
    assert MapSeq(PostOf, r) == sorted;
    r
  }

  function ListedNewestFirstKey(e: PostWithImages): int { -e.post.createdAt }

  /** `fetchPosts`: every post. A store failure is rethrown as
      "Could not fetch posts". */
  function FetchPosts(t: Tables, fault: bool): (r: Result<seq<PostWithImages>>)
    ensures fault <==> r == Err("Could not fetch posts")
    ensures r.Ok? ==> r.value == Listing(t, t.posts)
    ensures r.Ok? ==> multiset(MapSeq(PostOf, r.value)) == multiset(t.posts)
  {
    if fault then Err("Could not fetch posts") else Ok(Listing(t, t.posts))
  }

  /** `fetchPostsByUserId`: the posts whose author is `userId`, in the same
      order and with the same relations as `fetchPosts`. */
  function FetchPostsByUserId(t: Tables, userId: Id, fault: bool): (r: Result<seq<PostWithImages>>)
    ensures fault <==> r == Err("Could not fetch posts")
    ensures r.Ok? ==> r.value == Listing(t, Filter(t.posts, ByAuthor(userId)))
    ensures r.Ok? ==> forall i :: 0 <= i < |r.value| ==> r.value[i].post.userId == userId
    ensures r.Ok? ==> forall p :: multiset(MapSeq(PostOf, r.value))[p] ==
                                  if p.userId == userId then multiset(t.posts)[p] else 0
  {
    if fault then Err("Could not fetch posts")
    else
      var rows := Filter(t.posts, ByAuthor(userId));
      FilterMultiset(t.posts, ByAuthor(userId));
      ListedAuthors(t, rows, userId);
      Ok(Listing(t, rows))
  }

  lemma ListedAuthors(t: Tables, rows: seq<Post>, userId: Id)
    requires forall i :: 0 <= i < |rows| ==> rows[i].userId == userId
    ensures var r := Listing(t, rows);
      forall i :: 0 <= i < |r| ==> r[i].post.userId == userId
  {
    var r := Listing(t, rows);
    forall i | 0 <= i < |r| ensures r[i].post.userId == userId {
      assert MapSeq(PostOf, r)[i] in multiset(rows);
    }
  }

  /** Post ids are keys, so `fetchPosts` lists every stored post exactly once. */
  lemma FetchedOnce(t: Tables, p: Post)
    requires WellKeyed(t) && p in t.posts
    ensures multiset(MapSeq(PostOf, FetchPosts(t, false).value))[p] == 1
  {
    assert Distinct(t.posts) by {
      forall i, j | 0 <= i < j < |t.posts| ensures t.posts[i] != t.posts[j] {
        assert PostIds(t.posts)[i] != PostIds(t.posts)[j];
      }
    }
    DistinctOnce(t.posts, p);
  }

  /** Every listed post carries exactly its own image rows, ascending by
      `order`, and its author row. */
  lemma ListedPostRelations(t: Tables, rows: seq<Post>, i: int)
    requires 0 <= i < |Listing(t, rows)|
    ensures var e := Listing(t, rows)[i];
      && SortedBy(e.images, OrderKey)
      && (forall im :: multiset(e.images)[im] == if im.postId == e.post.id then multiset(t.images)[im] else 0)
      && e.user == FindUser(t.users, e.post.userId)
  {
    var e := Listing(t, rows)[i];
    FilterMultiset(t.images, ImageOfPost(e.post.id));
  }

  /** The image rows `createPost` creates: one per URL, numbered by position. */
  function NewImages(postId: Id, imageUrls: seq<string>): seq<PostImage>
  {
    seq(|imageUrls|, i requires 0 <= i < |imageUrls| => PostImage(postId, imageUrls[i], i))
  }

  /** The orders of a freshly created post are exactly 0 .. n-1, each once,
      and image i holds the i-th URL. */
  lemma NewImagesNumbered(postId: Id, imageUrls: seq<string>)
    ensures var rows := NewImages(postId, imageUrls);
      && |rows| == |imageUrls|
      && (forall i :: 0 <= i < |rows| ==> rows[i].postId == postId && rows[i].imageUrl == imageUrls[i])
      && MapSeq(OrderKey, rows) == seq(|imageUrls|, i => i)
      && (forall k :: k in MapSeq(OrderKey, rows) <==> 0 <= k < |imageUrls|)
      && Distinct(MapSeq(OrderKey, rows))
  {
    var rows := NewImages(postId, imageUrls);
    var orders := MapSeq(OrderKey, rows);
    assert orders == seq(|imageUrls|, i => i);
    forall k | 0 <= k < |imageUrls| ensures k in orders {
      assert orders[k] == k;
    }
  }

  /** `createPost`: one post row authored by `userId` with the caption stored
      verbatim, and its image rows, inserted together. The store supplies the
      new id and the creation time; `fault` is a store exception, after which
      nothing has been written and "Could not create post" is thrown. The
      returned post includes the created images in creation order. */
  method CreatePost(db: Database, userId: Id, caption: string, imageUrls: seq<string>, newId: Id, now: int, fault: bool)
    returns (r: Result<PostWithImages>)
    requires db.Valid() && newId !in PostIds(db.posts)
    modifies db
    ensures db.Valid()
    ensures fault ==> r == Err("Could not create post") && db.Snapshot() == old(db.Snapshot())
    ensures !fault ==>
              var p := Post(newId, userId, Some(caption), None, now);
              && db.Snapshot() == old(db.Snapshot()).(posts := old(db.posts) + [p],
                                                      images := old(db.images) + NewImages(newId, imageUrls))
              && r == Ok(PostWithImages(p, FindUser(db.users, userId), NewImages(newId, imageUrls)))
  {
    if fault {
      return Err("Could not create post");
    }
    var p := Post(newId, userId, Some(caption), None, now);
    db.InsertPost(p);
    db.InsertImages(NewImages(newId, imageUrls));
    r := Ok(PostWithImages(p, FindUser(db.users, userId), NewImages(newId, imageUrls)));
  }

  /** After `createPost` on a post id that no image row mentions yet, a later
      fetch lists exactly the created images for that post, orders 0 .. n-1. */
  lemma {:induction false} CreatedImagesListed(before: seq<PostImage>, newId: Id, imageUrls: seq<string>)
    requires forall im :: im in before ==> im.postId != newId
    ensures ImagesOf(before + NewImages(newId, imageUrls), newId) == NewImages(newId, imageUrls)
    ensures MapSeq(OrderKey, ImagesOf(before + NewImages(newId, imageUrls), newId)) == seq(|imageUrls|, i => i)
  {
    var created := NewImages(newId, imageUrls);
    FilterAppend(before, created, ImageOfPost(newId));
    FilterMultiset(before, ImageOfPost(newId));
    assert Filter(before, ImageOfPost(newId)) == [];
    FilterAll(created, ImageOfPost(newId));
    assert Filter(before + created, ImageOfPost(newId)) == created;
    SortByOfSorted(created, OrderKey);
    NewImagesNumbered(newId, imageUrls);
  }
}
