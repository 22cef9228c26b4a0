/** The feed component's client state: `loading` and the list of feed
    entries. After a like request succeeds, the entry of that post is flipped
    optimistically in place; the server's answer carries no new counts. */
module PostViewState {

  import opened Common
  import opened Schema
  import opened PostsRoute

  /** The `{ ...post, liked: !post.liked, likes: ... }` spread. */
  function Flipped(e: FeedEntry): FeedEntry
  {
    e.(liked := !e.liked, likes := if e.liked then e.likes - 1 else e.likes + 1)
  }

  function FlipIfId(postId: Id): FeedEntry -> FeedEntry
  {
    (e: FeedEntry) => if e.id == postId then Flipped(e) else e
  }

  /** The `setPosts` updater: only entries whose id is `postId` change; their
      `liked` is negated and `likes` moves one step in that direction; every
      other field, the length and the order are kept. */
  function ToggleLike(posts: seq<FeedEntry>, postId: Id): (r: seq<FeedEntry>)
    ensures |r| == |posts|
    ensures forall i :: 0 <= i < |posts| && posts[i].id != postId ==> r[i] == posts[i]
    ensures forall i :: 0 <= i < |posts| && posts[i].id == postId ==>
              && r[i].liked == !posts[i].liked
              && r[i].likes == (if posts[i].liked then posts[i].likes - 1 else posts[i].likes + 1)
              && r[i].(liked := posts[i].liked, likes := posts[i].likes) == posts[i]
  {
    MapSeq(FlipIfId(postId), posts)
  }

  /** Flipping the same post twice gives back the original list. */
  lemma ToggleLikeTwice(posts: seq<FeedEntry>, postId: Id)
    ensures ToggleLike(ToggleLike(posts, postId), postId) == posts
  {
    var once := ToggleLike(posts, postId);
    var twice := ToggleLike(once, postId);
    forall i | 0 <= i < |posts| ensures twice[i] == posts[i] {
      if posts[i].id == postId {
        assert once[i].id == postId;
      }
    }
  }

  /** What the server promises about an entry: counts are never negative, and
      an entry the viewer likes has at least that one like. */
  ghost predicate Consistent(e: FeedEntry)
  {
    e.likes >= 0 && e.comments >= 0 && (e.liked ==> e.likes >= 1)
  }

  /** The server's feed is consistent entry by entry. */
  lemma FeedIsConsistent(t: Tables, viewer: Option<Id>)
    ensures forall i :: 0 <= i < |Feed(t, viewer)| ==> Consistent(Feed(t, viewer)[i])
  {
    forall i | 0 <= i < |Feed(t, viewer)| ensures Consistent(Feed(t, viewer)[i]) {
      FeedEntryFromPost(t, viewer, i);
      var p :| p in t.posts && Feed(t, viewer)[i] == Entry(t, viewer, p);
      EntryMeaning(t, viewer, p);
    }
  }

  /** The optimistic flip keeps consistent entries consistent. */
  lemma ToggleLikeKeepsConsistent(posts: seq<FeedEntry>, postId: Id)
    requires forall i :: 0 <= i < |posts| ==> Consistent(posts[i])
    ensures forall i :: 0 <= i < |posts| ==> Consistent(ToggleLike(posts, postId)[i])
  {
  }

  /** What the component renders. */
  datatype Screen = Skeletons | NoPosts | Cards(entries: seq<FeedEntry>)

  class PostView {
    var loading: bool
    var posts: seq<FeedEntry>

    /** `useState(true)` and `useState([])`. */
    constructor ()
      ensures loading && posts == []
    {
      loading, posts := true, [];
    }

    /** Skeleton cards while loading, a notice for an empty list, otherwise
        one card per entry, in list order. */
    function Render(): (s: Screen)
      reads this
      ensures s == Skeletons <==> loading
      ensures s == NoPosts <==> !loading && posts == []
      ensures s.Cards? ==> s.entries == posts
    {
      if loading then Skeletons else if posts == [] then NoPosts else Cards(posts)
    }

    /** The initial fetch settles: `data` is the parsed body of an ok
        response, or nothing when the response is not ok or reading it
        throws. `loading` becomes false in every case. */
    method FetchSettled(data: Option<seq<FeedEntry>>)
      modifies this
      ensures !loading
      ensures posts == if data.Some? then data.value else old(posts)
    {
      if data.Some? {
        posts := data.value;
      }
      loading := false;
    }

    /** `handleLike`: `ok` is whether the like request answered ok; only then
        is the list updated. */
    method HandleLike(postId: Id, ok: bool)
      modifies this
      ensures loading == old(loading)
      ensures posts == if ok then ToggleLike(old(posts), postId) else old(posts)
    {
      if ok {
        posts := ToggleLike(posts, postId);
      }
    }
  }
}
