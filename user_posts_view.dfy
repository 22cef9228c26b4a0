/** The profile page's list of one user's posts: the posts loaded once via
    `fetchPostsByUserId`, a client-side set of liked post ids (never sent to
    the server), and a draft comment per post. */
module UserPostsViewState {

  import opened Common
  import opened Schema
  import opened PostActions

  /** `likedPosts` after `handleLike(id)`: membership of `id` is flipped and
      membership of every other id is kept. */
  function Flip(s: set<Id>, id: Id): (r: set<Id>)
    ensures id in r <==> id !in s
    ensures forall k :: k != id ==> (k in r <==> k in s)
  {
    if id in s then s - {id} else s + {id}
  }

  /** Liking a post twice gives back the original set. */
  lemma FlipTwice(s: set<Id>, id: Id)
    ensures Flip(Flip(s, id), id) == s
  {
    var once := Flip(s, id);
    var twice := Flip(once, id);
    forall k | k in twice ensures k in s {
      if k == id {
        assert id !in once;
      }
    }
  }

  datatype Heart = Filled | Outlined

  /** The like button's icon for a post. */
  function HeartOf(likedPosts: set<Id>, id: Id): (h: Heart)
    ensures h == Filled <==> id in likedPosts
  {
    if id in likedPosts then Filled else Outlined
  }

  /** Clicking a post's heart switches that post's icon and no other. */
  lemma HeartAfterLike(likedPosts: set<Id>, id: Id, other: Id)
    ensures HeartOf(Flip(likedPosts, id), id) != HeartOf(likedPosts, id)
    ensures other != id ==> HeartOf(Flip(likedPosts, id), other) == HeartOf(likedPosts, other)
  {
  }

  /** `{ ...prev, [id]: text }`: the draft of `id` becomes `text`, every other
      draft is kept. */
  function WithDraft(drafts: map<Id, string>, id: Id, text: string): (r: map<Id, string>)
    ensures r.Keys == drafts.Keys + {id}
    ensures r[id] == text
    ensures forall k :: k in drafts && k != id ==> r[k] == drafts[k]
  {
    drafts[id := text]
  }

  /** The text field's value: `commentText[id] || ''`. */
  function DraftValue(drafts: map<Id, string>, id: Id): (v: string)
    ensures id in drafts ==> v == drafts[id]
    ensures id !in drafts ==> v == ""
  {
    if id in drafts && drafts[id] != "" then drafts[id] else ""
  }

  /** The send button's `disabled={!commentText[id]}`: the draft is absent or
      empty. */
  predicate SendDisabled(drafts: map<Id, string>, id: Id)
  {
    id !in drafts || drafts[id] == ""
  }

  /** The button is disabled exactly when the field shows nothing. */
  lemma SendDisabledIffEmptyField(drafts: map<Id, string>, id: Id)
    ensures SendDisabled(drafts, id) <==> DraftValue(drafts, id) == ""
  {
  }

  /** After sending, the post's field is empty and its button disabled; the
      other posts' fields are as they were. */
  lemma {:induction false} DraftAfterComment(drafts: map<Id, string>, id: Id, other: Id)
    ensures DraftValue(WithDraft(drafts, id, ""), id) == ""
    ensures SendDisabled(WithDraft(drafts, id, ""), id)
    ensures other != id ==>
              && DraftValue(WithDraft(drafts, id, ""), other) == DraftValue(drafts, other)
              && (SendDisabled(WithDraft(drafts, id, ""), other) <==> SendDisabled(drafts, other))
  {
    var r := WithDraft(drafts, id, "");
    if other != id {
      assert other in r <==> other in drafts;
    }
  }

  /** After typing, the field shows what was typed, the button is enabled
      exactly when that is non-empty, and the other posts are unaffected. */
  lemma {:induction false} DraftAfterEdit(drafts: map<Id, string>, id: Id, text: string, other: Id)
    ensures DraftValue(WithDraft(drafts, id, text), id) == text
    ensures SendDisabled(WithDraft(drafts, id, text), id) <==> text == ""
    ensures other != id ==> DraftValue(WithDraft(drafts, id, text), other) == DraftValue(drafts, other)
  {
    var r := WithDraft(drafts, id, text);
    if other != id {
      assert other in r <==> other in drafts;
    }
  }

  /** What the component renders. */
  datatype Screen = NoPostsYet | PostCards(entries: seq<PostWithImages>)

  class UserPostsView {
    const userId: Id
    var posts: seq<PostWithImages>
    var likedPosts: set<Id>
    var commentText: map<Id, string>

    /** Every listed post is one of the page owner's. */
    ghost predicate Valid()
      reads this
    {
      forall i :: 0 <= i < |posts| ==> posts[i].post.userId == userId
    }

    /** The three `useState` initial values. */
    constructor (userId: Id)
      ensures this.userId == userId && posts == [] && likedPosts == {} && commentText == map[]
      ensures Valid()
    {
      this.userId := userId;
      posts, likedPosts, commentText := [], {}, map[];
    }

    /** A notice when there is nothing to list, otherwise one card per post
        in list order. */
    function Render(): (s: Screen)
      reads this
      ensures s == NoPostsYet <==> posts == []
      ensures s.PostCards? ==> s.entries == posts
    {
      if |posts| == 0 then NoPostsYet else PostCards(posts)
    }

    /** `loadPosts`: the fetched list replaces `posts`; a thrown fetch
        (`fault`) is only logged and `posts` stays as it was. */
    method LoadPosts(t: Tables, fault: bool)
      requires Valid()
      modifies this
      ensures Valid()
      ensures likedPosts == old(likedPosts) && commentText == old(commentText)
      ensures posts == if fault then old(posts) else FetchPostsByUserId(t, userId, false).value
    {
      var fetched := FetchPostsByUserId(t, userId, fault);
      if fetched.Ok? {
        posts := fetched.value;
      }
    }

    /** `handleLike`: copies the set, then deletes or adds the id in the copy. */
    method HandleLike(postId: Id)
      modifies this
      ensures likedPosts == Flip(old(likedPosts), postId)
      ensures posts == old(posts) && commentText == old(commentText)
    {
      var next := likedPosts;
      if postId in next {
        next := next - {postId};
      } else {
        next := next + {postId};
      }
      likedPosts := next;
    }

    /** `handleComment`: the draft is cleared; nothing is sent anywhere. */
    method HandleComment(postId: Id)
      modifies this
      ensures commentText == WithDraft(old(commentText), postId, "")
      ensures posts == old(posts) && likedPosts == old(likedPosts)
    {
      commentText := WithDraft(commentText, postId, "");
    }

    /** The text field's `onChange`. */
    method EditDraft(postId: Id, text: string)
      modifies this
      ensures commentText == WithDraft(old(commentText), postId, text)
      ensures posts == old(posts) && likedPosts == old(likedPosts)
    {
      commentText := WithDraft(commentText, postId, text);
    }
  }
}
