/** The backing store as one mutable object: each table is a field that the
    store's write operations reassign. The write operations are the effects
    of the store calls the route handlers and server actions make
    (`post.create`, `postImage.create`, `user.update`, `profile.upsert`);
    query execution itself is not modelled, only its result. */
module Store {

  import opened Common
  import opened Schema

  /** The users table after `user.update({ where: { id }, data: { name } })`:
      every row with that id gets the new name, every other row is kept. */
  function Rename(users: seq<User>, id: Id, name: string): (r: seq<User>)
    ensures |r| == |users|
    ensures UserIds(r) == UserIds(users)
    ensures forall i :: 0 <= i < |users| && users[i].id != id ==> r[i] == users[i]
    ensures forall i :: 0 <= i < |users| && users[i].id == id ==> r[i] == users[i].(name := Some(name))
  {
    MapSeq((u: User) => if u.id == id then u.(name := Some(name)) else u, users)
  }

  /** After renaming, looking the user up finds the new name and every
      other field unchanged. */
  lemma {:induction false} FindAfterRename(users: seq<User>, id: Id, name: string)
    requires FindUser(users, id).Some?
    ensures FindUser(Rename(users, id, name), id) == Some(FindUser(users, id).value.(name := Some(name)))
  {
    if users[0].id != id {
      FindAfterRename(users[1..], id, name);
      assert Rename(users, id, name)[1..] == Rename(users[1..], id, name);
    }
  }

  /** The profile table after `profile.upsert` keyed by `userId` writing `bio`
      and `location`: a missing profile is created with just those two
      columns, an existing one has just those two columns overwritten. */
  function Upserted(profiles: map<Id, Profile>, userId: Id, bio: Option<string>, location: Option<string>)
    : (r: map<Id, Profile>)
    ensures r.Keys == profiles.Keys + {userId}
    ensures r[userId].bio == bio && r[userId].location == location
    ensures r[userId].avatarUrl == if userId in profiles then profiles[userId].avatarUrl else None
    ensures userId in profiles ==> r[userId] == profiles[userId].(bio := bio, location := location)
    ensures userId !in profiles ==> r[userId] == Profile(userId, bio, location, None)
    ensures forall k :: k in profiles && k != userId ==> r[k] == profiles[k]
  {
    if userId in profiles then profiles[userId := profiles[userId].(bio := bio, location := location)]
    else profiles[userId := Profile(userId, bio, location, None)]
  }

  /** The upsert keeps every profile keyed by its own user id. */
  lemma UpsertedKeyed(profiles: map<Id, Profile>, userId: Id, bio: Option<string>, location: Option<string>)
    requires forall k :: k in profiles ==> profiles[k].userId == k
    ensures var r := Upserted(profiles, userId, bio, location);
      forall k :: k in r ==> r[k].userId == k
  {
  }

  lemma DistinctAppend<T>(s: seq<T>, x: T)
    requires Distinct(s) && x !in s
    ensures Distinct(s + [x])
  {
  }

  class Database {
    var users: seq<User>
    var profiles: map<Id, Profile>
    var posts: seq<Post>
    var images: seq<PostImage>
    var likes: seq<Like>
    var comments: seq<Comment>

    /** Every table, as one value. */
    function Snapshot(): Tables
      reads this
    {
      Tables(users, profiles, posts, images, likes, comments)
    }

    ghost predicate Valid()
      reads this
    {
      WellKeyed(Snapshot())
    }

    /** A store seeded with the given tables. */
    constructor (t: Tables)
      requires WellKeyed(t)
      ensures Valid() && Snapshot() == t
    {
      users, profiles, posts := t.users, t.profiles, t.posts;
      images, likes, comments := t.images, t.likes, t.comments;
    }

    /** `post.create`: one new row at the end of the posts table. The id
        comes from the store's id generator, so it is new. */
    method InsertPost(p: Post)
      requires Valid() && p.id !in PostIds(posts)
      modifies this
      ensures Valid()
      ensures Snapshot() == old(Snapshot()).(posts := old(posts) + [p])
    {
      assert PostIds(posts + [p]) == PostIds(posts) + [p.id];
      DistinctAppend(PostIds(posts), p.id);
      posts := posts + [p];
    }

    /** `postImage.create` for each of `rows`, in order. Image rows carry no
        key of their own here, so nothing about them is checked. */
    method InsertImages(rows: seq<PostImage>)
      requires Valid()
      modifies this
      ensures Valid()
      ensures Snapshot() == old(Snapshot()).(images := old(images) + rows)
    {
      images := images + rows;
    }

    /** `user.update` of the name column, keyed by id. */
    method SetUserName(id: Id, name: string)
      requires Valid()
      modifies this
      ensures Valid()
      ensures Snapshot() == old(Snapshot()).(users := Rename(old(users), id, name))
    {
      users := Rename(users, id, name);
    }

    /** `profile.upsert` keyed by the user id, writing `bio` and `location`. */
    method UpsertProfile(userId: Id, bio: Option<string>, location: Option<string>)
      requires Valid()
      modifies this
      ensures Valid()
      ensures Snapshot() == old(Snapshot()).(profiles := Upserted(old(profiles), userId, bio, location))
    {
      if userId in profiles {
        profiles := profiles[userId := profiles[userId].(bio := bio, location := location)];
      } else {
        profiles := profiles[userId := Profile(userId, bio, location, None)];
      }
    }
  }
}
