# Feed and engagement model of the peterap social feed

This project models the core of a small Next.js + Prisma social feed:

- Users publish posts made of a caption and an ordered set of images.
- Other users like posts.
- People find each other by searching names and emails.

The model covers seven pieces:

- the `/api/posts` route: `POST` creates a caption-only post, `GET` builds the viewer-scoped feed with like and comment counts;
- the post server actions: `fetchPosts`, `fetchPostsByUserId`, and `createPost` with nested image rows;
- the `/api/posts/upload` route, which attaches one uploaded image to a post;
- the `/api/users/search` route;
- the `updateProfile` server action;
- the feed component's client state (`loading`, `posts`, the optimistic like flip);
- the user-posts component's client state (the liked-ids set, comment drafts, the send button).

The store is one object, `Store.Database`, with one field per table. Each route handler or action that writes is a method that modifies it. Each postcondition states the whole new store as `old(db.Snapshot())` with the changed fields replaced. Read-only queries are functions over a `Tables` value.

Four things the program gets from its environment are parameters:

- new ids (with the guarantee that they are fresh);
- timestamps (`Date.now()`);
- the session;
- the place where a store or transport call throws. A thrown call is a `fault` argument, so every error branch is modelled.

Client components are classes whose fields are their `useState` slots. A state setter is a method whose postcondition relates the new field to a pure updater function. The lemmas state what the updater promises.

Module layout:

- `Common`: options, back-end results, JavaScript truthiness, map / filter / take;
- `Text`: decimal rendering and parsing, ASCII case folding, substring search;
- `Ordering`: a stable insertion sort by an integer key. It stands for `orderBy` in the queries;
- `Schema`: the rows and the tables;
- `Store`: the writes;
- `PostsRoute`, `PostActions`, `UploadRoute`, `UserSearch`, `ProfileAction`: the server code;
- `PostViewState`, `UserPostsViewState`: the client components.

Where the system's design description and the code disagree, the model follows the code. The description asks for five things the code does not do:

- a cap of six images per post;
- image orders assigned by the server, unique and without gaps;
- a post-id tie-break in feed order;
- a `NotFound` error for uploads to a missing post;
- treating a blank query as "browse all".

The code keeps the client's `order` verbatim and does not check that the post exists. `UploadRoute.RepeatedOrderIsStored` proves that duplicate orders reach the store. The file name is also not unique within one millisecond: `UploadRoute.SameMillisecondUploadsShareUrl` shows two rows sharing one URL, and on disk the second file replaces the first. The code tests the query only for truthiness, so a query of spaces is a search of its own.

## Model

| member | source | states |
|---|---|---|
| Schema.CallerId | src/app/api/posts/route.ts:10 | `session?.user?.id` is present exactly when there is a session whose user carries an id, and is that id |
| Schema.FindUser | src/app/actions/posts.ts:14 | the included user relation is the first user row with the post's user id, or nothing when no row has that id |
| Schema.FindUserUnique | src/app/actions/posts.ts:14 | with user ids as keys, the relation lookup returns exactly the user row carrying the id |
| Common.OrNullNormalises | src/app/api/posts/route.ts:23 | `x \|\| null` never stores an empty string, keeps truthy strings verbatim, is null exactly for falsy input and is idempotent |
| Common.CountPositive | src/app/api/posts/route.ts:79 | `likes.length > 0` holds exactly when some included row matches |
| Common.FilterMultiset | src/app/actions/posts.ts:35 | a `where` keeps each matching row as often as it occurs and no other row |
| Common.Take | src/app/api/users/search/route.ts:22 | `take: n` returns a prefix of length min(n, rows) |
| Ordering.SortBy | src/app/api/posts/route.ts:48-51 | `orderBy` returns a permutation of the rows that is ordered by the key |
| Ordering.SortByProjection | src/app/api/posts/route.ts:48-51 | ordering permutes rows, so every projected column keeps its multiset of values |
| Ordering.ProjectionKeepsOrder | src/app/api/posts/route.ts:73-82 | mapping rows sorted by a key through a projection that carries the key keeps them sorted; both feed and listings use it for `createdAt` |
| Ordering.SortByOfSorted | src/app/actions/posts.ts:16-18 | rows already strictly ordered by the key are returned unchanged |
| Text.ContainsIffOccurs | src/app/api/users/search/route.ts:11-12 | the substring scan succeeds exactly when the query occurs at some position |
| Text.MissingFirstChar | src/app/api/users/search/route.ts:11-12 | a string without the query's first character does not contain the query |
| Text.ParseDecimalOfDecimal | src/app/api/posts/upload/route.ts:40 | the decimal rendering of the timestamp in the file name parses back to the timestamp |
| Text.DigitRunSplit | src/app/api/posts/upload/route.ts:40 | digits followed by an extension (empty or starting with a non-digit) split in only one way |
| Text.DecimalInjective | src/app/api/posts/upload/route.ts:40 | different timestamps render differently |
| Store.Rename | src/app/actions/profile.ts:22-25 | `user.update` sets the name of the rows with that id, keeps every other row and every id |
| Store.FindAfterRename | src/app/actions/profile.ts:22-25 | after the update, looking the user up finds the new name and all other columns unchanged |
| Store.Upserted | src/app/actions/profile.ts:28-39 | `profile.upsert` puts a profile under the user id, creates it with only bio and location when absent, overwrites only bio and location when present, and keeps every other profile |
| Store.UpsertedKeyed | src/app/actions/profile.ts:28-39 | the upsert keyed by `userId` keeps every profile stored under its own user id |
| Store.Database.InsertPost | src/app/api/posts/route.ts:20-25 | `post.create` appends one row, keeps the other tables and keeps post ids distinct |
| Store.Database.InsertImages | src/app/actions/posts.ts:62-66 | `postImage.create` appends the rows in order and changes no other table |
| Store.Database.SetUserName | src/app/actions/profile.ts:22-25 | the users table becomes its `Rename` and nothing else changes |
| Store.Database.UpsertProfile | src/app/actions/profile.ts:28-39 | the profiles table becomes its `Upserted` and nothing else changes |
| PostsRoute.Create | src/app/api/posts/route.ts:7-35 | 401 "Not authenticated" without a user id, 500 "Failed to create post" on a throw, both with the store unchanged; otherwise the returned id is the id of the one row appended |
| PostsRoute.CreatedRowFields | src/app/api/posts/route.ts:20-27 | the new row belongs to the caller, carries the returned id, has no image URL, and holds the caption when truthy and null otherwise |
| PostsRoute.Feed | src/app/api/posts/route.ts:48-82 | one entry per post, ordered newest first, and as a multiset exactly the projections of all posts |
| PostsRoute.Get | src/app/api/posts/route.ts:37-92 | 401 "Unauthorized" exactly when there is no session, 500 "Internal Server Error" on a throw, otherwise the feed for the session's user id |
| PostsRoute.FeedEntryFromPost | src/app/api/posts/route.ts:73-82 | every feed entry is the projection of some post row |
| PostsRoute.FeedOneEntryPerPost | src/app/api/posts/route.ts:73-82 | the entry ids are the post ids, counted with multiplicity |
| PostsRoute.EntryMeaning | src/app/api/posts/route.ts:52-82 | id, caption, image URL and creation time copied; an author present exactly when a user row has the post's user id, and then that row's name and image; `liked` is true exactly when the viewer's like row exists (any like row when the viewer id is undefined); a liked entry has at least one like; the counts cover every like and comment row of the post whoever the viewer is |
| PostsRoute.EntryAuthor | src/app/api/posts/route.ts:53-58 | with user ids as keys, an entry's author is the name and image of the one user row of the post's author |
| PostsRoute.FeedIdsDistinct | src/app/api/posts/route.ts:73-74 | with post ids as keys, no two feed entries share an id |
| PostsRoute.AtMostOneViewerLike | src/app/api/posts/route.ts:59-63 | with likes keyed by (user, post), the signed-in viewer's included likes of a post are at most one row |
| PostsRoute.LaterPostListedFirst | src/app/api/posts/route.ts:48-51 | in any store holding two posts created at t1 < t2, the feed lists the t2 post's entry before the t1 post's entry |
| PostActions.ImagesOf | src/app/actions/posts.ts:15-19 | the included images are exactly the post's image rows, with multiplicity, ascending by `order` |
| PostActions.Listing | src/app/actions/posts.ts:11-21 | a listing has one element per row, newest first, a permutation of the rows, each with its own relations |
| PostActions.FetchPosts | src/app/actions/posts.ts:9-29 | the error "Could not fetch posts" exactly on a throw, otherwise the newest-first `Listing` of all posts, holding the stored posts with their multiplicity |
| PostActions.FetchedOnce | src/app/actions/posts.ts:11-24 | with post ids as keys, every stored post is listed exactly once |
| PostActions.FetchPostsByUserId | src/app/actions/posts.ts:32-53 | the error "Could not fetch posts" exactly on a throw, otherwise the newest-first `Listing` of that author's posts, holding each with its multiplicity and no other post |
| PostActions.ListedAuthors | src/app/actions/posts.ts:35 | a listing of one author's rows holds only that author's posts |
| PostActions.ListedPostRelations | src/app/actions/posts.ts:13-20 | each listed post carries its own image rows ascending by order, and its author row |
| PostActions.NewImagesNumbered | src/app/actions/posts.ts:62-66 | the nested images are numbered 0..n-1 by position, distinct, one per URL, all pointing at the new post |
| PostActions.CreatePost | src/app/actions/posts.ts:56-81 | the error "Could not create post" on a throw with the store unchanged; otherwise one post row and its numbered image rows are appended and returned with the author |
| PostActions.CreatedImagesListed | src/app/actions/posts.ts:62-66 | once created, the post's listed images are exactly the new rows, in URL order |
| UploadRoute.UploadedImageUrlShape | src/app/api/posts/upload/route.ts:40-49 | the stored URL is "/uploads/posts/", the post id, "-", the decimal timestamp, then the extension, and the timestamp part parses back |
| UploadRoute.UploadedImageUrlDistinct | src/app/api/posts/upload/route.ts:40 | two uploads for one post at different milliseconds get different URLs, whatever `path.extname` gave for each file |
| UploadRoute.Upload | src/app/api/posts/upload/route.ts:8-62 | 401 without a user id, 400 "Missing required fields" without a file or post id, 500 on a throw, each with the store unchanged; otherwise exactly one image row with the request's post id and order is appended, and the response's URL is the stored one |
| UploadRoute.RepeatedOrderIsStored | src/app/api/posts/upload/route.ts:21-52 | two uploads with the same client order store two rows of the post with equal order |
| UploadRoute.SameMillisecondUploadsShareUrl | src/app/api/posts/upload/route.ts:40-52 | two uploads for one post in one millisecond with one extension store two rows with the same URL |
| UserSearch.Selected | src/app/api/users/search/route.ts:9-23 | with a truthy query: at most 10 users, all matching, the first of the matching users in store order; otherwise: a prefix of at most 50 users |
| UserSearch.Search | src/app/api/users/search/route.ts:4-33 | 500 "Failed to search users" exactly on a throw, otherwise the selected users' summaries |
| UserSearch.SearchResultCarriesSelectedColumns | src/app/api/users/search/route.ts:16-21 | a result carries the matching user's id, name, email and image |
| UserSearch.AnnExample | src/app/api/users/search/route.ts:10-15 | among Anna K, Bob and Hannah, the query "ann" selects Anna K and Hannah, in that order |
| ProfileAction.UpdateProfile | src/app/actions/profile.ts:13-46 | throws "Not authenticated" before any write without a user id; on success renames the user and upserts the profile with `\|\| null` values; a failed upsert throws "Failed to update profile" and leaves the rename in place |
| ProfileAction.UpdatedProfileState | src/app/actions/profile.ts:22-39 | after success the user row has the new name and the profile holds bio and location when truthy and null otherwise |
| PostViewState.ToggleLike | src/components/PostView.tsx:73-83 | only entries with the id change; `liked` is negated; `likes` moves by one in that direction; every other field, the length and the order are kept |
| PostViewState.ToggleLikeTwice | src/components/PostView.tsx:78-79 | flipping the same post twice gives back the list |
| PostViewState.FeedIsConsistent | src/app/api/posts/route.ts:79-81 | every feed entry has non-negative counts, and a liked entry has a like |
| PostViewState.ToggleLikeKeepsConsistent | src/components/PostView.tsx:78-79 | the optimistic flip keeps consistent entries consistent |
| PostViewState.PostView.constructor | src/components/PostView.tsx:41-42 | the component starts loading, with no posts |
| PostViewState.PostView.Render | src/components/PostView.tsx:89-115 | skeletons exactly while loading, the empty notice exactly when loaded with no posts, otherwise the posts in order |
| PostViewState.PostView.FetchSettled | src/components/PostView.tsx:44-61 | `loading` becomes false whatever happens; the posts are replaced only by a successful response |
| PostViewState.PostView.HandleLike | src/components/PostView.tsx:63-87 | a successful like response applies `ToggleLike`; a non-ok or failed one leaves the posts unchanged |
| UserPostsViewState.Flip | src/sections/UserPostsView.tsx:53-61 | membership of the id is flipped and membership of every other id is kept |
| UserPostsViewState.FlipTwice | src/sections/UserPostsView.tsx:55-59 | liking twice restores the set |
| UserPostsViewState.HeartOf | src/sections/UserPostsView.tsx:111-114 | the filled heart is shown exactly when the id is in the set |
| UserPostsViewState.HeartAfterLike | src/sections/UserPostsView.tsx:110-114 | a click switches that post's heart and no other |
| UserPostsViewState.WithDraft | src/sections/UserPostsView.tsx:130 | the spread sets one post's draft and keeps every other draft |
| UserPostsViewState.DraftValue | src/sections/UserPostsView.tsx:129 | the field shows the stored draft, or "" when there is none |
| UserPostsViewState.SendDisabledIffEmptyField | src/sections/UserPostsView.tsx:129-136 | the send button is disabled exactly when the field is empty |
| UserPostsViewState.DraftAfterComment | src/sections/UserPostsView.tsx:64-68 | after sending, the post's field is empty and its button disabled; other posts' fields are unchanged |
| UserPostsViewState.DraftAfterEdit | src/sections/UserPostsView.tsx:129-136 | after typing, the field shows the text, the button is enabled exactly for non-empty text, and other posts are unaffected |
| UserPostsViewState.UserPostsView.constructor | src/sections/UserPostsView.tsx:36-38 | no posts, no liked ids and no drafts at first |
| UserPostsViewState.UserPostsView.Render | src/sections/UserPostsView.tsx:70-89 | the "no posts yet" notice exactly when the list is empty, otherwise one card per post in order |
| UserPostsViewState.UserPostsView.LoadPosts | src/sections/UserPostsView.tsx:40-50 | the fetched author's posts replace the list; a thrown fetch leaves it unchanged; the list only ever holds the owner's posts |
| UserPostsViewState.UserPostsView.HandleLike | src/sections/UserPostsView.tsx:52-62 | the liked set becomes its `Flip`; nothing else changes |
| UserPostsViewState.UserPostsView.HandleComment | src/sections/UserPostsView.tsx:64-68 | the post's draft becomes "" and nothing else changes |
| UserPostsViewState.UserPostsView.EditDraft | src/sections/UserPostsView.tsx:130 | the post's draft becomes the typed text and nothing else changes |

## Left out

- File storage: the upload's `arrayBuffer`, `writeFile` and `createDirIfNotExists` are not modelled. The file's bytes never reach the model, and a failed write is the `SaveFault` case.
- UploadRoute.UploadedImageUrl: `path.join` normalisation is not modelled. A post id containing `/` or `..` would be rewritten by the real code. The extension is a parameter standing for `path.extname(file.name)`.
- UploadRoute.Upload: `parseInt` of a missing or non-numeric `order` gives `NaN`, which the model cannot express. `order` is an integer parameter, and the guard does not inspect it, as in the code. A non-string `postId` form value is not modelled.
- Referential integrity: an image row may name a post that does not exist, because the code checks neither existence nor ownership. A post whose author row is missing gets no author in the model. The database's foreign keys are not part of this model.
- Ordering.SortBy: rows with equal keys keep an insertion-sort order. The query language leaves that order unspecified, so only ordering and the permutation are claimed.
- PostActions.CreatePost: `include: { images: true }` returns images in an unspecified order; the model returns them in creation order.
- Text.Lower: case-insensitive matching folds ASCII letters only. The database's Unicode collation is not modelled.
- The like endpoint `/api/posts/[postId]/like` is left out. The client calls it, and its only effect the model shows is the `ok` flag that `PostViewState.PostView.HandleLike` receives.
- The avatar upload route and the profile read route are left out as file plumbing and a plain read.
- Session issuance (NextAuth, `getServerSession`, `auth()`) is not modelled. The session is a parameter.
- Rendering, MUI layout, date formatting and theme state are not modelled. Only the choice of screen (loading, empty, cards) and the per-post icon and button state are.
- Logging (`console.log`, `console.error`) is not modelled.
- Concurrency is not modelled. Requests and React state updates are single steps, and the code has no transactions or locks to reason about.
- `UserPostsViewState.UserPostsView.LoadPosts` models a fixed owner id. A change of the `userId` prop re-runs the effect in the real component.
