/** The `/api/users/search` route: a case-insensitive substring match of the
    `q` parameter against name or email, with a result limit that depends on
    whether a query was given. */
module UserSearch {

  import opened Common
  import opened Text
  import opened Schema

  /** A result row: only the selected columns. */
  datatype UserSummary = UserSummary(id: Id, name: Option<string>, email: Option<string>, image: Option<string>)

  datatype SearchResponse = Found(users: seq<UserSummary>) | SearchFailed(status: nat, error: string)

  function Summary(u: User): UserSummary
  {
    UserSummary(u.id, u.name, u.email, u.image)
  }

  /** The `OR` of the two `contains` conditions, in insensitive mode. */
  predicate Matches(u: User, q: string)
  {
    ContainsIgnoringCase(u.name, q) || ContainsIgnoringCase(u.email, q)
  }

  function MatchesQuery(q: string): User -> bool
  {
    (u: User) => Matches(u, q)
  }

  /** `take: query ? 10 : 50`. */
  function Limit(query: Option<string>): nat
  {
    if Truthy(query) then 10 else 50
  }

  /** The users the query returns, in store order: with a query, the first
      ten matching users; without one (absent or empty), the first fifty
      users. It is exactly `take(filter(users), limit)`. */
  function Selected(users: seq<User>, query: Option<string>): (r: seq<User>)
    ensures |r| <= Limit(query)
    ensures Truthy(query) ==> forall i :: 0 <= i < |r| ==> Matches(r[i], query.value)
    ensures Truthy(query) ==> r <= Filter(users, MatchesQuery(query.value))
    ensures Truthy(query) && |r| < 10 ==> r == Filter(users, MatchesQuery(query.value))
    ensures !Truthy(query) ==> r <= users && (|r| < 50 ==> r == users)
  {
    if Truthy(query) then
      var matching := Filter(users, MatchesQuery(query.value));
      var r := Take(matching, 10);
      assert forall i :: 0 <= i < |r| ==> r[i] == matching[i];
      r
    else Take(users, 50)
  }

  /** `GET`: the selected users, each cut down to id, name, email and image.
      `fault` is a store exception. */
  function Search(users: seq<User>, query: Option<string>, fault: bool): (r: SearchResponse)
    ensures fault <==> r == SearchFailed(500, "Failed to search users")
    ensures !fault ==> r.Found? && r.users == MapSeq(Summary, Selected(users, query))
  {
    if fault then SearchFailed(500, "Failed to search users")
    else Found(MapSeq(Summary, Selected(users, query)))
  }

  /** A result is the matching user's id, name, email and avatar, nothing else. */
  lemma SearchResultCarriesSelectedColumns(users: seq<User>, query: Option<string>, i: int)
    requires 0 <= i < |Selected(users, query)|
    ensures var u := Selected(users, query)[i];
      var s := Search(users, query, false).users[i];
      s.id == u.id && s.name == u.name && s.email == u.email && s.image == u.image
  {
  }

  /** Users Anna K (anna@x.com), Bob (bob@x.com) and Hannah (h@x.com): the
      query "ann" finds Anna K and Hannah but not Bob. */
  lemma AnnExample(anna: User, bob: User, hannah: User)
    requires anna.name == Some("Anna K") && anna.email == Some("anna@x.com")
    requires bob.name == Some("Bob") && bob.email == Some("bob@x.com")
    requires hannah.name == Some("Hannah") && hannah.email == Some("h@x.com")
    ensures Selected([anna, bob, hannah], Some("ann")) == [anna, hannah]
  {
    var p := MatchesQuery("ann");
    AnnMatchesAnnaK();
    AnnMatchesHannah();
    AnnMissesBob();
    assert p(anna) && !p(bob) && p(hannah);
    KeepFirstAndLast(anna, bob, hannah, p);
  }

  lemma AnnMatchesAnnaK()
    ensures ContainsIgnoringCase(Some("Anna K"), "ann")
  {
    assert LowerString("ann") == "ann";
    assert LowerString("Anna K") == "anna k";
    assert IsPrefix("ann", "anna k");
  }

  lemma AnnMatchesHannah()
    ensures ContainsIgnoringCase(Some("Hannah"), "ann")
  {
    assert LowerString("ann") == "ann";
    assert LowerString("Hannah") == "hannah";
    assert IsPrefix("ann", "hannah"[1..]);
  }

  lemma AnnMissesBob()
    ensures !ContainsIgnoringCase(Some("Bob"), "ann")
    ensures !ContainsIgnoringCase(Some("bob@x.com"), "ann")
  {
    AnnMissesBobName();
    AnnMissesBobEmail();
  }

  lemma AnnMissesBobName()
    ensures !ContainsIgnoringCase(Some("Bob"), "ann")
  {
    assert LowerString("ann") == "ann";
    assert LowerString("Bob") == "bob";
    MissingFirstChar("bob", "ann");
  }

  lemma AnnMissesBobEmail()
    ensures !ContainsIgnoringCase(Some("bob@x.com"), "ann")
  {
    assert LowerString("ann") == "ann";
    assert LowerString("bob@x.com") == "bob@x.com";
    MissingFirstChar("bob@x.com", "ann");
  }

  lemma KeepFirstAndLast<T(!new)>(a: T, b: T, c: T, p: T -> bool)
    requires p(a) && !p(b) && p(c)
    ensures Filter([a, b, c], p) == [a, c]
  {
    assert [a, b, c][1..] == [b, c] && [b, c][1..] == [c] && [c][1..] == [];
    assert Filter([c], p) == [c] + Filter([], p);
    assert Filter([b, c], p) == Filter([c], p);
    assert Filter([a, b, c], p) == [a] + Filter([b, c], p);
  }
}
