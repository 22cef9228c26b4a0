/** The `updateProfile` server action: writes the caller's display name,
    then creates or updates the caller's profile with `bio` and `location`.
    The two writes are separate store calls with no transaction around them. */
module ProfileAction {

  import opened Common
  import opened Schema
  import opened Store

  /** The form data; `bio` and `location` may be left out. */
  datatype ProfileData = ProfileData(name: string, bio: Option<string>, location: Option<string>)

  /** Where a store exception is thrown, if anywhere: in the name update or in
      the profile upsert. */
  datatype ProfileFault = NoFault | NameWriteFault | UpsertFault

  /** `{ success: true }`, or the message of the thrown error. */
  datatype ProfileOutcome = Success | Thrown(message: string)

  /** `updateProfile`: without a session user id it throws "Not authenticated"
      before writing anything. Otherwise it renames the user (a missing user
      row makes the update throw) and then upserts the profile; a failure in
      either step is rethrown as "Failed to update profile", and a failed
      upsert leaves the new name in place. */
  method UpdateProfile(db: Database, session: Session, data: ProfileData, fault: ProfileFault)
    returns (r: ProfileOutcome)
    requires db.Valid()
    modifies db
    ensures db.Valid()
    ensures CallerId(session).None? ==>
              r == Thrown("Not authenticated") && db.Snapshot() == old(db.Snapshot())
    ensures CallerId(session).Some? && (FindUser(old(db.users), CallerId(session).value).None? || fault == NameWriteFault) ==>
              r == Thrown("Failed to update profile") && db.Snapshot() == old(db.Snapshot())
    ensures CallerId(session).Some? && FindUser(old(db.users), CallerId(session).value).Some? && fault == UpsertFault ==>
              && r == Thrown("Failed to update profile")
              && db.Snapshot() == old(db.Snapshot()).(users := Rename(old(db.users), CallerId(session).value, data.name))
    ensures CallerId(session).Some? && FindUser(old(db.users), CallerId(session).value).Some? && fault == NoFault ==>
              var id := CallerId(session).value;
              && r == Success
              && db.Snapshot() == old(db.Snapshot()).(
                   users := Rename(old(db.users), id, data.name),
                   profiles := Upserted(old(db.profiles), id, OrNull(data.bio), OrNull(data.location)))
  {
    var caller := CallerId(session);
    if caller.None? {
      return Thrown("Not authenticated");
    }
    var id := caller.value;
    if FindUser(db.users, id).None? || fault == NameWriteFault {
      return Thrown("Failed to update profile");
    }
    db.SetUserName(id, data.name);
    if fault == UpsertFault {
      return Thrown("Failed to update profile");
    }
    db.UpsertProfile(id, OrNull(data.bio), OrNull(data.location));
    r := Success;
  }

  /** After a successful update the caller's user row carries the new name and
      the caller's profile holds `bio` and `location` normalised with
      `|| null`: null when falsy, verbatim otherwise. */
  lemma {:induction false} UpdatedProfileState(users: seq<User>, profiles: map<Id, Profile>, id: Id, data: ProfileData)
    requires FindUser(users, id).Some?
    ensures FindUser(Rename(users, id, data.name), id).Some?
    ensures FindUser(Rename(users, id, data.name), id).value.name == Some(data.name)
    ensures var p := Upserted(profiles, id, OrNull(data.bio), OrNull(data.location))[id];
      && (Truthy(data.bio) ==> p.bio == data.bio) && (!Truthy(data.bio) ==> p.bio == None)
      && (Truthy(data.location) ==> p.location == data.location) && (!Truthy(data.location) ==> p.location == None)
  {
    FindAfterRename(users, id, data.name);
  }
}
