/** The staff accounts read from the users file, and the lookup by name. */
module Users {
  import opened Wrappers

  /**
   * One entry of the users file. `username` is `None` when the entry has no
   * string under that key, so that it matches no name; the password hash is
   * used only by the login check, which is not part of this model.
   */
  datatype UserRecord = UserRecord(username: Option<string>, passwordHash: string)

  /** `find_user`: the first entry whose username is the given name, if any. */
  method FindUser(users: seq<UserRecord>, username: string) returns (found: Option<UserRecord>)
    ensures found.None? <==> forall i :: 0 <= i < |users| ==> users[i].username != Some(username)
    ensures found.Some? ==> exists i ::
      && 0 <= i < |users|
      && users[i] == found.value
      && users[i].username == Some(username)
      && forall j :: 0 <= j < i ==> users[j].username != Some(username)
  {
    for i := 0 to |users|
      invariant forall j :: 0 <= j < i ==> users[j].username != Some(username)
    {
      if users[i].username == Some(username) {
        return Some(users[i]);
      }
    }
    return None;
  }
}
