/** `check_user` (services/utils.py): the api-key header resolved to a user. */
module Auth {
  import opened Outcomes
  import opened Db

  const MissingHeader: Response<int> := Fail("Header error", "There is no header in the request")
  const UnknownAccount: Response<int> := Fail("Not authorize", "You account not in database")

  /** `check_user`: an absent or empty header is refused before any lookup;
      otherwise the user holding the key, or the not-authorized record. */
  function CheckUser(apiKey: Option<string>, users: map<int, UserRow>): (r: Response<int>)
    requires UniqueApiKeys(users)
    ensures (apiKey.None? || apiKey.value == "") ==> r == MissingHeader
    ensures apiKey.Some? && apiKey.value != "" ==>
      (r.Ok? <==> exists u :: u in users && users[u].apiKey == apiKey.value)
    ensures apiKey.Some? && apiKey.value != "" && !r.Ok? ==> r == UnknownAccount
    ensures r.Ok? ==> apiKey.Some? && r.value in users && users[r.value].apiKey == apiKey.value
  {
    if apiKey.None? || apiKey.value == "" then MissingHeader
    else if exists u :: u in users && users[u].apiKey == apiKey.value then
      var u :| u in users && users[u].apiKey == apiKey.value;
      Ok(u)
    else UnknownAccount
  }

  /** With api keys unique, as the `users` table demands, the user found is
      the one whose key was sent. */
  lemma CheckUserFindsOwner(apiKey: string, users: map<int, UserRow>, owner: int)
    requires UniqueApiKeys(users)
    requires owner in users && users[owner].apiKey == apiKey && apiKey != ""
    ensures CheckUser(Some(apiKey), users) == Ok(owner)
  {
  }
}
