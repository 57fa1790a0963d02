/**
  The browser's key-value store as the site uses it: one field per key. A key
  that was never written, or was removed, is `None`; `clientMessages` and
  `approvedUsers` are read with `|| {}` and `|| []`, so for them a missing
  key and an empty value are the same and they are kept as plain values.
 */
module Storage {
  import opened Outcomes
  import opened MessageLog
  import opened Session

  class LocalStorage {
    var clientMessages: map<string, Thread>
    var approvedUsers: seq<string>
    var userData: Option<UserData>
    var isLoggedIn: Option<string>
    var lastContactEmail: Option<string>

    /** The message table and the approved-users list agree with each other. */
    ghost predicate Valid()
      reads this
    {
      WellFormed(clientMessages, approvedUsers)
    }

    /** A fresh browser profile: nothing stored yet. */
    constructor ()
      ensures Valid()
      ensures clientMessages == map[] && approvedUsers == []
      ensures userData == None && isLoggedIn == None && lastContactEmail == None
    {
      clientMessages := map[];
      approvedUsers := [];
      userData := None;
      isLoggedIn := None;
      lastContactEmail := None;
    }
  }
}
