/** saveClientMessage, which updates the stored message table and approved-users list in place. */
module Messaging {
  import opened MessageLog
  import opened Storage

  /**
    Creates the thread for `email` if it is missing, pushes the client record
    and then the auto-reply onto it, writes the table back, and appends
    `email` to the approved users unless it is already there. Always true.
   */
  method SaveClientMessage(store: LocalStorage, clientAt: Clock, replyAt: Clock,
                           name: string, email: string, message: string, subject: string := DefaultSubject)
    returns (saved: bool)
    modifies store
    ensures saved
    ensures store.clientMessages == SaveThreads(old(store.clientMessages), clientAt, replyAt, name, email, message, subject)
    ensures store.approvedUsers == SaveApproved(old(store.approvedUsers), email)
    ensures store.userData == old(store.userData) && store.isLoggedIn == old(store.isLoggedIn)
    ensures store.lastContactEmail == old(store.lastContactEmail)
    ensures old(store.Valid()) ==> store.Valid()
  {
    ghost var threads0, approved0 := store.clientMessages, store.approvedUsers;
    var allMessages := store.clientMessages;
    var approvedUsers := store.approvedUsers;

    if email !in allMessages {
      allMessages := allMessages[email := Thread(name, [])];
    }

    var clientMessage := ClientRecord(clientAt, message, subject);
    allMessages := allMessages[email := allMessages[email].(messages := allMessages[email].messages + [clientMessage])];

    var autoReply := AutoReply(replyAt, name, subject);
    allMessages := allMessages[email := allMessages[email].(messages := allMessages[email].messages + [autoReply])];

    store.clientMessages := allMessages;

    if email !in approvedUsers {
      approvedUsers := approvedUsers + [email];
      store.approvedUsers := approvedUsers;
    }

    if WellFormed(threads0, approved0) {
      SavePreservesWellFormed(threads0, approved0, clientAt, replyAt, name, email, message, subject);
    }
    saved := true;
  }
}
