/**
  The message table kept under the storage key `clientMessages` (email to
  thread) and the list kept under `approvedUsers`, and what one call of
  saveClientMessage does to each, as functions of the old values.
 */
module MessageLog {

  /** Who wrote a message: the visitor ('client') or the site owner ('emmanuel'). */
  datatype Sender = Client | Emmanuel

  datatype Message = Message(id: int, from: Sender, text: string, time: string, subject: string, read: bool)

  /** The conversation with one email address. */
  datatype Thread = Thread(name: string, messages: seq<Message>)

  /**
    The clock as one record uses it: the `Date.now()` value that becomes its
    id and the `toLocaleString` text that becomes its time. The source takes
    the two by separate calls, so they need not describe the same instant;
    the model leaves them unrelated.
   */
  datatype Clock = Clock(now: int, display: string)

  const DefaultSubject := "New Inquiry"
  const ReplyPrefix := "Re: "
  const ReplyOpening := "Hi "
  const ReplyMiddle := "! Thanks for your message about \""
  const ReplyClosing := "\". I've received it and will get back to you within 24 hours."

  /** The fixed acknowledgement text of the auto-reply. */
  function AutoReplyText(name: string, subject: string): (r: string)
    ensures |r| == |ReplyOpening| + |name| + |ReplyMiddle| + |subject| + |ReplyClosing|
    ensures r[..|ReplyOpening|] == ReplyOpening
    ensures r[|ReplyOpening|..|ReplyOpening| + |name|] == name
    ensures r[|ReplyOpening| + |name|..][..|ReplyMiddle|] == ReplyMiddle
    ensures r[|ReplyOpening| + |name| + |ReplyMiddle|..][..|subject|] == subject
    ensures r[|r| - |ReplyClosing|..] == ReplyClosing
  {
    ReplyOpening + name + ReplyMiddle + subject + ReplyClosing
  }

  /** The record saved for what the visitor wrote. */
  function ClientRecord(at: Clock, message: string, subject: string): (r: Message)
    ensures r.from == Client && !r.read
    ensures r.id == at.now && r.time == at.display
    ensures r.text == message && r.subject == subject
  {
    Message(at.now, Client, message, at.display, subject, false)
  }

  /** The automatic reply saved right after it; its id is one more than its clock reading. */
  function AutoReply(at: Clock, name: string, subject: string): (r: Message)
    ensures r.from == Emmanuel && !r.read
    ensures r.id == at.now + 1 && r.time == at.display
    ensures |r.subject| == |ReplyPrefix| + |subject|
    ensures r.subject[..|ReplyPrefix|] == ReplyPrefix && r.subject[|ReplyPrefix|..] == subject
    ensures r.text == AutoReplyText(name, subject)
  {
    Message(at.now + 1, Emmanuel, AutoReplyText(name, subject), at.display, ReplyPrefix + subject, false)
  }

  /** getUserMessages: the thread's messages, or none for an email without a thread. */
  function UserMessages(threads: map<string, Thread>, email: string): (r: seq<Message>)
    ensures email !in threads ==> r == []
    ensures email in threads ==> r == threads[email].messages
  {
    if email in threads then threads[email].messages else []
  }

  /**
    The message table after saveClientMessage(name, email, message, subject):
    the thread for `email` (created with `name` if missing) gains the client
    record and then the auto-reply; no other entry changes.
   */
  function SaveThreads(threads: map<string, Thread>, clientAt: Clock, replyAt: Clock,
                       name: string, email: string, message: string, subject: string): (r: map<string, Thread>)
    ensures r.Keys == threads.Keys + {email}
    ensures forall e :: e in threads && e != email ==> r[e] == threads[e]
    ensures r[email].name == if email in threads then threads[email].name else name
    ensures r[email].messages ==
      UserMessages(threads, email) + [ClientRecord(clientAt, message, subject), AutoReply(replyAt, name, subject)]
  {
    var thread := if email in threads then threads[email] else Thread(name, []);
    threads[email := thread.(messages := thread.messages
                                         + [ClientRecord(clientAt, message, subject)]
                                         + [AutoReply(replyAt, name, subject)])]
  }

  predicate NoDuplicates(s: seq<string>) {
    forall i, j :: 0 <= i < j < |s| ==> s[i] != s[j]
  }

  /** The approved-users list after saveClientMessage: `email` is appended unless already present. */
  function SaveApproved(approved: seq<string>, email: string): (r: seq<string>)
    ensures email in r
    ensures email in approved ==> r == approved
    ensures email !in approved ==> r == approved + [email]
    ensures forall e :: e in r <==> e in approved || e == email
    ensures NoDuplicates(approved) ==> NoDuplicates(r)
  {
    if email in approved then approved else approved + [email]
  }

  /**
    Every client message is immediately followed by its auto-reply: the
    thread alternates client and owner, starting with the client, and each
    reply's subject is "Re: " and the subject it answers.
   */
  predicate Paired(messages: seq<Message>) {
    && |messages| % 2 == 0
    && (forall i :: 0 <= i < |messages| ==> (messages[i].from == Client <==> i % 2 == 0))
    && (forall i :: 0 < i < |messages| && i % 2 == 1 ==> messages[i].subject == ReplyPrefix + messages[i - 1].subject)
  }

  /**
    The consistency of the two keys: approvedUsers lists each email with a
    thread exactly once and nothing else, and every thread is made of pairs.
   */
  ghost predicate WellFormed(threads: map<string, Thread>, approved: seq<string>) {
    && NoDuplicates(approved)
    && (forall e :: e in threads <==> e in approved)
    && (forall e :: e in threads ==> Paired(threads[e].messages))
  }

  /** Appending a client record and its reply keeps a thread made of pairs. */
  lemma PairedAppend(messages: seq<Message>, clientAt: Clock, replyAt: Clock, name: string, message: string, subject: string)
    requires Paired(messages)
    ensures Paired(messages + [ClientRecord(clientAt, message, subject), AutoReply(replyAt, name, subject)])
  {
    var m := messages + [ClientRecord(clientAt, message, subject), AutoReply(replyAt, name, subject)];
    var n := |messages|;
    forall i | 0 < i < |m| && i % 2 == 1 ensures m[i].subject == ReplyPrefix + m[i - 1].subject {
      if i < n {
        assert m[i] == messages[i] && m[i - 1] == messages[i - 1];
      }
    }
  }

  /** A save keeps the table and the list consistent with each other. */
  lemma SavePreservesWellFormed(threads: map<string, Thread>, approved: seq<string>, clientAt: Clock, replyAt: Clock,
                                name: string, email: string, message: string, subject: string)
    requires WellFormed(threads, approved)
    ensures WellFormed(SaveThreads(threads, clientAt, replyAt, name, email, message, subject), SaveApproved(approved, email))
  {
    PairedAppend(UserMessages(threads, email), clientAt, replyAt, name, message, subject);
  }

  /** Reading the thread right after a save shows the old messages and the two new records. */
  lemma ReadAfterSave(threads: map<string, Thread>, clientAt: Clock, replyAt: Clock,
                      name: string, email: string, message: string, subject: string)
    ensures var after := UserMessages(SaveThreads(threads, clientAt, replyAt, name, email, message, subject), email);
      && |after| == |UserMessages(threads, email)| + 2
      && after[..|after| - 2] == UserMessages(threads, email)
      && after[|after| - 2] == Message(clientAt.now, Client, message, clientAt.display, subject, false)
      && after[|after| - 1] == Message(replyAt.now + 1, Emmanuel, AutoReplyText(name, subject),
                                       replyAt.display, ReplyPrefix + subject, false)
  {
    var before := UserMessages(threads, email);
    var after := UserMessages(SaveThreads(threads, clientAt, replyAt, name, email, message, subject), email);
    assert after == before + [ClientRecord(clientAt, message, subject), AutoReply(replyAt, name, subject)];
    assert after[..|after| - 2] == before;
  }

  /**
    Keys are the exact strings given: a save under one spelling of an address
    leaves every other spelling, upper- or lower-case, as it was.
   */
  lemma SaveLeavesOtherEmails(threads: map<string, Thread>, clientAt: Clock, replyAt: Clock,
                              name: string, email: string, message: string, subject: string, other: string)
    requires other != email
    ensures UserMessages(SaveThreads(threads, clientAt, replyAt, name, email, message, subject), other)
         == UserMessages(threads, other)
  {
  }

  /** When the clock reads no earlier for the reply, the reply's id is larger than the client record's. */
  lemma ReplyIdAfterClientId(clientAt: Clock, replyAt: Clock, name: string, message: string, subject: string)
    requires clientAt.now <= replyAt.now
    ensures AutoReply(replyAt, name, subject).id > ClientRecord(clientAt, message, subject).id
    ensures clientAt.now == replyAt.now ==> AutoReply(replyAt, name, subject).id == ClientRecord(clientAt, message, subject).id + 1
  {
  }

  /** One submission from the same address: who it is from, what, and the two clock readings. */
  datatype Submission = Submission(name: string, message: string, subject: string, clientAt: Clock, replyAt: Clock)

  /** The table after saving each submission in turn under `email`. */
  function SaveAll(threads: map<string, Thread>, email: string, subs: seq<Submission>): map<string, Thread>
    decreases |subs|
  {
    if subs == [] then threads
    else
      var s := subs[0];
      SaveAll(SaveThreads(threads, s.clientAt, s.replyAt, s.name, email, s.message, s.subject), email, subs[1..])
  }

  /**
    Saving is never lossy: after N saves for one address its thread holds its
    old messages followed by exactly 2N records, N from the client and N
    replies, still made of pairs; the thread keeps the name it had (or the
    first submission's name), and other addresses are untouched.
   */
  lemma {:induction false} RepeatedSaves(threads: map<string, Thread>, email: string, subs: seq<Submission>)
    requires |subs| > 0
    ensures var after := SaveAll(threads, email, subs);
      && email in after
      && |after[email].messages| == |UserMessages(threads, email)| + 2 * |subs|
      && after[email].messages[..|UserMessages(threads, email)|] == UserMessages(threads, email)
      && (Paired(UserMessages(threads, email)) ==> Paired(after[email].messages))
      && after[email].name == (if email in threads then threads[email].name else subs[0].name)
      && forall e :: e != email ==> UserMessages(after, e) == UserMessages(threads, e)
    decreases |subs|
  {
    var s := subs[0];
    var next := SaveThreads(threads, s.clientAt, s.replyAt, s.name, email, s.message, s.subject);
    var old_msgs := UserMessages(threads, email);
    if Paired(old_msgs) {
      PairedAppend(old_msgs, s.clientAt, s.replyAt, s.name, s.message, s.subject);
    }
    if |subs| > 1 {
      RepeatedSaves(next, email, subs[1..]);
      var after := SaveAll(threads, email, subs);
      assert after == SaveAll(next, email, subs[1..]);
      var mid := UserMessages(next, email);
      assert after[email].messages[..|mid|] == mid;
      assert mid[..|old_msgs|] == old_msgs;
      assert after[email].messages[..|old_msgs|] == mid[..|old_msgs|];
    } else {
      assert SaveAll(threads, email, subs) == SaveAll(next, email, []) == next;
    }
  }
}
