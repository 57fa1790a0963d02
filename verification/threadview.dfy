/**
  The order in which the dashboard shows a thread: a copy of the stored
  messages sorted by id, largest (newest) first, with `Array.prototype.sort`
  and the comparator `(a, b) => b.id - a.id`. That sort is stable, so
  messages with equal ids keep their stored order.
 */
module ThreadView {
  import opened MessageLog

  /** Ids never increase from left to right. */
  predicate NewestFirst(s: seq<Message>) {
    forall i, j :: 0 <= i < j < |s| ==> s[i].id >= s[j].id
  }

  /** Prepending a message whose id bounds every id of a newest-first list keeps it newest first. */
  lemma PrependNewest(m: Message, s: seq<Message>)
    requires NewestFirst(s)
    requires forall k :: 0 <= k < |s| ==> s[k].id <= m.id
    ensures NewestFirst([m] + s)
  {
    var r := [m] + s;
    forall i, j | 0 <= i < j < |r| ensures r[i].id >= r[j].id {
      if i > 0 {
        assert r[i] == s[i - 1] && r[j] == s[j - 1];
      } else {
        assert r[j] == s[j - 1];
      }
    }
  }

  /** Puts `x` in front of the first message whose id is smaller, after all larger ids. */
  function InsertById(x: Message, s: seq<Message>): (r: seq<Message>)
    requires NewestFirst(s)
    ensures NewestFirst(r)
    ensures multiset(r) == multiset(s) + multiset{x}
  {
    if s == [] || x.id >= s[0].id then
      PrependNewest(x, s);
      [x] + s
    else
      var rest := InsertById(x, s[1..]);
      assert s == [s[0]] + s[1..];
      assert forall k :: 0 <= k < |rest| ==> rest[k].id <= s[0].id by {
        forall k | 0 <= k < |rest| ensures rest[k].id <= s[0].id {
          assert rest[k] in multiset(s[1..]) + multiset{x};
        }
      }
      PrependNewest(s[0], rest);
      [s[0]] + rest
  }

  /** `[...messages].sort((a, b) => b.id - a.id)`: the same messages, newest first. */
  function SortByIdDesc(s: seq<Message>): (r: seq<Message>)
    ensures NewestFirst(r)
    ensures multiset(r) == multiset(s)
    ensures |r| == |s|
  {
    if s == [] then []
    else
      assert s == [s[0]] + s[1..];
      InsertById(s[0], SortByIdDesc(s[1..]))
  }

  /** The messages of `s` whose id is `id`, in order. */
  function WithId(s: seq<Message>, id: int): seq<Message>
  {
    if s == [] then []
    else (if s[0].id == id then [s[0]] else []) + WithId(s[1..], id)
  }

  /** Inserting `x` ahead of equal ids puts it first among the messages with its id. */
  lemma {:induction false} WithIdInsert(x: Message, s: seq<Message>, id: int)
    requires NewestFirst(s)
    ensures WithId(InsertById(x, s), id) == (if x.id == id then [x] else []) + WithId(s, id)
  {
    if s == [] || x.id >= s[0].id {
      assert InsertById(x, s) == [x] + s;
      assert ([x] + s)[1..] == s;
    } else {
      var rest := InsertById(x, s[1..]);
      assert InsertById(x, s) == [s[0]] + rest;
      WithIdInsert(x, s[1..], id);
      assert ([s[0]] + rest)[1..] == rest;
      var head := if s[0].id == id then [s[0]] else [];
      assert WithId([s[0]] + rest, id) == head + WithId(rest, id);
      assert WithId(s, id) == head + WithId(s[1..], id);
      if x.id == id {
        // s[0] has a larger id than x, so it is not among the messages with x's id.
        assert head == [];
      }
    }
  }

  /** The sort is stable: the messages sharing an id appear in their stored order. */
  lemma {:induction false} SortIsStable(s: seq<Message>, id: int)
    ensures WithId(SortByIdDesc(s), id) == WithId(s, id)
  {
    if s != [] {
      SortIsStable(s[1..], id);
      WithIdInsert(s[0], SortByIdDesc(s[1..]), id);
    }
  }

  /** What displayUserMessages shows for `email`: the stored thread, newest first. */
  function DisplayedThread(threads: map<string, Thread>, email: string): (r: seq<Message>)
    ensures NewestFirst(r)
    ensures multiset(r) == multiset(UserMessages(threads, email))
  {
    SortByIdDesc(UserMessages(threads, email))
  }

  /**
    After a save, both new records are among the messages the dashboard shows
    for that address, and nothing stored before is lost from view.
   */
  lemma {:induction false} SavedMessagesDisplayed(threads: map<string, Thread>, clientAt: Clock, replyAt: Clock,
                                                  name: string, email: string, message: string, subject: string)
    ensures var shown := DisplayedThread(SaveThreads(threads, clientAt, replyAt, name, email, message, subject), email);
      && ClientRecord(clientAt, message, subject) in shown
      && AutoReply(replyAt, name, subject) in shown
      && multiset(UserMessages(threads, email)) <= multiset(shown)
  {
    var after := SaveThreads(threads, clientAt, replyAt, name, email, message, subject);
    var c := ClientRecord(clientAt, message, subject);
    var a := AutoReply(replyAt, name, subject);
    var shown := DisplayedThread(after, email);
    var stored := UserMessages(after, email);
    assert stored == UserMessages(threads, email) + [c, a];
    assert multiset(stored) == multiset(UserMessages(threads, email)) + multiset{c, a};
    assert c in multiset(shown) && a in multiset(shown);
  }
}
