/**
  The event handlers that change the store: the login form, the logout
  button, the contact form and the dashboard's message form, and what the
  dashboard shows on load. The relay (the hosted form service the forms post
  to) is not modelled; its answer is an input.
 */
module Handlers {
  import opened Outcomes
  import opened Text
  import opened Names
  import opened MessageLog
  import opened ThreadView
  import opened Session
  import opened Storage
  import opened Messaging

  /**
    What `response.json()` makes of the relay's answer: `null`; an object,
    seen through the truthiness of its `success` and the text of its
    `errors._form` (empty when that is absent or falsy; any other JSON value
    reads the same as an object without either); or a body that is not JSON,
    on which `response.json()` throws.
   */
  datatype Body = NullBody | Object(success: bool, formError: string) | NotJson

  /** How the relay answered: a response with its `ok` flag and its body, or `fetch` threw. */
  datatype Relay = Response(ok: bool, body: Body) | Failed

  /**
    The one answer on which the dashboard form saves twice: a non-2xx
    response with a `null` body is saved in the else branch, then reading
    `result.errors` on `null` throws and the catch block saves again.
   */
  predicate SavedTwice(relay: Relay) {
    relay.Response? && !relay.ok && relay.body.NullBody?
  }

  /** The status line the contact form shows. */
  datatype ContactStatus = FillInAllFields | InvalidEmailAddress | MessageSent | SomethingWentWrong | NetworkError

  /** The alert the dashboard form raises. */
  datatype DashboardStatus =
    | LoginFirst
    | FillSubjectAndMessage
    | Delivered
    | SavedWithRelayError(formError: string)
    | SavedEmailFailed
    | SavedNetworkIssue

  /**
    The login form: on valid input, writes `userData` (the trimmed email, its
    display name, logged in, the login time) and `isLoggedIn = 'true'` and
    returns the name; on invalid input returns the first failed check and
    writes nothing. The message keys and `lastContactEmail` are never touched.
   */
  method Login(store: LocalStorage, emailInput: string, password: string, loginTime: string)
    returns (r: Result<string, LoginError>)
    modifies store
    ensures r.Err? <==> ValidateLogin(emailInput, password).Err?
    ensures r.Err? ==> r.error == ValidateLogin(emailInput, password).error
    ensures r.Err? ==> store.userData == old(store.userData) && store.isLoggedIn == old(store.isLoggedIn)
    ensures r.Ok? ==> r.value == DisplayName(Trim(emailInput))
    ensures r.Ok? ==> store.userData == Some(UserData(Trim(emailInput), r.value, true, loginTime))
    ensures r.Ok? ==> store.isLoggedIn == Some("true")
    ensures store.clientMessages == old(store.clientMessages) && store.approvedUsers == old(store.approvedUsers)
    ensures store.lastContactEmail == old(store.lastContactEmail)
    ensures old(store.Valid()) ==> store.Valid()
  {
    var checked := ValidateLogin(emailInput, password);
    match checked
    case Err(e) =>
      r := Err(e);
    case Ok(email) =>
      var userName := DisplayName(email);
      store.userData := Some(UserData(email, userName, true, loginTime));
      store.isLoggedIn := Some("true");
      r := Ok(userName);
  }

  /**
    The logout button: once confirmed, removes exactly `userData` and
    `isLoggedIn`; removing a missing key does nothing, so logging out twice is
    the same as once. Messages, approved users and the remembered contact
    email stay.
   */
  method Logout(store: LocalStorage, confirmed: bool)
    modifies store
    ensures confirmed ==> store.userData == None && store.isLoggedIn == None
    ensures !confirmed ==> store.userData == old(store.userData) && store.isLoggedIn == old(store.isLoggedIn)
    ensures store.clientMessages == old(store.clientMessages) && store.approvedUsers == old(store.approvedUsers)
    ensures store.lastContactEmail == old(store.lastContactEmail)
    ensures old(store.Valid()) ==> store.Valid()
  {
    if confirmed {
      store.userData := None;
      store.isLoggedIn := None;
    }
  }

  /**
    The contact form. Name, email and message are trimmed and the email is
    lower-cased; an empty field or an email without '@' is refused with
    nothing stored. Otherwise the message is saved with the default subject
    before the relay is asked, so it is stored whatever the relay answers;
    only an accepting relay makes the email the remembered `lastContactEmail`.
   */
  method ContactSubmit(store: LocalStorage, clientAt: Clock, replyAt: Clock,
                       nameInput: string, emailInput: string, messageInput: string, relay: Relay)
    returns (status: ContactStatus)
    modifies store
    ensures status == FillInAllFields <==> Trim(nameInput) == [] || Trim(emailInput) == [] || Trim(messageInput) == []
    ensures status == InvalidEmailAddress <==>
      Trim(nameInput) != [] && Trim(messageInput) != [] && Trim(emailInput) != [] && '@' !in Trim(emailInput)
    ensures status in {FillInAllFields, InvalidEmailAddress} ==>
      && store.clientMessages == old(store.clientMessages) && store.approvedUsers == old(store.approvedUsers)
      && store.lastContactEmail == old(store.lastContactEmail)
    ensures status !in {FillInAllFields, InvalidEmailAddress} ==>
      var email := LowerCase(Trim(emailInput));
      && store.clientMessages == SaveThreads(old(store.clientMessages), clientAt, replyAt,
                                             Trim(nameInput), email, Trim(messageInput), DefaultSubject)
      && store.approvedUsers == SaveApproved(old(store.approvedUsers), email)
      && store.lastContactEmail == (if relay.Response? && relay.ok then Some(email) else old(store.lastContactEmail))
      && status == match relay
                   case Response(ok, _) => if ok then MessageSent else SomethingWentWrong
                   case Failed => NetworkError
    ensures store.userData == old(store.userData) && store.isLoggedIn == old(store.isLoggedIn)
    ensures old(store.Valid()) ==> store.Valid()
  {
    var name := Trim(nameInput);
    var email := LowerCase(Trim(emailInput));
    var message := Trim(messageInput);
    LowerCaseKeepsAt(Trim(emailInput));

    if name == [] || email == [] || message == [] {
      return FillInAllFields;
    }
    if '@' !in email {
      return InvalidEmailAddress;
    }

    var _ := SaveClientMessage(store, clientAt, replyAt, name, email, message);

    match relay
    case Response(ok, _) =>
      if ok {
        store.lastContactEmail := Some(email);
        status := MessageSent;
      } else {
        status := SomethingWentWrong;
      }
    case Failed =>
      status := NetworkError;
  }

  /**
    The dashboard's message form. The email is the session's, else the one
    remembered from the contact form; with neither, or with an empty (trimmed)
    subject or message, nothing is stored. Otherwise the message is saved under
    that email, with the session's name (else "Guest"), whatever the relay
    answers; only the alert differs. It is saved once, except on the answer
    `SavedTwice` names, where the catch block saves it a second time with the
    clock readings `retryClientAt` and `retryReplyAt`.
   */
  method DashboardSubmit(store: LocalStorage, clientAt: Clock, replyAt: Clock, retryClientAt: Clock, retryReplyAt: Clock,
                         subjectInput: string, messageInput: string, relay: Relay)
    returns (status: DashboardStatus)
    modifies store
    ensures status == LoginFirst <==> CurrentEmail(old(store.userData), old(store.lastContactEmail)) == []
    ensures status == FillSubjectAndMessage <==>
      CurrentEmail(old(store.userData), old(store.lastContactEmail)) != []
      && (Trim(subjectInput) == [] || Trim(messageInput) == [])
    ensures status in {LoginFirst, FillSubjectAndMessage} ==>
      store.clientMessages == old(store.clientMessages) && store.approvedUsers == old(store.approvedUsers)
    ensures status !in {LoginFirst, FillSubjectAndMessage} ==>
      var email := CurrentEmail(old(store.userData), old(store.lastContactEmail));
      var name := SenderName(old(store.userData));
      var once := SaveThreads(old(store.clientMessages), clientAt, replyAt, name, email, Trim(messageInput), Trim(subjectInput));
      && store.clientMessages ==
           (if SavedTwice(relay)
            then SaveThreads(once, retryClientAt, retryReplyAt, name, email, Trim(messageInput), Trim(subjectInput))
            else once)
      && |UserMessages(store.clientMessages, email)| ==
           |UserMessages(old(store.clientMessages), email)| + (if SavedTwice(relay) then 4 else 2)
      && store.approvedUsers == SaveApproved(old(store.approvedUsers), email)
      && status == match relay
                   case Failed => SavedNetworkIssue
                   case Response(ok, body) =>
                     if body.Object? && ok && body.success then Delivered
                     else if body.Object? then
                       (if body.formError != [] then SavedWithRelayError(body.formError) else SavedEmailFailed)
                     else SavedNetworkIssue
    ensures store.userData == old(store.userData) && store.isLoggedIn == old(store.isLoggedIn)
    ensures store.lastContactEmail == old(store.lastContactEmail)
    ensures old(store.Valid()) ==> store.Valid()
  {
    SubmitEmailIsCurrentEmail(store.userData, store.lastContactEmail);
    var userEmail := SubmitEmail(store.userData, store.lastContactEmail);
    var userName := SenderName(store.userData);
    var subject := Trim(subjectInput);
    var message := Trim(messageInput);

    if userEmail.None? {
      return LoginFirst;
    }
    if subject == [] || message == [] {
      return FillSubjectAndMessage;
    }

    match relay
    case Failed =>
      // `fetch` threw: only the catch block saves.
      var _ := SaveClientMessage(store, clientAt, replyAt, userName, userEmail.value, message, subject);
      status := SavedNetworkIssue;
    case Response(ok, body) =>
      if body.NotJson? || (ok && body.NullBody?) {
        // `response.json()` or `result.success` threw before any save: only the catch block saves.
        var _ := SaveClientMessage(store, clientAt, replyAt, userName, userEmail.value, message, subject);
        status := SavedNetworkIssue;
      } else if ok && body.Object? && body.success {
        var _ := SaveClientMessage(store, clientAt, replyAt, userName, userEmail.value, message, subject);
        status := Delivered;
      } else {
        var _ := SaveClientMessage(store, clientAt, replyAt, userName, userEmail.value, message, subject);
        if body.NullBody? {
          // `result.errors` threw on `null`: the catch block saves again.
          var _ := SaveClientMessage(store, retryClientAt, retryReplyAt, userName, userEmail.value, message, subject);
          status := SavedNetworkIssue;
        } else {
          status := if body.formError != [] then SavedWithRelayError(body.formError) else SavedEmailFailed;
        }
      }
  }

  /**
    What the dashboard lists on load: with a signed-in session, or else with a
    remembered contact email, the thread of the current email, newest first;
    otherwise no list at all.
   */
  function DashboardThread(userData: Option<UserData>, lastContactEmail: Option<string>,
                           threads: map<string, Thread>): (r: Option<seq<Message>>)
    ensures r.None? <==> !(userData.Some? && userData.value.isLoggedIn) && CurrentEmail(userData, lastContactEmail) == []
    ensures r.Some? ==> NewestFirst(r.value)
    ensures r.Some? ==> multiset(r.value) == multiset(UserMessages(threads, CurrentEmail(userData, lastContactEmail)))
  {
    var userEmail := CurrentEmail(userData, lastContactEmail);
    if (userData.Some? && userData.value.isLoggedIn) || userEmail != [] then Some(DisplayedThread(threads, userEmail))
    else None
  }
}
