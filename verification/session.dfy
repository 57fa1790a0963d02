/**
  The session logic of the login form and the dashboard, as pure functions of
  the form input and of the stored keys: validation of the login form, the
  email resolved as the current user's, and the sender name the dashboard uses.
 */
module Session {
  import opened Outcomes
  import opened Text
  import opened Names

  /** What `userData` holds once someone has signed in. */
  datatype UserData = UserData(email: string, name: string, isLoggedIn: bool, loginTime: string)

  /** The three alerts the login form can raise, in the order it checks for them. */
  datatype LoginError = MissingFields | InvalidEmail | ShortPassword

  const MinPasswordLength := 6
  const GuestName := "Guest"

  /**
    The login form's checks: the email is trimmed, the password is not. Empty
    fields are reported first, then a missing '@', then a password shorter
    than six UTF-16 code units; anything else is accepted, with no credential
    check, and yields the trimmed email.
   */
  function ValidateLogin(emailInput: string, password: string): (r: Result<string, LoginError>)
    ensures r == Err(MissingFields) <==> Trim(emailInput) == [] || password == []
    ensures r == Err(InvalidEmail) <==> Trim(emailInput) != [] && password != [] && '@' !in Trim(emailInput)
    ensures r == Err(ShortPassword) <==>
      '@' in Trim(emailInput) && password != [] && Utf16Length(password) < MinPasswordLength
    ensures r.Ok? <==> '@' in Trim(emailInput) && Utf16Length(password) >= MinPasswordLength
    ensures r.Ok? ==> r.value == Trim(emailInput)
  {
    var email := Trim(emailInput);
    if email == [] || password == [] then Err(MissingFields)
    else if '@' !in email then Err(InvalidEmail)
    else if Utf16Length(password) < MinPasswordLength then Err(ShortPassword)
    else Ok(email)
  }

  /**
    An accepted login has a usable name: the email is trimmed, contains '@',
    and the name derived from it is non-empty and free of separators.
   */
  lemma AcceptedLogin(emailInput: string, password: string)
    requires ValidateLogin(emailInput, password).Ok?
    ensures var email := ValidateLogin(emailInput, password).value;
      && email == Trim(emailInput) && '@' in email
      && DisplayName(email) != []
      && FreeOfSeparators(DisplayName(email))
  {
    DisplayNameHasNoSeparators(Trim(emailInput));
  }

  /** JavaScript truthiness of a stored string: present and not empty. */
  predicate Truthy(s: Option<string>) {
    s.Some? && s.value != []
  }

  /**
    The email the dashboard shows (initDashboardFeatures): the signed-in
    user's email if there is one, else the email remembered from the contact
    form, else the empty string.
   */
  function CurrentEmail(userData: Option<UserData>, lastContactEmail: Option<string>): (r: string)
    ensures userData.Some? && userData.value.email != [] ==> r == userData.value.email
    ensures !(userData.Some? && userData.value.email != []) && Truthy(lastContactEmail) ==> r == lastContactEmail.value
    ensures r == [] <==> !(userData.Some? && userData.value.email != []) && !Truthy(lastContactEmail)
  {
    if userData.Some? && userData.value.email != [] then userData.value.email
    else if Truthy(lastContactEmail) then lastContactEmail.value
    else []
  }

  /**
    `userData?.email || lastEmail`, followed by the `!userEmail` check, in the
    dashboard's submit handler: a missing or empty operand falls through.
   */
  function SubmitEmail(userData: Option<UserData>, lastContactEmail: Option<string>): (r: Option<string>)
    ensures r.Some? ==> r.value != []
    ensures userData.Some? && userData.value.email != [] ==> r == Some(userData.value.email)
    ensures !(userData.Some? && userData.value.email != []) ==>
      r == if Truthy(lastContactEmail) then lastContactEmail else None
  {
    var fromSession: Option<string> := if userData.Some? then Some(userData.value.email) else None;
    var chosen := if Truthy(fromSession) then fromSession else lastContactEmail;
    if Truthy(chosen) then chosen else None
  }

  /** The submit handler and the dashboard view resolve the same email, and refuse exactly when there is none. */
  lemma SubmitEmailIsCurrentEmail(userData: Option<UserData>, lastContactEmail: Option<string>)
    ensures SubmitEmail(userData, lastContactEmail) ==
      if CurrentEmail(userData, lastContactEmail) == [] then None else Some(CurrentEmail(userData, lastContactEmail))
  {
  }

  /** `userData?.name || 'Guest'`: the name the dashboard saves messages under. */
  function SenderName(userData: Option<UserData>): (r: string)
    ensures r != []
    ensures userData.Some? && userData.value.name != [] ==> r == userData.value.name
    ensures !(userData.Some? && userData.value.name != []) ==> r == GuestName
  {
    if userData.Some? && userData.value.name != [] then userData.value.name else GuestName
  }
}
