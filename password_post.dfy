/**
  The admin password change: an ordered series of early-return checks
  (logged in, current password right, new password long enough, the two
  new passwords equal) before the credential store is asked to change
  anything.

  The session lookup, the current-password check and the store update
  are parameters. Every failure inside validate_current_password (no
  username for the id, a database error, a wrong password) counts as a
  wrong current password, as the handler only asks whether it failed.
 */
module PasswordChange {
  import opened Wrappers
  import opened Http

  /** Stands for the user's Uuid. */
  type UserId = nat

  datatype FormData = FormData(currentPassword: string, newPassword: string, newPasswordCheck: string)

  /** What the session gives back for the user id key. */
  datatype SessionLookup = SessionFailure(message: string) | Anonymous | LoggedIn(userId: UserId)

  const PASSWORD_PAGE := "/admin/password"
  const LOGIN_PAGE := "/login"
  const MIN_EXCLUSIVE_LENGTH := 12

  const WRONG_CURRENT := FlashMessage(Error, "Wrong current password!")
  const TOO_SHORT := FlashMessage(Error, "Password must be longer than 12 symbols")
  const MISMATCH := FlashMessage(Error, "You entered two different new passwords - the field values must match.")
  /** Sent at error level, as the handler does. */
  const CHANGED := FlashMessage(Error, "Your password has been changed.")

  /** Bytes one character takes in UTF-8. */
  function Utf8Width(c: char): (n: nat)
    ensures 1 <= n <= 4
  {
    if c as int < 0x80 then 1
    else if c as int < 0x800 then 2
    else if c as int < 0x1_0000 then 3
    else 4
  }

  /** String::len: the length in UTF-8 bytes, which is what the length rule counts. */
  function Utf8Len(s: string): (n: nat)
    ensures |s| <= n <= 4 * |s|
  {
    if s == [] then 0 else Utf8Width(s[0]) + Utf8Len(s[1..])
  }

  /** redirect_back_to_page: back to the password form. */
  function RedirectBackToPage(): (r: HttpResponse)
    ensures r.location == PASSWORD_PAGE
  {
    SeeOther(PASSWORD_PAGE)
  }

  /** reject_anonymous_users: the user id, a 500, or an error that redirects to the login page. */
  function RejectAnonymousUsers(session: SessionLookup): (r: Result<UserId, HandlerError>)
    ensures r.Ok? <==> session.LoggedIn?
    ensures r.Ok? ==> r.value == session.userId
    ensures session.Anonymous? ==> r.Err? && r.error.ErrorWithResponse? && r.error.response == SeeOther(LOGIN_PAGE)
    ensures session.SessionFailure? ==> r.Err? && r.error.InternalServerError?
  {
    match session
    case SessionFailure(message) => Err(InternalServerError(message))
    case Anonymous => Err(ErrorWithResponse(SeeOther(LOGIN_PAGE), "The user has not logged in"))
    case LoggedIn(userId) => Ok(userId)
  }

  /** The handler's answer, the flash it leaves and whether it asked the store to change the password. */
  datatype ChangeOutcome = ChangeOutcome(
    response: Result<HttpResponse, HandlerError>,
    flash: Option<FlashMessage>,
    storeCalled: bool)

  /** The form passes all three checks for this user. */
  predicate PassesChecks(userId: UserId, form: FormData, currentPasswordValid: (UserId, string) -> bool) {
    && currentPasswordValid(userId, form.currentPassword)
    && Utf8Len(form.newPassword) > MIN_EXCLUSIVE_LENGTH
    && form.newPassword == form.newPasswordCheck
  }

  /**
    change_password. The store is called exactly when a logged-in user's
    form passes every check; every answer that is not an error sends the
    browser back to the password page.
   */
  function ChangePassword(
    session: SessionLookup, form: FormData,
    currentPasswordValid: (UserId, string) -> bool, storeResult: Result<(), string>): (out: ChangeOutcome)
    ensures out.storeCalled <==> session.LoggedIn? && PassesChecks(session.userId, form, currentPasswordValid)
    ensures out.response.Ok? ==> out.response.value == SeeOther(PASSWORD_PAGE) && out.flash.Some?
    ensures out.response.Err? ==> out.flash.None?
    ensures out.response.Err? <==> !session.LoggedIn? || (out.storeCalled && storeResult.Err?)
    ensures out.storeCalled && storeResult.Err? ==>
      out.response == Err(InternalServerError(storeResult.error))
    ensures out.storeCalled && storeResult.Ok? ==> out.flash == Some(CHANGED)
  {
    match RejectAnonymousUsers(session)
    case Err(e) => ChangeOutcome(Err(e), None, false)
    case Ok(userId) =>
      if !currentPasswordValid(userId, form.currentPassword) then
        ChangeOutcome(Ok(RedirectBackToPage()), Some(WRONG_CURRENT), false)
      else if Utf8Len(form.newPassword) <= MIN_EXCLUSIVE_LENGTH then
        ChangeOutcome(Ok(RedirectBackToPage()), Some(TOO_SHORT), false)
      else if form.newPassword != form.newPasswordCheck then
        ChangeOutcome(Ok(RedirectBackToPage()), Some(MISMATCH), false)
      else
        match storeResult
        case Err(cause) => ChangeOutcome(Err(InternalServerError(cause)), None, true)
        case Ok(_) => ChangeOutcome(Ok(RedirectBackToPage()), Some(CHANGED), true)
  }

  /** An anonymous session is turned away to the login page whatever the form holds. */
  lemma AnonymousRejectedFirst(
    form: FormData, currentPasswordValid: (UserId, string) -> bool, storeResult: Result<(), string>)
    ensures var out := ChangePassword(Anonymous, form, currentPasswordValid, storeResult);
      out.response == Err(ErrorWithResponse(SeeOther(LOGIN_PAGE), "The user has not logged in"))
      && !out.storeCalled && out.flash.None?
  {
  }

  /** A wrong current password wins over every later check, whatever the new passwords are. */
  lemma WrongCurrentPasswordCheckedSecond(
    userId: UserId, form: FormData, currentPasswordValid: (UserId, string) -> bool, storeResult: Result<(), string>)
    requires !currentPasswordValid(userId, form.currentPassword)
    ensures ChangePassword(LoggedIn(userId), form, currentPasswordValid, storeResult)
      == ChangeOutcome(Ok(SeeOther(PASSWORD_PAGE)), Some(WRONG_CURRENT), false)
  {
  }

  /** The length rule applies only once the current password is right, and before the match check. */
  lemma ShortPasswordCheckedThird(
    userId: UserId, form: FormData, currentPasswordValid: (UserId, string) -> bool, storeResult: Result<(), string>)
    requires currentPasswordValid(userId, form.currentPassword)
    requires Utf8Len(form.newPassword) <= MIN_EXCLUSIVE_LENGTH
    ensures ChangePassword(LoggedIn(userId), form, currentPasswordValid, storeResult)
      == ChangeOutcome(Ok(SeeOther(PASSWORD_PAGE)), Some(TOO_SHORT), false)
  {
  }

  /** Mismatched new passwords are turned away only after the length rule passed. */
  lemma MismatchCheckedLast(
    userId: UserId, form: FormData, currentPasswordValid: (UserId, string) -> bool, storeResult: Result<(), string>)
    requires currentPasswordValid(userId, form.currentPassword)
    requires Utf8Len(form.newPassword) > MIN_EXCLUSIVE_LENGTH
    requires form.newPassword != form.newPasswordCheck
    ensures ChangePassword(LoggedIn(userId), form, currentPasswordValid, storeResult)
      == ChangeOutcome(Ok(SeeOther(PASSWORD_PAGE)), Some(MISMATCH), false)
  {
  }
}
