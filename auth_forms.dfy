/**
 * The submit handlers of the registration, password-reset and login forms:
 * client-side validation, then one call to the user service whose outcome
 * is shown in the form's alert slots.
 */
module AuthForms {
  import opened Wrappers
  import opened Alerts

  const MismatchMessage := "Passwords do not match"
  const TooShortMessage := "Password must be at least 8 characters long"
  const NoTokenMessage := "No reset token provided. Please use the link from your email."
  const RegisterFallback := "Registration failed. Please try again."
  const ResetFallback := "Failed to reset password. The link may have expired."
  const LoginFallback := "Login failed. Please check your credentials."
  const MinPasswordLength := 8

  // ---------------------------------------------------------------------
  // Validation

  /** The registration form's check: a mismatch is reported before a short password. */
  function RegisterProblem(password: string, confirm: string): (problem: Option<string>)
    ensures problem == Some(MismatchMessage) <==> password != confirm
    ensures problem == Some(TooShortMessage) <==> password == confirm && |password| < MinPasswordLength
  {
    if password != confirm then Some(MismatchMessage)
    else if |password| < MinPasswordLength then Some(TooShortMessage)
    else None
  }

  /** The reset form's check: a missing token, then a short password, then a mismatch. */
  function ResetProblem(token: string, newPassword: string, confirm: string): (problem: Option<string>)
    ensures problem == Some(NoTokenMessage) <==> token == ""
    ensures problem == Some(TooShortMessage) <==> token != "" && |newPassword| < MinPasswordLength
    ensures problem == Some(MismatchMessage) <==>
      token != "" && |newPassword| >= MinPasswordLength && newPassword != confirm
  {
    if token == "" then Some(NoTokenMessage)
    else if |newPassword| < MinPasswordLength then Some(TooShortMessage)
    else if newPassword != confirm then Some(MismatchMessage)
    else None
  }

  /** Registration goes ahead exactly for matching passwords of at least eight characters. */
  lemma RegisterProblemMeaning(password: string, confirm: string)
    ensures RegisterProblem(password, confirm).None? <==> password == confirm && |password| >= MinPasswordLength
    ensures RegisterProblem(password, confirm).Some? ==>
      RegisterProblem(password, confirm).value in {MismatchMessage, TooShortMessage}
  {
  }

  /** A reset goes ahead exactly with a token and matching passwords of at least eight characters. */
  lemma ResetProblemMeaning(token: string, newPassword: string, confirm: string)
    ensures ResetProblem(token, newPassword, confirm).None? <==>
      token != "" && newPassword == confirm && |newPassword| >= MinPasswordLength
    ensures ResetProblem(token, newPassword, confirm).Some? ==>
      ResetProblem(token, newPassword, confirm).value in {NoTokenMessage, TooShortMessage, MismatchMessage}
  {
  }

  /**
   * The two forms order their checks differently: a short, mismatched pair
   * is a mismatch to the registration form and too short to the reset form.
   */
  lemma ChecksOrderedDifferently(token: string, a: string, b: string)
    requires token != "" && a != b && |a| < MinPasswordLength
    ensures RegisterProblem(a, b) == Some(MismatchMessage)
    ensures ResetProblem(token, a, b) == Some(TooShortMessage)
  {
  }

  // ---------------------------------------------------------------------
  // Which outcomes count as success

  /** Registration succeeds only on a resolved response whose detail is a success. */
  predicate RegisterSucceeds(outcome: Outcome) {
    outcome.Resolved? && IsSuccess(outcome.detail)
  }

  /** A reset succeeds on a success detail, resolved or thrown. */
  predicate ResetSucceeds(outcome: Outcome) {
    IsSuccess(outcome.detail)
  }

  /** Login calls `onSuccess` on every resolved response and on a thrown success detail. */
  predicate LoginCallsOnSuccess(outcome: Outcome) {
    outcome.Resolved? || IsSuccess(outcome.detail)
  }

  /**
   * The three forms read success differently: a thrown success detail is a
   * success to the reset and login forms but only a message to the
   * registration form, and login calls `onSuccess` even for a resolved
   * response whose detail is an error, while that response shows only the
   * error.
   */
  lemma SuccessReadings(message: string, m: string)
    ensures var thrown := Rejected(Some(Detail(message, "success")), m);
      !RegisterSucceeds(thrown) && ResetSucceeds(thrown) && LoginCallsOnSuccess(thrown)
    ensures var failed := Resolved(Some(Detail(message, "error")));
      && LoginCallsOnSuccess(failed) && !RegisterSucceeds(failed) && !ResetSucceeds(failed)
      && OutcomeAlerts(failed, LoginFallback) == Only(ErrorSlot, message)
  {
  }

  /** A shown success alert always comes from a success detail. */
  lemma SuccessAlertMeansSuccessDetail(outcome: Outcome, fallback: string)
    requires OutcomeAlerts(outcome, fallback).success.Some?
    ensures IsSuccess(outcome.detail)
    ensures ResetSucceeds(outcome) && LoginCallsOnSuccess(outcome)
  {
  }

  // ---------------------------------------------------------------------
  // The forms

  class RegisterForm {
    const alerts: AlertSlots
    var username: string
    var email: string
    var password: string
    var confirmPassword: string
    var isLoading: bool
    /** How many times `onSuccess` was called. */
    var successCalls: nat

    constructor ()
      ensures fresh(alerts) && alerts.Current() == Nothing
      ensures username == "" && email == "" && password == "" && confirmPassword == ""
      ensures !isLoading && successCalls == 0
    {
      alerts := new AlertSlots();
      username, email, password, confirmPassword := "", "", "", "";
      isLoading := false;
      successCalls := 0;
    }

    /** The inputs' change handlers. */
    method Edit(username: string, email: string, password: string, confirmPassword: string)
      modifies this`username, this`email, this`password, this`confirmPassword
      ensures this.username == username && this.email == email
      ensures this.password == password && this.confirmPassword == confirmPassword
    {
      this.username, this.email, this.password, this.confirmPassword := username, email, password, confirmPassword;
    }

    /**
     * `handleSubmit`. `outcome` is what the registration call comes to;
     * `requested` says whether the call was made.
     */
    method HandleSubmit(outcome: Outcome) returns (requested: bool)
      modifies alerts, this`username, this`email, this`password, this`confirmPassword, this`isLoading, this`successCalls
      ensures alerts.Current().AtMostOne()
      ensures requested <==> old(RegisterProblem(password, confirmPassword)).None?
      ensures !requested ==>
        && alerts.Current() == Only(ErrorSlot, old(RegisterProblem(password, confirmPassword)).value)
        && isLoading == old(isLoading) && successCalls == old(successCalls)
        && username == old(username) && email == old(email)
        && password == old(password) && confirmPassword == old(confirmPassword)
      ensures requested ==> alerts.Current() == OutcomeAlerts(outcome, RegisterFallback) && !isLoading
      ensures requested && RegisterSucceeds(outcome) ==>
        && username == "" && email == "" && password == "" && confirmPassword == ""
        && successCalls == old(successCalls) + 1
      ensures !(requested && RegisterSucceeds(outcome)) ==>
        && username == old(username) && email == old(email)
        && password == old(password) && confirmPassword == old(confirmPassword)
        && successCalls == old(successCalls)
    {
      alerts.Clear();
      var problem := RegisterProblem(password, confirmPassword);
      if problem.Some? {
        alerts.Show(ErrorSlot, problem.value);
        return false;
      }
      requested := true;
      isLoading := true;
      OutcomeAlertsShape(outcome, RegisterFallback);
      alerts.ShowOutcome(outcome, RegisterFallback);
      if RegisterSucceeds(outcome) {
        username, email, password, confirmPassword := "", "", "", "";
        successCalls := successCalls + 1;
      }
      isLoading := false;
    }
  }

  class ResetPasswordForm {
    const alerts: AlertSlots
    /** The `token` prop; `None` when it was not given. */
    const initialToken: Option<string>
    var token: string
    var newPassword: string
    var confirmPassword: string
    var isLoading: bool
    /** How many redirects (`onSuccess` after three seconds) were scheduled. */
    var scheduledRedirects: nat

    predicate HasInitialToken()
      reads this
    {
      initialToken.Some? && initialToken.value != ""
    }

    constructor (initialToken: Option<string>)
      ensures fresh(alerts) && alerts.Current() == Nothing
      ensures this.initialToken == initialToken
      ensures token == (if HasInitialToken() then initialToken.value else "")
      ensures newPassword == "" && confirmPassword == "" && !isLoading && scheduledRedirects == 0
    {
      alerts := new AlertSlots();
      this.initialToken := initialToken;
      token := if initialToken.Some? && initialToken.value != "" then initialToken.value else "";
      newPassword, confirmPassword := "", "";
      isLoading := false;
      scheduledRedirects := 0;
    }

    /**
     * The mount effect: without a token prop the `token` URL parameter is
     * taken when present and non-empty; otherwise the missing-token error is
     * shown.
     */
    method TakeTokenFromUrl(urlToken: Option<string>)
      modifies this`token, alerts
      ensures HasInitialToken() ==> token == old(token) && alerts.Current() == old(alerts.Current())
      ensures !HasInitialToken() && urlToken.Some? && urlToken.value != "" ==>
        token == urlToken.value && alerts.Current() == old(alerts.Current())
      ensures !HasInitialToken() && (urlToken.None? || urlToken.value == "") ==>
        token == old(token) && alerts.Current() == old(alerts.Current()).With(ErrorSlot, NoTokenMessage)
    {
      if !(initialToken.Some? && initialToken.value != "") {
        if urlToken.Some? && urlToken.value != "" {
          token := urlToken.value;
        } else {
          alerts.Show(ErrorSlot, NoTokenMessage);
        }
      }
    }

    method Edit(newPassword: string, confirmPassword: string)
      modifies this`newPassword, this`confirmPassword
      ensures this.newPassword == newPassword && this.confirmPassword == confirmPassword
    {
      this.newPassword, this.confirmPassword := newPassword, confirmPassword;
    }

    /** `handleSubmit`. */
    method HandleSubmit(outcome: Outcome) returns (requested: bool)
      modifies alerts, this`newPassword, this`confirmPassword, this`isLoading, this`scheduledRedirects
      ensures alerts.Current().AtMostOne()
      ensures requested <==> old(ResetProblem(token, newPassword, confirmPassword)).None?
      ensures !requested ==>
        && alerts.Current() == Only(ErrorSlot, old(ResetProblem(token, newPassword, confirmPassword)).value)
        && isLoading == old(isLoading) && scheduledRedirects == old(scheduledRedirects)
        && newPassword == old(newPassword) && confirmPassword == old(confirmPassword)
      ensures requested ==> alerts.Current() == OutcomeAlerts(outcome, ResetFallback) && !isLoading
      ensures requested && ResetSucceeds(outcome) ==>
        newPassword == "" && confirmPassword == "" && scheduledRedirects == old(scheduledRedirects) + 1
      ensures !(requested && ResetSucceeds(outcome)) ==>
        && newPassword == old(newPassword) && confirmPassword == old(confirmPassword)
        && scheduledRedirects == old(scheduledRedirects)
    {
      alerts.Clear();
      var problem := ResetProblem(token, newPassword, confirmPassword);
      if problem.Some? {
        alerts.Show(ErrorSlot, problem.value);
        return false;
      }
      requested := true;
      isLoading := true;
      OutcomeAlertsShape(outcome, ResetFallback);
      alerts.ShowOutcome(outcome, ResetFallback);
      if ResetSucceeds(outcome) {
        newPassword, confirmPassword := "", "";
        scheduledRedirects := scheduledRedirects + 1;
      }
      isLoading := false;
    }
  }

  class LoginForm {
    const alerts: AlertSlots
    var username: string
    var password: string
    var isLoading: bool
    /** How many times `onSuccess` was called. */
    var successCalls: nat

    constructor ()
      ensures fresh(alerts) && alerts.Current() == Nothing
      ensures username == "" && password == "" && !isLoading && successCalls == 0
    {
      alerts := new AlertSlots();
      username, password := "", "";
      isLoading := false;
      successCalls := 0;
    }

    method Edit(username: string, password: string)
      modifies this`username, this`password
      ensures this.username == username && this.password == password
    {
      this.username, this.password := username, password;
    }

    /** `handleSubmit`: no validation; the login call is always made. */
    method HandleSubmit(outcome: Outcome)
      modifies alerts, this`isLoading, this`successCalls
      ensures alerts.Current() == OutcomeAlerts(outcome, LoginFallback)
      ensures alerts.Current().AtMostOne()
      ensures !isLoading
      ensures successCalls == old(successCalls) + (if LoginCallsOnSuccess(outcome) then 1 else 0)
    {
      alerts.Clear();
      isLoading := true;
      OutcomeAlertsShape(outcome, LoginFallback);
      alerts.ShowOutcome(outcome, LoginFallback);
      if LoginCallsOnSuccess(outcome) {
        successCalls := successCalls + 1;
      }
      isLoading := false;
    }
  }
}
