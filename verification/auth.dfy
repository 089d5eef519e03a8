/**
 * The login screen's submit rule (ui/auth/LoginScreen.kt): validation, the delayed
 * credential check, the call into the view model and the error messages. The text fields
 * stay editable while the check waits, so the delayed check reads the fields as they are
 * when it runs; a submission is modelled from the click's form and that later form.
 */
module LoginForm {
  import opened Options
  import opened Text
  import opened UserViewModel
  import Routes

  /** The screen's state: the two fields, the loading flag and the error message. */
  datatype Form = Form(email: string, password: string, isLoading: bool, errorMessage: string)

  const MinPasswordLength: int := 6
  const FillAllFields: string := "Please fill all fields"
  const InvalidCredentials: string := "Invalid credentials"

  /** `validateLogin`: neither field is blank. */
  function ValidateLogin(email: string, password: string): (r: bool)
    ensures r <==> && (exists i :: 0 <= i < |email| && !IsWhitespace(email[i]))
                   && (exists i :: 0 <= i < |password| && !IsWhitespace(password[i]))
    ensures r ==> email != [] && password != []
  {
    !IsBlank(email) && !IsBlank(password)
  }

  /** The login button reacts only while no submission is running. */
  predicate LoginButtonEnabled(f: Form) {
    !f.isLoading
  }

  /** The delayed check: a non-blank email and at least six characters of password. */
  predicate CredentialsAccepted(email: string, password: string) {
    !IsBlank(email) && |password| >= MinPasswordLength
  }

  /** When an unedited submission logs the user in: it passes both the click's and the delayed check. */
  predicate LoginAccepted(email: string, password: string) {
    ValidateLogin(email, password) && CredentialsAccepted(email, password)
  }

  /** The result of one submission: the screen state, the view model state and where it navigates. */
  datatype Outcome = Outcome(form: Form, session: Session, navigateTo: Option<string>)

  /** The click itself: valid input starts loading and clears the message; invalid input sets it. */
  function PressLogin(f: Form): Form {
    if ValidateLogin(f.email, f.password) then f.(isLoading := true, errorMessage := "")
    else f.(errorMessage := FillAllFields)
  }

  /** The delayed block: log in and go home on success, otherwise report invalid credentials. */
  function FinishLogin(f: Form, s: Session): Outcome {
    if CredentialsAccepted(f.email, f.password) then Outcome(f.(isLoading := false), Login(s, f.email, f.password), Some(Routes.Home))
    else Outcome(f.(isLoading := false, errorMessage := InvalidCredentials), s, None)
  }

  /**
   * One click on an enabled login button, run to completion, where `later` holds the field
   * contents when the delayed check runs. Invalid input at the click ends there. Valid input
   * waits; then the text of `later` decides, and is what the view model receives.
   */
  function SubmitLoginEdited(f: Form, later: Form, s: Session): (r: Outcome)
    requires LoginButtonEnabled(f)
    ensures !ValidateLogin(f.email, f.password) ==>
              && r.navigateTo == None && r.session == s && r.form.errorMessage == FillAllFields
              && r.form.email == f.email && r.form.password == f.password
    ensures ValidateLogin(f.email, f.password) ==>
              && (r.navigateTo.Some? <==> CredentialsAccepted(later.email, later.password))
              && r.form.email == later.email && r.form.password == later.password
    ensures r.navigateTo.Some? ==>
              && r.navigateTo == Some(Routes.Home) && r.form.errorMessage == ""
              && r.session.isLoggedIn && r.session.cart == s.cart && r.session.favorites == s.favorites
    ensures ValidateLogin(f.email, f.password) && !CredentialsAccepted(later.email, later.password) ==>
              r.session == s && r.form.errorMessage == InvalidCredentials
    ensures LoginButtonEnabled(r.form)
  {
    var pressed := PressLogin(f);
    if ValidateLogin(f.email, f.password) then
      FinishLogin(pressed.(email := later.email, password := later.password), s)
    else Outcome(pressed, s, None)
  }

  /**
   * A password that was non-blank at the click but is six spaces when the check runs still
   * logs the user in: the delayed check counts characters and does not look for blanks.
   */
  lemma EditedBlankPasswordLogsIn(s: Session)
    ensures SubmitLoginEdited(Form("a@b.c", "secret", false, ""), Form("a@b.c", "      ", false, ""), s).navigateTo
            == Some(Routes.Home)
  {
    assert !IsBlank("a@b.c") by { assert !IsWhitespace("a@b.c"[0]); }
    assert !IsBlank("secret") by { assert !IsWhitespace("secret"[0]); }
  }

  /**
   * One click on an enabled login button whose fields are left alone until the check ends.
   * The user is logged in, and the screen goes home, exactly when the input is accepted;
   * otherwise the view model is not called and the message says whether a field was blank
   * or the credentials were refused.
   */
  function SubmitLogin(f: Form, s: Session): (r: Outcome)
    requires LoginButtonEnabled(f)
    ensures r.navigateTo.Some? <==> LoginAccepted(f.email, f.password)
    ensures LoginAccepted(f.email, f.password) ==>
              && r.navigateTo == Some(Routes.Home)
              && r.session.isLoggedIn && r.session.cart == s.cart && r.session.favorites == s.favorites
              && r.form.errorMessage == ""
    ensures !LoginAccepted(f.email, f.password) ==> r.session == s
    ensures !ValidateLogin(f.email, f.password) ==> r.form.errorMessage == FillAllFields
    ensures ValidateLogin(f.email, f.password) && !LoginAccepted(f.email, f.password) ==>
              r.form.errorMessage == InvalidCredentials
    ensures LoginButtonEnabled(r.form) && r.form.email == f.email && r.form.password == f.password
  {
    SubmitLoginEdited(f, f, s)
  }

  /** Between the click and the delayed check, a valid submission shows no message and disables the button. */
  lemma PressValidLoginWaits(f: Form)
    requires ValidateLogin(f.email, f.password)
    ensures !LoginButtonEnabled(PressLogin(f)) && PressLogin(f).errorMessage == ""
  {
  }
}

/**
 * The registration screen's submit rule (ui/auth/RegisterScreen.kt): validation, the
 * error message choice and the delayed navigation. Registration does not touch the view
 * model. The text fields stay editable during the delay, and the delayed block reads them
 * again; a submission is modelled from the click's form and the form when the delay ends.
 */
module RegisterForm {
  import opened Options
  import opened Text
  import Routes

  datatype Form = Form(name: string, email: string, phone: string, password: string,
                       confirmPassword: string, isLoading: bool, errorMessage: string)

  const FillAllFields: string := "Please fill all fields"
  const PasswordsDoNotMatch: string := "Passwords do not match"

  /** `validateRegistration`: no field is blank and the two passwords are equal. */
  function ValidateRegistration(f: Form): (r: bool)
    ensures r ==> f.password == f.confirmPassword
    ensures r <==> && f.password == f.confirmPassword
                   && (exists i :: 0 <= i < |f.name| && !IsWhitespace(f.name[i]))
                   && (exists i :: 0 <= i < |f.email| && !IsWhitespace(f.email[i]))
                   && (exists i :: 0 <= i < |f.phone| && !IsWhitespace(f.phone[i]))
                   && (exists i :: 0 <= i < |f.password| && !IsWhitespace(f.password[i]))
  {
    && !IsBlank(f.name)
    && !IsBlank(f.email)
    && !IsBlank(f.phone)
    && !IsBlank(f.password)
    && !IsBlank(f.confirmPassword)
    && f.password == f.confirmPassword
  }

  predicate RegisterButtonEnabled(f: Form) {
    !f.isLoading
  }

  /** The click itself: valid input starts loading and clears the message; invalid input picks one. */
  function PressRegister(f: Form): Form {
    if ValidateRegistration(f) then f.(isLoading := true, errorMessage := "")
    else if f.password != f.confirmPassword then f.(errorMessage := PasswordsDoNotMatch)
    else f.(errorMessage := FillAllFields)
  }

  /** Between the click and the delayed step, a valid registration shows no message and disables the button. */
  lemma PressValidRegistrationWaits(f: Form)
    requires ValidateRegistration(f)
    ensures !RegisterButtonEnabled(PressRegister(f)) && PressRegister(f).errorMessage == ""
    ensures PressRegister(f).(isLoading := f.isLoading, errorMessage := f.errorMessage) == f
  {
  }

  /** The delayed block: stop loading, then go home if the passwords match, else report the mismatch. */
  function FinishRegistration(f: Form): (Form, Option<string>) {
    var done := f.(isLoading := false);
    if f.password == f.confirmPassword then (done, Some(Routes.Home))
    else (done.(errorMessage := PasswordsDoNotMatch), None)
  }

  /** `f` with the five text fields as they read in `later`. */
  function WithFieldsOf(f: Form, later: Form): Form {
    f.(name := later.name, email := later.email, phone := later.phone,
       password := later.password, confirmPassword := later.confirmPassword)
  }

  /**
   * One click on an enabled register button, run to completion, where `later` holds the
   * field contents when the delay ends. Invalid input at the click ends there, with the
   * mismatch message whenever the passwords differ and the fill-all message otherwise. Valid
   * input waits; then only the passwords of `later` are compared, so blank fields typed in
   * the meantime go unnoticed and passwords made different show the mismatch message.
   */
  function SubmitRegistrationEdited(f: Form, later: Form): (r: (Form, Option<string>))
    requires RegisterButtonEnabled(f)
    ensures !ValidateRegistration(f) ==>
              && r.1 == None
              && r.0.(isLoading := f.isLoading, errorMessage := f.errorMessage) == f
              && (f.password != f.confirmPassword ==> r.0.errorMessage == PasswordsDoNotMatch)
              && (f.password == f.confirmPassword ==> r.0.errorMessage == FillAllFields)
    ensures ValidateRegistration(f) ==>
              && (r.1.Some? <==> later.password == later.confirmPassword)
              && (later.password != later.confirmPassword ==> r.0.errorMessage == PasswordsDoNotMatch)
              && r.0.(isLoading := later.isLoading, errorMessage := later.errorMessage) == later
    ensures r.1.Some? ==> r.1.value == Routes.Home && r.0.errorMessage == ""
    ensures RegisterButtonEnabled(r.0)
  {
    var pressed := PressRegister(f);
    if ValidateRegistration(f) then FinishRegistration(WithFieldsOf(pressed, later)) else (pressed, None)
  }

  /**
   * One click on an enabled register button whose fields are left alone during the delay.
   * It goes home exactly for valid input. Otherwise the message names the password mismatch
   * whenever the passwords differ, even if fields are also blank, and asks to fill all
   * fields when they are equal.
   */
  function SubmitRegistration(f: Form): (r: (Form, Option<string>))
    requires RegisterButtonEnabled(f)
    ensures r.1.Some? <==> ValidateRegistration(f)
    ensures r.1.Some? ==> r.1.value == Routes.Home && r.0.errorMessage == ""
    ensures !ValidateRegistration(f) && f.password != f.confirmPassword ==> r.0.errorMessage == PasswordsDoNotMatch
    ensures !ValidateRegistration(f) && f.password == f.confirmPassword ==> r.0.errorMessage == FillAllFields
    ensures RegisterButtonEnabled(r.0)
    ensures r.0.(isLoading := f.isLoading, errorMessage := f.errorMessage) == f
  {
    SubmitRegistrationEdited(f, f)
  }

  /** Without edits during the delay, a valid press always ends on the home route, never on the mismatch. */
  lemma DelayedMismatchNeedsEdit(f: Form)
    requires RegisterButtonEnabled(f) && ValidateRegistration(f)
    ensures SubmitRegistrationEdited(f, f).1 == Some(Routes.Home)
    ensures SubmitRegistrationEdited(f, f).0.errorMessage == ""
  {
  }

  /** Retyping the confirmation differently during the delay reaches the delayed mismatch message. */
  lemma EditedConfirmationShowsMismatch(f: Form, confirm: string)
    requires RegisterButtonEnabled(f) && ValidateRegistration(f)
    requires confirm != f.password
    ensures SubmitRegistrationEdited(f, f.(confirmPassword := confirm)).1 == None
    ensures SubmitRegistrationEdited(f, f.(confirmPassword := confirm)).0.errorMessage == PasswordsDoNotMatch
  {
  }

  /** Clearing the name during the delay still registers: the delayed block checks only the passwords. */
  lemma EditedBlankNameStillRegisters(f: Form)
    requires RegisterButtonEnabled(f) && ValidateRegistration(f)
    ensures SubmitRegistrationEdited(f, f.(name := "")).1 == Some(Routes.Home)
    ensures IsBlank(SubmitRegistrationEdited(f, f.(name := "")).0.name)
  {
  }
}
