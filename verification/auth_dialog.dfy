/** The sign-in dialog (`AuthDialog.tsx`): a small machine over three modes, sign-in, sign-up
    and password reset, with the checks sign-up makes before asking the auth service. */
module AuthDialog {
  import opened Wrappers
  import SettingsPage

  datatype Mode = SignIn | SignUp | Reset

  /** The dialog's fields and flags; `closed` records that the parent was asked to close it. */
  datatype Dialog = Dialog(mode: Mode, email: string, password: string, displayName: string, confirm: string,
                           error: string, success: string, loading: bool, closed: bool)

  /** A dialog as it is first shown, in the mode the parent asks for. */
  function Opened(mode: Mode): Dialog {
    Dialog(mode, "", "", "", "", "", "", false, false)
  }

  /** `handleClose`: every field and message is cleared, loading stops and the parent is told
      to close; the mode is the one thing kept. */
  function Close(d: Dialog): (r: Dialog)
    ensures r == Opened(d.mode).(closed := true)
  {
    d.(email := "", password := "", displayName := "", confirm := "", error := "", success := "",
       loading := false, closed := true)
  }

  /** Closing forgets everything typed: two dialogs in the same mode close to the same state,
      and closing twice is closing once. */
  lemma CloseForgets(d: Dialog, e: Dialog)
    requires d.mode == e.mode
    ensures Close(d) == Close(e)
    ensures Close(Close(d)) == Close(d)
  {
  }

  /** `switchMode`: the new mode, with both messages cleared and everything else kept. */
  function SwitchMode(d: Dialog, m: Mode): (r: Dialog)
    ensures r.mode == m && r.error == "" && r.success == ""
    ensures r.(mode := d.mode, error := d.error, success := d.success) == d
  {
    d.(mode := m, error := "", success := "")
  }

  /** How the auth service answered: it threw, or it returned with or without an error
      message. */
  datatype AuthAnswer = Threw | Answered(error: Option<string>)

  const MismatchMessage := "Passwords do not match"
  const Unexpected := "An unexpected error occurred"
  const ConfirmationSent := "Please check your email for a " + "confirmation link!"
  const ResetSent := "Password reset email sent! " + "Check your inbox."

  /** The sign-up checks made before the service is asked: a password that differs from its
      confirmation, then one shorter than six characters. */
  function SignUpProblem(password: string, confirm: string): (r: Option<string>)
    ensures r == Some(MismatchMessage) <==> password != confirm
    ensures r == Some(SettingsPage.ShortMessage) <==> password == confirm && |password| < SettingsPage.MinPasswordLength
    ensures r.None? <==> password == confirm && |password| >= SettingsPage.MinPasswordLength
  {
    if password != confirm then Some(MismatchMessage)
    else if |password| < SettingsPage.MinPasswordLength then Some(SettingsPage.ShortMessage)
    else None
  }

  /** Signing up and changing a password refuse exactly the same pairs, for the same reason
      and in the same order; only the wording of the mismatch differs. */
  lemma SameRulesAsPasswordChange(password: string, confirm: string)
    ensures SignUpProblem(password, confirm).None? <==> SettingsPage.PasswordProblem(password, confirm).None?
    ensures SignUpProblem(password, confirm) == Some(MismatchMessage) <==>
            SettingsPage.PasswordProblem(password, confirm) == Some(SettingsPage.MismatchMessage)
    ensures SignUpProblem(password, confirm) == Some(SettingsPage.ShortMessage) <==>
            SettingsPage.PasswordProblem(password, confirm) == Some(SettingsPage.ShortMessage)
  {
  }

  /** The outcome of a call to the service: a thrown error shows a fixed message, a returned
      error its own, and a clean answer `onSuccess`. */
  function Settle(d: Dialog, answer: AuthAnswer, onSuccess: Dialog): (r: Dialog)
    ensures answer.Threw? ==> r == d.(error := Unexpected)
    ensures answer.Answered? && answer.error.Some? ==> r == d.(error := answer.error.value)
    ensures answer == Answered(None) ==> r == onSuccess
  {
    match answer
    case Threw => d.(error := Unexpected)
    case Answered(Some(m)) => d.(error := m)
    case Answered(None) => onSuccess
  }

  /** `handleSubmit`. The messages are cleared first and loading always ends. Sign-in closes
      the dialog on success; sign-up and reset show their message and return to sign-in.
      A sign-up refused by its checks does not reach the service. */
  function Submit(d: Dialog, answer: AuthAnswer): (r: Dialog)
    ensures !r.loading
    ensures answer.Answered? && answer.error.Some? && !(d.mode == SignUp && SignUpProblem(d.password, d.confirm).Some?) ==>
              r.error == answer.error.value && r.success == "" && r.mode == d.mode && r.closed == d.closed
    ensures answer.Threw? && !(d.mode == SignUp && SignUpProblem(d.password, d.confirm).Some?) ==>
              r.error == Unexpected && r.mode == d.mode
    ensures d.mode == SignUp && SignUpProblem(d.password, d.confirm).Some? ==>
              r == d.(error := SignUpProblem(d.password, d.confirm).value, success := "", loading := false)
    ensures answer == Answered(None) && d.mode == SignIn ==> r == Close(d)
    ensures answer == Answered(None) && d.mode == SignUp && SignUpProblem(d.password, d.confirm).None? ==>
              r.mode == SignIn && r.success == ConfirmationSent && r.error == ""
    ensures answer == Answered(None) && d.mode == Reset ==>
              r.mode == SignIn && r.success == ResetSent && r.error == ""
    ensures r.closed <==> d.closed || (answer == Answered(None) && d.mode == SignIn)
  {
    var busy := d.(error := "", success := "", loading := true);
    var settled :=
      match d.mode
      case SignIn => Settle(busy, answer, Close(busy))
      case SignUp =>
        (match SignUpProblem(d.password, d.confirm)
         case Some(m) => busy.(error := m)
         case None => Settle(busy, answer, busy.(success := ConfirmationSent, mode := SignIn)))
      case Reset => Settle(busy, answer, busy.(success := ResetSent, mode := SignIn));
    settled.(loading := false)
  }

  /** A refused sign-up does not depend on what the service would have said: no request is
      made. */
  lemma RefusedSignUpAsksNothing(d: Dialog, a: AuthAnswer, b: AuthAnswer)
    requires d.mode == SignUp && SignUpProblem(d.password, d.confirm).Some?
    ensures Submit(d, a) == Submit(d, b)
  {
  }

  /** Every successful submission ends in sign-in mode, with the dialog closed when it was a
      sign-in. */
  lemma SuccessReturnsToSignIn(d: Dialog)
    requires d.mode != SignUp || SignUpProblem(d.password, d.confirm).None?
    ensures Submit(d, Answered(None)).mode == SignIn
  {
  }

  /** The submit button: enabled when nothing is running, an e-mail is typed and, outside
      reset mode, a password too. */
  predicate SubmitEnabled(d: Dialog) {
    !d.loading && d.email != [] && (d.mode == Reset || d.password != [])
  }

  /** Only reset mode may be submitted without a password; after any submission the button's
      state depends on the typed fields alone. */
  lemma SubmitEnabledLaws(d: Dialog, answer: AuthAnswer)
    ensures d.password == [] && !d.loading && d.email != [] ==> (SubmitEnabled(d) <==> d.mode == Reset)
    ensures var r := Submit(d, answer);
            SubmitEnabled(r) <==> r.email != [] && (r.mode == Reset || r.password != [])
  {
  }
}
