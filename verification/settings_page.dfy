/** The settings page (`SettingsPage.tsx`): the display settings and their saving, and the
    checks made before a password change or an account deletion is requested. */
module SettingsPage {
  import opened Wrappers
  import opened Json
  import SetupForm
  import Client
  import Http
  import Profiles

  /** The user's settings: the unit system values are shown in and whether e-mails are sent. */
  datatype Settings = Settings(units: SetupForm.UnitSystem, notifications: bool)

  /** The settings a page starts with: imperial units, no e-mail. */
  const Defaults := Settings(SetupForm.Imperial, false)

  /** A `Partial<UserSettings>`: the fields a control changes. */
  datatype Patch = Patch(units: Option<SetupForm.UnitSystem>, notifications: Option<bool>)

  /** `{ ...settings, ...newSettings }`: the patched fields take the new values, the others
      keep theirs. */
  function Overlay(s: Settings, p: Patch): (r: Settings)
    ensures p.units.Some? ==> r.units == p.units.value
    ensures p.units.None? ==> r.units == s.units
    ensures p.notifications.Some? ==> r.notifications == p.notifications.value
    ensures p.notifications.None? ==> r.notifications == s.notifications
  {
    Settings(p.units.GetOr(s.units), p.notifications.GetOr(s.notifications))
  }

  /** Applying `q` after `p` is one overlay by the patch that takes `q`'s fields where it has
      them and `p`'s elsewhere; the empty patch changes nothing and a patch applied twice acts
      once. */
  lemma OverlayLaws(s: Settings, p: Patch, q: Patch)
    ensures Overlay(s, Patch(None, None)) == s
    ensures Overlay(Overlay(s, p), p) == Overlay(s, p)
    ensures Overlay(Overlay(s, p), q) ==
            Overlay(s, Patch(if q.units.Some? then q.units else p.units,
                             if q.notifications.Some? then q.notifications else p.notifications))
  {
  }

  function UnitsText(u: SetupForm.UnitSystem): string {
    match u
    case Imperial => "imperial"
    case Metric => "metric"
  }

  /** The request body `{ settings: updatedSettings }`. */
  function Body(s: Settings): (r: Json)
    ensures Member(r, "settings").Some? && Present(Member(r, "settings"))
    ensures Member(Member(r, "settings").value, "displayUnits") == Some(JStr(UnitsText(s.units)))
    ensures Member(Member(r, "settings").value, "emailNotifications") == Some(JBool(s.notifications))
  {
    JObj(map["settings" := JObj(map["displayUnits" := JStr(UnitsText(s.units)), "emailNotifications" := JBool(s.notifications)])])
  }

  /** The page's state: its settings, the unit system of the whole app, and the messages. */
  datatype Page = Page(settings: Settings, appUnits: SetupForm.UnitSystem, loading: bool, error: string, success: string)

  const SaveFailed := "Failed to save settings"
  const Saved := "Settings saved successfully!"

  /** `saveSettings`: without a session nothing happens. The overlay is sent; on success it
      becomes the page's settings and its units the app's units, on failure the page keeps
      its settings and shows the error. */
  function SaveSettings(page: Page, signedIn: bool, patch: Patch, resp: Client.Response, fmt: real -> string): (r: Page)
    ensures !signedIn ==> r == page
    ensures signedIn ==> !r.loading
    ensures signedIn && Client.Answer(resp, SaveFailed, fmt).Success? ==>
              r.settings == Overlay(page.settings, patch) && r.appUnits == r.settings.units
              && r.success == Saved && r.error == page.error
    ensures signedIn && Client.Answer(resp, SaveFailed, fmt).Failure? ==>
              r.settings == page.settings && r.appUnits == page.appUnits
              && r.error == Client.Answer(resp, SaveFailed, fmt).error
  {
    if !signedIn then page
    else
      var updated := Overlay(page.settings, patch);
      match Client.Answer(resp, SaveFailed, fmt)
      case Success(_) => page.(settings := updated, appUnits := updated.units, success := Saved, loading := false)
      case Failure(m) => page.(error := m, loading := false)
  }

  /** What the page sends is what the server stores: the settings function, given the body
      of a save, succeeds unless the store fails, and then holds the overlaid units and
      notification choice under the user's metadata, keeping every other key. */
  lemma SavedSettingsStored(caller: Http.UserId, s: Settings, updateFails: bool, a: Profiles.Accounts)
    requires caller in a.users
    ensures var (reply, after) := Profiles.UpdateUserSettings(Http.Post, Some(caller), Parsed(Body(s)), updateFails, a);
            && (reply.Ok? <==> !updateFails)
            && (reply.Ok? ==>
                  && caller in after.users
                  && after.users[caller]["display_units"] == JStr(UnitsText(s.units))
                  && after.users[caller]["email_notifications"] == JBool(s.notifications)
                  && forall k :: k in a.users[caller] && k != "display_units" && k != "email_notifications" ==>
                       k in after.users[caller] && after.users[caller][k] == a.users[caller][k])
  {
    var (reply, after) := Profiles.UpdateUserSettings(Http.Post, Some(caller), Parsed(Body(s)), updateFails, a);
    if !updateFails {
      assert reply != Http.Err(400, Profiles.SettingsRequired);
      assert reply != Http.Err(500, Profiles.InternalError);
    }
  }

  const MismatchMessage := "New passwords do not match"
  const ShortMessage := "Password must be at least 6 " + "characters long"
  const MinPasswordLength := 6

  /** `handleChangePassword` before its request: a new password that differs from its
      confirmation is refused first, then one shorter than six characters; `None` lets the
      request go. */
  function PasswordProblem(newPassword: string, confirm: string): (r: Option<string>)
    ensures r == Some(MismatchMessage) <==> newPassword != confirm
    ensures r == Some(ShortMessage) <==> newPassword == confirm && |newPassword| < MinPasswordLength
    ensures r.None? <==> newPassword == confirm && |newPassword| >= MinPasswordLength
  {
    if newPassword != confirm then Some(MismatchMessage)
    else if |newPassword| < MinPasswordLength then Some(ShortMessage)
    else None
  }

  /** The change-password dialog. */
  datatype PasswordDialog = PasswordDialog(open: bool, current: string, newPassword: string, confirm: string, loading: bool)

  const PasswordChangeFailed := "Failed to change password"

  /** `handleChangePassword` on the page: a refused password only sets the error; an answered
      request closes and clears the dialog on success and keeps it as it was on failure. */
  function ChangePassword(page: Page, d: PasswordDialog, resp: Client.Response, fmt: real -> string): (r: (Page, PasswordDialog))
    ensures PasswordProblem(d.newPassword, d.confirm).Some? ==>
              r == (page.(error := PasswordProblem(d.newPassword, d.confirm).value), d)
    ensures !r.1.loading || r.1 == d
    ensures PasswordProblem(d.newPassword, d.confirm).None? && Client.Answer(resp, PasswordChangeFailed, fmt).Success? ==>
              !r.1.open && r.1.current == r.1.newPassword == r.1.confirm == [] && r.0.success == "Password changed successfully!"
    ensures PasswordProblem(d.newPassword, d.confirm).None? && Client.Answer(resp, PasswordChangeFailed, fmt).Failure? ==>
              r.1 == d.(loading := false) && r.0.error == Client.Answer(resp, PasswordChangeFailed, fmt).error
  {
    match PasswordProblem(d.newPassword, d.confirm)
    case Some(m) => (page.(error := m), d)
    case None =>
      match Client.Answer(resp, PasswordChangeFailed, fmt)
      case Success(_) =>
        (page.(success := "Password changed successfully!"),
         PasswordDialog(false, "", "", "", false))
      case Failure(m) => (page.(error := m), d.(loading := false))
  }

  /** The dialog's submit button is enabled only with all three fields filled and no
      request running. */
  predicate PasswordSubmitEnabled(d: PasswordDialog) {
    !d.loading && d.current != [] && d.newPassword != [] && d.confirm != []
  }

  /** A mismatch is reported even when the new password is also too short, and an enabled
      button can still lead to a refusal: the checks on submit are not the button's. */
  lemma MismatchReportedFirst()
    ensures PasswordProblem("abc", "abd") == Some(MismatchMessage)
    ensures PasswordSubmitEnabled(PasswordDialog(true, "old", "abc", "abc", false))
            && PasswordProblem("abc", "abc") == Some(ShortMessage)
  {
  }

  const DeleteWord := "DELETE"
  const DeleteRefused := "Please type DELETE to confirm " + "account deletion"

  /** `handleDeleteAccount` before its request, and the state of its button: both demand the
      confirmation to be exactly `DELETE`. */
  function DeletionProblem(confirmation: string): (r: Option<string>)
    ensures r.None? <==> confirmation == DeleteWord
    ensures r.Some? ==> r.value == DeleteRefused
  {
    if confirmation != DeleteWord then Some(DeleteRefused) else None
  }

  /** The delete button is enabled only for the exact word and no running request. */
  predicate DeleteEnabled(confirmation: string, loading: bool) {
    !loading && confirmation == DeleteWord
  }

  /** An enabled delete button always gets past the check on submit, and a case-changed or
      padded word is refused by both. */
  lemma DeleteButtonMatchesCheck(confirmation: string)
    ensures DeleteEnabled(confirmation, false) <==> DeletionProblem(confirmation).None?
    ensures DeletionProblem("delete").Some? && DeletionProblem("DELETE ").Some?
  {
  }
}
