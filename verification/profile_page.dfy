/** The profile page (`ProfilePage.tsx`): what it derives from the signed-in user (name,
    initials, avatar), the checks it makes before uploading an avatar, and the editing of
    the display name. */
module ProfilePage {
  import opened Wrappers
  import opened Text
  import opened Json
  import opened Uploads
  import Client
  import Http
  import Profiles

  /** The first character of every piece, skipping empty pieces (`n[0]` is `undefined`,
      which `join` renders as nothing). */
  function Heads(pieces: seq<string>): (r: string)
    ensures |r| == |KeepNonEmpty(pieces)|
    ensures forall i :: 0 <= i < |r| ==> r[i] == KeepNonEmpty(pieces)[i][0]
  {
    if |pieces| == 0 then []
    else if pieces[0] == [] then Heads(pieces[1..])
    else [pieces[0][0]] + Heads(pieces[1..])
  }

  /** `getInitials`: the first letters of the space-separated words, upper-cased, at most
      two of them. */
  function Initials(name: string): (r: string)
    ensures |r| <= 2
    ensures |r| == if |KeepNonEmpty(Split(name, " "))| < 2 then |KeepNonEmpty(Split(name, " "))| else 2
    ensures forall i :: 0 <= i < |r| ==> r[i] == UpperChar(KeepNonEmpty(Split(name, " "))[i][0])
  {
    Take(Upper(Heads(Split(name, " "))), 2)
  }

  /** Two words give their two capitals. */
  lemma InitialsOfTwoWords(first: string, last: string)
    requires first != [] && last != [] && ' ' !in first && ' ' !in last
    ensures Initials(first + " " + last) == [UpperChar(first[0]), UpperChar(last[0])]
  {
    assert Join([first, last], " ") == first + " " + last by {
      assert [first, last][1..] == [last];
    }
    JoinSplit([first, last], ' ');
    KeepAllNonEmpty([first, last]);
  }

  /** The signed-in user as the page sees it. */
  datatype User = User(email: Option<string>, metadata: Profiles.Metadata)

  /** `user_metadata?.display_name || email?.split('@')[0] || 'User'`. */
  function DisplayName(u: User, fmt: real -> string): (r: string)
    ensures "display_name" in u.metadata && Truthy(u.metadata["display_name"]) ==>
              r == ToText(u.metadata["display_name"], fmt)
    ensures !("display_name" in u.metadata && Truthy(u.metadata["display_name"])) ==>
              r == (if u.email.Some? && FirstPiece(u.email.value, "@") != [] then FirstPiece(u.email.value, "@") else "User")
    ensures !("display_name" in u.metadata && Truthy(u.metadata["display_name"])) ==> r != [] && '@' !in r
  {
    var dn := if "display_name" in u.metadata then Some(u.metadata["display_name"]) else None;
    if Present(dn) then ToText(dn.value, fmt)
    else if u.email.Some? && FirstPiece(u.email.value, "@") != [] then
      SplitPiecesLackSeparator(u.email.value, "@");
      FirstPiece(u.email.value, "@")
    else "User"
  }

  const PublicImages := "/storage/v1/object/public/prof" + "ile-images/"

  /** The avatar URL: a truthy `avatar_path` is turned into a public storage URL under
      `base`, the project URL; otherwise a truthy `avatar_url` is used as it is; otherwise
      there is no image. */
  function AvatarUrl(m: Profiles.Metadata, base: string, fmt: real -> string): (r: Option<string>)
    ensures "avatar_path" in m && Truthy(m["avatar_path"]) ==>
              r == Some(base + PublicImages + ToText(m["avatar_path"], fmt))
    ensures !("avatar_path" in m && Truthy(m["avatar_path"])) && "avatar_url" in m && Truthy(m["avatar_url"]) ==>
              r == Some(ToText(m["avatar_url"], fmt))
    ensures r.None? <==> !("avatar_path" in m && Truthy(m["avatar_path"])) && !("avatar_url" in m && Truthy(m["avatar_url"]))
  {
    if "avatar_path" in m && Truthy(m["avatar_path"]) then Some(base + PublicImages + ToText(m["avatar_path"], fmt))
    else if "avatar_url" in m && Truthy(m["avatar_url"]) then Some(ToText(m["avatar_url"], fmt))
    else None
  }

  /** After a successful avatar upload the page shows the uploaded object, whatever older
      `avatar_url` the metadata still holds. */
  lemma UploadedAvatarShown(u: string, f: File, env: Profiles.ProfileImageEnv, a: Profiles.Accounts,
                            base: string, fmt: real -> string)
    requires u in a.users
    requires Profiles.UploadProfileImage(Http.Post, Some(u), Some(FileValue(f)), env, a).0.Ok?
    ensures var after := Profiles.UploadProfileImage(Http.Post, Some(u), Some(FileValue(f)), env, a).1;
            u in after.users
            && AvatarUrl(after.users[u], base, fmt) == Some(base + PublicImages + Profiles.ProfilePath(u, f.name))
  {
    var after := Profiles.UploadProfileImage(Http.Post, Some(u), Some(FileValue(f)), env, a).1;
    var path := Profiles.ProfilePath(u, f.name);
    assert after.users[u]["avatar_path"] == JStr(path);
    assert path != [] by { assert IsPrefix(u + "/profile.", path); }
  }

  /** A successful name update is what the page shows after the user is reloaded: the
      trimmed name. */
  lemma UpdatedNameShown(caller: string, s: string, updateFails: bool, a: Profiles.Accounts,
                         email: Option<string>, fmt: real -> string)
    requires caller in a.users
    requires Profiles.UpdateProfile(Http.Post, Some(caller), Parsed(JObj(map["display_name" := JStr(s)])), updateFails, a).0.Ok?
    ensures var after := Profiles.UpdateProfile(Http.Post, Some(caller), Parsed(JObj(map["display_name" := JStr(s)])), updateFails, a).1;
            caller in after.users && DisplayName(User(email, after.users[caller]), fmt) == Trim(s)
  {
    var body := JObj(map["display_name" := JStr(s)]);
    assert Member(body, "display_name") == Some(JStr(s));
    var after := Profiles.UpdateProfile(Http.Post, Some(caller), Parsed(body), updateFails, a).1;
    var t := Trim(s);
    assert after.users[caller] == Profiles.Merge(a.users[caller], "display_name", Some(JStr(t)));
    var m := after.users[caller];
    assert m["display_name"] == JStr(t) && Truthy(JStr(t));
  }

  const BadTypeMessage := "Invalid file type. Only JPEG, " + "PNG, and WebP images are " + "allowed."
  const TooLargeMessage := "File too large. Maximum size " + "is 5MB."

  /** What choosing a file leads to: nothing, a local refusal, or the upload request. */
  datatype UploadStep = Ignored | Refused(message: string) | Send(file: File)

  /** `handleImageUpload` before its request: without a file or a session nothing happens;
      a disallowed type, then a size over 5 MiB, is refused without asking the server. */
  function LocalUpload(file: Option<File>, signedIn: bool): (r: UploadStep)
    ensures r.Ignored? <==> file.None? || !signedIn
    ensures r == Refused(BadTypeMessage) <==> file.Some? && signedIn && file.value.mime !in AllowedTypes
    ensures r == Refused(TooLargeMessage) <==>
              file.Some? && signedIn && file.value.mime in AllowedTypes && file.value.size > Profiles.ProfileMaxSize
    ensures r.Send? ==> r.file == file.value
  {
    if file.None? || !signedIn then Ignored
    else if file.value.mime !in AllowedTypes then Refused(BadTypeMessage)
    else if file.value.size > Profiles.ProfileMaxSize then Refused(TooLargeMessage)
    else Send(file.value)
  }

  /** The page's checks are the server's: a file the page sends passes the server's image
      checks, and a file the page refuses would be refused by the server too. */
  lemma LocalCheckMatchesServer(file: File)
    ensures LocalUpload(Some(file), true).Send? <==> CheckImage(FileValue(file), Profiles.ProfileMaxSize).Success?
  {
  }

  /** The page's state: the profile shown, the name being edited and the messages. */
  datatype View = View(displayName: string, editName: string, editing: bool, error: string, success: string, loading: bool)

  /** `handleEdit`. */
  function Edit(v: View): View {
    v.(editing := true, editName := v.displayName)
  }

  /** `handleCancel`: editing stops and the edited name is put back to the shown name. */
  function Cancel(v: View): (r: View)
    ensures !r.editing && r.editName == r.displayName == v.displayName
    ensures r.error == v.error && r.success == v.success && r.loading == v.loading
  {
    v.(editing := false, editName := v.displayName)
  }

  /** Cancelling after any edits leaves the page as editing from scratch and cancelling
      would: the typed name is forgotten. */
  lemma CancelForgetsEdits(v: View, typed: string)
    ensures Cancel(Edit(v).(editName := typed)) == Cancel(v)
  {
  }

  const UpdateFailed := "Failed to update profile"

  /** `handleSave`: without a session nothing happens. On success the page shows the name as
      typed, not the trimmed name the server stores, and leaves editing. */
  function Save(v: View, signedIn: bool, resp: Client.Response, fmt: real -> string): (r: View)
    ensures !signedIn ==> r == v
    ensures signedIn ==> !r.loading && r.editName == v.editName
    ensures signedIn && Client.Answer(resp, UpdateFailed, fmt).Success? ==>
              r.displayName == v.editName && !r.editing && r.success == "Profile updated successfully!"
    ensures signedIn && Client.Answer(resp, UpdateFailed, fmt).Failure? ==>
              r.displayName == v.displayName && r.editing == v.editing
              && r.error == Client.Answer(resp, UpdateFailed, fmt).error
  {
    if !signedIn then v
    else
      match Client.Answer(resp, UpdateFailed, fmt)
      case Success(_) => v.(displayName := v.editName, editing := false, success := "Profile updated successfully!", loading := false)
      case Failure(m) => v.(error := m, loading := false)
  }

  /** A name typed with surrounding spaces is shown with them until the user is reloaded,
      although the server stored it trimmed. */
  lemma SavedNameShownUntrimmed(v: View, name: string, fmt: real -> string)
    requires name != [] && !IsSpace(name[0]) && !IsSpace(name[|name| - 1])
    requires v.editName == " " + name + " "
    ensures Save(v, true, Client.Replied(true, Parsed(JObj(map[]))), fmt).displayName == " " + name + " "
    ensures Trim(v.editName) == name != v.editName
  {
    var padded := " " + name + " ";
    var n := |padded|;
    assert padded[0] == ' ' && padded[1] == name[0];
    assert SkipSpace(padded, 0) == 1 by { assert SkipSpace(padded, 1) == 1; }
    assert padded[n - 1] == ' ' && padded[n - 2] == name[|name| - 1];
    assert BackSpace(padded, n) == n - 1 by { assert BackSpace(padded, n - 1) == n - 1; }
    assert padded[1..n - 1] == name;
  }
}
