/** The functions that change a user's account: `upload-profile-image` (store the avatar and
    remember its path), `update-profile` (the display name) and `update-user-settings` (units
    and notifications). Each one writes the user's metadata as the old metadata with one or
    two keys replaced. */
module Profiles {
  import opened Wrappers
  import opened Text
  import opened Json
  import opened Http
  import opened Uploads

  /** A user's metadata object. */
  type Metadata = map<string, Json>

  /** The `profile-images` bucket (path to file) and every user's metadata. */
  datatype Accounts = Accounts(bucket: map<string, File>, users: map<UserId, Metadata>)

  const Unauthorized := "Unauthorized"
  const MethodNotAllowed := "Method not allowed"
  const InternalError := "Internal server error"
  const ProfileMaxSize: nat := 5 * Mebibyte

  /** `{ ...m, [key]: v }` as the admin API receives it: a key whose value is `undefined`
      (`None`) is dropped when the object is serialised. */
  function Merge(m: Metadata, key: string, v: Option<Json>): (r: Metadata)
    ensures forall k :: k != key ==> (k in r <==> k in m)
    ensures forall k :: k != key && k in m ==> r[k] == m[k]
    ensures v.Some? ==> key in r && r[key] == v.value
    ensures v.None? ==> key !in r
  {
    if v.Some? then m[key := v.value] else m - {key}
  }

  /** A later write of a key replaces an earlier one. */
  lemma MergeLastWins(m: Metadata, key: string, a: Option<Json>, b: Option<Json>)
    ensures Merge(Merge(m, key, a), key, b) == Merge(m, key, b)
  {
  }

  /** How the profile upload words an image refused by `CheckImage`. */
  function ProfileImageMessage(e: ImageError): string {
    match e
    case NoFile => "No image file provided"
    case BadType => "Invalid file type"
    case TooLarge => "File too large"
  }

  /** `${user.id}/profile.${fileExt}`: one path per user and extension. */
  function ProfilePath(u: UserId, name: string): (p: string)
    ensures IsPrefix(u + "/profile.", p)
    ensures '.' !in p[|u| + 9..]
  {
    u + "/profile." + Extension(name)
  }

  /** What storage and the auth admin API answer: whether the upload fails, the public URL
      of a path, and whether the metadata update fails. */
  datatype ProfileImageEnv = ProfileImageEnv(uploadFails: bool, publicUrl: string -> string, updateFails: bool)

  /** The function `upload-profile-image`. `caller` is the user the auth service finds for the
      request's token; `form` is `None` when the body is not form data. The object is written
      with `upsert: true`, so a second upload to the same path replaces the first; when a
      later step fails the object stays written. */
  function UploadProfileImage(verb: Method, caller: Option<UserId>, form: Option<FormValue>,
                              env: ProfileImageEnv, a: Accounts): (r: (Reply<string>, Accounts))
    requires caller.Some? ==> caller.value in a.users
    ensures r.0.Preflight? <==> verb == Options
    ensures r.0 == Err(405, MethodNotAllowed) <==> verb != Options && verb != Post
    ensures r.0 == Err(401, Unauthorized) <==> verb == Post && caller.None?
    ensures r.0.Err? && r.0.status in {400, 401, 405} ==> r.1 == a
    ensures r.0.Err? && r.0.status == 400 ==>
              caller.Some? && form.Some? && CheckImage(form.value, ProfileMaxSize).Failure?
    ensures verb == Post && caller.Some? && form.Some? && CheckImage(form.value, ProfileMaxSize).Failure? ==>
              r.0 == Err(400, ProfileImageMessage(CheckImage(form.value, ProfileMaxSize).error))
    ensures (verb == Post && caller.Some? && form.Some? && CheckImage(form.value, ProfileMaxSize).Success?
             && !env.uploadFails && env.publicUrl(ProfilePath(caller.value, form.value.file.name)) != []
             && !env.updateFails) ==> r.0.Ok?
    ensures (verb == Post && caller.Some? && form.Some? && CheckImage(form.value, ProfileMaxSize).Success?
             && !env.uploadFails) ==> r.1.bucket == a.bucket[ProfilePath(caller.value, form.value.file.name) := form.value.file]
    ensures r.0.Ok? ==>
              && caller.Some? && form.Some? && CheckImage(form.value, ProfileMaxSize).Success?
              && var u := caller.value;
                 var f := form.value.file;
                 var path := ProfilePath(u, f.name);
                 && r.0.body == env.publicUrl(path) && r.0.body != []
                 && r.1.bucket == a.bucket[path := f]
                 && r.1.users == a.users[u := Merge(a.users[u], "avatar_path", Some(JStr(path)))]
  {
    if verb == Options then (Preflight, a)
    else if verb != Post then (Err(405, MethodNotAllowed), a)
    else if caller.None? then (Err(401, Unauthorized), a)
    else if form.None? then (Err(500, InternalError), a)
    else
      match CheckImage(form.value, ProfileMaxSize)
      case Failure(e) => (Err(400, ProfileImageMessage(e)), a)
      case Success(f) =>
        var u := caller.value;
        var path := ProfilePath(u, f.name);
        if env.uploadFails then (Err(500, "Failed to upload image"), a)
        else
          var stored := a.(bucket := a.bucket[path := f]);
          if env.publicUrl(path) == [] then (Err(500, "Failed to generate image URL"), stored)
          else if env.updateFails then (Err(500, "Failed to update user profile"), stored)
          else
            (Ok(env.publicUrl(path)),
             stored.(users := a.users[u := Merge(a.users[u], "avatar_path", Some(JStr(path)))]))
  }

  /** Uploading a second avatar with the same extension overwrites the first: the bucket
      holds no more objects than after the first upload, and the path holds the new file. */
  lemma ReuploadReplaces(u: UserId, f1: File, f2: File, env: ProfileImageEnv, a: Accounts)
    requires u in a.users
    requires Extension(f1.name) == Extension(f2.name)
    requires UploadProfileImage(Post, Some(u), Some(FileValue(f1)), env, a).0.Ok?
    ensures var b := UploadProfileImage(Post, Some(u), Some(FileValue(f1)), env, a).1;
            var c := UploadProfileImage(Post, Some(u), Some(FileValue(f2)), env, b);
            c.0.Ok? ==>
              c.1.bucket.Keys == b.bucket.Keys && c.1.bucket[ProfilePath(u, f1.name)] == f2
  {
  }

  /** Uploading an avatar with another extension leaves the old object in the bucket, while
      `avatar_path` names only the new one. */
  lemma OtherExtensionLeavesOld(u: UserId, f1: File, f2: File, env: ProfileImageEnv, a: Accounts)
    requires u in a.users
    requires Extension(f1.name) != Extension(f2.name)
    requires UploadProfileImage(Post, Some(u), Some(FileValue(f1)), env, a).0.Ok?
    ensures var b := UploadProfileImage(Post, Some(u), Some(FileValue(f1)), env, a).1;
            var c := UploadProfileImage(Post, Some(u), Some(FileValue(f2)), env, b);
            c.0.Ok? ==>
              && ProfilePath(u, f1.name) in c.1.bucket && c.1.bucket[ProfilePath(u, f1.name)] == f1
              && c.1.users[u]["avatar_path"] == JStr(ProfilePath(u, f2.name))
              && ProfilePath(u, f1.name) != ProfilePath(u, f2.name)
  {
    var p1, p2 := ProfilePath(u, f1.name), ProfilePath(u, f2.name);
    var n := |u + "/profile."|;
    assert p1[n..] == Extension(f1.name) && p2[n..] == Extension(f2.name);
  }

  const NameRequired := "Display name is required"
  const NameLength := "Display name must be between " + "1 and 100 characters"
  const MaxNameLength: nat := 100

  /** The function `update-profile`. `body` is the request body as `req.json()` reads it; a
      body that is not JSON, or is `null`, throws and gives 500. The name must be a truthy
      string whose trimmed length is 1 to 100, and the trimmed name is stored. */
  function UpdateProfile(verb: Method, caller: Option<UserId>, body: ParseOutcome, updateFails: bool,
                         a: Accounts): (r: (Reply<string>, Accounts))
    requires caller.Some? ==> caller.value in a.users
    ensures r.0 == Err(405, MethodNotAllowed) <==> verb != Options && verb != Post
    ensures r.0 == Err(401, Unauthorized) <==> verb == Post && caller.None?
    ensures !r.0.Ok? ==> r.1 == a
    ensures r.0 == Err(400, NameRequired) <==>
              verb == Post && caller.Some? && body.Parsed? && !body.value.JNull?
              && !(Present(Member(body.value, "display_name")) && Member(body.value, "display_name").value.JStr?)
    ensures r.0 == Err(400, NameLength) <==>
              verb == Post && caller.Some? && body.Parsed? && !body.value.JNull?
              && Present(Member(body.value, "display_name")) && Member(body.value, "display_name").value.JStr?
              && var s := Member(body.value, "display_name").value.s;
                 Blank(s) || |Trim(s)| > MaxNameLength
    ensures r.0.Ok? ==>
              && verb == Post && caller.Some? && body.Parsed?
              && Member(body.value, "display_name").Some? && Member(body.value, "display_name").value.JStr?
              && var t := Trim(Member(body.value, "display_name").value.s);
                 && 1 <= |t| <= MaxNameLength
                 && r.1 == a.(users := a.users[caller.value := Merge(a.users[caller.value], "display_name", Some(JStr(t)))])
  {
    if verb == Options then (Preflight, a)
    else if verb != Post then (Err(405, MethodNotAllowed), a)
    else if caller.None? then (Err(401, Unauthorized), a)
    else if body.Unparseable? || body.value.JNull? then (Err(500, InternalError), a)
    else
      var name := Member(body.value, "display_name");
      if !Present(name) || !name.value.JStr? then (Err(400, NameRequired), a)
      else
        var t := Trim(name.value.s);
        TrimEmptyIffBlank(name.value.s);
        if |t| < 1 || |t| > MaxNameLength then (Err(400, NameLength), a)
        else if updateFails then (Err(500, "Failed to update profile"), a)
        else
          var u := caller.value;
          (Ok("Profile updated successfully"), a.(users := a.users[u := Merge(a.users[u], "display_name", Some(JStr(t)))]))
  }

  /** A name of white space only passes the presence check but not the length check. */
  lemma BlankNameRejected(caller: UserId, s: string, updateFails: bool, a: Accounts)
    requires caller in a.users && s != [] && Blank(s)
    ensures UpdateProfile(Post, Some(caller), Parsed(JObj(map["display_name" := JStr(s)])), updateFails, a).0
            == Err(400, NameLength)
  {
    TrimEmptyIffBlank(s);
  }

  const SettingsRequired := "Settings are required"

  /** The function `update-user-settings`: `display_units` and `email_notifications` are
      copied from the truthy `settings` object (an absent field drops the key); nothing about
      their values is checked. */
  function UpdateUserSettings(verb: Method, caller: Option<UserId>, body: ParseOutcome, updateFails: bool,
                              a: Accounts): (r: (Reply<string>, Accounts))
    requires caller.Some? ==> caller.value in a.users
    ensures r.0 == Err(405, MethodNotAllowed) <==> verb != Options && verb != Post
    ensures r.0 == Err(401, Unauthorized) <==> verb == Post && caller.None?
    ensures !r.0.Ok? ==> r.1 == a
    ensures r.0 == Err(400, SettingsRequired) <==>
              verb == Post && caller.Some? && body.Parsed? && !body.value.JNull? && !Present(Member(body.value, "settings"))
    ensures r.0.Ok? ==>
              && verb == Post && caller.Some? && body.Parsed? && Present(Member(body.value, "settings"))
              && var s := Member(body.value, "settings").value;
                 var m := a.users[caller.value];
                 && r.1.bucket == a.bucket
                 && caller.value in r.1.users
                 && var n := r.1.users[caller.value];
                    && (forall k :: k !in {"display_units", "email_notifications"} ==> (k in n <==> k in m))
                    && (forall k :: k !in {"display_units", "email_notifications"} && k in m ==> n[k] == m[k])
                    && ("display_units" in n <==> Member(s, "displayUnits").Some?)
                    && (Member(s, "displayUnits").Some? ==> n["display_units"] == Member(s, "displayUnits").value)
                    && ("email_notifications" in n <==> Member(s, "emailNotifications").Some?)
                    && (Member(s, "emailNotifications").Some? ==> n["email_notifications"] == Member(s, "emailNotifications").value)
  {
    if verb == Options then (Preflight, a)
    else if verb != Post then (Err(405, MethodNotAllowed), a)
    else if caller.None? then (Err(401, Unauthorized), a)
    else if body.Unparseable? || body.value.JNull? then (Err(500, InternalError), a)
    else
      var settings := Member(body.value, "settings");
      if !Present(settings) then (Err(400, SettingsRequired), a)
      else if updateFails then (Err(500, "Failed to update settings"), a)
      else
        var u := caller.value;
        var s := settings.value;
        var m := Merge(Merge(a.users[u], "display_units", Member(s, "displayUnits")),
                       "email_notifications", Member(s, "emailNotifications"));
        (Ok("Settings updated successfully"), a.(users := a.users[u := m]))
  }

  /** The three account functions touch only the caller's metadata: every other user's
      metadata is left as it was. */
  lemma OnlyCallerChanged(verb: Method, caller: Option<UserId>, body: ParseOutcome, form: Option<FormValue>,
                          env: ProfileImageEnv, updateFails: bool, a: Accounts, other: UserId)
    requires caller.Some? ==> caller.value in a.users
    requires other in a.users && caller != Some(other)
    ensures var r := UploadProfileImage(verb, caller, form, env, a).1;
            other in r.users && r.users[other] == a.users[other]
    ensures var r := UpdateProfile(verb, caller, body, updateFails, a).1;
            other in r.users && r.users[other] == a.users[other]
    ensures var r := UpdateUserSettings(verb, caller, body, updateFails, a).1;
            other in r.users && r.users[other] == a.users[other]
  {
    UploadLeavesOthers(verb, caller, form, env, a, other);
    UpdateLeavesOthers(verb, caller, body, updateFails, a, other);
    SettingsLeaveOthers(verb, caller, body, updateFails, a, other);
  }

  lemma UploadLeavesOthers(verb: Method, caller: Option<UserId>, form: Option<FormValue>,
                           env: ProfileImageEnv, a: Accounts, other: UserId)
    requires caller.Some? ==> caller.value in a.users
    requires other in a.users && caller != Some(other)
    ensures var r := UploadProfileImage(verb, caller, form, env, a).1;
            other in r.users && r.users[other] == a.users[other]
  {
  }

  lemma UpdateLeavesOthers(verb: Method, caller: Option<UserId>, body: ParseOutcome, updateFails: bool,
                           a: Accounts, other: UserId)
    requires caller.Some? ==> caller.value in a.users
    requires other in a.users && caller != Some(other)
    ensures var r := UpdateProfile(verb, caller, body, updateFails, a).1;
            other in r.users && r.users[other] == a.users[other]
  {
  }

  lemma SettingsLeaveOthers(verb: Method, caller: Option<UserId>, body: ParseOutcome, updateFails: bool,
                            a: Accounts, other: UserId)
    requires caller.Some? ==> caller.value in a.users
    requires other in a.users && caller != Some(other)
    ensures var r := UpdateUserSettings(verb, caller, body, updateFails, a).1;
            other in r.users && r.users[other] == a.users[other]
  {
  }
}
