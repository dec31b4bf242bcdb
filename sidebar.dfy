/** The profile sidebar (src/components/profile/ProfileSidebar.tsx): how a
    stored picture path becomes an image URL, the checks on an uploaded
    picture, and the state and storage update after an upload. */
module Sidebar {
  import opened Wrappers
  import Json
  import JsText
  import Browser
  import Uploads
  import opened ProfileTypes

  const AllowedTypes: seq<string> := ["image/jpeg", "image/jpg", "image/png"]
  const MaxUploadSize: nat := 2 * 1024 * 1024

  const TypeMessage := "Invalid file type. Only JPEG, JPG, and PNG images are allowed."
  const SizeMessage := "File size must be less than 2MB"
  const LoginMessage := "You must be logged in to upload a profile picture"
  const UploadFailedMessage := "Failed to upload profile picture. Please try again."
  const SaveFailedMessage := "Failed to save profile picture. Please try again."

  /** The key of the picture in the stored user record. */
  const PictureKey := "profilePicture"

  /** `getProfilePictureUrl`: no URL for a missing or empty path; a path that
      already starts with `http` or `data:` is used as it is; any other path
      names a file under the uploads prefix. */
  function ProfilePictureUrl(path: Option<string>): (url: Option<string>)
    ensures url.None? <==> path.None? || path.value == ""
    ensures url.Some? && (JsText.StartsWith(path.value, "http") || JsText.StartsWith(path.value, "data:")) ==>
      url.value == path.value
    ensures url.Some? && !JsText.StartsWith(path.value, "http") && !JsText.StartsWith(path.value, "data:") ==>
      url.value == Uploads.Prefix + path.value
  {
    match path
    case None => None
    case Some(p) =>
      if p == "" then None
      else if JsText.StartsWith(p, "http") || JsText.StartsWith(p, "data:") then Some(p)
      else Some(Uploads.Prefix + p)
  }

  /** Every URL it produces is absolute (`http…`) or a data URL, so
      resolving a resolved URL again changes nothing. */
  lemma ProfilePictureUrlStable(path: Option<string>)
    ensures var url := ProfilePictureUrl(path);
      url.Some? ==> (JsText.StartsWith(url.value, "http") || JsText.StartsWith(url.value, "data:")) &&
                    ProfilePictureUrl(url) == url
  {
    var url := ProfilePictureUrl(path);
    if url.Some? && !JsText.StartsWith(path.value, "http") && !JsText.StartsWith(path.value, "data:") {
      assert (Uploads.Prefix + path.value)[..4] == "http";
    }
  }

  /** The two checks of `handleImageChange`, the type before the size. Only
      JPEG, JPG and PNG pass the first; the second refuses a file strictly
      larger than 2 MiB. */
  function UploadCheck(file: Browser.File): (e: Option<string>)
    ensures e == Some(TypeMessage) <==> file.mimeType !in AllowedTypes
    ensures e == Some(SizeMessage) <==> file.mimeType in AllowedTypes && file.size > MaxUploadSize
    ensures e.None? <==> file.mimeType in AllowedTypes && file.size <= MaxUploadSize
  {
    if file.mimeType !in AllowedTypes then Some(TypeMessage)
    else if file.size > MaxUploadSize then Some(SizeMessage)
    else None
  }

  /** A PNG of exactly 2 MiB passes, one byte more is refused; a file of an
      unlisted type is refused for its type whatever its size. */
  lemma UploadLimit(name: string, size: nat)
    ensures UploadCheck(Browser.File(name, "image/png", MaxUploadSize)).None?
    ensures UploadCheck(Browser.File(name, "image/png", MaxUploadSize + 1)) == Some(SizeMessage)
    ensures UploadCheck(Browser.File(name, "image/gif", size)) == Some(TypeMessage)
  {
    assert "image/png" == AllowedTypes[2];
    assert "image/gif" != AllowedTypes[0] && "image/gif" != AllowedTypes[1] && "image/gif" != AllowedTypes[2];
  }

  /** `updatedUser.profilePicture` read as the picture state: a string is a
      path, anything else leaves no picture. */
  function PathOf(updated: Json.Object): Option<string> {
    if PictureKey in updated && updated[PictureKey].Str? then Some(updated[PictureKey].s) else None
  }

  /** `userData.profilePicture = path` followed by `JSON.stringify`: the
      record takes the server's value under the picture key; a key whose
      value was `undefined` is dropped by `stringify`. Every other key keeps
      its value. */
  function WithPicture(user: Json.Object, updated: Json.Object): (r: Json.Object)
    ensures PictureKey in updated ==> PictureKey in r && r[PictureKey] == updated[PictureKey]
    ensures PictureKey !in updated ==> PictureKey !in r
    ensures forall k :: k != PictureKey ==> (k in r <==> k in user)
    ensures forall k :: k != PictureKey && k in user ==> r[k] == user[k]
  {
    if PictureKey in updated then user[PictureKey := updated[PictureKey]] else user - {PictureKey}
  }

  /** The outcome of the upload request. */
  datatype UploadResponse =
    | Uploaded(updated: Json.Object)
    | UploadRefused(message: Option<string>)
    | UploadUnreachable

  /** The request the upload sends: the bearer token and the file. */
  datatype UploadRequest = UploadRequest(token: Browser.Stored, file: Browser.File)

  class ProfileSidebar {
    /** The `user` prop. */
    var user: UserProfile
    /** The `profilePicture` state; `None` stands for `null` and `undefined`. */
    var picture: Option<string>

    /** The first render: the user's own picture if non-empty. */
    constructor(u: UserProfile)
      ensures user == u
      ensures picture == if u.profilePicture.Some? && u.profilePicture.value != "" then u.profilePicture else None
    {
      user := u;
      picture := if u.profilePicture.Some? && u.profilePicture.value != "" then u.profilePicture else None;
    }

    /** The avatar's `src`: the picture state when non-empty, else the user's
        own picture, resolved to a URL. */
    function AvatarSource(): (url: Option<string>)
      reads this
      ensures picture.Some? && picture.value != "" ==> url == ProfilePictureUrl(picture)
      ensures !(picture.Some? && picture.value != "") ==> url == ProfilePictureUrl(user.profilePicture)
    {
      ProfilePictureUrl(if picture.Some? && picture.value != "" then picture else user.profilePicture)
    }

    /** `handleImageChange` for the chosen files (`None` when the input has
        no file list). Without a first file nothing happens. A file that
        fails a check is refused with its message; without a token the
        upload is refused. Otherwise the upload is sent: on success the
        picture state takes the server's path and a stored user record takes
        the server's picture value, all its other keys unchanged. A stored
        value that is not a record cannot take the property: text that
        `JSON.parse` rejects throws there, and so does assigning a property
        to a parsed `null`, boolean or string in module (strict) code; the
        attempt then ends with the save-failure message. A refusal or an unreachable
        server alerts and changes nothing. */
    method HandleImageChange(files: Option<seq<Browser.File>>, store: Browser.LocalStorage, response: UploadResponse)
      returns (request: Option<UploadRequest>, alert: Option<string>)
      modifies this, store
      ensures user == old(user)
      ensures request.Some? <==>
        files.Some? && |files.value| > 0 && UploadCheck(files.value[0]).None? && old(store.HasToken())
      ensures request.Some? ==> request.value == UploadRequest(old(store.items)[Browser.TokenKey], files.value[0])
      ensures files.None? || |files.value| == 0 ==> alert == None
      ensures files.Some? && |files.value| > 0 && UploadCheck(files.value[0]).Some? ==>
        alert == UploadCheck(files.value[0])
      ensures files.Some? && |files.value| > 0 && UploadCheck(files.value[0]).None? && !old(store.HasToken()) ==>
        alert == Some(LoginMessage)
      ensures request.None? ==> picture == old(picture) && store.items == old(store.items)
      ensures request.Some? && response.Uploaded? ==> picture == PathOf(response.updated)
      ensures request.Some? && response.Uploaded? ==> var stored := Browser.UserKey in old(store.items);
        !stored || !Browser.Truthy(old(store.items)[Browser.UserKey]) ==> alert == None && store.items == old(store.items)
      ensures request.Some? && response.Uploaded? && Browser.UserKey in old(store.items) ==>
        match old(store.items)[Browser.UserKey] {
          case JsonObject(fields) =>
            alert == None &&
            store.items == old(store.items)[Browser.UserKey := Browser.JsonObject(WithPicture(fields, response.updated))]
          case Text(t) =>
            store.items == old(store.items) && (t != "" ==> alert == Some(SaveFailedMessage))
          case JsonScalar(_) =>
            store.items == old(store.items) && alert == Some(SaveFailedMessage)
        }
      ensures request.Some? && response.UploadRefused? ==>
        alert == Some(Json.MessageOr(response.message, UploadFailedMessage)) && picture == old(picture) && store.items == old(store.items)
      ensures request.Some? && response.UploadUnreachable? ==>
        alert == Some(SaveFailedMessage) && picture == old(picture) && store.items == old(store.items)
    {
      if files.None? || |files.value| == 0 {
        return None, None;
      }
      var file := files.value[0];
      var check := UploadCheck(file);
      if check.Some? {
        return None, check;
      }
      if !store.HasToken() {
        return None, Some(LoginMessage);
      }
      request := Some(UploadRequest(store.items[Browser.TokenKey], file));
      match response {
        case Uploaded(updated) =>
          picture := PathOf(updated);
          alert := None;
          var userStr := store.GetItem(Browser.UserKey);
          if userStr.Some? && Browser.Truthy(userStr.value) {
            match userStr.value {
              case JsonObject(fields) =>
                store.SetItem(Browser.UserKey, Browser.JsonObject(WithPicture(fields, updated)));
              case Text(_) =>
                alert := Some(SaveFailedMessage);
              case JsonScalar(_) =>
                alert := Some(SaveFailedMessage);
            }
          }
        case UploadRefused(message) =>
          alert := Some(Json.MessageOr(message, UploadFailedMessage));
        case UploadUnreachable =>
          alert := Some(SaveFailedMessage);
      }
    }
  }
}
