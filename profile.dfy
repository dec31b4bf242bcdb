/** The profile page (src/app/profile/page.tsx): the backend record turned
    into a `UserProfile`, the no-token guard of the load effect, the update
    merge, logout and the choice of the section to render. */
module Profile {
  import opened Wrappers
  import Json
  import Browser
  import opened ProfileTypes

  // ---------------------------------------------------------------------
  // Normalisation
  // ---------------------------------------------------------------------

  /** `o[key] || fallback` for a text field: a truthy value is kept (as its
      text), anything falsy or absent gives the fallback. */
  function TextOr(o: Json.Object, key: string, fallback: string): (t: string)
    ensures Json.Present(o, key) && o[key].Str? ==> t == o[key].s
    ensures Json.Present(o, key) && o[key].Bool? ==> t == "true"
    ensures !Json.Present(o, key) ==> t == fallback
  {
    if Json.Present(o, key) then Json.TextOf(o[key]) else fallback
  }

  /** `o[key] ?? fallback` for a flag: only `null` or `undefined` gives the
      fallback; an explicit `false` is kept. */
  function FlagOr(o: Json.Object, key: string, fallback: bool): (b: bool)
    ensures Json.Nullish(o, key) ==> b == fallback
    ensures key in o && o[key].Bool? ==> b == o[key].b
  {
    if Json.Nullish(o, key) then fallback else Json.Truthy(o[key])
  }

  /** `o[key] || undefined`: a truthy value, else nothing. */
  function TextIfPresent(o: Json.Object, key: string): (t: Option<string>)
    ensures t.Some? <==> Json.Present(o, key)
    ensures t.Some? ==> t.value != ""
    ensures t.Some? && o[key].Str? ==> t.value == o[key].s
  {
    if Json.Present(o, key) then Some(Json.TextOf(o[key])) else None
  }

  /** `o[key]` copied as it is into an optional text field. */
  function TextAsIs(o: Json.Object, key: string): (t: Option<string>)
    ensures key !in o || o[key].Null? ==> t == None
    ensures key in o && o[key].Str? ==> t == Some(o[key].s)
  {
    if key in o && !o[key].Null? then Some(Json.TextOf(o[key])) else None
  }

  /** `o[key]` copied as it is into an optional flag. */
  function FlagAsIs(o: Json.Object, key: string): (b: Option<bool>)
    ensures key in o && o[key].Bool? <==> b.Some?
    ensures b.Some? ==> b.value == o[key].b
  {
    if key in o && o[key].Bool? then Some(o[key].b) else None
  }

  /** The `UserProfile` literal built from a backend record; the effect
      builds it the same way from the fresh response and from the stored
      fallback, so both paths use this one function. */
  function Normalise(o: Json.Object): UserProfile {
    UserProfile(
      id := TextOr(o, "id", ""),
      email := TextOr(o, "email", ""),
      firstName := TextOr(o, "firstName", ""),
      lastName := TextOr(o, "lastName", ""),
      phoneNumber := Some(TextOr(o, "phoneNumber", "")),
      address := Some(TextOr(o, "address", "")),
      city := None,
      state := None,
      zipCode := None,
      country := None,
      role := TextOr(o, "role", "customer"),
      isActive := FlagOr(o, "isActive", true),
      emailVerified := FlagOr(o, "emailVerified", false),
      profilePicture := TextIfPresent(o, "profilePicture"),
      businessName := TextAsIs(o, "businessName"),
      businessDescription := TextAsIs(o, "businessDescription"),
      businessLicense := TextAsIs(o, "businessLicense"),
      taxId := TextAsIs(o, "taxId"),
      isVerifiedSeller := FlagAsIs(o, "isVerifiedSeller"))
  }

  /** What normalisation promises: falsy texts become "", a falsy role
      becomes "customer", `isActive` defaults to true and `emailVerified` to
      false only when missing or null, and an empty picture is dropped. */
  lemma NormaliseDefaults(o: Json.Object)
    ensures var u := Normalise(o);
      && (!Json.Present(o, "id") ==> u.id == "")
      && (!Json.Present(o, "email") ==> u.email == "")
      && (!Json.Present(o, "firstName") ==> u.firstName == "")
      && (!Json.Present(o, "lastName") ==> u.lastName == "")
      && (!Json.Present(o, "phoneNumber") ==> u.phoneNumber == Some(""))
      && (!Json.Present(o, "address") ==> u.address == Some(""))
      && (!Json.Present(o, "role") ==> u.role == "customer")
      && (Json.Nullish(o, "isActive") ==> u.isActive)
      && ("isActive" in o && o["isActive"] == Json.Bool(false) ==> !u.isActive)
      && (Json.Nullish(o, "emailVerified") ==> !u.emailVerified)
      && (!Json.Present(o, "profilePicture") ==> u.profilePicture == None)
      && (u.profilePicture.Some? ==> u.profilePicture.value != "")
  {
  }

  /** Normalisation never returns an empty role, and keeps every text the
      record carries. */
  lemma NormaliseKeeps(o: Json.Object, key: string)
    requires key in {"id", "email", "firstName", "lastName", "role"}
    requires key in o && o[key].Str? && o[key].s != ""
    ensures var u := Normalise(o);
      (key == "id" ==> u.id == o[key].s) && (key == "email" ==> u.email == o[key].s) &&
      (key == "firstName" ==> u.firstName == o[key].s) &&
      (key == "lastName" ==> u.lastName == o[key].s) && (key == "role" ==> u.role == o[key].s)
    ensures Normalise(o).role != ""
  {
  }

  // ---------------------------------------------------------------------
  // The update merge
  // ---------------------------------------------------------------------

  /** A `Partial<UserProfile>`: every field may be left out. */
  datatype UserPatch = UserPatch(
    id: Option<string>,
    email: Option<string>,
    firstName: Option<string>,
    lastName: Option<string>,
    phoneNumber: Option<string>,
    address: Option<string>,
    city: Option<string>,
    state: Option<string>,
    zipCode: Option<string>,
    country: Option<string>,
    role: Option<string>,
    isActive: Option<bool>,
    emailVerified: Option<bool>,
    profilePicture: Option<string>,
    businessName: Option<string>,
    businessDescription: Option<string>,
    businessLicense: Option<string>,
    taxId: Option<string>,
    isVerifiedSeller: Option<bool>)

  /** The patch that changes nothing. */
  const NoChange := UserPatch(None, None, None, None, None, None, None, None, None, None,
                              None, None, None, None, None, None, None, None, None)

  function Over<T>(given: Option<T>, current: T): T {
    if given.Some? then given.value else current
  }

  function OverOpt<T>(given: Option<T>, current: Option<T>): Option<T> {
    if given.Some? then given else current
  }

  /** `{ ...user, ...rest }` where `rest` is the patch without its
      `profilePicture`. */
  function Merge(u: UserProfile, p: UserPatch): UserProfile {
    u.(id := Over(p.id, u.id),
       email := Over(p.email, u.email),
       firstName := Over(p.firstName, u.firstName),
       lastName := Over(p.lastName, u.lastName),
       phoneNumber := OverOpt(p.phoneNumber, u.phoneNumber),
       address := OverOpt(p.address, u.address),
       city := OverOpt(p.city, u.city),
       state := OverOpt(p.state, u.state),
       zipCode := OverOpt(p.zipCode, u.zipCode),
       country := OverOpt(p.country, u.country),
       role := Over(p.role, u.role),
       isActive := Over(p.isActive, u.isActive),
       emailVerified := Over(p.emailVerified, u.emailVerified),
       businessName := OverOpt(p.businessName, u.businessName),
       businessDescription := OverOpt(p.businessDescription, u.businessDescription),
       businessLicense := OverOpt(p.businessLicense, u.businessLicense),
       taxId := OverOpt(p.taxId, u.taxId),
       isVerifiedSeller := OverOpt(p.isVerifiedSeller, u.isVerifiedSeller))
  }

  /** The merge never touches the picture, leaves a user alone under the
      empty patch, and merging the same patch twice is merging it once. */
  lemma MergeLaws(u: UserProfile, p: UserPatch)
    ensures Merge(u, p).profilePicture == u.profilePicture
    ensures Merge(u, p.(profilePicture := None)) == Merge(u, p)
    ensures Merge(u, NoChange) == u
    ensures Merge(Merge(u, p), p) == Merge(u, p)
  {
  }

  /** A given field wins and a missing one keeps the user's value. */
  lemma MergeFields(u: UserProfile, p: UserPatch)
    ensures p.firstName.Some? ==> Merge(u, p).firstName == p.firstName.value
    ensures p.firstName.None? ==> Merge(u, p).firstName == u.firstName
    ensures p.role.Some? ==> Merge(u, p).role == p.role.value
    ensures p.isActive.Some? ==> Merge(u, p).isActive == p.isActive.value
    ensures p.isActive.None? ==> Merge(u, p).isActive == u.isActive
    ensures p.phoneNumber.Some? ==> Merge(u, p).phoneNumber == p.phoneNumber
    ensures p.phoneNumber.None? ==> Merge(u, p).phoneNumber == u.phoneNumber
  {
  }

  function TextValue(v: Option<string>): Option<Json.Value> {
    if v.Some? then Some(Json.Str(v.value)) else None
  }

  function FlagValue(v: Option<bool>): Option<Json.Value> {
    if v.Some? then Some(Json.Bool(v.value)) else None
  }

  /** The keys a patch may carry, picture aside, in declaration order. */
  const PatchNames: seq<string> := [
    "id", "email", "firstName", "lastName", "phoneNumber", "address", "city", "state", "zipCode", "country", "role", "isActive", "emailVerified", "businessName", "businessDescription", "businessLicense", "taxId", "isVerifiedSeller"]

  /** The given values under those keys. */
  function PatchValues(p: UserPatch): (vs: seq<Option<Json.Value>>)
    ensures |vs| == |PatchNames|
  {
    [TextValue(p.id),
    TextValue(p.email),
    TextValue(p.firstName),
    TextValue(p.lastName),
    TextValue(p.phoneNumber),
    TextValue(p.address),
    TextValue(p.city),
    TextValue(p.state),
    TextValue(p.zipCode),
    TextValue(p.country),
    TextValue(p.role),
    FlagValue(p.isActive),
    FlagValue(p.emailVerified),
    TextValue(p.businessName),
    TextValue(p.businessDescription),
    TextValue(p.businessLicense),
    TextValue(p.taxId),
    FlagValue(p.isVerifiedSeller)]
  }

  /** The object spelled by the given values under their names. */
  function ToObject(names: seq<string>, values: seq<Option<Json.Value>>): (o: Json.Object)
    requires |names| == |values|
    ensures forall k :: k in o ==> k in names
    ensures values == [] ==> o == map[]
    decreases |names|
  {
    if names == [] then map[]
    else
      var n := |names| - 1;
      var front := ToObject(names[..n], values[..n]);
      if values[n].Some? then front[names[n] := values[n].value] else front
  }

  /** An object whose every value is missing is empty. */
  lemma {:induction false} ToObjectNone(names: seq<string>, values: seq<Option<Json.Value>>)
    requires |names| == |values|
    requires forall i :: 0 <= i < |values| ==> values[i].None?
    ensures ToObject(names, values) == map[]
    decreases |names|
  {
    if names != [] {
      ToObjectNone(names[..|names| - 1], values[..|names| - 1]);
    }
  }

  /** With distinct names, a given value sits under its name and a missing
      one leaves its name out. */
  lemma {:induction false} ToObjectAt(names: seq<string>, values: seq<Option<Json.Value>>, i: nat)
    requires |names| == |values| && i < |names|
    requires forall a, b :: 0 <= a < b < |names| ==> names[a] != names[b]
    ensures values[i].Some? ==> names[i] in ToObject(names, values) &&
                                ToObject(names, values)[names[i]] == values[i].value
    ensures values[i].None? ==> names[i] !in ToObject(names, values)
    decreases |names|
  {
    var n := |names| - 1;
    var front := ToObject(names[..n], values[..n]);
    assert ToObject(names, values) == if values[n].Some? then front[names[n] := values[n].value] else front;
    if i < n {
      assert names[..n][i] == names[i] && values[..n][i] == values[i];
      assert names[i] != names[n];
      ToObjectAt(names[..n], values[..n], i);
    } else if values[i].None? {
      assert names[i] !in names[..n] by {
        forall a | 0 <= a < n ensures names[..n][a] != names[n] {
          assert names[..n][a] == names[a];
        }
      }
    }
  }

  /** The patch without its picture, as the JSON keys it spreads over the
      stored record (`JSON.stringify` drops the fields left out). */
  function PatchJson(p: UserPatch): (j: Json.Object)
    ensures "profilePicture" !in j
  {
    ToObject(PatchNames, PatchValues(p))
  }

  /** Each given field of the patch, and only those, reaches the stored
      record, under its own name. */
  lemma PatchJsonFields(p: UserPatch, i: nat)
    requires i < |PatchNames|
    ensures PatchNames[i] in PatchJson(p) <==> PatchValues(p)[i].Some?
    ensures PatchValues(p)[i].Some? ==> PatchJson(p)[PatchNames[i]] == PatchValues(p)[i].value
  {
    ToObjectAt(PatchNames, PatchValues(p), i);
  }

  /** The empty patch adds no key to the stored record. */
  lemma PatchJsonNoChange()
    ensures PatchJson(NoChange) == map[]
  {
    ToObjectNone(PatchNames, PatchValues(NoChange));
  }

  // ---------------------------------------------------------------------
  // The section to render
  // ---------------------------------------------------------------------

  /** What `renderActiveSection` returns. */
  datatype SectionView =
    | NothingShown
    | SellerInfoForm
    | InfoForm
    | OrderHistoryTable
    | AccountSettingsForm
    | MyProductsList

  const SellerRole := "seller"

  /** Nothing without a user; the seller form on the personal-information
      tab for a seller and the plain form for anyone else; the products tab
      only for a seller. */
  function RenderSection(user: Option<UserProfile>, section: ProfileSection): (v: SectionView)
    ensures user.None? ==> v == NothingShown
    ensures v == SellerInfoForm <==> user.Some? && section == PersonalInfo && user.value.role == SellerRole
    ensures v == InfoForm <==> user.Some? && section == PersonalInfo && user.value.role != SellerRole
    ensures v == MyProductsList <==> user.Some? && section == MyProducts && user.value.role == SellerRole
    ensures user.Some? && section == MyProducts && user.value.role != SellerRole ==> v == NothingShown
    ensures v == OrderHistoryTable <==> user.Some? && section == OrderHistory
    ensures v == AccountSettingsForm <==> user.Some? && section == AccountSettings
  {
    match user
    case None => NothingShown
    case Some(u) =>
      match section
      case PersonalInfo => if u.role == SellerRole then SellerInfoForm else InfoForm
      case OrderHistory => OrderHistoryTable
      case AccountSettings => AccountSettingsForm
      case MyProducts => if u.role == SellerRole then MyProductsList else NothingShown
  }

  /** A user who is not a seller never sees a seller-only view, whatever
      the tab. */
  lemma NonSellerViews(u: UserProfile, section: ProfileSection)
    requires u.role != SellerRole
    ensures RenderSection(Some(u), section) != SellerInfoForm
    ensures RenderSection(Some(u), section) != MyProductsList
  {
  }

  // ---------------------------------------------------------------------
  // The page
  // ---------------------------------------------------------------------

  /** The outcome of the profile request: a body that parses to an
      object, a body that parses to a JSON value that is not one (`null`,
      `true`, `"x"`), or any failure (a refused status, an unreachable
      server, a body that does not parse). */
  datatype ProfileResponse =
    | ProfileLoaded(data: Json.Object)
    | ProfileLoadedScalar(value: Json.Value)
    | ProfileFailed

  /** What the page shows. */
  datatype Screen = Loading | Blank | Page(section: SectionView)

  /** What the storage fallback of the load effect reads its profile from.
      Nothing when the user key is missing or empty, when `JSON.parse`
      rejects the text, or when it gives `null` (reading a property of it
      throws): each of these sends the visitor away. A parsed object gives
      its fields; any other parsed value has no such properties, so every
      field reads as undefined. */
  function FallbackRecord(items: map<string, Browser.Stored>): (r: Option<Json.Object>)
    ensures Browser.UserKey !in items ==> r.None?
    ensures Browser.UserKey in items && items[Browser.UserKey].Text? ==> r.None?
    ensures Browser.UserKey in items && items[Browser.UserKey].JsonObject? ==>
      r == Some(items[Browser.UserKey].fields)
    ensures Browser.UserKey in items && items[Browser.UserKey].JsonScalar? ==>
      (r.None? <==> items[Browser.UserKey].value.Null?) && (r.Some? ==> r.value == map[])
  {
    if Browser.UserKey !in items then None
    else match items[Browser.UserKey]
      case Text(_) => None
      case JsonObject(fields) => Some(fields)
      case JsonScalar(v) => if v.Null? then None else Some(map[])
  }

  /** A stored `true` or string that parses reads as the all-default
      profile: no redirect, and every field at its fallback. */
  lemma FallbackOnScalar(items: map<string, Browser.Stored>)
    requires Browser.UserKey in items && items[Browser.UserKey].JsonScalar?
    requires !items[Browser.UserKey].value.Null?
    ensures FallbackRecord(items).Some?
    ensures var u := Normalise(FallbackRecord(items).value);
      u.id == "" && u.email == "" && u.firstName == "" && u.lastName == "" &&
      u.role == "customer" && u.isActive && !u.emailVerified && u.profilePicture == None &&
      u.businessName == None && u.isVerifiedSeller == None
  {
    NormaliseDefaults(map[]);
  }

  /** The record the storage update of `handleUserUpdate` writes back:
      `{...JSON.parse(userStr), ...rest}`, or nothing when the key is
      missing or empty or the text does not parse. Spreading an object
      copies its fields; spreading `null` or a boolean copies nothing, and
      spreading a string copies its characters under their indices. */
  function UpdatedRecord(items: map<string, Browser.Stored>, p: UserPatch): (r: Option<Json.Object>)
    ensures Browser.UserKey !in items ==> r.None?
    ensures Browser.UserKey in items ==> (r.None? <==> items[Browser.UserKey].Text?)
    ensures Browser.UserKey in items && items[Browser.UserKey].JsonObject? ==>
      r == Some(items[Browser.UserKey].fields + PatchJson(p))
    ensures Browser.UserKey in items && items[Browser.UserKey].JsonScalar? ==>
      r == Some(Json.SpreadOf(items[Browser.UserKey].value) + PatchJson(p))
  {
    if Browser.UserKey !in items then None
    else match items[Browser.UserKey]
      case Text(_) => None
      case JsonObject(fields) => Some(fields + PatchJson(p))
      case JsonScalar(v) => Some(Json.SpreadOf(v) + PatchJson(p))
  }

  /** Over a stored value that is not an object, the written record is the
      patch alone for `null` and the booleans, never has a picture, and
      holds every field of the patch as given. */
  lemma UpdateOverScalar(v: Json.Value, p: UserPatch)
    ensures !v.Str? ==> Json.SpreadOf(v) + PatchJson(p) == PatchJson(p)
    ensures "profilePicture" !in Json.SpreadOf(v) + PatchJson(p)
    ensures forall k :: k in PatchJson(p) ==> (Json.SpreadOf(v) + PatchJson(p))[k] == PatchJson(p)[k]
  {
    SpreadUnder(v, PatchJson(p));
  }

  /** Spreading a parsed scalar under an object without a picture adds no
      picture and lets the object win on every key. */
  lemma SpreadUnder(v: Json.Value, patch: Json.Object)
    requires "profilePicture" !in patch
    ensures !v.Str? ==> Json.SpreadOf(v) + patch == patch
    ensures "profilePicture" !in Json.SpreadOf(v) + patch
    ensures forall k :: k in patch ==> (Json.SpreadOf(v) + patch)[k] == patch[k]
  {
    assert "profilePicture"[0] == 'p';
  }

  class ProfilePage {
    var user: Option<UserProfile>
    var loading: bool
    var activeSection: ProfileSection

    constructor()
      ensures user == None && loading && activeSection == PersonalInfo
    {
      user := None;
      loading := true;
      activeSection := PersonalInfo;
    }

    /** "Loading..." while loading, nothing without a user, and the layout
        with the chosen section otherwise. */
    function View(): (s: Screen)
      reads this
      ensures loading ==> s == Loading
      ensures !loading && user.None? ==> s == Blank
      ensures !loading && user.Some? ==> s == Page(RenderSection(user, activeSection))
    {
      if loading then Loading
      else if user.None? then Blank
      else Page(RenderSection(user, activeSection))
    }

    /** The load effect. Without a token the visitor is sent away at once and
        `loading` stays true. With one, a fresh body is stored and
        normalised; on a failure what storage holds is normalised instead,
        and when it holds no readable user the visitor is sent away. A body
        of `null` is stored too, but reading its fields throws, so the
        fallback then reads that `null` back and sends the visitor away.
        `loading` then ends false. */
    method Load(store: Browser.LocalStorage, response: ProfileResponse)
      returns (requested: bool, redirect: bool)
      modifies this, store
      ensures requested <==> old(store.HasToken())
      ensures !requested ==> redirect && loading == old(loading) && user == old(user) &&
                             store.items == old(store.items)
      ensures requested ==> !loading
      ensures requested && response.ProfileLoaded? ==>
        !redirect && user == Some(Normalise(response.data)) &&
        store.items == old(store.items)[Browser.UserKey := Browser.JsonObject(response.data)]
      ensures requested && response.ProfileLoadedScalar? ==>
        store.items == old(store.items)[Browser.UserKey := Browser.JsonScalar(response.value)]
      ensures requested && response.ProfileLoadedScalar? ==> (redirect <==> response.value.Null?)
      ensures requested && response.ProfileLoadedScalar? && !redirect ==> user == Some(Normalise(map[]))
      ensures requested && response.ProfileLoadedScalar? && redirect ==> user == old(user)
      ensures requested && response.ProfileFailed? ==> store.items == old(store.items)
      ensures requested && response.ProfileFailed? ==>
        (redirect <==> FallbackRecord(store.items).None?)
      ensures requested && response.ProfileFailed? && !redirect ==>
        user == Some(Normalise(FallbackRecord(store.items).value))
      ensures requested && response.ProfileFailed? && redirect ==> user == old(user)
      ensures activeSection == old(activeSection)
    {
      if !store.HasToken() {
        return false, true;
      }
      requested := true;
      match response {
        case ProfileLoaded(data) =>
          store.SetItem(Browser.UserKey, Browser.JsonObject(data));
          user := Some(Normalise(data));
          redirect := false;
        case ProfileLoadedScalar(v) =>
          store.SetItem(Browser.UserKey, Browser.JsonScalar(v));
          if v.Null? {
            redirect := Fallback(store);
          } else {
            user := Some(Normalise(map[]));
            redirect := false;
          }
        case ProfileFailed =>
          redirect := Fallback(store);
      }
      loading := false;
    }

    /** The `catch` of the load effect: the stored user, read back and
        normalised, or a redirect when storage holds none that can be read. */
    method Fallback(store: Browser.LocalStorage) returns (redirect: bool)
      modifies this`user
      ensures redirect <==> FallbackRecord(store.items).None?
      ensures !redirect ==> user == Some(Normalise(FallbackRecord(store.items).value))
      ensures redirect ==> user == old(user)
    {
      var userStr := store.GetItem(Browser.UserKey);
      if userStr.Some? && Browser.Truthy(userStr.value) {
        match userStr.value {
          case Text(_) =>
            redirect := true;
          case JsonObject(fields) =>
            user := Some(Normalise(fields));
            redirect := false;
          case JsonScalar(v) =>
            if v.Null? {
              redirect := true;
            } else {
              user := Some(Normalise(map[]));
              redirect := false;
            }
        }
      } else {
        redirect := true;
      }
    }

    /** `handleUserUpdate`: without a user nothing changes. Otherwise the
        user takes every given field but the picture, and whatever stored
        text parses is spread and takes the same fields over its own keys;
        text that does not parse is left as it is. */
    method HandleUserUpdate(store: Browser.LocalStorage, p: UserPatch)
      modifies this`user, store
      ensures old(user).None? ==> user == None && store.items == old(store.items)
      ensures old(user).Some? ==> user == Some(Merge(old(user).value, p))
      ensures old(user).Some? && UpdatedRecord(old(store.items), p).Some? ==>
        store.items == old(store.items)[Browser.UserKey :=
          Browser.JsonObject(UpdatedRecord(old(store.items), p).value)]
      ensures old(user).Some? && UpdatedRecord(old(store.items), p).None? ==>
        store.items == old(store.items)
    {
      if user.None? {
        return;
      }
      user := Some(Merge(user.value, p));
      WriteBack(store, p);
    }

    /** The storage half of `handleUserUpdate`: a stored text that is
        truthy and parses is spread, takes the patch and is written back;
        a failed parse is caught and storage stays as it was. */
    static method WriteBack(store: Browser.LocalStorage, p: UserPatch)
      modifies store
      ensures UpdatedRecord(old(store.items), p).Some? ==>
        store.items == old(store.items)[Browser.UserKey :=
          Browser.JsonObject(UpdatedRecord(old(store.items), p).value)]
      ensures UpdatedRecord(old(store.items), p).None? ==> store.items == old(store.items)
    {
      var userStr := store.GetItem(Browser.UserKey);
      if userStr.Some? && Browser.Truthy(userStr.value) {
        match userStr.value {
          case Text(_) =>
          case JsonObject(fields) =>
            store.SetItem(Browser.UserKey, Browser.JsonObject(fields + PatchJson(p)));
          case JsonScalar(v) =>
            store.SetItem(Browser.UserKey, Browser.JsonObject(Json.SpreadOf(v) + PatchJson(p)));
        }
      }
    }

    /** A tab of the sidebar. */
    method ChangeSection(section: ProfileSection)
      modifies this`activeSection
      ensures activeSection == section
    {
      activeSection := section;
    }

    /** `handleLogout`: both the token and the user record leave storage and
        the visitor is sent to the landing page. */
    method HandleLogout(store: Browser.LocalStorage) returns (redirect: bool)
      modifies store
      ensures store.items == old(store.items) - {Browser.TokenKey, Browser.UserKey}
      ensures Browser.TokenKey !in store.items && Browser.UserKey !in store.items
      ensures redirect
    {
      store.RemoveItem(Browser.TokenKey);
      store.RemoveItem(Browser.UserKey);
      redirect := true;
    }
  }

  /** The stored-record side of the merge keeps the picture the record
      already had, and every key the patch does not give. */
  lemma StoredMergeKeepsPicture(fields: Json.Object, p: UserPatch, key: string)
    requires key in fields && key !in PatchJson(p)
    ensures key in fields + PatchJson(p) && (fields + PatchJson(p))[key] == fields[key]
    ensures "profilePicture" in fields ==> (fields + PatchJson(p))["profilePicture"] == fields["profilePicture"]
  {
  }
}
