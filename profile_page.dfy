/** The profile page: on mount it reads the stored token, decodes its second dot-separated segment
    as the payload, and maps it to a Google-style profile; sign-out drops the token. */
module ProfilePage {

  import opened Wrappers
  import opened JsJson
  import JsText
  import BrowserStorage
  import UserContext

  /** The profile record; `hd` (the hosted domain) is copied as it is, `undefined` included. */
  datatype GoogleProfile = GoogleProfile(id: Json, name: Json, email: Json, picture: Json, givenName: Json,
                                         familyName: Json, emailVerified: bool, locale: Json, hd: Option<Json>)

  /** `token.split('.')[1]`, passed on to `atob`: a token without a dot has no second segment, and
      `atob` then receives `undefined`, which it reads as the string "undefined". */
  function PayloadSegment(token: string): (segment: string)
    ensures JsText.CountChar(token, '.') >= 1 ==> Some(segment) == JsText.Piece(token, '.', 1)
    ensures JsText.CountChar(token, '.') == 0 ==> segment == "undefined"
  {
    match JsText.Piece(token, '.', 1)
    case Some(s) => s
    case None => "undefined"
  }

  /** `payload[key]` on a payload that is not `null`. */
  function Prop(payload: Json, key: string): Option<Json>
    requires !payload.JNull?
  {
    JsJson.Get(payload, key).value
  }

  /** The object literal of the mount effect. Reading from a `null` payload throws, and so does
      splitting a `name` that is neither nullish nor a string when a name part needs it. */
  function MapPayload(payload: Json): (r: Result<GoogleProfile>)
    ensures r.Ok? ==> !payload.JNull?
    ensures r.Ok? ==> r.value.id == OrElse(Prop(payload, "sub"), "")
    ensures r.Ok? ==> r.value.name == (if Truthy(Prop(payload, "name")) then Prop(payload, "name").value
                                       else OrElse(Prop(payload, "email"), "User"))
    ensures r.Ok? ==> r.value.email == OrElse(Prop(payload, "email"), "")
    ensures r.Ok? ==> r.value.picture == OrElse(Prop(payload, "picture"), UserContext.DefaultPicture)
    ensures r.Ok? ==> r.value.emailVerified == Truthy(Prop(payload, "email_verified"))
    ensures r.Ok? ==> r.value.locale == OrElse(Prop(payload, "locale"), "en")
    ensures r.Ok? ==> r.value.hd == Prop(payload, "hd")
    ensures r.Ok? ==> Ok(r.value.givenName) == NamePart(Prop(payload, "given_name"), Prop(payload, "name"), 0)
    ensures r.Ok? ==> Ok(r.value.familyName) == NamePart(Prop(payload, "family_name"), Prop(payload, "name"), 1)
  {
    if payload.JNull? then Err(NullReadMessage("sub"))
    else
      var given := NamePart(Prop(payload, "given_name"), Prop(payload, "name"), 0);
      var family := NamePart(Prop(payload, "family_name"), Prop(payload, "name"), 1);
      if given.Err? then Err(given.message)
      else if family.Err? then Err(family.message)
      else
        Ok(GoogleProfile(
          OrElse(Prop(payload, "sub"), ""),
          OrElse(Or(Prop(payload, "name"), Prop(payload, "email")), "User"),
          OrElse(Prop(payload, "email"), ""),
          OrElse(Prop(payload, "picture"), UserContext.DefaultPicture),
          given.value,
          family.value,
          Truthy(Prop(payload, "email_verified")),
          OrElse(Prop(payload, "locale"), "en"),
          Prop(payload, "hd")))
  }

  /** `explicit || payload.name?.split(' ')[i] || ""`: this page has no alternative field. */
  function NamePart(explicit: Option<Json>, name: Option<Json>, i: nat): (r: Result<Json>)
    ensures Truthy(explicit) ==> r == Ok(explicit.value)
    ensures r.Err? <==> !Truthy(explicit) && name.Some? && !name.value.JNull? && !name.value.JStr?
    ensures !Truthy(explicit) && name.Some? && name.value.JStr? ==>
      r == Ok(JStr(JsText.Piece(name.value.s, ' ', i).GetOr("")))
    ensures !Truthy(explicit) && (name.None? || name.value.JNull?) ==> r == Ok(JStr(""))
  {
    if Truthy(explicit) then Ok(explicit.value)
    else
      match OptionalSplitPiece(name, ' ', i)
      case Err(m) => Err(m)
      case Ok(word) => Ok(OrElse(word, ""))
  }

  /** What the mount effect leaves in `profileData`: nothing without a token, nothing when decoding
      or mapping throws, the mapped profile otherwise. */
  function LoadProfile(token: Option<string>, decode: string -> Option<Json>): Option<GoogleProfile> {
    if token.None? || token.value == "" then None
    else
      match decode(PayloadSegment(token.value))
      case None => None
      case Some(payload) =>
        match MapPayload(payload)
        case Err(_) => None
        case Ok(profile) => Some(profile)
  }

  /** A non-empty token without a dot gives `atob` the text "undefined", whose nine characters are
      not a valid base64 length, so decoding throws and no profile loads. */
  lemma DotlessTokenLoadsNothing(token: string, decode: string -> Option<Json>)
    requires token != "" && JsText.CountChar(token, '.') == 0
    requires decode("undefined") == None
    ensures LoadProfile(Some(token), decode) == None
  {
  }

  /** A two-word name with no explicit parts yields them as given and family name. */
  lemma NameWordsRejoin(payload: Json, first: string, last: string)
    requires payload.JObject?
    requires Prop(payload, "name") == Some(JStr(first + " " + last))
    requires ' ' !in first && ' ' !in last && first != "" && last != ""
    requires Prop(payload, "given_name").None? && Prop(payload, "family_name").None?
    ensures MapPayload(payload).Ok?
    ensures MapPayload(payload).value.givenName == JStr(first)
    ensures MapPayload(payload).value.familyName == JStr(last)
  {
    JsText.SplitJoin([first, last], ' ');
    assert JsText.Join([first, last], ' ') == first + " " + last;
  }

  /** An empty payload object gets every default; `hd` stays undefined. */
  lemma EmptyPayloadDefaults()
    ensures MapPayload(JObject(map[])) == Ok(GoogleProfile(JStr(""), JStr("User"), JStr(""), JStr(UserContext.DefaultPicture),
                                                           JStr(""), JStr(""), false, JStr("en"), None))
  {
  }

  /** Unlike the user context, this page does not insist on three segments: a two-segment token
      whose second segment decodes loads a profile here and no user there. */
  lemma LooserThanUserContext(decode: string -> Option<Json>)
    requires decode("p") == Some(JObject(map[]))
    ensures LoadProfile(Some("h.p"), decode).Some?
    ensures UserContext.LoadUser(Some("h.p"), decode).None?
  {
    var parts := JsText.Split("h.p", '.');
    JsText.SplitJoin(["h", "p"], '.');
    assert JsText.Join(["h", "p"], '.') == "h.p";
    assert parts == ["h", "p"];
    assert PayloadSegment("h.p") == "p";
    EmptyPayloadDefaults();
  }

  /** The three things the page can show. */
  datatype Screen = Loading | LoadFailed | ShowProfile(profile: GoogleProfile)

  /** The profile page's state. */
  class Page {
    var profileData: Option<GoogleProfile>
    var isLoading: bool
    var reloadRequested: bool
    const storage: BrowserStorage.LocalStorage

    constructor (storage: BrowserStorage.LocalStorage)
      ensures this.storage == storage && profileData == None && isLoading && !reloadRequested
      ensures Render() == Loading
    {
      this.storage := storage;
      profileData := None;
      isLoading := true;
      reloadRequested := false;
    }

    function Render(): Screen
      reads this
    {
      if isLoading then Loading
      else if profileData.None? then LoadFailed
      else ShowProfile(profileData.value)
    }

    /** The mount effect: whatever happens, loading ends. */
    method Mount(decode: string -> Option<Json>)
      modifies this
      ensures profileData == (var token := storage.GetItem(BrowserStorage.AuthTokenKey);
                              if token.None? || token.value == "" then old(profileData) else LoadProfile(token, decode))
      ensures !isLoading && reloadRequested == old(reloadRequested)
      ensures Render() != Loading
    {
      var token := storage.GetItem(BrowserStorage.AuthTokenKey);
      if token.None? || token.value == "" {
        isLoading := false;
        return;
      }
      var payload := decode(PayloadSegment(token.value));
      if payload.None? {
        profileData := None;
      } else {
        var mapped := MapPayload(payload.value);
        profileData := if mapped.Ok? then Some(mapped.value) else None;
      }
      isLoading := false;
    }

    /** `handleSignOut`: the token is removed and a reload requested. */
    method HandleSignOut()
      modifies this, storage
      ensures storage.items == old(storage.items) - {BrowserStorage.AuthTokenKey}
      ensures storage.GetItem(BrowserStorage.AuthTokenKey).None?
      ensures reloadRequested && profileData == old(profileData) && isLoading == old(isLoading)
    {
      storage.RemoveItem(BrowserStorage.AuthTokenKey);
      reloadRequested := true;
    }
  }
}
