/** The user context: the signed-in user, read from the payload segment of the stored JSON Web
    Token (a header, a payload and a signature joined by dots, section 7.1 of RFC 7519). */
module UserContext {

  import opened Wrappers
  import opened JsJson
  import JsText
  import BrowserStorage

  const DefaultPicture: string := "https://lh3.googleusercontent.com/a/default-user"
  const OutsideProviderMessage: string := "useUser must be used within a UserProvider"

  /** The user record. Its fields hold whatever JSON values the payload carried, or the defaults. */
  datatype User = User(id: Json, name: Json, email: Json, picture: Json, givenName: Json, familyName: Json,
                       emailVerified: bool, role: Json)

  /** `payload[key]` on a payload that is not `null`. */
  function Prop(payload: Json, key: string): Option<Json>
    requires !payload.JNull?
  {
    JsJson.Get(payload, key).value
  }

  /** `explicit || alternative || payload.name?.split(' ')[i] || ""`, evaluated left to right: the
      split is only reached, and can only throw, when both earlier fields are falsy. */
  function NamePart(explicit: Option<Json>, alternative: Option<Json>, name: Option<Json>, i: nat): (r: Result<Json>)
    ensures Truthy(explicit) ==> r == Ok(explicit.value)
    ensures !Truthy(explicit) && Truthy(alternative) ==> r == Ok(alternative.value)
    ensures r.Err? <==> !Truthy(explicit) && !Truthy(alternative) && name.Some? && !name.value.JNull? && !name.value.JStr?
    ensures !Truthy(explicit) && !Truthy(alternative) && name.Some? && name.value.JStr? ==>
      r == Ok(JStr(JsText.Piece(name.value.s, ' ', i).GetOr("")))
    ensures !Truthy(explicit) && !Truthy(alternative) && (name.None? || name.value.JNull?) ==> r == Ok(JStr(""))
  {
    if Truthy(explicit) then Ok(explicit.value)
    else if Truthy(alternative) then Ok(alternative.value)
    else
      match OptionalSplitPiece(name, ' ', i)
      case Err(m) => Err(m)
      case Ok(word) => Ok(OrElse(word, ""))
  }

  /** The object literal built from the payload. Reading from a `null` payload throws, and so does
      splitting a `name` that is neither nullish nor a string when the name parts need it. */
  function MapPayload(payload: Json): (r: Result<User>)
    ensures r.Ok? ==> !payload.JNull?
    ensures r.Ok? ==> r.value.id == (if Truthy(Prop(payload, "sub")) then Prop(payload, "sub").value
                                     else OrElse(Prop(payload, "user_id"), ""))
    ensures r.Ok? ==> r.value.name == (if Truthy(Prop(payload, "name")) then Prop(payload, "name").value
                                       else OrElse(Prop(payload, "email"), "User"))
    ensures r.Ok? ==> r.value.email == OrElse(Prop(payload, "email"), "")
    ensures r.Ok? ==> r.value.picture == (if Truthy(Prop(payload, "picture")) then Prop(payload, "picture").value
                                          else OrElse(Prop(payload, "avatar"), DefaultPicture))
    ensures r.Ok? ==> r.value.emailVerified == Truthy(Prop(payload, "email_verified"))
    ensures r.Ok? ==> r.value.role == OrElse(Prop(payload, "role"), "Admin")
    ensures r.Ok? ==> Ok(r.value.givenName) == NamePart(Prop(payload, "given_name"), Prop(payload, "first_name"), Prop(payload, "name"), 0)
    ensures r.Ok? ==> Ok(r.value.familyName) == NamePart(Prop(payload, "family_name"), Prop(payload, "last_name"), Prop(payload, "name"), 1)
  {
    if payload.JNull? then Err(NullReadMessage("sub"))
    else
      var given := NamePart(Prop(payload, "given_name"), Prop(payload, "first_name"), Prop(payload, "name"), 0);
      var family := NamePart(Prop(payload, "family_name"), Prop(payload, "last_name"), Prop(payload, "name"), 1);
      if given.Err? then Err(given.message)
      else if family.Err? then Err(family.message)
      else
        Ok(User(
          OrElse(Or(Prop(payload, "sub"), Prop(payload, "user_id")), ""),
          OrElse(Or(Prop(payload, "name"), Prop(payload, "email")), "User"),
          OrElse(Prop(payload, "email"), ""),
          OrElse(Or(Prop(payload, "picture"), Prop(payload, "avatar")), DefaultPicture),
          given.value,
          family.value,
          Truthy(Prop(payload, "email_verified")),
          OrElse(Prop(payload, "role"), "Admin")))
  }

  /** `loadUserFromToken`, with `decode` standing for `JSON.parse(atob(segment))` (`None` when either
      throws): no user without a token, without exactly three segments, or when the payload does
      not decode or does not map. */
  function LoadUser(token: Option<string>, decode: string -> Option<Json>): Option<User> {
    if token.None? || token.value == "" then None
    else
      var parts := JsText.Split(token.value, '.');
      if |parts| != 3 then None
      else
        match decode(parts[1])
        case None => None
        case Some(payload) =>
          match MapPayload(payload)
          case Err(_) => None
          case Ok(user) => Some(user)
  }

  /** The name parts need the split when neither explicit field of one of them is truthy. */
  predicate NeedsNameSplit(payload: Json)
    requires !payload.JNull?
  {
    (!Truthy(Prop(payload, "given_name")) && !Truthy(Prop(payload, "first_name")))
    || (!Truthy(Prop(payload, "family_name")) && !Truthy(Prop(payload, "last_name")))
  }

  /** `name?.split` does not throw: the name is absent, `null` or a string. */
  predicate NameSplittable(payload: Json)
    requires !payload.JNull?
  {
    Prop(payload, "name").None? || Prop(payload, "name").value.JNull? || Prop(payload, "name").value.JStr?
  }

  /** Mapping a payload fails exactly when it is `null`, or when a name part needs the split and
      the name cannot be split. */
  lemma MapPayloadOkIff(payload: Json)
    ensures MapPayload(payload).Ok? <==> !payload.JNull? && (NeedsNameSplit(payload) ==> NameSplittable(payload))
  {
  }

  /** A user is loaded exactly when the token is non-empty, has three dot-separated segments, its
      middle segment decodes to a payload, and that payload maps. */
  lemma LoadUserIff(token: Option<string>, decode: string -> Option<Json>)
    ensures LoadUser(token, decode).Some? <==>
      token.Some? && token.value != "" && JsText.CountChar(token.value, '.') == 2
      && decode(JsText.Piece(token.value, '.', 1).value).Some?
      && MapPayload(decode(JsText.Piece(token.value, '.', 1).value).value).Ok?
  {
    if token.Some? {
      JsText.SplitCount(token.value, '.');
    }
  }

  /** Name, picture and role always end up truthy: each chain ends in a non-empty default. */
  lemma DefaultsAreNonEmpty(payload: Json)
    requires MapPayload(payload).Ok?
    ensures Truthy(Some(MapPayload(payload).value.name))
    ensures Truthy(Some(MapPayload(payload).value.picture))
    ensures Truthy(Some(MapPayload(payload).value.role))
  {
  }

  /** An empty payload object gets every default. */
  lemma EmptyPayloadDefaults()
    ensures MapPayload(JObject(map[])) == Ok(User(JStr(""), JStr("User"), JStr(""), JStr(DefaultPicture),
                                                  JStr(""), JStr(""), false, JStr("Admin")))
  {
  }

  /** A two-word name with no explicit name parts yields them as given and family name: the
      derived parts rejoin to the full name. */
  lemma NameWordsRejoin(payload: Json, first: string, last: string)
    requires payload.JObject?
    requires Prop(payload, "name") == Some(JStr(first + " " + last))
    requires ' ' !in first && ' ' !in last && first != "" && last != ""
    requires Prop(payload, "given_name").None? && Prop(payload, "first_name").None?
    requires Prop(payload, "family_name").None? && Prop(payload, "last_name").None?
    ensures MapPayload(payload).Ok?
    ensures MapPayload(payload).value.givenName == JStr(first)
    ensures MapPayload(payload).value.familyName == JStr(last)
  {
    JsText.SplitJoin([first, last], ' ');
    assert JsText.Join([first, last], ' ') == first + " " + last;
  }

  /** The provider's state. */
  class UserProvider {
    var user: Option<User>
    const storage: BrowserStorage.LocalStorage

    /** Mounting the provider loads the user once. */
    constructor (storage: BrowserStorage.LocalStorage, decode: string -> Option<Json>)
      ensures this.storage == storage
      ensures user == LoadUser(storage.GetItem(BrowserStorage.AuthTokenKey), decode)
    {
      this.storage := storage;
      user := LoadUser(storage.GetItem(BrowserStorage.AuthTokenKey), decode);
    }

    /** `loadUserFromToken`: the early exits and the caught errors all leave `user` null. */
    method LoadUserFromToken(decode: string -> Option<Json>)
      modifies this
      ensures user == LoadUser(storage.GetItem(BrowserStorage.AuthTokenKey), decode)
    {
      var token := storage.GetItem(BrowserStorage.AuthTokenKey);
      if token.None? || token.value == "" {
        user := None;
        return;
      }
      var parts := JsText.Split(token.value, '.');
      if |parts| != 3 {
        user := None;
        return;
      }
      var payload := decode(parts[1]);
      if payload.None? {
        user := None;
        return;
      }
      var mapped := MapPayload(payload.value);
      user := if mapped.Ok? then Some(mapped.value) else None;
    }

    method SetUser(u: Option<User>)
      modifies this
      ensures user == u
    {
      user := u;
    }
  }

  /** `useUser`: the provider's context, or the error thrown outside any provider. */
  function UseUser(context: Option<UserProvider>): (r: Result<UserProvider>)
    ensures r.Ok? <==> context.Some?
    ensures r.Ok? ==> r.value == context.value
    ensures r.Err? ==> r.message == OutsideProviderMessage
  {
    if context.None? then Err(OutsideProviderMessage) else Ok(context.value)
  }
}
