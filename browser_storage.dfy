/** The browser's `localStorage`, shared by every component that reads or clears the session token. */
module BrowserStorage {

  import opened Wrappers

  /** The key under which the session token is kept. */
  const AuthTokenKey: string := "auth_token"

  class LocalStorage {
    var items: map<string, string>

    constructor (initial: map<string, string>)
      ensures items == initial
    {
      items := initial;
    }

    /** `localStorage.getItem(key)`: the stored string, or `null`. */
    function GetItem(key: string): (r: Option<string>)
      reads this
      ensures r.Some? <==> key in items
      ensures r.Some? ==> r.value == items[key]
    {
      if key in items then Some(items[key]) else None
    }

    /** `localStorage.setItem(key, value)`. */
    method SetItem(key: string, value: string)
      modifies this
      ensures items == old(items)[key := value]
    {
      items := items[key := value];
    }

    /** `localStorage.removeItem(key)`: only `key` goes, every other entry stays. */
    method RemoveItem(key: string)
      modifies this
      ensures items == old(items) - {key}
      ensures key !in items
      ensures forall k :: k in old(items) && k != key ==> k in items && items[k] == old(items)[k]
    {
      items := items - {key};
    }
  }
}
