/** The browser facilities the components touch: `localStorage` as a map
    from keys to stored values, and the `File` objects of file inputs. */
module Browser {
  import opened Wrappers
  import Json

  /** A stored string, classified by what `JSON.parse` makes of it: text
      it rejects (the token, say, or ""), a stringified JSON object (the
      user record), or the text of a JSON value that is not an object
      (`null`, `true`, `"x"`). */
  datatype Stored = Text(text: string) | JsonObject(fields: Json.Object) | JsonScalar(value: Json.Value)

  /** The stored string is non-empty: the text of a JSON value never is. */
  predicate Truthy(v: Stored) {
    match v
    case Text(t) => t != ""
    case JsonObject(_) => true
    case JsonScalar(_) => true
  }

  const TokenKey := "token"
  const UserKey := "user"

  /** A file picked in a file input. */
  datatype File = File(name: string, mimeType: string, size: nat)

  class LocalStorage {
    var items: map<string, Stored>

    constructor (initial: map<string, Stored>)
      ensures items == initial
    {
      items := initial;
    }

    /** `localStorage.getItem(key)`, `None` standing for `null`. */
    function GetItem(key: string): Option<Stored>
      reads this
    {
      if key in items then Some(items[key]) else None
    }

    /** `localStorage.getItem('token')` is truthy. */
    predicate HasToken()
      reads this
    {
      TokenKey in items && Truthy(items[TokenKey])
    }

    /** `localStorage.setItem(key, value)`. */
    method SetItem(key: string, value: Stored)
      modifies this
      ensures items == old(items)[key := value]
    {
      items := items[key := value];
    }

    /** `localStorage.removeItem(key)`. */
    method RemoveItem(key: string)
      modifies this
      ensures items == old(items) - {key}
    {
      items := items - {key};
    }
  }
}
