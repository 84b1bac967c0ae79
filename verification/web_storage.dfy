/** The browser facilities the session flag goes through: `localStorage`, a
    string-to-string store, and the router's current path, which `navigate`
    replaces. */
module WebStorage {
  import opened Wrappers

  type Storage = map<string, string>

  /** `localStorage.getItem(key)`: `null` is `None`. */
  function GetItem(storage: Storage, key: string): (r: Option<string>)
    ensures r.None? <==> key !in storage
    ensures r.Some? ==> r.value == storage[key]
  {
    if key in storage then Some(storage[key]) else None
  }

  /** `localStorage.setItem(key, value)`: reads back `value` under `key` and
      leaves every other key as it was. */
  function SetItem(storage: Storage, key: string, value: string): (r: Storage)
    ensures GetItem(r, key) == Some(value)
    ensures forall k :: k != key ==> GetItem(r, k) == GetItem(storage, k)
  {
    storage[key := value]
  }

  /** `localStorage.removeItem(key)`: `key` reads back as absent, every other
      key as it was. */
  function RemoveItem(storage: Storage, key: string): (r: Storage)
    ensures GetItem(r, key) == None
    ensures forall k :: k != key ==> GetItem(r, k) == GetItem(storage, k)
  {
    storage - {key}
  }

  /** The browser state shared by every component: local storage and the
      current route. */
  class Browser {
    var storage: Storage
    var path: string

    constructor(storage: Storage, path: string)
      ensures this.storage == storage && this.path == path
    {
      this.storage := storage;
      this.path := path;
    }

    /** `navigate(to)` */
    method Navigate(to: string)
      modifies this
      ensures path == to && storage == old(storage)
    {
      path := to;
    }
  }
}
