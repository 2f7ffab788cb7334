/**
 * The two browser globals the core writes: `localStorage` (a string map)
 * and `window.location.href`.
 */
module BrowserState {
  import opened Wrappers

  /** The `localStorage` key under which the JWT is kept. */
  const TokenKey: string := "token"

  class Browser {
    var storage: map<string, string>
    var href: string

    constructor (storage: map<string, string>, href: string)
      ensures this.storage == storage && this.href == href
    {
      this.storage, this.href := storage, href;
    }

    /** `localStorage.getItem(key)`: null (none) for a missing key. */
    function GetItem(key: string): Option<string>
      reads this
    {
      if key in storage then Some(storage[key]) else None
    }

    /** `localStorage.setItem(key, value)`. */
    method SetItem(key: string, value: string)
      modifies this
      ensures storage == old(storage)[key := value] && href == old(href)
    {
      storage := storage[key := value];
    }

    /** `localStorage.removeItem(key)`. */
    method RemoveItem(key: string)
      modifies this
      ensures storage == old(storage) - {key} && href == old(href)
    {
      storage := storage - {key};
    }

    /** `window.location.href = url`. */
    method Assign(url: string)
      modifies this
      ensures href == url && storage == old(storage)
    {
      href := url;
    }
  }
}
