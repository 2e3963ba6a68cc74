/**
 * The browser's `localStorage` as the client pages use it: a map from keys
 * to texts. Writing can be refused (the quota is full or storage is
 * disabled), in which case `setItem` throws and nothing is stored; whether
 * it is refused is decided by the browser and enters as a parameter.
 */
module BrowserStorage {
  import opened Wrappers

  class LocalStore {
    var items: map<string, string>

    constructor ()
      ensures items == map[]
    {
      items := map[];
    }

    /** `getItem(key)`: the stored text, or `null` (`None`). */
    function GetItem(key: string): (r: Option<string>)
      reads this
      ensures r.Some? <==> key in items
      ensures r.Some? ==> r.value == items[key]
    {
      if key in items then Some(items[key]) else None
    }

    /** `setItem(key, value)`; `accepted` is false when the browser refuses the write. */
    method SetItem(key: string, value: string, accepted: bool) returns (ok: bool)
      modifies this
      ensures ok == accepted
      ensures items == if accepted then old(items)[key := value] else old(items)
    {
      ok := accepted;
      if accepted {
        items := items[key := value];
      }
    }
  }
}
