/** The browser's `localStorage`, a string-to-string cell store shared by the
    admin page (which writes the protector flag) and the proctoring hook
    (which reads it). */
module LocalStorage {
  import opened Wrappers

  const ProtectorModeKey := "protector_mode"

  /** `saved === "true"`: a missing item or any other string reads as off. */
  predicate ReadsTrue(saved: Option<string>): (b: bool)
    ensures saved.None? ==> !b
    ensures b ==> saved.value == "true"
    ensures saved == Some("true") ==> b
  {
    saved == Some("true")
  }

  /** `String(b)` for a boolean; reading it back gives `b`. */
  function BoolString(b: bool): (s: string)
    ensures ReadsTrue(Some(s)) == b
    ensures s == "true" || s == "false"
  {
    if b then "true" else "false"
  }

  class Store {
    var items: map<string, string>

    constructor ()
      ensures items == map[]
    {
      items := map[];
    }

    /** `getItem`: `null` (here `None`) for a key never set. */
    function GetItem(key: string): (r: Option<string>)
      reads this
      ensures r.Some? <==> key in items
      ensures r.Some? ==> r.value == items[key]
    {
      if key in items then Some(items[key]) else None
    }

    method SetItem(key: string, value: string)
      modifies this
      ensures items == old(items)[key := value]
      ensures GetItem(key) == Some(value)
    {
      items := items[key := value];
    }
  }
}
