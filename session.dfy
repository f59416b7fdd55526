/** The browser's `localStorage` as the client uses it: a map from keys to
    strings, and the four keys that make up a session. */
module Session {
  import opened Common

  const WalletAddressKey: string := "walletAddress"
  const UserTypeKey: string := "userType"
  const UserIdKey: string := "userId"
  const CurrentProfileKey: string := "currentProfile"

  /** The key-value store behind `localStorage`. */
  class Store {
    var entries: map<string, string>

    constructor (initial: map<string, string>)
      ensures entries == initial
    {
      entries := initial;
    }

    /** `getItem(key)`: the stored string, or `null` for a missing key. */
    function GetItem(key: string): (v: Option<string>)
      reads this
      ensures v.Some? <==> key in entries
      ensures v.Some? ==> v.value == entries[key]
    {
      if key in entries then Some(entries[key]) else None
    }

    /** `setItem(key, value)` */
    method SetItem(key: string, value: string)
      modifies this
      ensures entries == old(entries)[key := value]
    {
      entries := entries[key := value];
    }

    /** `removeItem(key)`: a missing key is no error. */
    method RemoveItem(key: string)
      modifies this
      ensures entries == old(entries) - {key}
    {
      entries := entries - {key};
    }
  }
}
