/**
 * The extension's key-value storage, seen synchronously: string keys to string
 * values. Also the string encoding of the dark-mode flag, shared by the popup
 * (which writes and reads it) and the content script (which reads it).
 */
module Storage {
  import opened Wrappers

  type Store = map<string, string>

  const DarkModeKey := "darkMode"
  const ColorSettingsKey := "colorSettings"

  /** `storage.get(key)`: `None` when nothing is stored under the key. */
  function Get(store: Store, key: string): Option<string> {
    if key in store then Some(store[key]) else None
  }

  /** JavaScript truthiness of a stored value: `undefined` and the empty string are falsy. */
  predicate Truthy(v: Option<string>) {
    v.Some? && v.value != ""
  }

  /** `flag.toString()` */
  function EncodeFlag(on: bool): string {
    if on then "true" else "false"
  }

  /** `value === "true"` */
  predicate DecodeFlag(v: Option<string>) {
    v == Some("true")
  }

  /** Decoding what was written gives back the flag; only the exact string "true" decodes to true. */
  lemma FlagRoundTrip(on: bool, other: Option<string>)
    ensures DecodeFlag(Some(EncodeFlag(on))) == on
    ensures other != Some("true") ==> !DecodeFlag(other)
  {
  }
}
