/** Optional values, standing in for the `T | null` and `T | undefined` types of the front end. */
module Wrappers {

  datatype Option<+T> = None | Some(value: T)
}

/** The string key/value stores of the front end: browser local storage and the settings table. */
module KeyValue {
  import opened Wrappers

  /** The value stored under `key`, or null when there is none. */
  function Get(store: map<string, string>, key: string): Option<string>
  {
    if key in store then Some(store[key]) else None
  }

  /** JavaScript truthiness of a `string | null`: present and not empty. */
  predicate Truthy(v: Option<string>) {
    v.Some? && v.value != ""
  }
}
