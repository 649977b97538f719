/** Ranging over the keys of a map. */
module Iteration {
  /** The next key, in no particular order. */
  method Pick<T>(keys: set<T>) returns (key: T)
    requires keys != {}
    ensures key in keys
  {
    key :| key in keys;
  }
}
