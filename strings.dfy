/** String helpers shared by the logger and the date formatter. */
module Strings {

  /** `t` is a suffix of `s` (String.prototype.endsWith). */
  predicate EndsWith(s: string, t: string) {
    |t| <= |s| && s[|s| - |t|..] == t
  }
}
