/** A way to keep a fact folded: it is stated for every key, and unfolds only where a key is named. */
module Folding {
  ghost predicate Asked(key: int) { true }
}
