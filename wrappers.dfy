/** Optional values: a stored high score that may be absent, a difficulty
    tier that may have no question cap, a question that may carry no
    explanation. */
module Wrappers {
  datatype Option<+T> = None | Some(value: T)
}
