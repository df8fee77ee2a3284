/** Shared helper: the optional value that stands for JavaScript's `null`. */
module Wrappers {

  /** `None` plays the part of `null` (a missing element, a closed lightbox). */
  datatype Option<+T> = None | Some(value: T)
}
