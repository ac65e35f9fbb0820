/** The optional value returned by the parent-selection walks, which can
    fall off the end of the population without choosing anyone. */
module Wrappers {

  datatype Option<+T> = None | Some(value: T)

}
