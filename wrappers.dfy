/** The optional value used for answers that may be missing: an oracle call that failed,
    a reply that did not parse, a log entry that is not well formed. */
module Wrappers {

  datatype Option<+T> = None | Some(value: T)
}
