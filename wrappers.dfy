/** The optional values of the Kotlin source (`Date?`, `String?`) and the
    results of the small parsers that act as inverses of the renderers. */
module Wrappers {

  datatype Option<+T> = None | Some(value: T)
}
