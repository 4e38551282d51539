/** Optional values, used for the places where the builder panics (`unwrap`,
    `expect`, slicing out of range): `None` stands for "the process aborted". */
module Wrappers {
  datatype Option<+T> = None | Some(value: T)
}

/** The part of a parsed YAML value that the builder looks at: `as_str()` gives
    back a string only when the value is a YAML string. */
module Yaml {
  datatype Scalar = Str(s: string) | NonString
}
