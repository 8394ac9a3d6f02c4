/** The two wrappers every other module uses: an optional value, standing in for
    a Go pointer that may be nil, and a value-or-error, standing in for Go's
    `(value, error)` pair. Go errors are carried as their message text. */
module Outcomes {

  datatype Option<+T> = None | Some(value: T)

  datatype Result<+T> = Ok(value: T) | Err(error: string)
}
