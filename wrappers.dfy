/** Option type shared by the dashboard model: the outcomes that Python
    signals with an exception or a NaN become None here. */
module Wrappers {

  datatype Option<+T> = None | Some(value: T)
}
