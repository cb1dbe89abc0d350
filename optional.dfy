/** The "may be absent" result used where the source returns a success flag
    together with out-parameters, or leaves a caller buffer untouched. */
module Optional {

  datatype Option<+T> = None | Some(value: T)
}
