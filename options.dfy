/** An optional value: used for absent storage keys, unset environment
    variables, missing JSON fields and operations that can throw. */
module Options {
  datatype Option<+T> = None | Some(value: T)
}
