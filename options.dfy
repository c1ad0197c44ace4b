/** The optional value used for the fields the source leaves null until set:
    the tested value (absent after `start()`) and the default case (absent
    until `defaultCase` is called). */
module Options {

  datatype Option<T> = None | Some(value: T)

}
