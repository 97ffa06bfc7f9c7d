/** The optional value used for an agent's grid position and for step outcomes. */
module Optional {

  datatype Option<T> = None | Some(value: T)
}
