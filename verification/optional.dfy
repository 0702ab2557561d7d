/** The optional value used wherever the program either yields a result or
    has nothing to give (a missing attribute, a string that does not parse). */
module Optional {

  datatype Option<+T> = None | Some(value: T)
}
