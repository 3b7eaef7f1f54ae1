/** The optional value used wherever the source holds a nullable pointer
    or reports "no hit". */
module Options {

  datatype Option<+T> = None | Some(value: T)
}
