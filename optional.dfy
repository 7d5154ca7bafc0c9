/** A value that may be absent: the model of a field typed `number | null`. */
module Optional {

  datatype Option<+T> = None | Some(value: T)
}
