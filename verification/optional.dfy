/** A value that may be absent: used where a register field can hold a code
    the driver never writes. */
module Optional {

  datatype Option<+T> = None | Some(value: T)
}
