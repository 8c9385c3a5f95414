/** An optional value: a scan that may find nothing, or a mutator that may
    refuse instead of sending its one request. */
module Options {

  datatype Option<+T> = None | Some(value: T)

}
