/** An optional value, standing in for `std::optional` and for the failure
    result of the text decoders. */
module Optional {

  datatype Option<+T> = None | Some(value: T)
}
