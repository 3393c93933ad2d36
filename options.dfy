/** The optional value used by the decoders and lookups of the model. */
module Options {

  datatype Option<+T> = None | Some(value: T)
}
