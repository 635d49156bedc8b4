/** The result types of the register-map layer. */
module Results {

  /** Programmer errors the layer rejects at its boundary. An unknown register
      name cannot be written down at all (registers are a closed datatype), so
      only an out-of-range index into a register family remains. */
  datatype Error =
    | IndexOutOfRange   // an ADRn / MASKn index outside 0..3

  datatype Result<+T> = Ok(value: T) | Err(error: Error)

  datatype Option<+T> = None | Some(value: T)
}
