/** Option and Result values, and the kinds of failure the argument-mapping
    framework can run into. Every place where the framework aborts the process
    is modelled as an `Err` carrying one of these kinds. */
module Results {

  datatype Option<+T> = None | Some(value: T)

  datatype Result<+T> = Ok(value: T) | Err(error: Error)

  /** What went wrong. */
  datatype Error =
    | TypeMismatch      // a value was filled into an argument of another kind
    | UnsupportedKind   // a collection argument was asked to generate its tokens
    | MissingMandatory  // a mandatory entry produced no token
    | UnsupportedName   // an undefined name was displayed, or a flag name was applied
    | InvalidEntry      // an entry with an undefined name was compared
    | UnknownTag        // a name fragment came with a tag the parser does not know
    | MalformedName     // a name fragment is too short or its index is not a u8
    | Unparsable        // an entry descriptor string was not understood
}
