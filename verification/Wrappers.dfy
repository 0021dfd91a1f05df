/** Results of computations that can fail, and the errors this model tells apart. */
module Wrappers {

  datatype Option<+T> = None | Some(value: T)

  /** The error values of the code, as far as callers can tell them apart.  `NotFound` is what
      shared.IsErrNotFound recognises, also when it is wrapped by another message. */
  datatype Error =
    | NotFound
    | MissingETag      // an update was attempted without an ETag
    | Convert          // a stored record has no usable form
    | Parse            // a number, boolean, YAML text, device or image name does not parse
    | Usage            // a configuration the runtime does not allow
    | Refused          // LXD rejects the request: stale ETag, object in use, wrong state
    | Unavailable      // the request could not be carried out at all

  datatype Result<+T> = Ok(value: T) | Err(error: Error)

  /** Whether a request to a server is lost on the way; never if the server is reliable */
  method Lost(reliable: bool) returns (lost: bool)
    ensures reliable ==> !lost
  {
    lost := *;
    lost := lost && !reliable;
  }
}
