/** Failure-carrying values used in place of Python exceptions. */
module Outcomes {

  datatype Option<+T> = None | Some(value: T) {
    /** The value, or a default when absent (Python's `dict.get(key, default)`). */
    function GetOr(default: T): T {
      match this
      case Some(v) => v
      case None => default
    }
  }

  /** What can make a step, a panel or a whole run fail. An external call
      (text generation, image generation, image fetch, rendering) is a
      parameter of the model, and its failure may be any of these values. */
  datatype Error =
    | EmptyNarrative            // the narrative has no panels
    | MissingKey(key: string)   // a dictionary subscript on an absent key (KeyError)
    | IndexOutOfRange           // a list subscript past the end (IndexError)
    | MissingImageUrl           // the image-generation response has no `data[0].url`

  /** Either a value or the error that replaced it. */
  datatype Result<+T> = Ok(value: T) | Err(error: Error)
}
