/** Optional values and the four ways an operation of the layout core can fail. */
module Results {

  /** Python's `Window | None`. */
  datatype Option<+T> = None | Some(value: T)

  /** The exceptions the core raises. */
  datatype Error =
    | NotFound                      // `list.index` raised ValueError: the window is not a member
    | NotAttached                   // RuntimeError: the owning group was accessed before `clone`
    | Unsupported(layout: string)   // CommandError: the layout does not support the operation
    | OutOfRange                    // IndexError: a list subscript outside the list

  /** A value, or the exception that ended the call. */
  datatype Result<+T> = Ok(value: T) | Err(error: Error)
}
