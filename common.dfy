/**
 * Values shared by every component of the bot: an optional value (Python's
 * None), the Python exceptions the modelled code lets escape, and what a
 * module's `main` hands back to the dispatcher.
 */
module Common {

  datatype Option<T> = None | Some(value: T)

  /** A value, or the exception that was raised instead of producing it. */
  datatype Result<T> = Ok(value: T) | Err(error: PyError)

  /** The exceptions that the modelled code raises and does not catch itself. */
  datatype PyError =
    | KeyError(key: string)
    | IndexError
    | ValueError
    | FileNotFound(path: string)
    | IsADirectory(path: string)
    | JsonDecodeError(path: string)

  /**
   * The result of a module's `main`: text to say in chat, the bot's
   * "send nothing" signal, or an exception that escapes to the dispatcher.
   */
  datatype Reply = Say(text: string) | Silent | Raised(error: PyError)
}
