/** Shared value types of the chatbot model: optional values, results and the
    errors the chat pipeline can raise. */
module Types {

  datatype Option<+T> = None | Some(value: T)

  datatype Result<+R, +E> = Success(value: R) | Failure(error: E)

  /** The exceptions that can escape `chat`. */
  datatype ChatError =
    | MissingApiKey          // ValueError raised by ask_groq when no credential is configured
    | KeyError(key: string)  // a record lacks a field that chat indexes with item[...]
    | Upstream(message: string)  // HTTP failure or malformed completion payload
}
