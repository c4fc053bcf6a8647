/** The two kinds of failure a command build can end in. */
module Errors {

  datatype Error =
    /** The descriptor breaks a builder's or processor's contract; the message is the exact text thrown. */
    | ValidationError(message: string)
    /** An object type has no namespace in the injected registry. */
    | ConfigurationError(objectType: string)
}
