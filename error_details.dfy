/** The error body the API returns: `ErrorDetails` wrapping one `ErrorMessage`. */
module Models {
  import opened Int32s

  datatype ErrorMessage = ErrorMessage(StatusCode: Int32, Message: string, InnerExceptionMessage: string)

  datatype ErrorDetails = ErrorDetails(Error: ErrorMessage)

  /** `new ErrorDetails()`: status 0 and empty texts. */
  const NewErrorDetails := ErrorDetails(ErrorMessage(0, "", ""))
}
