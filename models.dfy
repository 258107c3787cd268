/**
 * Payment messages exchanged between the HTTP API and the payment processor
 * (pkg/models/payment.go). The JSON encoding is not modelled: wherever the
 * system decodes a body, the model receives the decoded value as an Option.
 */
module Models {

  /** The usual Some/None wrapper; None stands for "did not decode". */
  datatype Option<T> = None | Some(value: T)

  /**
   * The amount to capture. The source keeps it as a float64 that the core
   * only copies; the model keeps it opaque, as the text of the JSON number.
   */
  datatype Amount = Amount(literal: string)

  /** A payment capture request. `correlationId` is filled in by the server. */
  datatype CaptureRequest = CaptureRequest(
    correlationId: string,
    transactionId: string,
    amount: Amount,
    currency: string,
    metadata: map<string, string>)

  /** A payment capture response, as produced by the payment processor. */
  datatype CaptureResponse = CaptureResponse(
    correlationId: string,
    transactionId: string,
    status: string,
    authorizationCode: string,
    errorCode: string,
    errorMessage: string)
}
