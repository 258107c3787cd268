/**
 * The HTTP capture handler (internal/api/handlers/capture.go): turns one
 * synchronous HTTP call into a request published on Kafka and a wait for the
 * matching response. Request binding, JSON encoding, publishing and the wait
 * are external; their outcomes are parameters of Capture.
 */
module Handlers {
  import opened Models
  import opened Storage

  /** Topic every capture request is published to. */
  const RequestTopic: string := "payment-requests"
  /** How long the handler waits for a response. */
  const ResponseTimeout: int := 30 * Second

  const StatusOK: int := 200
  const StatusBadRequest: int := 400
  const StatusInternalServerError: int := 500
  const StatusGatewayTimeout: int := 504

  const InvalidRequestMessage: string := "Requisição inválida"
  const MarshalErrorMessage: string := "Erro ao serializar solicitação"
  const PublishErrorMessage: string := "Erro ao enviar solicitação"
  const TimeoutMessage: string := "Tempo limite excedido esperando resposta"

  /** How the wait on the reply slot ended. */
  datatype Wait =
    | Answered(response: CaptureResponse)  // a response was sent on the slot
    | SlotClosed                           // the slot was closed by the cleanup: the read yields nil
    | TimedOut                             // the 30-second timer fired first

  /** The JSON body written to the HTTP caller. */
  datatype ReplyBody =
    | ErrorMessage(text: string)
    | Payload(response: Option<CaptureResponse>)  // None is a JSON null

  /** The handler's side effects on the store and the bus, in order. */
  datatype Effect =
    | Registered(id: string)
    | Produced(topic: string, key: string, request: CaptureRequest)
    | Deleted(id: string)

  class CaptureHandler {
    const store: CorrelationStore

    constructor (store: CorrelationStore)
      ensures this.store == store
    {
      this.store := store;
    }

    /**
     * Capture. `body` is the bound request (None when binding fails),
     * `freshId` the generated UUID, `now` the clock at registration,
     * `marshalOk` and `publishOk` whether encoding and Produce succeeded, and
     * `wait` how the wait ended.
     */
    method Capture(body: Option<CaptureRequest>, freshId: string, now: int,
                   marshalOk: bool, publishOk: bool, wait: Wait)
      returns (status: int, reply: ReplyBody, effects: seq<Effect>)
      requires store.Valid()
      modifies store
      ensures store.Valid()
      // An invalid body is rejected before the store or the bus is touched.
      ensures body.None? ==>
        && status == StatusBadRequest && reply == ErrorMessage(InvalidRequestMessage)
        && effects == []
        && store.channels == old(store.channels) && store.expiries == old(store.expiries)
      // The id is registered first; the stamped request is produced once, after
      // registration, when it encodes; the id is deleted last, only on timeout.
      ensures body.Some? ==>
        effects == [Registered(freshId)]
                   + (if marshalOk then [Produced(RequestTopic, freshId, body.value.(correlationId := freshId))] else [])
                   + (if marshalOk && publishOk && wait.TimedOut? then [Deleted(freshId)] else [])
      // Status and reply.
      ensures body.Some? && !marshalOk ==>
        status == StatusInternalServerError && reply == ErrorMessage(MarshalErrorMessage)
      ensures body.Some? && marshalOk && !publishOk ==>
        status == StatusInternalServerError && reply == ErrorMessage(PublishErrorMessage)
      ensures body.Some? && marshalOk && publishOk ==>
        match wait
        case Answered(response) => status == StatusOK && reply == Payload(Some(response))
        case SlotClosed => status == StatusOK && reply == Payload(None)
        case TimedOut => status == StatusGatewayTimeout && reply == ErrorMessage(TimeoutMessage)
      // The handler removes its id itself only on timeout; errors leave it registered.
      ensures body.Some? ==>
        var deleted := marshalOk && publishOk && wait.TimedOut?;
        && (deleted ==>
              store.channels == old(store.channels) - {freshId}
              && store.expiries == old(store.expiries) - {freshId})
        && (!deleted ==>
              && freshId in store.channels && fresh(store.channels[freshId])
              && store.channels == old(store.channels)[freshId := store.channels[freshId]]
              && store.expiries == old(store.expiries)[freshId := now + store.expiryDuration])
    {
      if body.None? {
        return StatusBadRequest, ErrorMessage(InvalidRequestMessage), [];
      }
      var request := body.value;
      var correlationId := freshId;
      var responseChan := new Slot();
      store.Set(correlationId, responseChan, now);
      effects := [Registered(correlationId)];
      request := request.(correlationId := correlationId);
      if !marshalOk {
        return StatusInternalServerError, ErrorMessage(MarshalErrorMessage), effects;
      }
      effects := effects + [Produced(RequestTopic, correlationId, request)];
      if !publishOk {
        return StatusInternalServerError, ErrorMessage(PublishErrorMessage), effects;
      }
      match wait
      case Answered(response) =>
        status, reply := StatusOK, Payload(Some(response));
      case SlotClosed =>
        status, reply := StatusOK, Payload(None);
      case TimedOut =>
        store.Delete(correlationId);
        effects := effects + [Deleted(correlationId)];
        status, reply := StatusGatewayTimeout, ErrorMessage(TimeoutMessage);
    }
  }
}
