# demosync correlation bridge, modelled in Dafny

demosync answers a synchronous HTTP payment-capture call with a reply that
comes back asynchronously over Kafka. The HTTP handler generates a
correlation id and registers a reply slot for it in an in-memory
correlation store. It then publishes the request on `payment-requests`,
keyed by that id, and waits up to 30 seconds. A consumer of
`payment-responses` looks up each reply's key in the store and hands the
decoded response to the waiting slot. A cleanup tick closes and removes
entries older than the store's time-to-live, which is 5 minutes. A
simulator plays the payment processor: it approves or declines each
request at random and answers under the request's own key.

This project models:

- the correlation store, as a class with the two maps `channels` and
  `expiries` (`storage.dfy`);
- the dispatcher step and its read loop (`consumer.dfy`);
- the capture handler (`capture.dfy`);
- the simulator's logic (`simulator.dfy`);
- the API's start-up configuration decisions (`api_main.dfy`).

Message types live in `models.dfy`, the bus vocabulary in `bus.dfy` and the
environment lookup in `env.dfy`.

Modelling choices:

- Each locked store operation is one atomic step.
- A reply slot is a `Slot` object, shared by reference like the Go channel.
  It is a write-once cell: `Pending`, then `Delivered(response)` or `Closed`.
- The store invariant `Valid()` says three things. Both maps have the same
  ids. Every stored slot is still `Pending`. No slot is stored under two
  ids. `Set` and `Sweep` keep it. `Delete` asks only for the first and
  third conditions (`Wellformed()`), because the dispatcher deletes an id
  just after writing its slot. `Delete` only shrinks the maps, so it keeps
  `Valid()` too.
- Time is an integer count of nanoseconds.
- The outcomes of external steps are parameters. These are HTTP binding,
  JSON decoding and encoding, `Produce`, UUID generation, `time.Now`,
  `rand`, and the wait on the channel.
- A consume loop reads a finite sequence of read results. The end of that
  sequence stands for cancellation.

Behaviour modelled as the code has it:

- A sweep keeps an entry whose deadline equals `now`, because it uses the
  strict `now.After(expiry)`.
- A marshal or publish failure leaves the handler's entry registered. The
  entry stays until a sweep removes it.
- A slot closed by the sweep is read by the handler as a nil response and
  answered with status 200 and a JSON `null` body (`Payload(None)`).

The handler cannot tell a slot closed by the sweep from a nil response:
it answers both with 200 and `null` (internal/api/handlers/capture.go:67-69,
internal/storage/correlation.go:71). A publish failure leaves the entry
registered until a sweep removes it (internal/api/handlers/capture.go:59-63).

Because `ProcessMessage` deletes the id it resolves, a second record with
the same key finds the id unknown. So a slot is resolved at most once.
`Consume` states this over a whole stream: only the first decodable
response for an id is delivered.

## Model

| member | source | states |
|---|---|---|
| `Storage.Slot.constructor` | internal/api/handlers/capture.go:43 | a newly made reply slot holds nothing yet |
| `Storage.Slot.Deliver` | internal/kafka/consumer.go:94 | sending a response on an unwritten slot leaves exactly that response in it |
| `Storage.Slot.Close` | internal/storage/correlation.go:71 | closing an unwritten slot marks it closed, so a reader sees nil |
| `Storage.Expired` | internal/storage/correlation.go:68-69 | the expired ids are a subset of the ids with a deadline |
| `Storage.ExpiredExactly` | internal/storage/correlation.go:69 | an id is expired iff its deadline is strictly before `now`, so an entry at its deadline survives |
| `Storage.SweepIdempotent` | internal/storage/correlation.go:68-77 | once the expired ids are removed, nothing left is expired at the same `now`, so a second sweep removes nothing |
| `Storage.CorrelationStore.constructor` | internal/storage/correlation.go:19-30 | a new store has empty `channels` and `expiries` and the given time-to-live, and it satisfies the store invariant |
| `Storage.CorrelationStore.Set` | internal/storage/correlation.go:33-39 | `id` maps to the slot and to `now + expiryDuration`, replacing an earlier entry; every other id is unchanged; the invariant is kept |
| `Storage.CorrelationStore.Get` | internal/storage/correlation.go:42-48 | found iff `id` is in `channels`; if found, the slot is that id's slot, otherwise null; nothing changes |
| `Storage.CorrelationStore.Delete` | internal/storage/correlation.go:51-57 | `id` is removed from both maps and every other entry is unchanged; deleting an absent id changes nothing, so deleting twice is the same as deleting once; the two maps keep the same ids |
| `Storage.CorrelationStore.Sweep` | internal/storage/correlation.go:65-79 | removes exactly the ids whose deadline is strictly before `now` and returns them; each removed id's slot goes from unwritten to closed; every surviving entry keeps its slot, deadline and unwritten state; the invariant is kept |
| `Kafka.FirstResponseArrived` | internal/kafka/consumer.go:77-97 | the response delivered for an id is the decoded body of some record whose key is that id |
| `Kafka.FirstResponseExists` | internal/kafka/consumer.go:77-97 | a response is delivered for an id iff some decodable record carries that id as its key |
| `Kafka.Consumer.constructor` | internal/kafka/consumer.go:41-44 | the consumer is bound to the given store |
| `Kafka.Consumer.ProcessMessage` | internal/kafka/consumer.go:75-98 | the id is the record key; for an unknown id, or a known id with an undecodable body, the store and every slot are unchanged; otherwise exactly the decoded response is delivered to that id's slot and only that id leaves the store; no other slot is written |
| `Kafka.Consumer.Consume` | internal/kafka/consumer.go:48-72 | read errors and dropped records do not stop the loop; every stored id with a decodable response in the stream is removed, and its slot holds the first such response; every other entry keeps its slot, deadline and unwritten state; no id is added |
| `Handlers.CaptureHandler.constructor` | internal/api/handlers/capture.go:23-28 | the handler is bound to the given store |
| `Handlers.CaptureHandler.Capture` | internal/api/handlers/capture.go:31-76 | an invalid body gives 400 with no effect; otherwise the effect trace is exactly: registration of the fresh id with a new slot and deadline `now + expiryDuration`, then, when marshalling succeeds, one produce of the request stamped with that id to `payment-requests` under the id as key, then, only on timeout, deletion of the id; marshal or publish failure gives 500 and leaves the id registered; a delivered response gives 200 with that response unchanged; a closed slot gives 200 with null; a timeout deletes only the handler's own id and gives 504; no other entry changes |
| `Simulator.CharsetIsAlphanumeric` | cmd/simulator/main.go:159 | every character of the code charset is a digit or an upper-case letter |
| `Simulator.AuthCode` | cmd/simulator/main.go:158-165 | the code has 6 characters, each in `0-9A-Z` |
| `Simulator.GenerateAuthCode` | cmd/simulator/main.go:158-165 | the buffer-filling loop yields the code picked by the random indices |
| `Simulator.GenerateResponse` | cmd/simulator/main.go:137-156 | correlation and transaction ids are copied from the request; the status is `approved` iff approved; an approved reply has a 6-character `0-9A-Z` code and empty error fields; a declined reply has status `declined`, error code `payment_declined`, the fixed message and no code |
| `Simulator.HandleRequest` | cmd/simulator/main.go:97-126 | a response is produced iff the request decodes; it goes to the response topic under the incoming key and carries the request's correlation and transaction ids |
| `Simulator.ResponsesCount` | cmd/simulator/main.go:78-135 | the loop produces exactly one response per decodable request |
| `Simulator.ResponsesAnswerRequests` | cmd/simulator/main.go:97-126 | every produced response goes to the response topic and answers some decodable request, with the same key and the same correlation and transaction ids |
| `Simulator.ProcessMessages` | cmd/simulator/main.go:78-135 | the read loop skips read errors and undecodable requests, and produces the per-record answers in order |
| `Env.Getenv` | cmd/simulator/main.go:168 | an unset variable reads as the empty string |
| `Simulator.GetEnv` | cmd/simulator/main.go:167-173 | the fallback when the variable is unset or empty, the value otherwise; never empty when the fallback is not |
| `Simulator.Configure` | cmd/simulator/main.go:25-27 | with nothing set, the simulator uses `kafka:9092`, `payment-requests` and `payment-responses`; no setting is ever empty |
| `ApiMain.IsRunningLocally` | cmd/api/main.go:99-103 | true iff stat reports that `/.dockerenv` does not exist; any other stat error counts as inside Docker |
| `ApiMain.KafkaBootstrapServers` | cmd/api/main.go:72-87 | unset or empty gives `localhost:29092`; `kafka:9092` gives `localhost:29092` when running locally and stays `kafka:9092` otherwise; any other value is returned unchanged |
| `ApiMain.KafkaResponseTopic` | cmd/api/main.go:90-96 | unset or empty gives `payment-responses`, otherwise the value unchanged |
| `ApiMain.TtlOutlivesWait` | cmd/api/main.go:18 | the store's 5-minute time-to-live is longer than the handler's 30-second wait |
| `ApiMain.NotSweptWhileWaiting` | cmd/api/main.go:18 | an entry registered with the API's time-to-live is not swept at any time up to the handler's own timeout, which fires 30 s after the wait starts, provided marshalling and publishing finish within 4.5 minutes of registration |
| `ApiMain.DefaultTopicsAgree` | cmd/simulator/main.go:26-27 | with no variables set, the simulator reads the topic the handler publishes to and answers on the topic the API consumes |

## Left out

- Concurrency is not modelled. That covers goroutines, `sync.RWMutex`,
  blocking channel operations and the one-minute ticker. Each store method
  is one atomic step, and `Sweep` is the body of one tick.
- The dispatcher's Get and Delete are two separate locked steps, so another
  component can act between them. This race is not modelled.
- A Go channel is unbuffered, so `processMessage` blocks until the handler
  reads. The model's slot is a write-once cell instead.
- `Storage.CorrelationStore.Set` requires an unwritten slot that no other
  id holds. Its only caller passes a newly made channel. In Go, a channel
  stored twice would be closed twice by the cleanup, which panics.
- `Handlers.CaptureHandler.Capture` takes the wait outcome as a parameter.
  On a delivered or closed slot, the handler itself does not touch the
  store: the dispatcher or the sweep removed the entry, and those are the
  separate methods `ProcessMessage` and `Sweep`.
- Kafka client setup is not modelled: `NewConsumer`, `NewProducer`,
  subscription, `ReadMessage`, `Produce`, and the producer wrapper in
  internal/kafka/producer.go. A read is `ReadError` or a record. Publish
  success is a parameter.
- HTTP routing and the server (internal/api/server.go) are not modelled.
  Neither are the two `main` functions' wiring, signal handling and sleeps.
- JSON encoding and decoding are not modelled: `json.Marshal`,
  `json.Unmarshal` and `ShouldBindJSON`. Decoding and binding results
  arrive as `Option` values. The simulator's marshalling of a response is
  taken to succeed. A failed `Produce` there is only logged, so the record
  counts as produced.
- UUIDs, `time.Now` and `rand` are parameters.
- The 80% approval test compares floats (`rand.Float32() < 0.8`). It
  becomes the `approved` flag.
- `Amount` is a float64, kept opaque as the text of the JSON number.
- The simulator's `PROCESSING_DELAY_MS` setting, its `strconv.Atoi` parse
  and its sleep are not modelled: they only delay the answer.
- Logging is not modelled. `ProcessMessage`'s `Dispatch` result names which
  branch was taken. The unknown-id and undecodable branches are the two that
  log (internal/kafka/consumer.go:82, 89). The resolved branch logs nothing.
