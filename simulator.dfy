/**
 * The payment processor simulator (cmd/simulator/main.go): reads capture
 * requests, decides approval at random and answers on the response topic
 * under the request's own key. Randomness is an input: one Draw per record.
 */
module Simulator {
  import opened Models
  import opened Bus
  import opened Env

  const Charset: string := "0123456789ABCDEFGHIJKLMNOPQRSTUVWXYZ"
  const AuthCodeLength: nat := 6
  const ApprovedStatus: string := "approved"
  const DeclinedStatus: string := "declined"
  const DeclinedErrorCode: string := "payment_declined"
  const DeclinedErrorMessage: string := "Pagamento recusado pela operadora"

  /** The random choices behind one answer: approval, and the charset indices of the code. */
  datatype Draw = Draw(approved: bool, codeIndices: seq<int>)

  /** Index sequences `rand.Intn(len(charset))` can yield for one code. */
  predicate ValidIndices(indices: seq<int>) {
    |indices| == AuthCodeLength && forall i :: 0 <= i < |indices| ==> 0 <= indices[i] < |Charset|
  }

  /** A draw the random source can produce (indices only matter when approved). */
  predicate ValidDraw(d: Draw) {
    d.approved ==> ValidIndices(d.codeIndices)
  }

  /** An upper-case ASCII letter or a decimal digit. */
  predicate IsCodeChar(c: char) {
    '0' <= c <= '9' || 'A' <= c <= 'Z'
  }

  /** Every character of the charset is a digit or an upper-case letter. */
  lemma CharsetIsAlphanumeric(j: int)
    requires 0 <= j < |Charset|
    ensures IsCodeChar(Charset[j])
  {
  }

  /** The authorization code picked by the given indices. */
  function AuthCode(indices: seq<int>): (code: string)
    requires ValidIndices(indices)
    ensures |code| == AuthCodeLength
    ensures forall i :: 0 <= i < |code| ==> IsCodeChar(code[i])
  {
    var code := seq(AuthCodeLength, i requires 0 <= i < AuthCodeLength => Charset[indices[i]]);
    forall i | 0 <= i < |code| ensures IsCodeChar(code[i]) {
      CharsetIsAlphanumeric(indices[i]);
    }
    code
  }

  /** generateAuthCode: fills a 6-byte buffer one random charset character at a time. */
  method GenerateAuthCode(indices: seq<int>) returns (code: string)
    requires ValidIndices(indices)
    ensures code == AuthCode(indices)
  {
    var buffer := new char[AuthCodeLength];
    for i := 0 to buffer.Length
      invariant forall j :: 0 <= j < i ==> buffer[j] == Charset[indices[j]]
    {
      buffer[i] := Charset[indices[i]];
    }
    code := buffer[..];
  }

  /**
   * generateResponse: copies the ids from the request; an approved answer
   * carries a fresh authorization code and no error, a declined one the
   * fixed error and no code.
   */
  function GenerateResponse(request: CaptureRequest, approved: bool, codeIndices: seq<int>): (r: CaptureResponse)
    requires approved ==> ValidIndices(codeIndices)
    ensures r.correlationId == request.correlationId && r.transactionId == request.transactionId
    ensures r.status == ApprovedStatus <==> approved
    ensures approved ==>
      && |r.authorizationCode| == AuthCodeLength
      && (forall i :: 0 <= i < |r.authorizationCode| ==> IsCodeChar(r.authorizationCode[i]))
      && r.errorCode == "" && r.errorMessage == ""
    ensures !approved ==>
      && r.status == DeclinedStatus && r.authorizationCode == ""
      && r.errorCode == DeclinedErrorCode && r.errorMessage == DeclinedErrorMessage
  {
    var response := CaptureResponse(request.correlationId, request.transactionId, "", "", "", "");
    if approved then
      response.(status := ApprovedStatus, authorizationCode := AuthCode(codeIndices))
    else
      response.(status := DeclinedStatus, errorCode := DeclinedErrorCode, errorMessage := DeclinedErrorMessage)
  }

  /** A response record handed to the producer. */
  datatype ResponseRecord = ResponseRecord(topic: string, key: string, response: CaptureResponse)

  /**
   * The per-record decision of processMessages: an undecodable request is
   * skipped; otherwise the generated response goes to `topic` under the
   * incoming record's key.
   */
  function HandleRequest(record: Record<CaptureRequest>, d: Draw, topic: string): (out: Option<ResponseRecord>)
    requires ValidDraw(d)
    ensures out.Some? <==> record.body.Some?
    ensures out.Some? ==>
      && out.value.topic == topic && out.value.key == record.key
      && out.value.response.correlationId == record.body.value.correlationId
      && out.value.response.transactionId == record.body.value.transactionId
  {
    match record.body
    case None => None
    case Some(request) => Some(ResponseRecord(topic, record.key, GenerateResponse(request, d.approved, d.codeIndices)))
  }

  predicate ValidDraws(inbox: seq<Read<CaptureRequest>>, draws: seq<Draw>) {
    |draws| == |inbox| && forall i :: 0 <= i < |draws| ==> ValidDraw(draws[i])
  }

  /** The records the simulator produces while reading `inbox`, in order. */
  function Responses(inbox: seq<Read<CaptureRequest>>, draws: seq<Draw>, topic: string): (produced: seq<ResponseRecord>)
    requires ValidDraws(inbox, draws)
  {
    if inbox == [] then []
    else
      var n := |inbox| - 1;
      var earlier := Responses(inbox[..n], draws[..n], topic);
      if inbox[n].Received? then
        match HandleRequest(inbox[n].record, draws[n], topic)
        case Some(out) => earlier + [out]
        case None => earlier
      else earlier
  }

  /** The number of records in `inbox` whose body decodes. */
  function CountDecodable(inbox: seq<Read<CaptureRequest>>): (count: nat)
  {
    if inbox == [] then 0
    else
      var n := |inbox| - 1;
      CountDecodable(inbox[..n]) + (if inbox[n].Received? && inbox[n].record.body.Some? then 1 else 0)
  }

  /** One response per decodable request, none for anything else. */
  lemma {:induction false} ResponsesCount(inbox: seq<Read<CaptureRequest>>, draws: seq<Draw>, topic: string)
    requires ValidDraws(inbox, draws)
    ensures |Responses(inbox, draws, topic)| == CountDecodable(inbox)
  {
    if inbox != [] {
      var n := |inbox| - 1;
      ResponsesCount(inbox[..n], draws[..n], topic);
    }
  }

  /**
   * Every produced response answers a decodable request of the inbox: same
   * key as that record, same correlation and transaction ids as its body.
   */
  lemma {:induction false} ResponsesAnswerRequests(inbox: seq<Read<CaptureRequest>>, draws: seq<Draw>, topic: string)
    requires ValidDraws(inbox, draws)
    ensures forall out :: out in Responses(inbox, draws, topic) ==>
      out.topic == topic &&
      exists i :: 0 <= i < |inbox| && inbox[i].Received? && inbox[i].record.body.Some?
        && out.key == inbox[i].record.key
        && out.response.correlationId == inbox[i].record.body.value.correlationId
        && out.response.transactionId == inbox[i].record.body.value.transactionId
  {
    if inbox != [] {
      var n := |inbox| - 1;
      ResponsesAnswerRequests(inbox[..n], draws[..n], topic);
      forall out | out in Responses(inbox, draws, topic)
        ensures out.topic == topic &&
          exists i :: 0 <= i < |inbox| && inbox[i].Received? && inbox[i].record.body.Some?
            && out.key == inbox[i].record.key
            && out.response.correlationId == inbox[i].record.body.value.correlationId
            && out.response.transactionId == inbox[i].record.body.value.transactionId
      {
        if out in Responses(inbox[..n], draws[..n], topic) {
          var i :| 0 <= i < n && inbox[..n][i].Received? && inbox[..n][i].record.body.Some?
            && out.key == inbox[..n][i].record.key
            && out.response.correlationId == inbox[..n][i].record.body.value.correlationId
            && out.response.transactionId == inbox[..n][i].record.body.value.transactionId;
          assert inbox[i] == inbox[..n][i];
        } else {
          assert inbox[n].Received? && HandleRequest(inbox[n].record, draws[n], topic) == Some(out);
        }
      }
    }
  }

  /**
   * processMessages: the read loop. Read errors and undecodable requests are
   * skipped without ending it; the end of `inbox` stands for cancellation.
   */
  method ProcessMessages(inbox: seq<Read<CaptureRequest>>, draws: seq<Draw>, responseTopic: string)
    returns (produced: seq<ResponseRecord>)
    requires ValidDraws(inbox, draws)
    ensures produced == Responses(inbox, draws, responseTopic)
  {
    produced := [];
    for i := 0 to |inbox|
      invariant produced == Responses(inbox[..i], draws[..i], responseTopic)
    {
      assert inbox[..i + 1][..i] == inbox[..i] && draws[..i + 1][..i] == draws[..i];
      match inbox[i]
      case ReadError =>
      case Received(record) =>
        match HandleRequest(record, draws[i], responseTopic)
        case None =>
        case Some(out) =>
          produced := produced + [out];
    }
    assert inbox[..|inbox|] == inbox && draws[..|draws|] == draws;
  }

  /** getEnv: the variable's value, or `fallback` when it is unset or empty. */
  function GetEnv(env: map<string, string>, key: string, fallback: string): (value: string)
    ensures (key !in env || env[key] == "") ==> value == fallback
    ensures key in env && env[key] != "" ==> value == env[key]
    ensures fallback != "" ==> value != ""
  {
    var v := Getenv(env, key);
    if v == "" then fallback else v
  }

  /** The simulator's Kafka settings. */
  datatype Settings = Settings(bootstrapServers: string, requestTopic: string, responseTopic: string)

  /** The settings read at start-up, each with its default. */
  function Configure(env: map<string, string>): (s: Settings)
    ensures env == map[] ==> s == Settings("kafka:9092", "payment-requests", "payment-responses")
    ensures s.bootstrapServers != "" && s.requestTopic != "" && s.responseTopic != ""
  {
    Settings(
      GetEnv(env, "KAFKA_BOOTSTRAP_SERVERS", "kafka:9092"),
      GetEnv(env, "KAFKA_REQUEST_TOPIC", "payment-requests"),
      GetEnv(env, "KAFKA_RESPONSE_TOPIC", "payment-responses"))
  }
}
