/**
 * Start-up decisions of the API process (cmd/api/main.go): where Kafka is,
 * which topic carries responses, and the store's time-to-live. The
 * environment and the result of stat("/.dockerenv") are inputs.
 */
module ApiMain {
  import opened Env
  import opened Storage
  import Handlers
  import Simulator

  /** Time-to-live of correlation store entries. */
  const StoreTtl: int := 5 * Minute

  const LocalBootstrapServers: string := "localhost:29092"
  const DockerBootstrapServers: string := "kafka:9092"
  const DefaultResponseTopic: string := "payment-responses"

  /** The result of stat("/.dockerenv"). */
  datatype DockerEnvStat = Exists | NotExist | OtherStatError

  /** isRunningLocally: true exactly when /.dockerenv is reported as not existing. */
  function IsRunningLocally(stat: DockerEnvStat): (local: bool)
    ensures local <==> stat == NotExist
  {
    match stat
    case NotExist => true
    case _ => false
  }

  /**
   * getKafkaBootstrapServers: an unset variable means the local broker; the
   * in-Docker address is rewritten to the local one when running outside
   * Docker; any other value is used as given.
   */
  function KafkaBootstrapServers(env: map<string, string>, stat: DockerEnvStat): (servers: string)
    ensures Getenv(env, "KAFKA_BOOTSTRAP_SERVERS") == "" ==> servers == LocalBootstrapServers
    ensures Getenv(env, "KAFKA_BOOTSTRAP_SERVERS") == DockerBootstrapServers ==>
      servers == (if IsRunningLocally(stat) then LocalBootstrapServers else DockerBootstrapServers)
    ensures Getenv(env, "KAFKA_BOOTSTRAP_SERVERS") !in {"", DockerBootstrapServers} ==>
      servers == Getenv(env, "KAFKA_BOOTSTRAP_SERVERS")
    ensures servers != ""
  {
    var kafkaServer := Getenv(env, "KAFKA_BOOTSTRAP_SERVERS");
    if kafkaServer == "" then LocalBootstrapServers
    else if kafkaServer == DockerBootstrapServers && IsRunningLocally(stat) then LocalBootstrapServers
    else kafkaServer
  }

  /** getKafkaResponseTopic: the variable's value, "payment-responses" when unset or empty. */
  function KafkaResponseTopic(env: map<string, string>): (topic: string)
    ensures Getenv(env, "KAFKA_RESPONSE_TOPIC") == "" ==> topic == DefaultResponseTopic
    ensures Getenv(env, "KAFKA_RESPONSE_TOPIC") != "" ==> topic == Getenv(env, "KAFKA_RESPONSE_TOPIC")
    ensures topic != ""
  {
    var responseTopic := Getenv(env, "KAFKA_RESPONSE_TOPIC");
    if responseTopic == "" then DefaultResponseTopic else responseTopic
  }

  /** The store keeps an entry longer than the handler waits for it. */
  lemma TtlOutlivesWait()
    ensures StoreTtl > Handlers.ResponseTimeout
  {
  }

  /**
   * An entry set at `registeredAt` with the API's time-to-live is not
   * removed by any sweep up to the moment the handler's own timeout fires.
   * The timer starts at `waitStart`, once encoding and publishing are done;
   * if they finish within the time-to-live minus the wait (4.5 minutes), a
   * handler that is still waiting is never woken by a closed slot.
   */
  lemma NotSweptWhileWaiting(expiries: map<string, int>, id: string, registeredAt: int, waitStart: int, now: int)
    requires id in expiries && expiries[id] == registeredAt + StoreTtl
    requires registeredAt <= waitStart <= registeredAt + StoreTtl - Handlers.ResponseTimeout
    requires now <= waitStart + Handlers.ResponseTimeout
    ensures id !in Expired(expiries, now)
  {
  }

  /**
   * With no variables set, the simulator reads the topic the handler
   * publishes to and answers on the topic the API consumes.
   */
  lemma DefaultTopicsAgree()
    ensures Simulator.Configure(map[]).requestTopic == Handlers.RequestTopic
    ensures Simulator.Configure(map[]).responseTopic == KafkaResponseTopic(map[])
  {
  }
}
