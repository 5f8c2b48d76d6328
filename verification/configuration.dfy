/** The tunable settings of a manager and their defaults. */
module Configuration {

  /** Go's time.Duration: a count of nanoseconds. */
  type Duration = int

  const Second: Duration := 1_000_000_000

  datatype Config = Config(
    writeWait: Duration,        // longest time one frame write may take
    pongWait: Duration,         // read deadline set when the read pump starts
    pingPeriod: Duration,       // keepalive cadence of the write pump
    maxMessageSize: int,        // read limit of the connection, in bytes
    messageBufferSize: int      // capacity of every session's outbound queue
  )

  /** The defaults: the keepalive ping comes before the peer's read deadline runs out,
      and a fresh session can queue envelopes before it starts dropping them. */
  function NewConfig(): (c: Config)
    ensures c.writeWait == 10 * Second
    ensures c.pongWait == 60 * Second && c.pingPeriod == 54 * Second
    ensures 0 < c.pingPeriod < c.pongWait
    ensures c.maxMessageSize == 512
    ensures c.messageBufferSize == 256 && c.messageBufferSize > 0
  {
    Config(
      writeWait := Second * 10,
      pongWait := Second * 60,
      pingPeriod := Second * 54,
      maxMessageSize := 512,
      messageBufferSize := 256)
  }
}
