/** The worker thread's constants. */
module WorkerLimits {
  const MAX_CLIENT_COUNT: int := 50

  /** The largest packet a receive call accepts. */
  const MAX_PACKET: nat := 65536

  const MAX_RETRY: nat := 5
  const MAX_SEND_RETRY: nat := 3
}
