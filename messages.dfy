/**
 * The messages exchanged between the master process and its workers, and the
 * worker handles the master keeps. A forked worker is identified by the
 * number of forks made before it, which stands for the object identity that
 * the source compares with `==`.
 */
module Messages {
  import opened Wrappers

  type WorkerId = nat

  datatype Message =
      /** `{cmd: 'request', ipAddress}`; a missing address is None. */
    | Request(ipAddress: Option<string>)
      /** `{cmd: 'online'}`, which a worker's process manager emits once it runs. */
    | Online
      /** `{cmd: 'updateAttackers', attackers}`: a copy of the ban table. */
    | UpdateAttackers(attackers: map<string, int>)
      /** A message whose `cmd` is set but is none of the above. */
    | Other(cmd: string)
      /** A missing message, or one whose `cmd` is missing or empty. */
    | NoCommand

  /** A client's TCP connection to a worker: the server's end and the client's end. */
  datatype Connection = Connection(localAddress: string, remoteAddress: string)

  /**
   * The address a request is charged to as start.js and rpc.js write it,
   * `request.connection.address().address`: the socket's bound (local) end.
   */
  function ChargedAddressAsWritten(c: Connection): (a: string)
    ensures a == ChargedAddress(c) <==> c.localAddress == c.remoteAddress
  {
    c.localAddress
  }

  /** The address the per-address limit is meant to count: the client's end. */
  function ChargedAddress(c: Connection): string {
    c.remoteAddress
  }

  /** A message the master sent to one worker. */
  datatype Envelope = Envelope(to: WorkerId, msg: Message)
}
