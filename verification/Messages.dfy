/** The data every part of the daemon exchanges: addresses, messages and the
    parameters a daemon adds to a message while it floods it. */
module Messages {
  import opened Basics

  /** An IP address without its port, as the informed list names it. */
  type Ip = nat

  /** The "broadcast_*" parameters.  They are set together, by a daemon only. */
  datatype Tag = Tag(id: string, timeout: int, hops: int, informed: set<Ip>)

  /** The "ttl" entry of the "cache" parameter, after the duration was parsed. */
  datatype Ttl = NoTtl | BadTtl | Seconds(value: real)

  /** The "cache" parameter after it was split in names and values. */
  datatype CacheRequest = CacheRequest(no: bool, reply: bool, ttl: Ttl)

  datatype Message = Message(
    command: string,
    server: string,
    service: string,
    cache: CacheRequest,
    report: bool,         // transmission_report=failure
    tag: Option<Tag>)

  // the names shared by every component
  const SERVER_ANY := "*"
  const SERVER_REMOTE := "?"
  const SERVER_ME := "."
  const LOCAL_BROADCAST := "."
  const PRIVATE_BROADCAST := "?"
  const PUBLIC_BROADCAST := "*"
  const COMMUNICATORD := "communicatord"

  predicate IsBroadcast(service: string) {
    service == PUBLIC_BROADCAST || service == PRIVATE_BROADCAST || service == LOCAL_BROADCAST
  }
}
