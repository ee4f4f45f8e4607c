/** Values the name-server pool consumes from the rest of the resolver: wire messages,
    the EDNS payload, client errors, clock readings and server configuration. None of
    them is interpreted by the pool beyond what is written here. */
module Types {

  datatype Option<+T> = None | Some(value: T)

  /** The outcome of a send, as the futures of `ClientHandle::send` resolve. */
  datatype Result<+T> = Ok(value: T) | Err(error: ClientError)

  /** `std::cmp::Ordering`. */
  datatype Ordering = Less | Equal | Greater

  /** `usize::cmp`. */
  function CompareNat(x: nat, y: nat): (o: Ordering)
    ensures o == Equal <==> x == y
    ensures o == Less <==> x < y
  {
    if x < y then Less else if x == y then Equal else Greater
  }

  /** The ordering seen from the other side. */
  function Reverse(o: Ordering): (r: Ordering) {
    match o
    case Less => Greater
    case Equal => Equal
    case Greater => Less
  }

  /** The EDNS OPT record of a message, kept as its wire bytes: the pool only stores it. */
  datatype Edns = Edns(record: seq<bv8>)

  /** A DNS message; the pool reads nothing but its EDNS record (`Message::edns`). */
  datatype Message = Message(edns: Option<Edns>, body: seq<bv8>)

  /** The `ClientError`s that occur here. */
  datatype ClientError =
    | NoConnections            // ClientErrorKind::Message("No connections available")
    | LockPoisoned             // "Error acquiring NameServerStats lock: ..."
    | Transport(cause: string) // an error reported by the UDP or TCP client

  /** A reading of the monotonic clock (`Instant`), in nanoseconds. */
  type Instant = nat

  const NanosPerSecond: nat := 1_000_000_000

  /** `MAX_RETRY_DELAYs` (360 seconds), in clock ticks. */
  const MaxRetryDelay: nat := 360 * NanosPerSecond

  datatype Protocol = Udp | Tcp | Tls

  datatype SocketAddr = SocketAddr(ip: seq<bv8>, port: bv16)

  /** `NameServerConfig`: where a server lives and how to reach it. */
  datatype NameServerConfig = NameServerConfig(socketAddr: SocketAddr, protocol: Protocol)

  /** The part of `ResolverConfig` the pool reads: its list of name servers. */
  datatype ResolverConfig = ResolverConfig(nameServers: seq<NameServerConfig>)

  /** `ResolverOpts`: stored by the pool and never read by it. */
  datatype ResolverOpts = ResolverOpts(settings: seq<bv8>)
}
