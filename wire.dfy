/**
  The values exchanged between peers and the directory.

  On the wire every request and every response is a serialised dictionary.
  Here a request is a datatype with one constructor per `action` the system
  knows, and a response is a record whose optional fields stand for the keys
  a reply dictionary may or may not carry. The serialiser itself is not
  modelled: decoding is a parameter that either yields a value or fails.
 */
module Wire {

  newtype byte = x: int | 0 <= x < 256

  type Bytes = seq<byte>

  datatype Option<+T> = None | Some(value: T)

  /** A socket address: a host and a port. */
  datatype Address = Address(host: string, port: int)

  /**
    A request dictionary, by the value of its `action` key:
    `join`, `upload_index`, `retrieve_index`, `leave`, `retrieve_peers`,
    `request_resource`, or anything else (including no action at all).
   */
  datatype Message =
    | Join(peerId: string, peerAddress: Address)
    | Upload(peerId: string, names: seq<string>)
    | FetchIndex
    | Leave(peerId: string)
    | FetchPeers
    | ResourceRequest(resourceName: string)
    | Unrecognised(action: Option<string>)

  /** The action strings the directory dispatches on. */
  const DirectoryActions: set<string> :=
    {"join", "upload_index", "retrieve_index", "leave", "retrieve_peers"}

  /** Every action string some component of the system dispatches on. */
  const KnownActions: set<string> := DirectoryActions + {"request_resource"}

  /** A request whose `Unrecognised` case never carries a known action. */
  type Request = m: Message | m.Unrecognised? && m.action.Some? ==> m.action.value !in KnownActions
    witness FetchIndex

  /** The value of the request's `action` key. */
  function Action(r: Request): (a: Option<string>)
    ensures a.Some? && a.value in DirectoryActions <==> !r.Unrecognised? && !r.ResourceRequest?
    ensures a == Some("request_resource") <==> r.ResourceRequest?
  {
    match r
    case Join(_, _) => Some("join")
    case Upload(_, _) => Some("upload_index")
    case FetchIndex => Some("retrieve_index")
    case Leave(_) => Some("leave")
    case FetchPeers => Some("retrieve_peers")
    case ResourceRequest(_) => Some("request_resource")
    case Unrecognised(a) => a
  }

  /**
    A response dictionary: the `status` key, and the optional `message`,
    `peers`, `resources` and `resource` keys.
   */
  datatype Response = Response(
    status: string,
    message: Option<string>,
    peers: Option<map<string, Address>>,
    resources: Option<map<string, string>>,
    resource: Option<Bytes>)

  const SUCCESS := "success"
  const ERROR := "error"

  /** `{'status': 'success'}` */
  function Ok(): Response {
    Response(SUCCESS, None, None, None, None)
  }

  /** `{'status': 'error', 'message': message}` */
  function Failure(message: string): Response {
    Response(ERROR, Some(message), None, None, None)
  }

  /** `{'status': 'success', 'peers': peers}` */
  function PeersReply(peers: map<string, Address>): Response {
    Response(SUCCESS, None, Some(peers), None, None)
  }

  /** `{'status': 'success', 'resources': index}` */
  function IndexReply(index: map<string, string>): Response {
    Response(SUCCESS, None, None, Some(index), None)
  }

  /** `{'status': 'success', 'resource': content}` */
  function ResourceReply(content: Bytes): Response {
    Response(SUCCESS, None, None, None, Some(content))
  }

  /** What the deserialiser yields for a byte string. */
  datatype Decoded<+T> = Value(value: T) | Garbled(reason: string)

  /** An exception raised while talking to another node. */
  datatype Fault =
    | Transport(reason: string)    // connect, send or recv failed
    | Undecodable(reason: string)  // the deserialiser rejected the bytes
    | MissingKey(key: string)      // a reply dictionary lacked a key that was read

  /** `str(e)` of the exception. */
  function Str(f: Fault): string {
    match f
    case Transport(reason) => reason
    case Undecodable(reason) => reason
    case MissingKey(key) => "'" + key + "'"
  }

  /**
    How a call ends: it returns a value, it raises an exception, or it waits
    forever on a `recv` that never returns.
   */
  datatype Outcome<+T> = Returns(value: T) | Raises(fault: Fault) | Hangs
}
