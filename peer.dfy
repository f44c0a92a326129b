/**
  A peer node. As a client it sends one request per connection to the
  directory (join, upload its index, retrieve the index or the peer list,
  leave) and fetches resources from other peers; as a server it answers
  other peers' `request_resource` from its own store.

  The directory's and the other peers' replies are parameters: a directory
  call is given as the function from the request sent to what the call
  yields, and a connection to another node as the `recv` results it gives.
 */
module PeerNode {
  import opened Wire
  import opened Framing
  import Directory

  /** What the peer's operations report to the user. */
  datatype Report =
    | Joined | JoinFailed
    | IndexUploaded | UploadFailed
    | IndexRetrieved(index: map<string, string>) | RetrieveFailed
    | LeftNetwork | LeaveFailed
    | NotInNetwork(name: string)
    | AddressNotFound(owner: string)
    | Downloaded(name: string, owner: string, content: Bytes)  // written to downloaded_files/<name>
    | DownloadFailed(name: string, owner: string)
    | NoDataReceived
    | Added(name: string) | AddFailed

  /** A directory call: the request sent and how the operation ends. */
  datatype Exchange = Exchange(sent: Request, outcome: Outcome<Report>)

  /** An outgoing connection: `connect` fails, or the `recv` results it gives. */
  datatype Connection = Unreachable(reason: string) | Connected(events: seq<RecvEvent>)

  /** Another node contacted by a resource request. */
  datatype Contact = AskedDirectory(request: Request) | DialedPeer(address: Address, request: Request)

  /** A resource request: whom it contacted, in order, and how it ended. */
  datatype Fetch = Fetch(contacts: seq<Contact>, outcome: Outcome<Report>)

  /** A reply that came back with status success. */
  predicate Succeeded(reply: Outcome<Response>) {
    reply.Returns? && reply.value.status == SUCCESS
  }

  /**
    The body of a directory call: connect, send, read the reply with the
    short-packet rule and decode it. Any step may raise.
   */
  function Exchanged(conn: Connection, decode: Bytes -> Decoded<Response>): Outcome<Response> {
    match conn
    case Unreachable(reason) => Raises(Transport(reason))
    case Connected(events) =>
      match ReadShort(events, false)
      case Stalled(_) => Hangs
      case Failed(f) => Raises(f)
      case Received(data) =>
        match decode(data)
        case Garbled(reason) => Raises(Undecodable(reason))
        case Value(reply) => Returns(reply)
  }

  /**
    A directory call never raises: an exception becomes the reply
    `{'status': 'error', 'message': str(e)}`, and everything else is kept.
   */
  function Caught(o: Outcome<Response>): Outcome<Response> {
    if o.Raises? then Returns(Failure(Str(o.fault))) else o
  }

  /** A directory call, with the read loop. */
  method SendRequestToServer(conn: Connection, decode: Bytes -> Decoded<Response>)
    returns (reply: Outcome<Response>)
    ensures !reply.Raises?
    ensures reply == Caught(Exchanged(conn, decode))
  {
    match conn {
      case Unreachable(reason) =>
        reply := Returns(Failure(reason));
      case Connected(events) =>
        var got := ReceiveShort(events, false);
        match got {
          case Stalled(_) =>
            reply := Hangs;
          case Failed(f) =>
            reply := Returns(Failure(Str(f)));
          case Received(data) =>
            match decode(data) {
              case Garbled(reason) =>
                reply := Returns(Failure(reason));
              case Value(r) =>
                reply := Returns(r);
            }
        }
    }
  }

  /**
    Whether an id is free: the directory's peer list came back with status
    success and does not hold the id. An error status, a reply without a
    peer list, and every exception give false.
   */
  method CheckPeerIdUnique(peerId: string, conn: Connection, decode: Bytes -> Decoded<Response>)
    returns (free: Outcome<bool>)
    ensures !free.Raises?
    ensures free.Hangs? <==> Exchanged(conn, decode).Hangs?
    ensures free == Returns(true) <==>
      var x := Exchanged(conn, decode);
      Succeeded(x) && x.value.peers.Some? && peerId !in x.value.peers.value
  {
    match conn {
      case Unreachable(_) =>
        free := Returns(false);
      case Connected(events) =>
        var got := ReceiveShort(events, false);
        match got {
          case Stalled(_) =>
            free := Hangs;
          case Failed(_) =>
            free := Returns(false);
          case Received(data) =>
            match decode(data) {
              case Garbled(_) =>
                free := Returns(false);
              case Value(r) =>
                if r.status == SUCCESS {
                  if r.peers.None? {
                    free := Returns(false);
                  } else {
                    free := Returns(peerId !in r.peers.value);
                  }
                } else {
                  free := Returns(false);
                }
            }
        }
    }
  }

  /**
    A directory call whose report depends only on the reply's status: `ok`
    on success, `failed` on any other status.
   */
  function Ask(directory: Request -> Outcome<Response>, sent: Request, ok: Report, failed: Report): (e: Exchange)
    ensures e.sent == sent
    ensures ok != failed ==> (e.outcome == Returns(ok) <==> Succeeded(directory(sent)))
    ensures ok != failed ==> (e.outcome == Returns(failed) <==> directory(sent).Returns? && !Succeeded(directory(sent)))
    ensures directory(sent).Returns? == e.outcome.Returns?
    ensures directory(sent).Hangs? <==> e.outcome.Hangs?
    ensures directory(sent).Raises? ==> e.outcome == Raises(directory(sent).fault)
  {
    match directory(sent)
    case Returns(reply) => Exchange(sent, Returns(if reply.status == SUCCESS then ok else failed))
    case Raises(f) => Exchange(sent, Raises(f))
    case Hangs => Exchange(sent, Hangs)
  }

  /**
    The owner's address in the directory's reply to `retrieve_peers`: none
    when the status is not success or the owner is not listed; a success
    reply without a peer list raises KeyError.
   */
  function PeerAddress(reply: Outcome<Response>, owner: string): (a: Outcome<Option<Address>>)
    ensures a.Hangs? <==> reply.Hangs?
    ensures a.Raises? <==> reply.Raises? || (Succeeded(reply) && reply.value.peers.None?)
    ensures a.Returns? && a.value.Some? <==>
      Succeeded(reply) && reply.value.peers.Some? && owner in reply.value.peers.value
    ensures a.Returns? && a.value.Some? ==> a.value.value == reply.value.peers.value[owner]
  {
    match reply
    case Hangs => Hangs
    case Raises(f) => Raises(f)
    case Returns(r) =>
      if r.status != SUCCESS then Returns(None)
      else if r.peers.None? then Raises(MissingKey("peers"))
      else if owner in r.peers.value then Returns(Some(r.peers.value[owner]))
      else Returns(None)
  }

  /**
    The answer to another peer's request: only `request_resource` is
    answered, from the local store alone; any other action is not answered.
   */
  function ServePeer(store: map<string, Bytes>, request: Request): (r: Option<Response>)
    ensures r.Some? <==> request.ResourceRequest?
    ensures r.Some? ==> (r.value.status == SUCCESS <==> request.resourceName in store)
    ensures r.Some? && request.resourceName in store ==> r.value.resource == Some(store[request.resourceName])
    ensures r.Some? && request.resourceName !in store ==> r == Some(Failure("Resource not found"))
  {
    match request
    case ResourceRequest(name) =>
      if name in store then Some(ResourceReply(store[name])) else Some(Failure("Resource not found"))
    case _ => None
  }

  /**
    One incoming peer connection: read the request with the short-packet
    rule, decode it and answer it. A failed read or a failed decode ends the
    handler by an exception, with no answer.
   */
  function ServeConnection(store: map<string, Bytes>, events: seq<RecvEvent>, decode: Bytes -> Decoded<Request>)
    : Outcome<Option<Response>>
  {
    match ReadShort(events, false)
    case Stalled(_) => Hangs
    case Failed(f) => Raises(f)
    case Received(data) =>
      match decode(data)
      case Garbled(reason) => Raises(Undecodable(reason))
      case Value(request) => Returns(ServePeer(store, request))
  }

  /**
    The requester does not close its side before reading the answer, so the
    owner answers a request exactly when its encoding is not a multiple of
    4096 bytes long; otherwise the owner's handler waits forever.
   */
  lemma ServeRequestFramed(store: map<string, Bytes>, request: Request, encode: Request -> Bytes, decode: Bytes -> Decoded<Request>)
    requires encode(request) != [] && decode(encode(request)) == Value(request)
    ensures ServeConnection(store, Chunks(encode(request)), decode)
      == if |encode(request)| % ChunkSize == 0 then Hangs else Returns(ServePeer(store, request))
  {
    ShortRuleStallsIff(encode(request), false);
    if |encode(request)| % ChunkSize != 0 {
      ShortRuleFramesShortTail(encode(request), [], false);
      assert Chunks(encode(request)) + [] == Chunks(encode(request));
    }
  }

  /** How the download ends once the owner's connection is open. */
  function Download(name: string, owner: string, conn: Connection, decode: Bytes -> Decoded<Response>): Outcome<Report> {
    match conn
    case Unreachable(reason) => Raises(Transport(reason))
    case Connected(events) =>
      var got := ReadToClose(events);
      if got.Stalled? then Hangs
      else if got.data == [] then Returns(NoDataReceived)
      else
        match decode(got.data)
        case Garbled(reason) => Raises(Undecodable(reason))
        case Value(reply) =>
          if reply.status != SUCCESS then Returns(DownloadFailed(name, owner))
          else if reply.resource.None? then Raises(MissingKey("resource"))
          else Returns(Downloaded(name, owner, reply.resource.value))
  }

  /**
    A resource request against the cached index snapshot: find the owner,
    ask the directory for its address, then ask the owner.
   */
  function FetchResource(snapshot: map<string, string>, name: string, directory: Request -> Outcome<Response>,
                         dial: Address -> Connection, decode: Bytes -> Decoded<Response>): Fetch
  {
    if name !in snapshot || snapshot[name] == "" then Fetch([], Returns(NotInNetwork(name)))
    else
      var owner := snapshot[name];
      var asked := [AskedDirectory(FetchPeers)];
      match PeerAddress(directory(FetchPeers), owner)
      case Hangs => Fetch(asked, Hangs)
      case Raises(f) => Fetch(asked, Raises(f))
      case Returns(None) => Fetch(asked, Returns(AddressNotFound(owner)))
      case Returns(Some(address)) =>
        Fetch(asked + [DialedPeer(address, ResourceRequest(name))], Download(name, owner, dial(address), decode))
  }

  /**
    A name without a non-empty owner in the snapshot is reported as not in
    the network, and nobody is contacted.
   */
  lemma UnknownNameContactsNobody(snapshot: map<string, string>, name: string, directory: Request -> Outcome<Response>,
                                  dial: Address -> Connection, decode: Bytes -> Decoded<Response>)
    ensures var f := FetchResource(snapshot, name, directory, dial, decode);
      (f.contacts == [] <==> name !in snapshot || snapshot[name] == "")
      && (f.contacts == [] ==> f.outcome == Returns(NotInNetwork(name)))
  {
  }

  /**
    When the directory gives no address for the owner, the request is
    reported as "address not found" after asking only the directory; no peer
    is dialled.
   */
  lemma UnlistedOwnerNotDialled(snapshot: map<string, string>, name: string, directory: Request -> Outcome<Response>,
                                dial: Address -> Connection, decode: Bytes -> Decoded<Response>)
    requires name in snapshot && snapshot[name] != ""
    requires var reply := directory(FetchPeers);
      reply.Returns? && (reply.value.status != SUCCESS
        || (reply.value.peers.Some? && snapshot[name] !in reply.value.peers.value))
    ensures FetchResource(snapshot, name, directory, dial, decode)
      == Fetch([AskedDirectory(FetchPeers)], Returns(AddressNotFound(snapshot[name])))
  {
  }

  /**
    The transfer from owner to requester: when the owner answers from its
    store and then closes, the requester receives exactly the stored bytes,
    or a failure report when the owner no longer has the name.
   */
  lemma {:induction false} DownloadFromOwner(store: map<string, Bytes>, snapshot: map<string, string>, name: string,
                                             directory: Request -> Outcome<Response>, dial: Address -> Connection,
                                             encode: Response -> Bytes, decode: Bytes -> Decoded<Response>)
    requires name in snapshot && snapshot[name] != ""
    requires var reply := directory(FetchPeers);
      Succeeded(reply) && reply.value.peers.Some? && snapshot[name] in reply.value.peers.value
    requires var answer := ServePeer(store, ResourceRequest(name)).value;
      encode(answer) != [] && decode(encode(answer)) == Value(answer)
      && dial(directory(FetchPeers).value.peers.value[snapshot[name]]) == Connected(Chunks(encode(answer)) + [Packet([])])
    ensures var owner := snapshot[name];
      FetchResource(snapshot, name, directory, dial, decode).outcome
      == Returns(if name in store then Downloaded(name, owner, store[name]) else DownloadFailed(name, owner))
  {
    var answer := ServePeer(store, ResourceRequest(name)).value;
    CloseRuleFrames(encode(answer), []);
    assert Chunks(encode(answer)) + [Packet([])] + [] == Chunks(encode(answer)) + [Packet([])];
  }

  /** A peer node. */
  class Peer {
    const peerId: string
    const peerAddress: Address
    /** The local store: resource name to content. */
    var resources: map<string, Bytes>
    /** The store's names in the order they were first added. */
    var names: seq<string>
    /** The last index snapshot retrieved from the directory. */
    var remoteResources: map<string, string>

    ghost predicate Valid()
      reads this
    {
      && (forall i, j :: 0 <= i < j < |names| ==> names[i] != names[j])
      && (forall n :: n in resources <==> n in names)
    }

    constructor (peerId: string, peerAddress: Address)
      ensures Valid()
      ensures this.peerId == peerId && this.peerAddress == peerAddress
      ensures resources == map[] && names == [] && remoteResources == map[]
    {
      this.peerId := peerId;
      this.peerAddress := peerAddress;
      resources := map[];
      names := [];
      remoteResources := map[];
    }

    /** Register this peer's id and listening address with the directory. */
    function JoinNetwork(directory: Request -> Outcome<Response>): (e: Exchange)
      ensures e.sent == Join(peerId, peerAddress)
      ensures e.outcome == Returns(Joined) <==> Succeeded(directory(e.sent))
      ensures e.outcome == Returns(JoinFailed) <==> directory(e.sent).Returns? && !Succeeded(directory(e.sent))
      ensures e.outcome.Hangs? <==> directory(e.sent).Hangs?
    {
      Ask(directory, Join(peerId, peerAddress), Joined, JoinFailed)
    }

    /** Publish exactly the names of the local store, under this peer's id. */
    function UploadIndex(directory: Request -> Outcome<Response>): (e: Exchange)
      requires Valid()
      reads this
      ensures e.sent.Upload? && e.sent.peerId == peerId
      ensures forall n :: n in e.sent.names <==> n in resources
      ensures forall i, j :: 0 <= i < j < |e.sent.names| ==> e.sent.names[i] != e.sent.names[j]
      ensures e.outcome == Returns(IndexUploaded) <==> Succeeded(directory(e.sent))
      ensures e.outcome == Returns(UploadFailed) <==> directory(e.sent).Returns? && !Succeeded(directory(e.sent))
      ensures e.outcome.Hangs? <==> directory(e.sent).Hangs?
    {
      Ask(directory, Upload(peerId, names), IndexUploaded, UploadFailed)
    }

    /** Ask the directory to forget this peer and everything it owns. */
    function LeaveNetwork(directory: Request -> Outcome<Response>): (e: Exchange)
      ensures e.sent == Leave(peerId)
      ensures e.outcome == Returns(LeftNetwork) <==> Succeeded(directory(e.sent))
      ensures e.outcome == Returns(LeaveFailed) <==> directory(e.sent).Returns? && !Succeeded(directory(e.sent))
      ensures e.outcome.Hangs? <==> directory(e.sent).Hangs?
    {
      Ask(directory, Leave(peerId), LeftNetwork, LeaveFailed)
    }

    /**
      Replace the snapshot wholesale by the directory's index on success;
      keep it on any other status. A success reply without an index raises
      KeyError before the snapshot is touched.
     */
    method RetrieveIndex(directory: Request -> Outcome<Response>) returns (e: Exchange)
      modifies this`remoteResources
      ensures e.sent == FetchIndex
      ensures var reply := directory(FetchIndex);
        if Succeeded(reply) && reply.value.resources.Some? then
          remoteResources == reply.value.resources.value && e.outcome == Returns(IndexRetrieved(remoteResources))
        else
          remoteResources == old(remoteResources)
          && e.outcome == match reply
            case Returns(r) => if r.status == SUCCESS then Raises(MissingKey("resources")) else Returns(RetrieveFailed)
            case Raises(f) => Raises(f)
            case Hangs => Hangs
    {
      var reply := directory(FetchIndex);
      match reply {
        case Returns(r) =>
          if r.status == SUCCESS {
            if r.resources.None? {
              e := Exchange(FetchIndex, Raises(MissingKey("resources")));
            } else {
              remoteResources := r.resources.value;
              e := Exchange(FetchIndex, Returns(IndexRetrieved(remoteResources)));
            }
          } else {
            e := Exchange(FetchIndex, Returns(RetrieveFailed));
          }
        case Raises(f) =>
          e := Exchange(FetchIndex, Raises(f));
        case Hangs =>
          e := Exchange(FetchIndex, Hangs);
      }
    }

    /**
      Answer one incoming peer connection. The method has no `modifies`
      clause: serving never changes the store.
     */
    method HandlePeer(events: seq<RecvEvent>, decode: Bytes -> Decoded<Request>) returns (session: Outcome<Option<Response>>)
      ensures session == ServeConnection(resources, events, decode)
    {
      var got := ReceiveShort(events, false);
      match got {
        case Stalled(_) =>
          session := Hangs;
        case Failed(f) =>
          session := Raises(f);
        case Received(data) =>
          match decode(data) {
            case Garbled(reason) =>
              session := Raises(Undecodable(reason));
            case Value(request) =>
              if request.ResourceRequest? {
                var name := request.resourceName;
                if name in resources {
                  session := Returns(Some(ResourceReply(resources[name])));
                } else {
                  session := Returns(Some(Failure("Resource not found")));
                }
              } else {
                session := Returns(None);
              }
          }
      }
    }

    /** Fetch a resource from its owner, as the snapshot names it. */
    method RequestResourceFromPeer(name: string, directory: Request -> Outcome<Response>,
                                   dial: Address -> Connection, decode: Bytes -> Decoded<Response>)
      returns (f: Fetch)
      ensures f == FetchResource(remoteResources, name, directory, dial, decode)
    {
      if name !in remoteResources || remoteResources[name] == "" {
        return Fetch([], Returns(NotInNetwork(name)));
      }
      var owner := remoteResources[name];
      var asked := [AskedDirectory(FetchPeers)];
      var address := PeerAddress(directory(FetchPeers), owner);
      if !address.Returns? {
        return Fetch(asked, if address.Hangs? then Hangs else Raises(address.fault));
      }
      if address.value.None? {
        return Fetch(asked, Returns(AddressNotFound(owner)));
      }
      var contacts := asked + [DialedPeer(address.value.value, ResourceRequest(name))];
      match dial(address.value.value) {
        case Unreachable(reason) =>
          return Fetch(contacts, Raises(Transport(reason)));
        case Connected(events) =>
          var got := ReceiveToClose(events);
          if got.Stalled? {
            return Fetch(contacts, Hangs);
          }
          if got.data == [] {
            return Fetch(contacts, Returns(NoDataReceived));
          }
          match decode(got.data) {
            case Garbled(reason) =>
              return Fetch(contacts, Raises(Undecodable(reason)));
            case Value(reply) =>
              if reply.status != SUCCESS {
                return Fetch(contacts, Returns(DownloadFailed(name, owner)));
              }
              if reply.resource.None? {
                return Fetch(contacts, Raises(MissingKey("resource")));
              }
              return Fetch(contacts, Returns(Downloaded(name, owner, reply.resource.value)));
          }
      }
    }

    /**
      Add a resource under its file's base name (`content` is None when the
      file cannot be read), then publish the index again.
     */
    method AddResource(basename: string, content: Option<Bytes>, directory: Request -> Outcome<Response>)
      returns (o: Outcome<Report>, upload: Option<Exchange>)
      requires Valid()
      modifies this`resources, this`names
      ensures Valid()
      ensures content.None? ==>
        resources == old(resources) && names == old(names) && upload.None? && o == Returns(AddFailed)
      ensures content.Some? ==>
        && resources == old(resources)[basename := content.value]
        && names == (if basename in old(resources) then old(names) else old(names) + [basename])
        && upload == Some(UploadIndex(directory))
        && o == match upload.value.outcome
          case Returns(_) => Returns(Added(basename))
          case Raises(_) => Returns(AddFailed)
          case Hangs => Hangs
    {
      if content.None? {
        return Returns(AddFailed), None;
      }
      if basename !in resources {
        names := names + [basename];
      }
      resources := resources[basename := content.value];
      var e := UploadIndex(directory);
      upload := Some(e);
      o := match e.outcome
        case Returns(_) => Returns(Added(basename))
        case Raises(_) => Returns(AddFailed)
        case Hangs => Hangs;
    }
  }

  /**
    Against the directory model: a join lists the peer under its address, an
    upload makes the peer the owner of every name in its store, and a leave
    removes the peer and every entry it owns.
   */
  lemma DirectoryAgrees(p: Peer, s: Directory.State)
    requires p.Valid()
    ensures var directory := (r: Request) => Returns(Directory.Process(s, r).response);
      var joined := Directory.Process(s, p.JoinNetwork(directory).sent).state;
      var uploaded := Directory.Process(s, p.UploadIndex(directory).sent).state;
      var left := Directory.Process(s, p.LeaveNetwork(directory).sent).state;
      && p.JoinNetwork(directory).outcome == Returns(Joined)
      && joined.peers[p.peerId] == p.peerAddress
      && p.UploadIndex(directory).outcome == Returns(IndexUploaded)
      && (forall n :: n in p.resources ==> n in uploaded.resources && uploaded.resources[n] == p.peerId)
      && p.LeaveNetwork(directory).outcome == Returns(LeftNetwork)
      && p.peerId !in left.peers
      && (forall n :: n in left.resources ==> left.resources[n] != p.peerId)
  {
  }

  /**
    What the requester's `recv` calls give while the owner's handler for its
    connection runs: the encoded answer, if there is one, and then the close.
    A handler that ends without an answer, by returning or by an exception
    that ends its thread, only closes; a handler that waits forever gives
    nothing at all.
   */
  function Answered(session: Outcome<Option<Response>>, encode: Response -> Bytes): seq<RecvEvent> {
    match session
    case Returns(Some(answer)) => Chunks(encode(answer)) + [Packet([])]
    case Returns(None) => [Packet([])]
    case Raises(_) => [Packet([])]
    case Hangs => []
  }

  /**
    The owner's handler and the requester's read together: the requester
    sends its encoded `request_resource` and reads until the owner closes.
    When the encoded request is not a multiple of 4096 bytes long, the
    requester gets exactly the stored bytes, or a failure report when the
    owner does not have the name; otherwise both sides wait forever.
   */
  lemma ServedDownload(store: map<string, Bytes>, name: string, owner: string,
                       encodeRequest: Request -> Bytes, decodeRequest: Bytes -> Decoded<Request>,
                       encode: Response -> Bytes, decode: Bytes -> Decoded<Response>)
    requires var request := ResourceRequest(name);
      encodeRequest(request) != [] && decodeRequest(encodeRequest(request)) == Value(request)
    requires var answer := ServePeer(store, ResourceRequest(name)).value;
      encode(answer) != [] && decode(encode(answer)) == Value(answer)
    ensures var session := ServeConnection(store, Chunks(encodeRequest(ResourceRequest(name))), decodeRequest);
      Download(name, owner, Connected(Answered(session, encode)), decode)
      == if |encodeRequest(ResourceRequest(name))| % ChunkSize == 0 then Hangs
         else Returns(if name in store then Downloaded(name, owner, store[name]) else DownloadFailed(name, owner))
  {
    var request := ResourceRequest(name);
    ServeRequestFramed(store, request, encodeRequest, decodeRequest);
    if |encodeRequest(request)| % ChunkSize != 0 {
      var answer := ServePeer(store, request).value;
      CloseRuleFrames(encode(answer), []);
      assert Chunks(encode(answer)) + [Packet([])] + [] == Chunks(encode(answer)) + [Packet([])];
    }
  }

  /**
    When the snapshot names an owner and the directory lists that owner's
    address, the requester asks the directory, then dials that address, and
    the request ends as the download from that connection does.
   */
  lemma FetchFromListedOwner(snapshot: map<string, string>, name: string, owner: string, address: Address,
                             directory: Request -> Outcome<Response>, dial: Address -> Connection,
                             decode: Bytes -> Decoded<Response>)
    requires name in snapshot && snapshot[name] == owner && owner != ""
    requires PeerAddress(directory(FetchPeers), owner) == Returns(Some(address))
    ensures FetchResource(snapshot, name, directory, dial, decode)
      == Fetch([AskedDirectory(FetchPeers), DialedPeer(address, ResourceRequest(name))],
               Download(name, owner, dial(address), decode))
  {
  }

  /**
    After peer `owner`, already joined, publishes `names`, a requester holding
    the directory's index asks the directory for the peer map and then dials
    the owner at its registered address; what it downloads is what that
    connection gives.
   */
  lemma PublishedFetch(s: Directory.State, owner: string, names: seq<string>, name: string,
                       directory: Request -> Outcome<Response>, dial: Address -> Connection,
                       decode: Bytes -> Decoded<Response>)
    requires name in names && owner != "" && owner in s.peers
    requires var published := Directory.Process(s, Upload(owner, names)).state;
      directory(FetchPeers) == Returns(Directory.Process(published, FetchPeers).response)
    ensures var published := Directory.Process(s, Upload(owner, names)).state;
      var snapshot := Directory.Process(published, FetchIndex).response.resources.value;
      FetchResource(snapshot, name, directory, dial, decode)
      == Fetch([AskedDirectory(FetchPeers), DialedPeer(s.peers[owner], ResourceRequest(name))],
               Download(name, owner, dial(s.peers[owner]), decode))
  {
    var snapshot := Directory.Uploaded(s.resources, owner, names);
    assert directory(FetchPeers) == Returns(PeersReply(s.peers));
    FetchFromListedOwner(snapshot, name, owner, s.peers[owner], directory, dial, decode);
  }

  /**
    The whole exchange: peer `a`, already joined, publishes its index;
    another peer retrieves the index and then fetches one of `a`'s names. The
    directory answers `retrieve_peers` from its state after the upload, and
    `a` handles the requester's connection with its own handler, receiving
    the encoded `request_resource` in the largest pieces `recv` allows. The
    requester gets exactly `a`'s bytes when the encoded request is not a
    multiple of 4096 bytes long; otherwise both sides wait forever.
   */
  lemma EndToEndTransfer(a: Peer, s: Directory.State, name: string, directory: Request -> Outcome<Response>,
                         dial: Address -> Connection, encodeRequest: Request -> Bytes,
                         decodeRequest: Bytes -> Decoded<Request>,
                         encode: Response -> Bytes, decode: Bytes -> Decoded<Response>)
    requires a.Valid() && name in a.resources && a.peerId != "" && a.peerId in s.peers
    requires var published := Directory.Process(s, Upload(a.peerId, a.names)).state;
      directory(FetchPeers) == Returns(Directory.Process(published, FetchPeers).response)
    requires var request := ResourceRequest(name);
      encodeRequest(request) != [] && decodeRequest(encodeRequest(request)) == Value(request)
    requires var answer := ResourceReply(a.resources[name]);
      encode(answer) != [] && decode(encode(answer)) == Value(answer)
    requires var session := ServeConnection(a.resources, Chunks(encodeRequest(ResourceRequest(name))), decodeRequest);
      dial(s.peers[a.peerId]) == Connected(Answered(session, encode))
    ensures var published := Directory.Process(s, Upload(a.peerId, a.names)).state;
      var snapshot := Directory.Process(published, FetchIndex).response.resources.value;
      FetchResource(snapshot, name, directory, dial, decode)
      == Fetch([AskedDirectory(FetchPeers), DialedPeer(s.peers[a.peerId], ResourceRequest(name))],
               if |encodeRequest(ResourceRequest(name))| % ChunkSize == 0 then Hangs
               else Returns(Downloaded(name, a.peerId, a.resources[name])))
  {
    var published := Directory.Process(s, Upload(a.peerId, a.names)).state;
    var snapshot := Directory.Process(published, FetchIndex).response.resources.value;
    assert name in a.names;
    PublishedFetch(s, a.peerId, a.names, name, directory, dial, decode);
    assert ServePeer(a.resources, ResourceRequest(name)) == Some(ResourceReply(a.resources[name]));
    ServedDownload(a.resources, name, a.peerId, encodeRequest, decodeRequest, encode, decode);
  }

}
