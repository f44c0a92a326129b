/**
  The directory service: the one process that knows which peers are online
  (peer id to address) and which peer owns each resource name (name to
  owner id). It answers one request per connection.

  `Process` defines one request as a step on the pair of maps; the class
  `CentralServer` holds the two maps as fields that its handlers update in
  place, and each handler is proved against `Process`.
 */
module Directory {
  import opened Wire
  import opened Framing

  /** The directory's two maps. */
  datatype State = State(peers: map<string, Address>, resources: map<string, string>)

  /** The state after a request, and the reply to it. */
  datatype Step = Step(state: State, response: Response)

  /**
    The index after `owner` publishes `names`, one name after the other, each
    overwriting whatever owner the name had (last writer wins).
   */
  function Uploaded(index: map<string, string>, owner: string, names: seq<string>): (r: map<string, string>)
    ensures r.Keys == index.Keys + (set n | n in names)
    ensures forall n :: n in names ==> r[n] == owner
    ensures forall n :: n in index && n !in names ==> r[n] == index[n]
  {
    if names == [] then index
    else
      var init := names[..|names| - 1];
      assert forall n :: n in names <==> n in init || n == names[|names| - 1];
      Uploaded(index, owner, init)[names[|names| - 1] := owner]
  }

  /** The index without the entries that `owner` owns. */
  function Disowned(index: map<string, string>, owner: string): map<string, string> {
    map n | n in index && index[n] != owner :: index[n]
  }

  /** One request handled by the directory: the dispatch on `action`. */
  function Process(s: State, request: Request): Step {
    match request
    case Join(id, address) =>
      var peers := s.peers[id := address];
      Step(State(peers, s.resources), PeersReply(peers))
    case Upload(id, names) =>
      Step(State(s.peers, Uploaded(s.resources, id, names)), Ok())
    case FetchIndex =>
      Step(s, IndexReply(s.resources))
    case Leave(id) =>
      Step(State(s.peers - {id}, Disowned(s.resources, id)), Ok())
    case FetchPeers =>
      Step(s, PeersReply(s.peers))
    case _ =>
      Step(s, Failure("Unknown action"))
  }

  /**
    `join` records the address under the id, overwriting any earlier one,
    changes no other peer entry and no index entry, and answers with the
    whole peer map.
   */
  lemma JoinEffect(s: State, id: string, address: Address)
    ensures var t := Process(s, Join(id, address));
      && t.state.peers.Keys == s.peers.Keys + {id}
      && t.state.peers[id] == address
      && (forall p :: p in s.peers && p != id ==> t.state.peers[p] == s.peers[p])
      && t.state.resources == s.resources
      && t.response == PeersReply(t.state.peers)
  {
  }

  /** Joining twice with the same id and address is the same as joining once. */
  lemma JoinIdempotent(s: State, id: string, address: Address)
    ensures var once := Process(s, Join(id, address));
      Process(once.state, Join(id, address)) == once
  {
    var once := Process(s, Join(id, address));
    assert once.state.peers[id := address] == once.state.peers;
  }

  /**
    After an upload every listed name is owned by the uploader, every other
    name keeps its owner, and the peer map is untouched.
   */
  lemma UploadEffect(s: State, id: string, names: seq<string>)
    ensures var t := Process(s, Upload(id, names));
      && (forall n :: n in names ==> n in t.state.resources && t.state.resources[n] == id)
      && (forall n :: n !in names ==> (n in t.state.resources <==> n in s.resources))
      && (forall n :: n in s.resources && n !in names ==> t.state.resources[n] == s.resources[n])
      && t.state.peers == s.peers
      && t.response == Ok()
  {
  }

  /** A later upload of the same name by another peer takes the name over. */
  lemma LastWriterWins(s: State, p: string, q: string, first: seq<string>, second: seq<string>, n: string)
    requires n in first && n in second
    ensures var t := Process(Process(s, Upload(p, first)).state, Upload(q, second));
      t.state.resources[n] == q
  {
  }

  /**
    Uploads of disjoint name lists commute: whichever of two such uploads is
    handled first, the index ends up the same, holding both peers' entries.
   */
  lemma {:induction false} DisjointUploadsCommute(s: State, p: string, ps: seq<string>, q: string, qs: seq<string>)
    requires forall n :: n in ps ==> n !in qs
    ensures Process(Process(s, Upload(p, ps)).state, Upload(q, qs))
         == Process(Process(s, Upload(q, qs)).state, Upload(p, ps))
  {
    var pFirst := Uploaded(s.resources, p, ps);
    var qFirst := Uploaded(s.resources, q, qs);
    var a := Uploaded(pFirst, q, qs);
    var b := Uploaded(qFirst, p, ps);
    assert a.Keys == b.Keys;
    forall n | n in a ensures a[n] == b[n] {
      if n in qs {
        assert n !in ps;
        assert a[n] == q && qFirst[n] == q && b[n] == qFirst[n];
      } else if n in ps {
        assert a[n] == pFirst[n] && pFirst[n] == p && b[n] == p;
      } else {
        assert a[n] == pFirst[n] == s.resources[n];
        assert b[n] == qFirst[n] == s.resources[n];
      }
    }
    assert a == b;
  }

  /**
    After `leave`, the peer is gone from the peer map and owns nothing in the
    index; other peers and other owners' entries are untouched; the reply is
    success even when the peer was never there.
   */
  lemma LeaveEffect(s: State, id: string)
    ensures var t := Process(s, Leave(id));
      && id !in t.state.peers
      && (forall n :: n in t.state.resources ==> t.state.resources[n] != id)
      && (forall p :: p in s.peers && p != id ==> p in t.state.peers && t.state.peers[p] == s.peers[p])
      && (forall n :: n in s.resources && s.resources[n] != id ==> n in t.state.resources && t.state.resources[n] == s.resources[n])
      && t.state.peers.Keys <= s.peers.Keys
      && t.state.resources.Keys <= s.resources.Keys
      && t.response == Ok()
  {
  }

  /** `retrieve_index` changes nothing and answers with the whole index. */
  lemma IndexQueryReadOnly(s: State)
    ensures Process(s, FetchIndex).state == s
    ensures Process(s, FetchIndex).response.status == SUCCESS
    ensures Process(s, FetchIndex).response.resources == Some(s.resources)
  {
  }

  /** `retrieve_peers` changes nothing and answers with the whole peer map. */
  lemma PeersQueryReadOnly(s: State)
    ensures Process(s, FetchPeers).state == s
    ensures Process(s, FetchPeers).response.status == SUCCESS
    ensures Process(s, FetchPeers).response.peers == Some(s.peers)
  {
  }

  /**
    A request whose action is not one of the directory's five is answered
    with the error "Unknown action" and changes nothing; every recognised
    action is answered with success.
   */
  lemma UnknownActionRejected(s: State, request: Request)
    ensures var a := Action(request);
      a.None? || a.value !in DirectoryActions
      <==> Process(s, request) == Step(s, Failure("Unknown action"))
    ensures Process(s, request).response.status == SUCCESS
      <==> Action(request).Some? && Action(request).value in DirectoryActions
  {
  }

  /** The state after one connection, and what the connection got. */
  datatype Session = Session(state: State, outcome: Outcome<Option<Response>>)

  /**
    One connection: read the request with the short-packet rule (a reset
    connection ends the read), decode it and answer it. A request that does
    not decode is dropped without an answer; an exception in the read loop
    ends the handler. Neither changes the state.
   */
  function ServeClient(s: State, events: seq<RecvEvent>, decode: Bytes -> Decoded<Request>): Session {
    match ReadShort(events, true)
    case Stalled(_) => Session(s, Hangs)
    case Failed(f) => Session(s, Raises(f))
    case Received(data) =>
      match decode(data)
      case Garbled(_) => Session(s, Returns(None))
      case Value(request) =>
        var t := Process(s, request);
        Session(t.state, Returns(Some(t.response)))
  }

  /**
    A client sends its request and waits for the answer with the connection
    open. The directory then handles the request exactly when the encoded
    request is not a multiple of 4096 bytes long; otherwise its handler waits
    forever and the state does not change.
   */
  lemma RequestFramed(s: State, request: Request, encode: Request -> Bytes, decode: Bytes -> Decoded<Request>)
    requires encode(request) != [] && decode(encode(request)) == Value(request)
    ensures var t := Process(s, request);
      ServeClient(s, Chunks(encode(request)), decode)
      == if |encode(request)| % ChunkSize == 0 then Session(s, Hangs) else Session(t.state, Returns(Some(t.response)))
  {
    ShortRuleStallsIff(encode(request), true);
    if |encode(request)| % ChunkSize != 0 {
      ShortRuleFramesShortTail(encode(request), [], true);
      assert Chunks(encode(request)) + [] == Chunks(encode(request));
    }
  }

  /** The directory process. */
  class CentralServer {
    var peers: map<string, Address>
    var resources: map<string, string>

    function Current(): State
      reads this
    {
      State(peers, resources)
    }

    constructor ()
      ensures peers == map[] && resources == map[]
    {
      peers := map[];
      resources := map[];
    }

    /** Dispatch on the request's action. */
    method ProcessRequest(request: Request) returns (response: Response)
      modifies this
      ensures Step(Current(), response) == Process(old(Current()), request)
    {
      match request {
        case Join(id, address) =>
          response := JoinNetwork(id, address);
        case Upload(id, names) =>
          response := UploadIndex(id, names);
        case FetchIndex =>
          response := RetrieveIndex();
        case Leave(id) =>
          response := LeaveNetwork(id);
        case FetchPeers =>
          response := RetrievePeers();
        case _ =>
          response := Failure("Unknown action");
      }
    }

    method JoinNetwork(id: string, address: Address) returns (response: Response)
      modifies this`peers
      ensures peers == old(peers)[id := address]
      ensures response == PeersReply(peers)
    {
      peers := peers[id := address];
      response := PeersReply(peers);
    }

    method UploadIndex(id: string, names: seq<string>) returns (response: Response)
      modifies this`resources
      ensures resources == Uploaded(old(resources), id, names)
      ensures response == Ok()
    {
      for i := 0 to |names|
        invariant resources == Uploaded(old(resources), id, names[..i])
      {
        assert names[..i + 1][..i] == names[..i];
        resources := resources[names[i] := id];
      }
      assert names[..|names|] == names;
      response := Ok();
    }

    method RetrieveIndex() returns (response: Response)
      ensures response.status == SUCCESS && response.resources == Some(resources)
      ensures response.peers.None? && response.message.None? && response.resource.None?
    {
      response := IndexReply(resources);
    }

    method LeaveNetwork(id: string) returns (response: Response)
      modifies this
      ensures peers == old(peers) - {id}
      ensures resources == Disowned(old(resources), id)
      ensures response == Ok()
    {
      if id in peers {
        peers := peers - {id};
      } else {
        assert peers - {id} == peers;
      }
      var owned := set n | n in resources && resources[n] == id;
      var pending := owned;
      while pending != {}
        invariant peers == old(peers) - {id}
        invariant pending <= owned
        invariant resources == old(resources) - (owned - pending)
        decreases pending
      {
        var n :| n in pending;
        resources := resources - {n};
        pending := pending - {n};
      }
      assert resources == Disowned(old(resources), id);
      response := Ok();
    }

    method RetrievePeers() returns (response: Response)
      ensures response.status == SUCCESS && response.peers == Some(peers)
      ensures response.resources.None? && response.message.None? && response.resource.None?
    {
      response := PeersReply(peers);
    }

    /** One connection, with the read loop. */
    method HandleClient(events: seq<RecvEvent>, decode: Bytes -> Decoded<Request>)
      returns (session: Outcome<Option<Response>>)
      modifies this
      ensures Session(Current(), session) == ServeClient(old(Current()), events, decode)
    {
      var got := ReceiveShort(events, true);
      match got {
        case Stalled(_) =>
          session := Hangs;
        case Failed(f) =>
          session := Raises(f);
        case Received(data) =>
          match decode(data) {
            case Garbled(_) =>
              session := Returns(None);
            case Value(request) =>
              var response := ProcessRequest(request);
              session := Returns(Some(response));
          }
      }
    }
  }
}
