# P2P resource sharing with a central directory: a Dafny model

The system is a small peer-to-peer file-sharing overlay. A single
**directory** process keeps two maps: peer id to socket address, and
resource name to owning peer id. **Peers** join and leave the directory,
publish the names in their local store, and retrieve the directory's index.
They then fetch resource bytes directly from the owning peer. Every
exchange is one request and one reply over a fresh TCP connection. The
payload is a serialised dictionary with no length prefix, and the receiver
reads 4096-byte chunks until a short or empty packet arrives.

The model has four modules:

- `Wire` (wire.dfy): the messages. A request is a datatype with one
  constructor per `action`; `Unrecognised` stands for any other action value,
  and the subset type `Request` keeps the known action strings out of it. A
  reply is a record with a `status` and the optional `message`, `peers`,
  `resources` and `resource` keys. Reading a key that is absent raises
  `KeyError`, modelled as `MissingKey`. `Outcome` says how a call ends: it
  returns, it raises, or it hangs on a `recv` that never returns.
- `Framing` (framing.dfy): the receive loops. A connection is the sequence
  of results of its `recv(4096)` calls. If that sequence runs out, the next
  `recv` blocks. `ReadShort` is the short-packet rule and `ReadToClose` the
  close-only rule. The `while` loops `ReceiveShort` and `ReceiveToClose` are
  proved equal to them. Lemmas show that, when a message arrives in full
  4096-byte pieces, the short-packet rule delivers it exactly if its length
  is not a multiple of 4096. For a non-empty message whose length is a
  multiple of 4096, it reads on past the end, or blocks if the sender is
  waiting. A piece shorter than 4096 bytes in the middle of a message cuts
  the message short.
- `Directory` (directory.dfy): `Process` is one request as a step on the two
  maps. The class `CentralServer` keeps the maps as fields, and each of its
  handlers is proved against `Process`. Lemmas state what each action does
  and does not change.
- `PeerNode` (peer.dfy): the class `Peer` holds the local store, its names
  in insertion order (the dictionary's key order), and the index snapshot.
  The directory's replies and the connections to other peers are
  parameters. A resource request records whom it contacted, so "no peer was
  dialled" is a checkable statement. Lemmas tie the peer to the directory
  model and prove the owner-to-requester transfer end to end.

Error behaviour the model records:

- A resource request can end in an exception: a failed `connect` to the
  owner, an undecodable reply, or a success reply without `resource`
  (peer.py:151-176). `FetchResource` yields `Raises` for each.
- The directory catches only `UnpicklingError` (central_server.py:37). Any
  decode failure ends the connection with no reply, and that is all the
  model records.
- `retrieve_index` on the peer raises `KeyError` when a success reply lacks
  `resources`. The snapshot is untouched in that case (peer.py:75-76).

## Model

| member | source | states |
|---|---|---|
| `Wire.Action` | central_server.py:41-54 | the `action` value of a request; it is one of the directory's five exactly for the five directory requests, and `request_resource` exactly for a resource request |
| `Framing.ReadShort` | central_server.py:22-32 | the short-packet read loop: stop on an empty packet, right after a packet shorter than 4096 bytes, or (for the directory) on a connection reset; any other exception escapes. `ShortRuleReadsPrefix`, `ShortRuleShape` and `ShortRuleDelivers` characterise it |
| `Framing.ShortRuleReadsPrefix` | central_server.py:22-32 | the short-packet rule keeps only bytes that arrived, in order: its data is a prefix of the stream's payload, and all of it when it blocks |
| `Framing.ShortSegmentTruncates` | peer.py:99-106 | a piece shorter than 4096 bytes at the start of a longer message ends the read with only that piece, so the message is cut short |
| `Framing.ReadToClose` | peer.py:155-163 | the close-only read loop never lets an exception escape |
| `Framing.ReceiveShort` | central_server.py:22-32 | the read loop with the short-packet rule, with or without catching a connection reset, returns what `ReadShort` defines |
| `Framing.ReceiveToClose` | peer.py:155-163 | the close-only read loop returns what `ReadToClose` defines |
| `Framing.ShortRuleShape` | central_server.py:22-32 | delivered data is the payload up to and including the first short, empty or reset event, and every packet before it has exactly 4096 bytes |
| `Framing.ShortRuleDelivers` | peer.py:99-106 | conversely, full 4096-byte packets followed by a stopping event are delivered as their concatenation, whatever follows |
| `Framing.ShortRuleFramesShortTail` | peer.py:119-126 | when a message arrives in full 4096-byte pieces, a message whose length is not a multiple of 4096 is delivered exactly, whatever the stream holds after it |
| `Framing.ExactMultipleReadsOn` | central_server.py:26-30 | when a message arrives in full 4096-byte pieces, for a message whose length is a multiple of 4096, the short-packet rule does not stop at its end and goes on reading whatever follows |
| `Framing.ShortRuleStallsIff` | central_server.py:23-30 | when a message arrives in full 4096-byte pieces, with the sender waiting and the connection open, the receiver of a non-empty message blocks if and only if its length is a multiple of 4096 |
| `Framing.CloseRuleFrames` | peer.py:155-163 | the close-only rule delivers a message of any length exactly once the sender closes |
| `Directory.Uploaded` | central_server.py:65-66 | after an upload, the index keys are the old keys plus the listed names; every listed name is owned by the uploader; every other name keeps its owner |
| `Directory.Process` | central_server.py:41-82 | one request as a step on the two maps, dispatched on `action`; characterised by `JoinEffect`, `UploadEffect`, `LeaveEffect`, `IndexQueryReadOnly`, `PeersQueryReadOnly` and `UnknownActionRejected`, and implemented by `CentralServer.ProcessRequest` |
| `Directory.JoinEffect` | central_server.py:56-60 | `join` adds or overwrites the peer's address and changes no other peer and no index entry; the reply is success with the full peer map |
| `Directory.JoinIdempotent` | central_server.py:59 | two identical joins give the same state and reply as one |
| `Directory.UploadEffect` | central_server.py:62-67 | listed names map to the uploader; other names keep their presence and owner; the peer map is untouched; the reply is success |
| `Directory.LastWriterWins` | central_server.py:66 | a later upload of a name by another peer takes the name over |
| `Directory.DisjointUploadsCommute` | central_server.py:62-67 | two uploads of disjoint name lists give the same state in either order |
| `Directory.LeaveEffect` | central_server.py:72-79 | after `leave`, the peer is not in the peer map and owns no index entry; other peers and other owners' entries are unchanged; the reply is success even for an unknown peer |
| `Directory.IndexQueryReadOnly` | central_server.py:69-70 | `retrieve_index` changes nothing and replies success with the whole index |
| `Directory.PeersQueryReadOnly` | central_server.py:81-82 | `retrieve_peers` changes nothing and replies success with the whole peer map |
| `Directory.UnknownActionRejected` | central_server.py:41-54 | an action outside the five gets exactly "Unknown action" with no state change, and the reply is success exactly for the five |
| `Directory.ServeClient` | central_server.py:21-39 | one connection to the directory: read with the short-packet rule (a reset ends the read), decode, process and answer; an undecodable request gets no answer; characterised by `RequestFramed` and implemented by `CentralServer.HandleClient` |
| `Directory.RequestFramed` | central_server.py:21-39 | when the request arrives in full 4096-byte pieces, a client waiting with the connection open has its request handled exactly when the encoded request's length is not a multiple of 4096; otherwise the handler hangs and nothing changes |
| `Directory.CentralServer.constructor` | central_server.py:9-10 | the directory starts with both maps empty |
| `Directory.CentralServer.ProcessRequest` | central_server.py:41-54 | the dispatch leaves the maps and returns the reply that `Process` defines |
| `Directory.CentralServer.JoinNetwork` | central_server.py:56-60 | only the peer map changes, to the old map with the id set to the address; the reply holds the new map |
| `Directory.CentralServer.UploadIndex` | central_server.py:62-67 | the loop leaves the index equal to `Uploaded` of the old index; only the index changes |
| `Directory.CentralServer.RetrieveIndex` | central_server.py:69-70 | reply is success carrying the current index and no other payload |
| `Directory.CentralServer.LeaveNetwork` | central_server.py:72-79 | the peer map loses the id; the deletion loop leaves the index equal to `Disowned` of the old index |
| `Directory.CentralServer.RetrievePeers` | central_server.py:81-82 | reply is success carrying the current peer map and no other payload |
| `Directory.CentralServer.HandleClient` | central_server.py:21-39 | one connection: the new state and the session outcome are those `ServeClient` defines for the received events |
| `PeerNode.Exchanged` | peer.py:95-107 | the body of a directory call: connect, send, read with the short-packet rule and decode, where any step may raise; `SendRequestToServer` and `CheckPeerIdUnique` are proved against it |
| `PeerNode.SendRequestToServer` | peer.py:93-109 | a directory call never raises; it yields the decoded reply, an error reply for any exception, or hangs |
| `PeerNode.CheckPeerIdUnique` | peer.py:201-230 | true exactly when the reply decodes with status success and a peer list without the id; false on error status, missing list or any exception |
| `PeerNode.Ask` | peer.py:50-54 | the request is sent as given; the report is the success one exactly on status success and the failure one on any other reply |
| `PeerNode.PeerAddress` | peer.py:178-186 | an address exactly when the reply is success and lists the owner, and then it is the listed one; a success reply without a peer list raises |
| `PeerNode.ServePeer` | peer.py:127-135 | only `request_resource` gets a reply; success with exactly the stored bytes when the name is in the local store, else "Resource not found" |
| `PeerNode.ServeConnection` | peer.py:117-136 | one incoming peer connection: read with the short-packet rule, decode, and answer with `ServePeer`; a failed read or decode raises; characterised by `ServeRequestFramed` and implemented by `Peer.HandlePeer` |
| `PeerNode.ServeRequestFramed` | peer.py:117-136 | when the request arrives in full 4096-byte pieces, the owner answers a waiting requester exactly when the encoded request's length is not a multiple of 4096; otherwise its handler hangs |
| `PeerNode.Download` | peer.py:151-176 | the download over the owner's connection: `connect` may raise; the reply is read with the close rule; no data, an error status, a missing `resource` and success each give their own outcome; characterised by `DownloadFromOwner` and `ServedDownload` |
| `PeerNode.FetchResource` | peer.py:138-176 | a resource request against the snapshot: owner lookup, address lookup at the directory, then the download; characterised by `UnknownNameContactsNobody`, `UnlistedOwnerNotDialled`, `FetchFromListedOwner` and `EndToEndTransfer`, and implemented by `Peer.RequestResourceFromPeer` |
| `PeerNode.FetchFromListedOwner` | peer.py:138-176 | when the snapshot names an owner and the directory lists its address, the requester asks the directory, dials exactly that address, and ends as the download over that connection does |
| `PeerNode.UnknownNameContactsNobody` | peer.py:140-142 | nobody is contacted exactly when the snapshot has no non-empty owner for the name, and then the result is "not found in network" |
| `PeerNode.UnlistedOwnerNotDialled` | peer.py:143-145 | when the directory gives no address, the result is "address not found" after contacting only the directory |
| `PeerNode.DownloadFromOwner` | peer.py:151-176 | when the owner answers from its store and closes, the requester downloads exactly the stored bytes, or reports failure if the owner lacks the name |
| `PeerNode.Answered` | peer.py:126-136 | what the requester's `recv` calls give while the owner's handler runs: the encoded answer and then the close; only the close when there is no answer; nothing while the handler waits |
| `PeerNode.ServedDownload` | peer.py:117-176 | the owner's handler and the requester's close-rule read together: with the request sent in full 4096-byte pieces, the requester gets exactly the stored bytes (or the failure report when the owner lacks the name) if the encoded request's length is not a multiple of 4096, and both sides wait forever otherwise |
| `PeerNode.PublishedFetch` | central_server.py:62-82 | after a joined peer uploads, a requester using the directory's index and peer map asks the directory and then dials that peer's registered address |
| `PeerNode.EndToEndTransfer` | peer.py:117-176 | after a joined peer uploads, a requester using the directory's index and peer map contacts the directory and then that peer; the peer's own handler answers the request sent in full 4096-byte pieces; the requester downloads exactly that peer's bytes when the encoded request's length is not a multiple of 4096, and waits forever otherwise |
| `PeerNode.DirectoryAgrees` | peer.py:43-91 | against the directory model, join lists the peer at its address, upload makes it owner of every stored name, and leave removes it and all its entries |
| `PeerNode.Peer.constructor` | peer.py:26-36 | a new peer has its id and address, an empty store and an empty snapshot |
| `PeerNode.Peer.JoinNetwork` | peer.py:43-54 | sends `join` with this peer's id and address; reports joined exactly on status success, failed on any other reply |
| `PeerNode.Peer.UploadIndex` | peer.py:56-67 | sends `upload_index` with this peer's id and exactly the store's names, each once; reports by status |
| `PeerNode.Peer.LeaveNetwork` | peer.py:81-91 | sends `leave` with this peer's id; reports by status |
| `PeerNode.Peer.RetrieveIndex` | peer.py:69-79 | on success the snapshot becomes the reply's index wholesale; otherwise the snapshot is unchanged and the result is the failure report, KeyError, or the hang |
| `PeerNode.Peer.HandlePeer` | peer.py:117-136 | one incoming connection yields what `ServeConnection` defines from the current store; no `modifies` clause, so the store never changes |
| `PeerNode.Peer.RequestResourceFromPeer` | peer.py:138-176 | the contacts and the outcome are those `FetchResource` defines for the current snapshot |
| `PeerNode.Peer.AddResource` | peer.py:188-199 | an unreadable file changes nothing; otherwise the store maps the base name to the content (new names go last in key order), and the index is uploaded from the new store |

## Left out

- Sockets, `bind`, `listen`, `accept`, `connect` and `send` are not
  modelled. A connection is a parameter: either `connect` fails, or it is
  the sequence of results of its `recv` calls. Partial `send` writes are not
  modelled. `Chunks` gives the network's delivery of a message in the
  largest pieces `recv(4096)` allows.
- The network is assumed to hand a message over in full 4096-byte pieces
  wherever the short-packet rule's delivery is proved. Under that rule, a
  piece shorter than 4096 bytes in the middle of a message, such as a TCP
  segment boundary, ends the read with the data so far. `ShortSegmentTruncates`
  states this, and nothing in the model recovers from it.
- Threads are left out. This covers the accept loops (central_server.py:84-87,
  peer.py:111-115) and their per-connection handler threads. Requests are
  handled one at a time. Interleaving inside a handler, such as a `leave`
  racing an `upload_index`, is not modelled. `DisjointUploadsCommute` covers
  only whole handlers in either order.
- `pickle` is left out. Decoding is a parameter that yields a value or fails.
  Encoding appears only in the lemmas, where decoding undoes it.
  Non-dictionary payloads are not modelled. Neither are requests whose
  fields are missing or mistyped, where `.get` returns `None`: every
  `Request` constructor carries the fields its action needs. Every reply
  carries a `status`.
- Directory decode failures are not split by exception type. An
  `UnpicklingError`, or `EOFError` on empty data, ends the connection with no
  reply either way. Only that outcome is modelled, not whether the socket is
  closed explicitly.
- `get_local_ip` (peer.py:7-22) is left out. The peer's listening address is
  a constructor parameter.
- File I/O is left out. `add_resource` gets the file's base name and its
  content, or `None` when the read fails. The download's write to
  `downloaded_files/<name>` is the `Downloaded` report carrying the bytes.
- The peer constructor's own `join` call (peer.py:39-41) is not chained into
  the constructor. It is `Peer.JoinNetwork`, modelled on its own.
- Report texts are not modelled. These are the f-strings and the index
  printed by `retrieve_index`. A `Report` constructor names which message is
  returned.
- The interactive `main` menu (peer.py:232-270), `input` and `print` are left
  out. So is the port-in-use `exit` (central_server.py:14-17).
