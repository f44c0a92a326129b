/**
  How a node reads one message from a stream connection.

  There is no length prefix. The receiver calls `recv(4096)` repeatedly and
  appends what it gets. Two stopping rules are in use:

  - the short-packet rule: stop on an empty packet (the other side closed),
    or right after a packet shorter than 4096 bytes;
  - the close rule: stop only on an empty packet or on an exception.

  A stream is the sequence of results the successive `recv` calls give. When
  the sequence runs out, the next `recv` blocks forever: the other side keeps
  the connection open and sends nothing more.
 */
module Framing {
  import opened Wire

  /** The buffer size every `recv` call asks for. */
  const ChunkSize: nat := 4096

  /** The result of one `recv` call. */
  datatype RecvEvent =
    | Packet(bytes: Bytes)   // b'' means the other side closed the connection
    | Reset(reason: string)  // ConnectionResetError
    | Broken(reason: string) // any other socket error

  /** `recv(4096)` never returns more than 4096 bytes. */
  ghost predicate WellSized(events: seq<RecvEvent>) {
    forall i :: 0 <= i < |events| && events[i].Packet? ==> |events[i].bytes| <= ChunkSize
  }

  /** How a read loop ends. */
  datatype Received =
    | Received(data: Bytes)  // the loop stopped with this data
    | Failed(fault: Fault)   // the loop let an exception escape
    | Stalled(data: Bytes)   // a `recv` blocks forever after this data

  /** The bytes the packets of `events` carry, in order. */
  function Payload(events: seq<RecvEvent>): Bytes {
    if events == [] then []
    else (if events[0].Packet? then events[0].bytes else []) + Payload(events[1..])
  }

  /** The same end of a read loop, with `prefix` received before. */
  function Prefixed(prefix: Bytes, r: Received): Received {
    match r
    case Received(d) => Received(prefix + d)
    case Failed(f) => Failed(f)
    case Stalled(d) => Stalled(prefix + d)
  }

  /**
    The short-packet rule. `resetEnds` says whether a ConnectionResetError
    ends the loop normally (the directory's loop) or escapes from it (the
    peers' loops).
   */
  function ReadShort(events: seq<RecvEvent>, resetEnds: bool): Received {
    if events == [] then Stalled([])
    else
      match events[0]
      case Packet(p) =>
        if p == [] then Received([])
        else if |p| < ChunkSize then Received(p)
        else Prefixed(p, ReadShort(events[1..], resetEnds))
      case Reset(reason) => if resetEnds then Received([]) else Failed(Transport(reason))
      case Broken(reason) => Failed(Transport(reason))
  }

  /** The close rule: every exception ends the loop with the data so far. */
  function ReadToClose(events: seq<RecvEvent>): (r: Received)
    ensures !r.Failed?
  {
    if events == [] then Stalled([])
    else
      match events[0]
      case Packet(p) => if p == [] then Received([]) else Prefixed(p, ReadToClose(events[1..]))
      case Reset(_) => Received([])
      case Broken(_) => Received([])
  }

  /** Receiving `a` and then `b` is receiving `a + b`. */
  lemma PrefixedTwice(a: Bytes, b: Bytes, r: Received)
    ensures Prefixed(a, Prefixed(b, r)) == Prefixed(a + b, r)
  {
    match r
    case Received(d) => assert a + (b + d) == (a + b) + d;
    case Failed(_) =>
    case Stalled(d) => assert a + (b + d) == (a + b) + d;
  }

  /** Receiving nothing first changes nothing. */
  lemma PrefixedEmpty(r: Received)
    ensures Prefixed([], r) == r
  {
    match r
    case Received(d) => assert [] + d == d;
    case Failed(_) =>
    case Stalled(d) => assert [] + d == d;
  }

  /** The read loop with the short-packet rule. */
  method ReceiveShort(events: seq<RecvEvent>, resetEnds: bool) returns (r: Received)
    ensures r == ReadShort(events, resetEnds)
  {
    var data: Bytes := [];
    var i := 0;
    PrefixedEmpty(ReadShort(events, resetEnds));
    while true
      invariant 0 <= i <= |events|
      invariant Prefixed(data, ReadShort(events[i..], resetEnds)) == ReadShort(events, resetEnds)
      decreases |events| - i
    {
      if i == |events| {
        return Stalled(data);
      }
      ghost var rest := events[i..];
      assert rest[0] == events[i] && rest[1..] == events[i + 1..];
      match events[i] {
        case Packet(p) =>
          if p == [] {
            return Received(data);
          }
          if |p| < ChunkSize {
            return Received(data + p);
          }
          assert ReadShort(rest, resetEnds) == Prefixed(p, ReadShort(events[i + 1..], resetEnds));
          PrefixedTwice(data, p, ReadShort(events[i + 1..], resetEnds));
          data := data + p;
        case Reset(reason) =>
          if resetEnds {
            return Received(data);
          }
          return Failed(Transport(reason));
        case Broken(reason) =>
          return Failed(Transport(reason));
      }
      i := i + 1;
    }
  }

  /** The read loop with the close rule. */
  method ReceiveToClose(events: seq<RecvEvent>) returns (r: Received)
    ensures r == ReadToClose(events)
  {
    var data: Bytes := [];
    var i := 0;
    PrefixedEmpty(ReadToClose(events));
    while true
      invariant 0 <= i <= |events|
      invariant Prefixed(data, ReadToClose(events[i..])) == ReadToClose(events)
      decreases |events| - i
    {
      if i == |events| {
        return Stalled(data);
      }
      ghost var rest := events[i..];
      assert rest[0] == events[i] && rest[1..] == events[i + 1..];
      match events[i] {
        case Packet(p) =>
          if p == [] {
            return Received(data);
          }
          assert ReadToClose(rest) == Prefixed(p, ReadToClose(events[i + 1..]));
          PrefixedTwice(data, p, ReadToClose(events[i + 1..]));
          data := data + p;
        case Reset(_) =>
          return Received(data);
        case Broken(_) =>
          return Received(data);
      }
      i := i + 1;
    }
  }

  /**
    The short-packet rule keeps only bytes that arrived, in order: what it
    delivers is a prefix of the stream's payload, and when it blocks it has
    taken all of it.
   */
  lemma {:induction false} ShortRuleReadsPrefix(events: seq<RecvEvent>, resetEnds: bool)
    ensures var r := ReadShort(events, resetEnds);
      (!r.Failed? ==> r.data <= Payload(events)) && (r.Stalled? ==> r.data == Payload(events))
  {
    if events != [] && events[0].Packet? {
      var p := events[0].bytes;
      if p != [] && |p| >= ChunkSize {
        ShortRuleReadsPrefix(events[1..], resetEnds);
        var r := ReadShort(events[1..], resetEnds);
        if !r.Failed? {
          assert p + r.data <= p + Payload(events[1..]);
        }
      }
    }
  }

  /** A packet after which the short-packet rule stops. */
  predicate Ends(e: RecvEvent, resetEnds: bool) {
    (e.Packet? && |e.bytes| < ChunkSize) || (e.Reset? && resetEnds)
  }

  /** Every event before index `k` is a packet of exactly 4096 bytes. */
  ghost predicate FullBefore(events: seq<RecvEvent>, k: nat)
    requires k <= |events|
  {
    forall i :: 0 <= i < k ==> events[i].Packet? && |events[i].bytes| == ChunkSize
  }

  /**
    When the short-packet rule delivers data, it is the payload of the events
    up to and including the first one that ends the loop, and every packet
    before that one is exactly 4096 bytes long.
   */
  lemma {:induction false} ShortRuleShape(events: seq<RecvEvent>, resetEnds: bool) returns (k: nat)
    requires WellSized(events)
    requires ReadShort(events, resetEnds).Received?
    ensures k < |events| && FullBefore(events, k) && Ends(events[k], resetEnds)
    ensures ReadShort(events, resetEnds).data == Payload(events[..k + 1])
  {
    var e := events[0];
    assert e.Packet? ==> |e.bytes| <= ChunkSize;
    if Ends(e, resetEnds) {
      k := 0;
      assert events[..1] == [e] && Payload(events[..1]) == Payload([e]);
      assert Payload([e]) == (if e.Packet? then e.bytes else []) + Payload([]);
    } else {
      assert e.Packet? && |e.bytes| == ChunkSize;
      var rest := events[1..];
      assert WellSized(rest) by {
        forall i | 0 <= i < |rest| && rest[i].Packet? ensures |rest[i].bytes| <= ChunkSize {
          assert rest[i] == events[i + 1];
        }
      }
      var j := ShortRuleShape(rest, resetEnds);
      k := j + 1;
      forall i | 0 <= i < k ensures events[i].Packet? && |events[i].bytes| == ChunkSize {
        if i > 0 { assert events[i] == rest[i - 1]; }
      }
      assert events[..k + 1][0] == e && events[..k + 1][1..] == rest[..j + 1];
    }
  }

  /**
    Conversely, full packets followed by a packet that ends the loop are
    delivered as their concatenation, whatever comes after.
   */
  lemma {:induction false} ShortRuleDelivers(events: seq<RecvEvent>, k: nat, resetEnds: bool)
    requires k < |events| && FullBefore(events, k) && Ends(events[k], resetEnds)
    ensures ReadShort(events, resetEnds) == Received(Payload(events[..k + 1]))
  {
    var e := events[0];
    if k == 0 {
      assert events[..1] == [e] && Payload(events[..1]) == Payload([e]);
      assert Payload([e]) == (if e.Packet? then e.bytes else []) + Payload([]);
    } else {
      var rest := events[1..];
      forall i | 0 <= i < k - 1 ensures rest[i].Packet? && |rest[i].bytes| == ChunkSize {
        assert rest[i] == events[i + 1];
      }
      ShortRuleDelivers(rest, k - 1, resetEnds);
      assert events[..k + 1][0] == e && events[..k + 1][1..] == rest[..k];
    }
  }

  /**
    How a sender's message reaches the receiver when the network hands it over
    in the largest pieces `recv(4096)` allows.
   */
  function Chunks(m: Bytes): (c: seq<RecvEvent>)
    ensures WellSized(c) && Payload(c) == m
    ensures forall i :: 0 <= i < |c| ==> c[i].Packet? && c[i].bytes != []
    decreases |m|
  {
    if |m| == 0 then []
    else if |m| <= ChunkSize then
      var c := [Packet(m)];
      assert Payload(c) == m + Payload([]);
      c
    else
      var c := [Packet(m[..ChunkSize])] + Chunks(m[ChunkSize..]);
      assert c[1..] == Chunks(m[ChunkSize..]);
      assert m == m[..ChunkSize] + m[ChunkSize..];
      c
  }

  /**
    A message whose length is not a multiple of 4096 is delivered exactly,
    whatever the stream holds after it.
   */
  lemma {:induction false} ShortRuleFramesShortTail(m: Bytes, rest: seq<RecvEvent>, resetEnds: bool)
    requires |m| % ChunkSize != 0
    ensures ReadShort(Chunks(m) + rest, resetEnds) == Received(m)
    decreases |m|
  {
    var c := Chunks(m) + rest;
    if |m| <= ChunkSize {
      assert c[0] == Packet(m);
    } else {
      var tail := m[ChunkSize..];
      assert |tail| % ChunkSize == |m| % ChunkSize;
      assert c[0] == Packet(m[..ChunkSize]) && c[1..] == Chunks(tail) + rest;
      ShortRuleFramesShortTail(tail, rest, resetEnds);
      assert m == m[..ChunkSize] + tail;
    }
  }

  /**
    The short-packet rule takes any packet shorter than 4096 bytes for the
    end of the message: when the network hands over the first `k` bytes of a
    longer message on their own, the receiver stops with only those.
   */
  lemma ShortSegmentTruncates(m: Bytes, k: nat, rest: seq<RecvEvent>, resetEnds: bool)
    requires 0 < k < |m| && k < ChunkSize
    ensures ReadShort([Packet(m[..k]), Packet(m[k..])] + rest, resetEnds) == Received(m[..k])
    ensures m[..k] != m
  {
  }

  /**
    The short-packet rule cannot tell where a message whose length is a
    multiple of 4096 ends: the receiver goes on reading whatever follows it.
   */
  lemma {:induction false} ExactMultipleReadsOn(m: Bytes, rest: seq<RecvEvent>, resetEnds: bool)
    requires |m| % ChunkSize == 0
    ensures ReadShort(Chunks(m) + rest, resetEnds) == Prefixed(m, ReadShort(rest, resetEnds))
    decreases |m|
  {
    var c := Chunks(m) + rest;
    if |m| == 0 {
      assert c == rest;
      match ReadShort(rest, resetEnds)
      case Received(d) => assert m + d == d;
      case Failed(_) =>
      case Stalled(d) => assert m + d == d;
    } else {
      var tail := m[ChunkSize..];
      assert c[0] == Packet(m[..ChunkSize]) && c[1..] == Chunks(tail) + rest;
      ExactMultipleReadsOn(tail, rest, resetEnds);
      assert m == m[..ChunkSize] + tail;
      match ReadShort(rest, resetEnds)
      case Received(d) => assert m[..ChunkSize] + (tail + d) == m + d;
      case Failed(_) =>
      case Stalled(d) => assert m[..ChunkSize] + (tail + d) == m + d;
    }
  }

  /**
    In particular, when the sender then waits for an answer with the
    connection open, the receiver of a non-empty exact-multiple message never
    stops reading; it stops at once for any other length.
   */
  lemma ShortRuleStallsIff(m: Bytes, resetEnds: bool)
    requires m != []
    ensures ReadShort(Chunks(m), resetEnds).Stalled? <==> |m| % ChunkSize == 0
    ensures |m| % ChunkSize == 0 ==> ReadShort(Chunks(m), resetEnds) == Stalled(m)
  {
    if |m| % ChunkSize == 0 {
      ExactMultipleReadsOn(m, [], resetEnds);
      assert Chunks(m) + [] == Chunks(m);
      assert m + [] == m;
    } else {
      ShortRuleFramesShortTail(m, [], resetEnds);
      assert Chunks(m) + [] == Chunks(m);
    }
  }

  /**
    The close rule delivers every message exactly once the sender closes the
    connection, whatever its length.
   */
  lemma {:induction false} CloseRuleFrames(m: Bytes, rest: seq<RecvEvent>)
    ensures ReadToClose(Chunks(m) + [Packet([])] + rest) == Received(m)
    decreases |m|
  {
    var c := Chunks(m) + [Packet([])] + rest;
    if |m| == 0 {
      assert c[0] == Packet([]);
    } else if |m| <= ChunkSize {
      assert c[0] == Packet(m) && c[1..][0] == Packet([]);
      assert m + [] == m;
    } else {
      var tail := m[ChunkSize..];
      assert c[0] == Packet(m[..ChunkSize]) && c[1..] == Chunks(tail) + [Packet([])] + rest;
      CloseRuleFrames(tail, rest);
      assert m == m[..ChunkSize] + tail;
    }
  }
}
