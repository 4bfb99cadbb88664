/** Length-prefixed messages over a byte stream that arrives in arbitrary pieces
    (examples/stressapp/riak_stress.py, send_msg, recv_exact and recv_msg). */
module Framing {
  import opened Text
  import opened Wire

  datatype Message = Message(code: Byte, data: Bytes)

  const MAX_UINT32 := 0xffff_ffff

  /** struct.pack(">I"). */
  function BigEndian(n: nat): Bytes
    requires n <= MAX_UINT32
  {
    [n / 0x100_0000, n / 0x1_0000 % 256, n / 256 % 256, n % 256]
  }

  /** struct.unpack(">I"). */
  function FromBigEndian(b: Bytes): nat
    requires |b| == 4
  {
    var b0: int, b1: int, b2: int, b3: int := b[0], b[1], b[2], b[3];
    ((b0 * 256 + b1) * 256 + b2) * 256 + b3
  }

  lemma BigEndianReadBack(n: nat)
    requires n <= MAX_UINT32
    ensures FromBigEndian(BigEndian(n)) == n
  {
    var a, b, c := n / 256, n / 0x1_0000, n / 0x100_0000;
    assert b == a / 256 && c == b / 256;
  }

  /** A message the length prefix can describe; struct.pack raises for any other. */
  predicate Sendable(m: Message) { |m.data| + 1 <= MAX_UINT32 }

  function Frame(m: Message): Bytes
    requires Sendable(m)
  {
    BigEndian(|m.data| + 1) + [m.code] + m.data
  }

  function Frames(messages: seq<Message>): Bytes
    requires forall i :: 0 <= i < |messages| ==> Sendable(messages[i])
  {
    if messages == [] then [] else Frame(messages[0]) + Frames(messages[1..])
  }

  datatype Received = Received(message: Message) | ConnectionClosed | EmptyFrame

  /** The message at the front of a stream that ends after `stream`, and the bytes left. */
  function Unframe(stream: Bytes): (Received, Bytes) {
    if |stream| < 4 then (ConnectionClosed, [])
    else
      var length := FromBigEndian(stream[..4]);
      if |stream| - 4 < length then (ConnectionClosed, [])
      else if length == 0 then (EmptyFrame, stream[4..])
      else (Received(Message(stream[4], stream[5..4 + length])), stream[4 + length..])
  }

  /** A framed message in front of any bytes is read back and takes none of them. */
  lemma UnframeFrame(m: Message, rest: Bytes)
    requires Sendable(m)
    ensures Unframe(Frame(m) + rest) == (Received(m), rest)
  {
    var stream := Frame(m) + rest;
    var length := |m.data| + 1;
    BigEndianReadBack(length);
    assert stream[..4] == BigEndian(length);
    assert stream[4] == m.code;
    assert stream[5..4 + length] == m.data;
    assert stream[4 + length..] == rest;
  }

  /** A stream that ends inside a frame yields no message. */
  lemma CutFrameIsClosed(m: Message, k: nat)
    requires Sendable(m) && k < |Frame(m)|
    ensures Unframe(Frame(m)[..k]) == (ConnectionClosed, [])
  {
    var length := |m.data| + 1;
    if k >= 4 {
      BigEndianReadBack(length);
      assert Frame(m)[..k][..4] == BigEndian(length);
    }
  }

  /** A frame of length zero holds not even a code, and takes none of the bytes after it. */
  lemma ZeroFrameIsEmpty(rest: Bytes)
    ensures Unframe([0, 0, 0, 0] + rest) == (EmptyFrame, rest)
  {
    assert ([0, 0, 0, 0] + rest)[4..] == rest;
  }

  /** A connection: the bytes the peer has sent and the client has not read. */
  class Connection {
    var pending: Bytes

    constructor (pending: Bytes)
      ensures this.pending == pending
    {
      this.pending := pending;
    }

    /** socket.recv: any non-empty piece of what is pending, up to `max`; nothing at the end. */
    method Recv(max: nat) returns (chunk: Bytes)
      requires max > 0
      modifies this
      ensures old(pending) == chunk + pending && |chunk| <= max
      ensures chunk == [] <==> old(pending) == []
    {
      if pending == [] {
        return [];
      }
      assert 1 <= 1 <= max && 1 <= |pending|;
      var n :| 1 <= n <= max && n <= |pending|;
      chunk := pending[..n];
      assert pending == chunk + pending[n..];
      pending := pending[n..];
    }

    /** recv_exact: n bytes if the stream has them, an end-of-file error if it does not. */
    method RecvExact(n: nat) returns (r: Option<Bytes>)
      modifies this
      ensures r.Some? <==> |old(pending)| >= n
      ensures r.Some? ==> r.value == old(pending)[..n] && pending == old(pending)[n..]
      ensures r.None? ==> pending == []
    {
      var buf: Bytes := [];
      while |buf| < n
        invariant |buf| <= n
        invariant old(pending) == buf + pending
        decreases n - |buf|
      {
        var chunk := Recv(n - |buf|);
        if chunk == [] {
          return None;
        }
        buf := buf + chunk;
      }
      return Some(buf);
    }

    /** recv_msg: whatever the pieces, the message at the front and not one byte more. */
    method RecvMsg() returns (r: Received)
      modifies this
      ensures (r, pending) == Unframe(old(pending))
    {
      var header := RecvExact(4);
      if header.None? {
        return ConnectionClosed;
      }
      var length := FromBigEndian(header.value);
      assert pending == old(pending)[4..];
      var body := RecvExact(length);
      if body.None? {
        return ConnectionClosed;
      }
      if length == 0 {
        return EmptyFrame;
      }
      assert old(pending)[4..][..length] == old(pending)[4..4 + length];
      assert old(pending)[4..][length..] == old(pending)[4 + length..];
      return Received(Message(body.value[0], body.value[1..]));
    }

    /** Receiving as many messages as were sent returns them, in order, and leaves what follows. */
    method RecvAll(ghost sent: seq<Message>, count: nat, ghost rest: Bytes) returns (got: seq<Message>)
      requires count == |sent| && forall i :: 0 <= i < |sent| ==> Sendable(sent[i])
      requires pending == Frames(sent) + rest
      modifies this
      ensures got == sent && pending == rest
    {
      got := [];
      for i := 0 to count
        invariant got == sent[..i]
        invariant pending == Frames(sent[i..]) + rest
      {
        assert sent[i..][1..] == sent[i + 1..];
        assert pending == Frame(sent[i]) + (Frames(sent[i + 1..]) + rest);
        UnframeFrame(sent[i], Frames(sent[i + 1..]) + rest);
        var r := RecvMsg();
        got := got + [r.message];
      }
      assert Frames([]) + rest == rest;
    }
  }

  /** The messages of a stream up to the first that cannot be received. */
  function UnframeAll(stream: Bytes): seq<Message>
    decreases |stream|
  {
    var (r, rest) := Unframe(stream);
    if r.Received? then [r.message] + UnframeAll(rest) else []
  }

  /** Framing is injective on whole conversations: the stream determines the messages. */
  lemma {:induction false} FramesReadBack(messages: seq<Message>)
    requires forall i :: 0 <= i < |messages| ==> Sendable(messages[i])
    ensures UnframeAll(Frames(messages)) == messages
  {
    if messages != [] {
      UnframeFrame(messages[0], Frames(messages[1..]));
      FramesReadBack(messages[1..]);
    }
  }
}
