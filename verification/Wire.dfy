/**
 * Framing on the structure channel and its reassembly from a byte stream that arrives in pieces.
 * `Codec` stands for the message body's serialisation; nothing is assumed of it beyond what a
 * lemma states about the messages it is used on.
 */
module Wire {
  import opened Wrappers
  import opened Text

  const MAX_FRAME_LEN := 16 * 1024 * 1024

  datatype Codec<!M> = Codec(enc: M -> seq<byte>, dec: seq<byte> -> Option<M>)

  datatype WireError = BadBody | Incomplete(needed: nat, have: nat) | TooLarge(len: nat, limit: nat)

  // ---- the length prefix ----

  /** A 32-bit big-endian number; larger lengths wrap. */
  function BigEndian(n: nat): seq<byte> {
    var m := n % U32_LIMIT;
    [m / 0x100_0000, m / 0x1_0000 % 0x100, m / 0x100 % 0x100, m % 0x100]
  }

  function FromBigEndian(a: byte, b: byte, c: byte, d: byte): nat {
    ((a * 0x100 + b) * 0x100 + c) * 0x100 + d
  }

  lemma BigEndianRoundTrip(n: nat)
    ensures var p := BigEndian(n); FromBigEndian(p[0], p[1], p[2], p[3]) == n % U32_LIMIT
  {
    var m := n % U32_LIMIT;
    assert m / 0x1_0000 / 0x100 == m / 0x100_0000;
    assert m / 0x100 / 0x100 == m / 0x1_0000;
  }

  // ---- frames ----

  function EncodeFrame<M>(c: Codec<M>, msg: M): seq<byte> {
    var body := c.enc(msg);
    BigEndian(|body|) + body
  }

  /** One frame from the front of a buffer: the message and the bytes it took. */
  function DecodeFrame<M>(c: Codec<M>, buf: seq<byte>): (r: Result<(M, nat), WireError>)
    ensures r.Ok? ==> 4 <= r.value.1 <= |buf|
  {
    if |buf| < 4 then Err(Incomplete(4, |buf|))
    else
      var len := FromBigEndian(buf[0], buf[1], buf[2], buf[3]);
      if len > MAX_FRAME_LEN then Err(TooLarge(len, MAX_FRAME_LEN))
      else if |buf| < 4 + len then Err(Incomplete(4 + len, |buf|))
      else
        var m := c.dec(buf[4..4 + len]);
        if m.None? then Err(BadBody) else Ok((m.value, 4 + len))
  }

  /** The body codec gives this message back, and its body fits a frame. */
  predicate Sendable<M(==)>(c: Codec<M>, msg: M) {
    c.dec(c.enc(msg)) == Some(msg) && |c.enc(msg)| <= MAX_FRAME_LEN
  }

  lemma FrameParts<M>(c: Codec<M>, msg: M, rest: seq<byte>)
    ensures var s := EncodeFrame(c, msg) + rest;
            && |s| == 4 + |c.enc(msg)| + |rest|
            && FromBigEndian(s[0], s[1], s[2], s[3]) == |c.enc(msg)| % U32_LIMIT
            && s[4..4 + |c.enc(msg)|] == c.enc(msg)
            && s[4 + |c.enc(msg)|..] == rest
  {
    BigEndianRoundTrip(|c.enc(msg)|);
  }

  /** A frame is read back from the front of whatever follows it. */
  lemma FrameRoundTrip<M>(c: Codec<M>, msg: M, rest: seq<byte>)
    requires Sendable(c, msg)
    ensures DecodeFrame(c, EncodeFrame(c, msg) + rest) == Ok((msg, |EncodeFrame(c, msg)|))
    ensures (EncodeFrame(c, msg) + rest)[|EncodeFrame(c, msg)|..] == rest
  {
    FrameParts(c, msg, rest);
  }

  /**
   * `encode_frame` does not check the limit: a frame is read back exactly when its body is within it.
   * A longer one is refused below 4 GiB; above, its length has wrapped and no reading takes the whole frame.
   */
  lemma FrameRoundTripExact<M>(c: Codec<M>, msg: M)
    requires c.dec(c.enc(msg)) == Some(msg)
    ensures DecodeFrame(c, EncodeFrame(c, msg)) == Ok((msg, |EncodeFrame(c, msg)|)) <==> |c.enc(msg)| <= MAX_FRAME_LEN
    ensures MAX_FRAME_LEN < |c.enc(msg)| < U32_LIMIT ==>
            DecodeFrame(c, EncodeFrame(c, msg)) == Err(TooLarge(|c.enc(msg)|, MAX_FRAME_LEN))
    ensures var r := DecodeFrame(c, EncodeFrame(c, msg));
            |c.enc(msg)| >= U32_LIMIT && r.Ok? ==> r.value.1 < |EncodeFrame(c, msg)|
  {
    FrameParts(c, msg, []);
    assert EncodeFrame(c, msg) + [] == EncodeFrame(c, msg);
    var n := |c.enc(msg)|;
    assert n < U32_LIMIT ==> n % U32_LIMIT == n;
    assert n >= U32_LIMIT ==> n % U32_LIMIT < n;
    hide EncodeFrame, BigEndian, FromBigEndian;
  }

  /** A verdict other than "incomplete" does not change when more bytes arrive. */
  lemma DecodeSettled<M>(c: Codec<M>, buf: seq<byte>, more: seq<byte>)
    requires var r := DecodeFrame(c, buf); r.Ok? || !r.error.Incomplete?
    ensures DecodeFrame(c, buf + more) == DecodeFrame(c, buf)
  {
    var len := FromBigEndian(buf[0], buf[1], buf[2], buf[3]);
    if len <= MAX_FRAME_LEN {
      assert (buf + more)[4..4 + len] == buf[4..4 + len];
    }
  }

  /** Any proper prefix of a frame is incomplete. */
  lemma FramePrefix<M>(c: Codec<M>, msg: M, k: nat)
    requires Sendable(c, msg) && k < |EncodeFrame(c, msg)|
    ensures var r := DecodeFrame(c, EncodeFrame(c, msg)[..k]); r.Err? && r.error.Incomplete?
  {
    FrameParts(c, msg, []);
    var f := EncodeFrame(c, msg);
    assert f + [] == f;
    hide EncodeFrame, FromBigEndian;
    if k >= 4 {
      assert f[..k][0] == f[0] && f[..k][1] == f[1] && f[..k][2] == f[2] && f[..k][3] == f[3];
    }
  }

  lemma Regroup<T>(a: seq<T>, x: T, b: seq<T>)
    ensures a + ([x] + b) == a + [x] + b
  {
  }

  // ---- reading messages off a stream ----

  datatype Outcome<M> = Message(msg: M) | Closed | MidFrame | Broken(error: WireError)

  /** What one `read_message` returns and leaves, as a function of the bytes still to come. */
  function Next<M>(c: Codec<M>, pending: seq<byte>): (r: (Outcome<M>, seq<byte>))
    ensures r.0.Message? ==> |r.1| < |pending|
  {
    match DecodeFrame(c, pending)
    case Ok(mn) => (Message(mn.0), pending[mn.1..])
    case Err(Incomplete(_, _)) => (if pending == [] then Closed else MidFrame, pending)
    case Err(e) => (Broken(e), pending)
  }

  /** The bytes a list of reads delivers; an empty read is the end of the stream. */
  function Deliver(pieces: seq<seq<byte>>): seq<byte> {
    if pieces == [] || pieces[0] == [] then [] else pieces[0] + Deliver(pieces[1..])
  }

  /** Everything read off a stream, in order, and how it ended. */
  function Drain<M>(c: Codec<M>, pending: seq<byte>): (seq<M>, Outcome<M>)
    decreases |pending|
  {
    var n := Next(c, pending);
    if n.0.Message? then
      var d := Drain(c, n.1);
      ([n.0.msg] + d.0, d.1)
    else ([], n.0)
  }

  /** One side of a structure stream: the buffer, and the reads the network will hand over. */
  class MessageReader<!M> {
    const codec: Codec<M>
    var buf: seq<byte>
    var pieces: seq<seq<byte>>

    constructor (codec: Codec<M>, pieces: seq<seq<byte>>)
      ensures this.codec == codec && buf == [] && this.pieces == pieces
    {
      this.codec := codec;
      this.buf := [];
      this.pieces := pieces;
    }

    /** Bytes received and not yet consumed, and bytes still to come. */
    function Pending(): seq<byte>
      reads this
    {
      buf + Deliver(pieces)
    }

    /** Decode a message, reading more whenever the buffer holds only part of one. */
    method ReadMessage() returns (r: Outcome<M>)
      modifies this
      ensures (r, Pending()) == Next(codec, old(Pending()))
    {
      while true
        invariant Pending() == old(Pending())
        decreases |pieces|
      {
        var d := DecodeFrame(codec, buf);
        if d.Ok? {
          DecodeSettled(codec, buf, Deliver(pieces));
          assert buf[d.value.1..] + Deliver(pieces) == Pending()[d.value.1..];
          buf := buf[d.value.1..];
          return Message(d.value.0);
        } else if !d.error.Incomplete? {
          DecodeSettled(codec, buf, Deliver(pieces));
          return Broken(d.error);
        }
        if pieces == [] || pieces[0] == [] {
          assert Pending() == buf;
          return if buf == [] then Closed else MidFrame;
        }
        Assoc(buf, pieces[0], Deliver(pieces[1..]));
        buf, pieces := buf + pieces[0], pieces[1..];
      }
    }

    /** The reader loop: messages until the stream ends or fails. */
    method ReadAll() returns (msgs: seq<M>, end: Outcome<M>)
      modifies this
      ensures (msgs, end) == Drain(codec, old(Pending()))
    {
      msgs := [];
      ghost var left := Pending();
      ghost var whole := Drain(codec, left);
      assert [] + whole.0 == whole.0;
      end := ReadMessage();
      while end.Message?
        invariant (end, Pending()) == Next(codec, left)
        invariant whole == (msgs + Drain(codec, left).0, Drain(codec, left).1)
        decreases |left|
      {
        Regroup(msgs, end.msg, Drain(codec, Pending()).0);
        msgs := msgs + [end.msg];
        left := Pending();
        end := ReadMessage();
      }
      assert msgs + [] == msgs;
    }
  }

  // ---- reassembly ----

  function Frames<M>(c: Codec<M>, msgs: seq<M>): seq<byte> {
    if msgs == [] then [] else EncodeFrame(c, msgs[0]) + Frames(c, msgs[1..])
  }

  predicate AllSendable<M(==)>(c: Codec<M>, msgs: seq<M>) { forall m :: m in msgs ==> Sendable(c, m) }

  /** A whole stream of frames pieces back as its messages, and then a clean end. */
  lemma {:induction false} StreamReassembly<M>(c: Codec<M>, msgs: seq<M>)
    requires AllSendable(c, msgs)
    ensures Drain(c, Frames(c, msgs)) == (msgs, Closed)
  {
    if msgs != [] {
      FramesSplit(c, msgs);
      hide AllSendable, Sendable, EncodeFrame, Drain;
      DrainFrame(c, msgs[0], Frames(c, msgs[1..]));
      StreamReassembly(c, msgs[1..]);
    }
  }

  lemma DrainFrame<M>(c: Codec<M>, m: M, rest: seq<byte>)
    requires Sendable(c, m)
    ensures var d := Drain(c, rest); Drain(c, EncodeFrame(c, m) + rest) == ([m] + d.0, d.1)
  {
    hide EncodeFrame, DecodeFrame;
    FrameRoundTrip(c, m, rest);
  }

  /** How many messages lie complete in the first `k` bytes. */
  function Complete<M>(c: Codec<M>, msgs: seq<M>, k: nat): (n: nat)
    ensures n <= |msgs|
  {
    if msgs == [] || k < |EncodeFrame(c, msgs[0])| then 0
    else 1 + Complete(c, msgs[1..], k - |EncodeFrame(c, msgs[0])|)
  }

  /** What a stream cut after `k` bytes yields. */
  ghost predicate CutYields<M>(c: Codec<M>, msgs: seq<M>, k: nat)
    requires k <= |Frames(c, msgs)|
  {
    var n := Complete(c, msgs, k);
    && |Frames(c, msgs[..n])| <= k
    && (n < |msgs| ==> k < |Frames(c, msgs[..n + 1])|)
    && Drain(c, Frames(c, msgs)[..k]) == (msgs[..n], if k == |Frames(c, msgs[..n])| then Closed else MidFrame)
  }

  lemma CutInFirst<M>(c: Codec<M>, m: M, more: seq<M>, k: nat)
    requires Sendable(c, m) && k < |EncodeFrame(c, m)| && k <= |Frames(c, [m] + more)|
    ensures CutYields(c, [m] + more, k)
  {
    var msgs, f := [m] + more, EncodeFrame(c, m);
    assert msgs[1..] == more && msgs[..0] == [] && msgs[..1] == [m] && [m][1..] == [];
    assert Frames(c, [m]) == f + [];
    assert Frames(c, msgs)[..k] == f[..k];
    FramePrefix(c, m, k);
  }

  lemma CutLater<M>(c: Codec<M>, m: M, more: seq<M>, k: nat)
    requires Sendable(c, m) && k <= |Frames(c, more)| && CutYields(c, more, k)
    ensures |EncodeFrame(c, m)| + k <= |Frames(c, [m] + more)|
    ensures CutYields(c, [m] + more, |EncodeFrame(c, m)| + k)
  {
    hide EncodeFrame, DecodeFrame;
    var msgs, f, n := [m] + more, EncodeFrame(c, m), Complete(c, more, k);
    assert msgs[1..] == more;
    FramesTake(c, msgs, n);
    if n < |more| {
      FramesTake(c, msgs, n + 1);
    }
    assert (f + Frames(c, more))[..|f| + k] == f + Frames(c, more)[..k];
    FrameRoundTrip(c, m, Frames(c, more)[..k]);
    assert msgs[..n + 1] == [m] + more[..n];
  }

  lemma CutNone<M>(c: Codec<M>, k: nat)
    requires k <= |Frames(c, [])|
    ensures CutYields(c, [], k)
  {
  }

  lemma FramesSplit<M>(c: Codec<M>, msgs: seq<M>)
    requires AllSendable(c, msgs) && msgs != []
    ensures Sendable(c, msgs[0]) && AllSendable(c, msgs[1..]) && msgs == [msgs[0]] + msgs[1..]
    ensures |Frames(c, msgs)| == |EncodeFrame(c, msgs[0])| + |Frames(c, msgs[1..])|
  {
    hide Sendable, EncodeFrame;
    assert msgs[0] in msgs && forall m :: m in msgs[1..] ==> m in msgs;
  }

  /**
   * A stream cut anywhere: every message complete before the cut, then a clean end exactly when the
   * cut falls between frames.
   */
  lemma {:induction false} CutStream<M>(c: Codec<M>, msgs: seq<M>, k: nat)
    requires AllSendable(c, msgs) && k <= |Frames(c, msgs)|
    ensures CutYields(c, msgs, k)
  {
    hide *;
    if msgs == [] {
      CutNone(c, k);
    } else {
      var m, more := msgs[0], msgs[1..];
      FramesSplit(c, msgs);
      if k < |EncodeFrame(c, m)| {
        CutInFirst(c, m, more, k);
      } else {
        CutStream(c, more, k - |EncodeFrame(c, m)|);
        CutLater(c, m, more, k - |EncodeFrame(c, m)|);
      }
    }
  }

  lemma FramesTake<M>(c: Codec<M>, msgs: seq<M>, n: nat)
    requires msgs != [] && n < |msgs|
    ensures Frames(c, msgs[..n + 1]) == EncodeFrame(c, msgs[0]) + Frames(c, msgs[1..][..n])
  {
    assert msgs[..n + 1][1..] == msgs[1..][..n];
  }

  function Concat(pieces: seq<seq<byte>>): seq<byte> {
    if pieces == [] then [] else pieces[0] + Concat(pieces[1..])
  }

  lemma {:induction false} NonEmptyReadsDeliver(pieces: seq<seq<byte>>)
    requires forall r :: r in pieces ==> r != []
    ensures Deliver(pieces) == Concat(pieces)
  {
    if pieces != [] {
      assert pieces[0] in pieces && forall r :: r in pieces[1..] ==> r in pieces;
      NonEmptyReadsDeliver(pieces[1..]);
    }
  }

  /** However the network splits the frames into pieces, the reader loop returns exactly the messages sent. */
  method ReceiveAll<M(==)>(c: Codec<M>, pieces: seq<seq<byte>>, ghost sent: seq<M>)
    returns (msgs: seq<M>, end: Outcome<M>)
    requires AllSendable(c, sent) && Concat(pieces) == Frames(c, sent) && forall r :: r in pieces ==> r != []
    ensures msgs == sent && end == Closed
  {
    var reader := new MessageReader(c, pieces);
    NonEmptyReadsDeliver(pieces);
    StreamReassembly(c, sent);
    assert reader.Pending() == Frames(c, sent);
    msgs, end := reader.ReadAll();
  }
}
