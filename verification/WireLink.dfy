/**
 * The link on bytes: frames written into streams that arrive in any pieces, or are cut off within a
 * frame when a task fails. It refines the link on messages of module Protocol.
 */
module WireLink {
  import opened Wrappers
  import opened Text
  import opened Messages
  import opened Host
  import opened Protocol
  import opened Wire

  type MessageCodec = Wire.Codec<StructureMessage>

  /** The link without its two queues of messages, and for each direction the bytes under way and those read. */
  datatype ByteLink = ByteLink(
    base: Link,
    up: seq<byte>, hostBuf: seq<byte>,       // compositor to host
    down: seq<byte>, clientBuf: seq<byte>)   // host to compositor

  datatype ByteAction =
    | Local(act: Action)                // a step that touches neither stream
    | Write | WriteFails(cut: nat)      // the writer writes a frame, or fails within it
    | HostReads(n: nat) | Handle | HandleFails(cut: nat)
    | ClientReads(n: nat) | Take

  predicate TouchesNoStream(act: Action) {
    act.Enqueue? || act.CallSuspend? || act.SuspendOk? || act.SuspendTimeout? || act.HostStop? || act.CaptureTake?
    || act.ReaderStop?
  }

  function StartBytes(c: MessageCodec, a: SurfaceAnnounce, resume: Option<string>): ByteLink {
    var s := Start(a, resume);
    ByteLink(s.(toHost := [], toClient := []), Frames(c, s.toHost), [], [], [])
  }

  /** What a step makes of the link; None when it is not enabled. */
  function ByteStep(c: MessageCodec, w: ByteLink, act: ByteAction): Option<ByteLink> {
    match act
    case Local(a) => if TouchesNoStream(a) then var t :- Step(w.base, a); Some(w.(base := t)) else None
    case Write =>
      var t :- Step(w.base, WriterSend);
      Some(w.(base := t.(toHost := []), up := w.up + EncodeFrame(c, w.base.control[0])))
    case WriteFails(cut) =>
      var t :- Step(w.base, WriterFail);
      var frame := EncodeFrame(c, w.base.control[0]);
      if cut < |frame| then Some(w.(base := t, up := w.up + frame[..cut])) else None
    case HostReads(n) => if n <= |w.up| then Some(w.(hostBuf := w.hostBuf + w.up[..n], up := w.up[n..])) else None
    case Handle =>
      var next := DecodeFrame(c, w.hostBuf);
      if next.Err? then None
      else
        var t :- Step(w.base.(toHost := [next.value.0]), HostHandle);
        Some(w.(base := t.(toClient := []), hostBuf := w.hostBuf[next.value.1..],
                down := w.down + Frames(c, t.toClient)))
    case HandleFails(cut) =>
      var next := DecodeFrame(c, w.hostBuf);
      if next.Err? then None
      else
        var t :- Step(w.base.(toHost := [next.value.0]), HostFail);
        var reply := Frames(c, ReplyTo(w.base.announce, next.value.0));
        if cut < |reply| || cut == 0
        then Some(w.(base := t, hostBuf := w.hostBuf[next.value.1..], down := w.down + reply[..cut])) else None
    case ClientReads(n) =>
      if n <= |w.down| then Some(w.(clientBuf := w.clientBuf + w.down[..n], down := w.down[n..])) else None
    case Take =>
      var next := DecodeFrame(c, w.clientBuf);
      if next.Err? then None
      else
        var t :- Step(w.base.(toClient := [next.value.0]), ReaderTake);
        Some(w.(base := t, clientBuf := w.clientBuf[next.value.1..]))
  }

  function ByteRun(c: MessageCodec, w: ByteLink, acts: seq<ByteAction>): Option<ByteLink> {
    if acts == [] then Some(w)
    else var v :- ByteRun(c, w, acts[..|acts| - 1]); ByteStep(c, v, acts[|acts| - 1])
  }

  // ---- streams of frames ----

  /** What a stream holds once its writer is gone: a frame cut short, or nothing. */
  ghost predicate Stump(c: MessageCodec, tail: seq<byte>) {
    exists m, k: nat :: Sendable(c, m) && k < |EncodeFrame(c, m)| && tail == EncodeFrame(c, m)[..k]
  }

  /** The bytes of a stream are the frames of these messages, and a stump if nothing more will be written. */
  ghost predicate Holds(c: MessageCodec, bytes: seq<byte>, ms: seq<StructureMessage>, writing: bool) {
    AllSendable(c, ms)
    && exists tail :: bytes == Frames(c, ms) + tail && (tail == [] || (!writing && Stump(c, tail)))
  }

  lemma {:induction false} FramesAppend(c: MessageCodec, a: seq<StructureMessage>, b: seq<StructureMessage>)
    ensures Frames(c, a + b) == Frames(c, a) + Frames(c, b)
  {
    if a == [] {
      assert a + b == b;
    } else {
      assert (a + b)[0] == a[0] && (a + b)[1..] == a[1..] + b;
      FramesAppend(c, a[1..], b);
    }
  }

  lemma FramesOne(c: MessageCodec, m: StructureMessage)
    ensures Frames(c, [m]) == EncodeFrame(c, m)
  {
    assert [m][1..] == [];
  }

  lemma HoldsMore(c: MessageCodec, bytes: seq<byte>, ms: seq<StructureMessage>, more: seq<StructureMessage>,
                  writing: bool)
    requires Holds(c, bytes, ms, true) && AllSendable(c, more)
    ensures Holds(c, bytes + Frames(c, more), ms + more, writing)
  {
    hide Sendable, EncodeFrame;
    FramesAppend(c, ms, more);
    assert bytes == Frames(c, ms) by {
      var tail :| bytes == Frames(c, ms) + tail && tail == [];
    }
    assert bytes + Frames(c, more) == Frames(c, ms + more) + [];
  }

  lemma HoldsStump(c: MessageCodec, bytes: seq<byte>, ms: seq<StructureMessage>, m: StructureMessage, k: nat)
    requires Holds(c, bytes, ms, true) && Sendable(c, m) && k < |EncodeFrame(c, m)|
    ensures Holds(c, bytes + EncodeFrame(c, m)[..k], ms, false)
  {
    hide Sendable, EncodeFrame;
    assert bytes == Frames(c, ms) by {
      var tail :| bytes == Frames(c, ms) + tail && tail == [];
    }
    assert Stump(c, EncodeFrame(c, m)[..k]);
  }

  lemma HoldsClosed(c: MessageCodec, bytes: seq<byte>, ms: seq<StructureMessage>)
    requires Holds(c, bytes, ms, true)
    ensures Holds(c, bytes, ms, false)
  {
  }

  /** The first message to be decoded is the first of the stream, however much of it has arrived. */
  lemma HoldsNext(c: MessageCodec, read: seq<byte>, rest: seq<byte>, ms: seq<StructureMessage>, writing: bool)
    requires Holds(c, read + rest, ms, writing) && DecodeFrame(c, read).Ok?
    ensures ms != [] && DecodeFrame(c, read).value.0 == ms[0]
    ensures Holds(c, read[DecodeFrame(c, read).value.1..] + rest, ms[1..], writing)
  {
    var tail :| read + rest == Frames(c, ms) + tail && (tail == [] || (!writing && Stump(c, tail)));
    DecodeSettled(c, read, rest);
    hide DecodeFrame, Sendable, EncodeFrame, Stump;
    if ms == [] {
      assert read + rest == tail;
      NoFrame(c, tail);
    } else {
      var n := DecodeFrame(c, read).value.1;
      assert read[n..] + rest == (read + rest)[n..];
      assert ms[0] in ms && forall m :: m in ms[1..] ==> m in ms;
      Assoc3(EncodeFrame(c, ms[0]), Frames(c, ms[1..]), tail);
      FrameRoundTrip(c, ms[0], Frames(c, ms[1..]) + tail);
    }
  }

  lemma Assoc3(a: seq<byte>, b: seq<byte>, d: seq<byte>)
    ensures a + b + d == a + (b + d)
  {
  }

  lemma NoFrame(c: MessageCodec, tail: seq<byte>)
    requires tail == [] || Stump(c, tail)
    ensures DecodeFrame(c, tail).Err?
  {
    if tail != [] {
      var m, k: nat :| Sendable(c, m) && k < |EncodeFrame(c, m)| && tail == EncodeFrame(c, m)[..k];
      FramePrefix(c, m, k);
    }
  }

  // ---- the link on bytes is a link on messages ----

  /** The same link with the messages in its streams put back into queues. */
  ghost predicate Refines(c: MessageCodec, w: ByteLink, s: Link) {
    && s == w.base.(toHost := s.toHost, toClient := s.toClient) && w.base.toHost == [] && w.base.toClient == []
    && Holds(c, w.hostBuf + w.up, s.toHost, s.writerUp) && Holds(c, w.clientBuf + w.down, s.toClient, s.hostUp)
    && AllSendable(c, s.control)
  }

  /** The codec carries everything put on the link, and the host's answers. */
  ghost predicate Carries(c: MessageCodec, s: Link) {
    AllSendable(c, s.sent) && Sendable(c, SuspendAck) && Sendable(c, ReconnectOk(s.announce))
  }

  lemma LocalStep(c: MessageCodec, w: ByteLink, s: Link, act: Action, t: Link)
    requires Refines(c, w, s) && TouchesNoStream(act) && Step(w.base, act) == Some(t) && Carries(c, t)
    ensures var u := t.(toHost := s.toHost, toClient := s.toClient);
            Step(s, act) == Some(u) && Refines(c, w.(base := t), u)
  {
    LocalKeeps(w.base, act, t);
    LocalAlone(w.base, act, t, s.toHost, s.toClient);
    assert forall m :: m in t.control ==> m in s.control || m in t.sent;
    hide Sendable, EncodeFrame, Frames, Step;
    if s.hostUp && !t.hostUp {
      HoldsClosed(c, w.clientBuf + w.down, s.toClient);
    }
  }

  lemma LocalKeeps(s: Link, act: Action, t: Link)
    requires TouchesNoStream(act) && Step(s, act) == Some(t)
    ensures t.toHost == s.toHost && t.toClient == s.toClient && t.writerUp == s.writerUp && (t.hostUp ==> s.hostUp)
    ensures forall m :: m in t.control ==> m in s.control || m in t.sent
  {
  }

  lemma LocalAlone(s: Link, act: Action, t: Link, toHost: seq<StructureMessage>, toClient: seq<StructureMessage>)
    requires TouchesNoStream(act) && Step(s, act) == Some(t)
    ensures Step(s.(toHost := toHost, toClient := toClient), act) == Some(t.(toHost := toHost, toClient := toClient))
  {
  }

  lemma WriteStep(c: MessageCodec, w: ByteLink, s: Link, v: ByteLink)
    requires Refines(c, w, s) && ByteStep(c, w, Write) == Some(v)
    ensures var u := v.base.(toHost := s.toHost + [s.control[0]], toClient := s.toClient);
            s.control != [] && Step(s, WriterSend) == Some(u) && Refines(c, v, u)
  {
    var m := s.control[0];
    assert m in s.control && forall x :: x in s.control[1..] ==> x in s.control;
    FramesOne(c, m);
    assert w.hostBuf + (w.up + EncodeFrame(c, m)) == (w.hostBuf + w.up) + EncodeFrame(c, m);
    hide Sendable, EncodeFrame, Frames, Holds;
    HoldsMore(c, w.hostBuf + w.up, s.toHost, [m], m != Disconnect);
  }

  lemma WriteFailStep(c: MessageCodec, w: ByteLink, s: Link, cut: nat, v: ByteLink)
    requires Refines(c, w, s) && ByteStep(c, w, WriteFails(cut)) == Some(v)
    ensures var u := v.base.(toHost := s.toHost, toClient := s.toClient);
            Step(s, WriterFail) == Some(u) && Refines(c, v, u)
  {
    var m := s.control[0];
    assert m in s.control && forall x :: x in s.control[1..] ==> x in s.control;
    assert w.hostBuf + (w.up + EncodeFrame(c, m)[..cut]) == (w.hostBuf + w.up) + EncodeFrame(c, m)[..cut];
    hide Sendable, EncodeFrame, Frames, Holds;
    HoldsStump(c, w.hostBuf + w.up, s.toHost, m, cut);
  }

  lemma ReadSteps(c: MessageCodec, w: ByteLink, s: Link, n: nat)
    requires Refines(c, w, s)
    ensures n <= |w.up| ==> Refines(c, w.(hostBuf := w.hostBuf + w.up[..n], up := w.up[n..]), s)
    ensures n <= |w.down| ==> Refines(c, w.(clientBuf := w.clientBuf + w.down[..n], down := w.down[n..]), s)
  {
    hide Sendable, Holds;
    if n <= |w.up| {
      assert w.hostBuf + w.up[..n] + w.up[n..] == w.hostBuf + w.up;
    }
    if n <= |w.down| {
      assert w.clientBuf + w.down[..n] + w.down[n..] == w.clientBuf + w.down;
    }
  }

  /** Handling a message at the head of the queue is handling it alone. */
  lemma HandledAlone(s: Link, m: StructureMessage, t: Link)
    requires s.toHost != [] && s.toHost[0] == m
    requires Step(s.(toHost := [m], toClient := []), HostHandle) == Some(t)
    ensures Step(s, HostHandle) == Some(t.(toHost := s.toHost[1..], toClient := s.toClient + t.toClient))
    ensures t.toHost == [] && t.toClient == ReplyTo(s.announce, m) && s.hostUp && t.control == s.control
    ensures t.announce == s.announce
  {
    assert [m][1..] == [] && [] + ReplyTo(s.announce, m) == ReplyTo(s.announce, m);
    hide CanHandle, InputOf;
  }

  lemma ReplySendable(c: MessageCodec, a: SurfaceAnnounce, m: StructureMessage)
    requires Sendable(c, SuspendAck) && Sendable(c, ReconnectOk(a))
    ensures AllSendable(c, ReplyTo(a, m)) && |ReplyTo(a, m)| <= 1
  {
  }

  /** Handling leaves the writer alone. */
  lemma HandledKeeps(s: Link, m: StructureMessage, t: Link)
    requires Step(s.(toHost := [m], toClient := []), HostHandle) == Some(t)
    ensures t.writerUp == s.writerUp && t.control == s.control && t.sent == s.sent
  {
    hide CanHandle, InputOf, ReplyTo;
  }

  lemma HandleRefines(c: MessageCodec, w: ByteLink, s: Link, rest: seq<byte>, t: Link, v: ByteLink)
    requires Refines(c, w, s) && s.toHost != [] && Holds(c, rest + w.up, s.toHost[1..], s.writerUp)
    requires Step(s.(toHost := [s.toHost[0]], toClient := []), HostHandle) == Some(t)
    requires Holds(c, w.clientBuf + (w.down + Frames(c, t.toClient)), s.toClient + t.toClient, t.hostUp)
    requires v == w.(base := t.(toClient := []), hostBuf := rest, down := w.down + Frames(c, t.toClient))
    ensures var u := v.base.(toHost := s.toHost[1..], toClient := s.toClient + ReplyTo(s.announce, s.toHost[0]));
            Step(s, HostHandle) == Some(u) && Refines(c, v, u)
  {
    hide Holds, Step, ReplyTo, Frames, AllSendable;
    HandledAlone(s, s.toHost[0], t);
    HandledKeeps(s, s.toHost[0], t);
  }

  lemma ReplyHolds(c: MessageCodec, bytes: seq<byte>, down: seq<byte>, ms: seq<StructureMessage>,
                   reply: seq<StructureMessage>, up: bool)
    requires Holds(c, bytes + down, ms, true) && AllSendable(c, reply)
    ensures Holds(c, bytes + (down + Frames(c, reply)), ms + reply, up)
  {
    hide Holds, Frames, Sendable;
    HoldsMore(c, bytes + down, ms, reply, up);
    assert bytes + (down + Frames(c, reply)) == (bytes + down) + Frames(c, reply);
  }

  lemma HandleStep(c: MessageCodec, w: ByteLink, s: Link, v: ByteLink)
    requires Refines(c, w, s) && ByteStep(c, w, Handle) == Some(v) && Carries(c, s)
    ensures s.toHost != []
    ensures var u := v.base.(toHost := s.toHost[1..], toClient := s.toClient + ReplyTo(s.announce, s.toHost[0]));
            Step(s, HostHandle) == Some(u) && Refines(c, v, u)
  {
    var next := DecodeFrame(c, w.hostBuf).value;
    var t := Step(w.base.(toHost := [next.0]), HostHandle).value;
    HoldsNext(c, w.hostBuf, w.up, s.toHost, s.writerUp);
    assert w.base.(toHost := [s.toHost[0]]) == s.(toHost := [s.toHost[0]], toClient := []);
    hide Sendable, DecodeFrame, Frames, Holds, Step, ReplyTo, EncodeFrame;
    HandledAlone(s, s.toHost[0], t);
    ReplySendable(c, s.announce, s.toHost[0]);
    assert s.hostUp;
    ReplyHolds(c, w.clientBuf, w.down, s.toClient, t.toClient, t.hostUp);
    HandleRefines(c, w, s, w.hostBuf[next.1..], t, v);
  }

  /** Failing over the head of the queue, with the answer written in part or not at all. */
  lemma FailedAlone(s: Link, m: StructureMessage, t: Link)
    requires s.toHost != [] && s.toHost[0] == m && Step(s.(toHost := [m], toClient := []), HostFail) == Some(t)
    ensures Step(s, HostFail) == Some(t.(toHost := s.toHost[1..], toClient := s.toClient))
    ensures t.toHost == [] && t.toClient == [] && s.hostUp && !t.hostUp
    ensures t.writerUp == s.writerUp && t.control == s.control && t.sent == s.sent && t.announce == s.announce
  {
    assert [m][1..] == [];
    hide InputOf, ReplyTo;
  }

  lemma StumpHolds(c: MessageCodec, bytes: seq<byte>, down: seq<byte>, ms: seq<StructureMessage>,
                   reply: seq<StructureMessage>, cut: nat)
    requires Holds(c, bytes + down, ms, true) && AllSendable(c, reply) && |reply| <= 1
    requires cut < |Frames(c, reply)| || cut == 0
    ensures Holds(c, bytes + (down + Frames(c, reply)[..cut]), ms, false)
  {
    hide Sendable, EncodeFrame;
    assert bytes + (down + Frames(c, reply)[..cut]) == (bytes + down) + Frames(c, reply)[..cut];
    if reply == [] || cut == 0 {
      assert (bytes + down) + Frames(c, reply)[..cut] == bytes + down;
      HoldsClosed(c, bytes + down, ms);
    } else {
      assert reply == [reply[0]] && reply[0] in reply;
      FramesOne(c, reply[0]);
      HoldsStump(c, bytes + down, ms, reply[0], cut);
    }
  }

  lemma HandleFailStep(c: MessageCodec, w: ByteLink, s: Link, cut: nat, v: ByteLink)
    requires Refines(c, w, s) && ByteStep(c, w, HandleFails(cut)) == Some(v) && Carries(c, s)
    ensures s.toHost != []
    ensures var u := v.base.(toHost := s.toHost[1..], toClient := s.toClient);
            Step(s, HostFail) == Some(u) && Refines(c, v, u)
  {
    var next := DecodeFrame(c, w.hostBuf).value;
    var t := Step(w.base.(toHost := [next.0]), HostFail).value;
    HoldsNext(c, w.hostBuf, w.up, s.toHost, s.writerUp);
    var m := s.toHost[0];
    assert w.base.(toHost := [m]) == s.(toHost := [m], toClient := []);
    hide Sendable, DecodeFrame, Frames, Holds, Step, ReplyTo, EncodeFrame;
    FailedAlone(s, m, t);
    ReplySendable(c, s.announce, m);
    assert s.hostUp;
    StumpHolds(c, w.clientBuf, w.down, s.toClient, ReplyTo(s.announce, m), cut);
  }

  lemma TakenAlone(s: Link, m: StructureMessage, t: Link)
    requires s.toClient != [] && s.toClient[0] == m && Step(s.(toHost := [], toClient := [m]), ReaderTake) == Some(t)
    ensures Step(s, ReaderTake) == Some(t.(toHost := s.toHost, toClient := s.toClient[1..]))
    ensures t.toHost == [] && t.toClient == [] && t.hostUp == s.hostUp && t.writerUp == s.writerUp
    ensures t.control == s.control && t.sent == s.sent && t.announce == s.announce
  {
    assert [m][1..] == [];
  }

  lemma TakeStep(c: MessageCodec, w: ByteLink, s: Link, v: ByteLink)
    requires Refines(c, w, s) && ByteStep(c, w, Take) == Some(v)
    ensures s.toClient != []
    ensures var u := v.base.(toHost := s.toHost, toClient := s.toClient[1..]);
            Step(s, ReaderTake) == Some(u) && Refines(c, v, u)
  {
    var next := DecodeFrame(c, w.clientBuf).value;
    var t := Step(w.base.(toClient := [next.0]), ReaderTake).value;
    HoldsNext(c, w.clientBuf, w.down, s.toClient, s.hostUp);
    var m := s.toClient[0];
    assert w.base.(toClient := [m]) == s.(toHost := [], toClient := [m]);
    hide Sendable, DecodeFrame, Frames, Holds, Step, EncodeFrame;
    TakenAlone(s, m, t);
  }

  // ---- every run ----

  /** Each step of the link on bytes is a step of the link on messages, or none. */
  lemma Simulates(c: MessageCodec, w: ByteLink, s: Link, act: ByteAction, v: ByteLink) returns (u: Link)
    requires Refines(c, w, s) && ByteStep(c, w, act) == Some(v) && Carries(c, s) && Carries(c, v.base)
    ensures Refines(c, v, u) && (u == s || exists a :: Step(s, a) == Some(u))
  {
    hide Refines, Carries, Step, DecodeFrame, Frames, EncodeFrame, ReplyTo;
    match act {
      case Local(a) =>
        u := v.base.(toHost := s.toHost, toClient := s.toClient);
        LocalStep(c, w, s, a, v.base);
      case Write =>
        WriteStep(c, w, s, v);
        u := v.base.(toHost := s.toHost + [s.control[0]], toClient := s.toClient);
      case WriteFails(cut) =>
        u := v.base.(toHost := s.toHost, toClient := s.toClient);
        WriteFailStep(c, w, s, cut, v);
      case HostReads(n) =>
        u := s;
        ReadSteps(c, w, s, n);
      case Handle =>
        HandleStep(c, w, s, v);
        u := v.base.(toHost := s.toHost[1..], toClient := s.toClient + ReplyTo(s.announce, s.toHost[0]));
      case HandleFails(cut) =>
        HandleFailStep(c, w, s, cut, v);
        u := v.base.(toHost := s.toHost[1..], toClient := s.toClient);
      case ClientReads(n) =>
        u := s;
        ReadSteps(c, w, s, n);
      case Take =>
        TakeStep(c, w, s, v);
        u := v.base.(toHost := s.toHost, toClient := s.toClient[1..]);
    }
  }

  lemma StartRefines(c: MessageCodec, a: SurfaceAnnounce, resume: Option<string>)
    requires Carries(c, Start(a, resume))
    ensures Refines(c, StartBytes(c, a, resume), Start(a, resume))
  {
    var s := Start(a, resume);
    var bytes := Frames(c, s.toHost);
    assert Frames(c, []) == [];
    hide Sendable, Frames;
    assert [] + bytes == bytes == bytes + [];
    assert Holds(c, [] + bytes, s.toHost, true);
    var none: seq<byte> := [];
    assert none == Frames(c, []) + [] && none + none == none;
    assert Holds(c, none, [], true);
  }

  lemma StepGrows(s: Link, act: Action, t: Link)
    requires Step(s, act) == Some(t)
    ensures t.announce == s.announce && s.sent <= t.sent
  {
    hide CanHandle, InputOf, ReplyTo;
  }

  lemma ByteStepGrows(c: MessageCodec, w: ByteLink, act: ByteAction, v: ByteLink)
    requires ByteStep(c, w, act) == Some(v)
    ensures v.base.announce == w.base.announce && w.base.sent <= v.base.sent
  {
    hide Step, DecodeFrame, Frames, EncodeFrame, ReplyTo;
    match act {
      case Local(a) => StepGrows(w.base, a, v.base);
      case Write => StepGrows(w.base, WriterSend, Step(w.base, WriterSend).value);
      case WriteFails(cut) => StepGrows(w.base, WriterFail, v.base);
      case Handle =>
        var m := DecodeFrame(c, w.hostBuf).value.0;
        StepGrows(w.base.(toHost := [m]), HostHandle, Step(w.base.(toHost := [m]), HostHandle).value);
      case HandleFails(cut) =>
        var m := DecodeFrame(c, w.hostBuf).value.0;
        StepGrows(w.base.(toHost := [m]), HostFail, v.base);
      case Take =>
        var m := DecodeFrame(c, w.clientBuf).value.0;
        StepGrows(w.base.(toClient := [m]), ReaderTake, v.base);
      case _ =>
    }
  }

  lemma Grows(c: MessageCodec, w: ByteLink, act: ByteAction, v: ByteLink)
    requires ByteStep(c, w, act) == Some(v) && Carries(c, v.base)
    ensures Carries(c, w.base)
  {
    ByteStepGrows(c, w, act, v);
    assert forall m :: m in w.base.sent ==> m in v.base.sent;
    hide Sendable, ByteStep;
  }

  /**
   * Refinement: every run of the link on bytes, whatever the pieces its streams arrive in and wherever
   * a failing task cuts them, ends in a state of the link on messages that some run of it reaches.
   */
  lemma {:induction false} ByteRunsRefine(c: MessageCodec, a: SurfaceAnnounce, resume: Option<string>,
                                          acts: seq<ByteAction>, w: ByteLink) returns (s: Link)
    requires ByteRun(c, StartBytes(c, a, resume), acts) == Some(w) && Carries(c, w.base)
    ensures Refines(c, w, s) && Reachable(s) && s.announce == a
    decreases |acts|
  {
    hide Refines, Carries, ByteStep, Reachable, Step;
    if acts == [] {
      s := Start(a, resume);
      StartCarries(c, a, resume);
      StartRefines(c, a, resume);
      StartReachable(a, resume);
    } else {
      var n := |acts| - 1;
      var v := ByteRun(c, StartBytes(c, a, resume), acts[..n]).value;
      Grows(c, v, acts[n], w);
      var q := ByteRunsRefine(c, a, resume, acts[..n], v);
      RefinedCarries(c, v, q);
      s := Simulates(c, v, q, acts[n], w);
      if s != q {
        var b :| Step(q, b) == Some(s);
        ReachStep(q, b, s);
        StepGrows(q, b, s);
      }
    }
  }

  lemma StartCarries(c: MessageCodec, a: SurfaceAnnounce, resume: Option<string>)
    requires Carries(c, StartBytes(c, a, resume).base)
    ensures Carries(c, Start(a, resume))
  {
  }

  lemma StartReachable(a: SurfaceAnnounce, resume: Option<string>)
    ensures Reachable(Start(a, resume)) && Start(a, resume).announce == a
  {
    assert Run(Start(a, resume), []) == Some(Start(a, resume));
  }

  lemma RefinedCarries(c: MessageCodec, w: ByteLink, s: Link)
    requires Refines(c, w, s) && Carries(c, w.base)
    ensures Carries(c, s)
  {
  }

  /** So what the link on messages guarantees of a suspend holds on bytes. */
  lemma ByteSuspendOrdering(c: MessageCodec, a: SurfaceAnnounce, resume: Option<string>, acts: seq<ByteAction>,
                            w: ByteLink, i: nat)
    requires ByteRun(c, StartBytes(c, a, resume), acts) == Some(w) && Carries(c, w.base)
    requires var s := w.base; i < |s.sent| && s.sent[i] == Suspend && Count(Suspend, s.sent[..i + 1]) <= s.acksRead
    ensures i < |w.base.processed| && InputsFor(a.id, w.base.sent[..i]) <= w.base.delivered
  {
    var s := ByteRunsRefine(c, a, resume, acts, w);
    RefinesFields(c, w, s);
    hide Refines, Count, InputsFor, Reachable;
    SuspendOrdering(s, i);
  }

  lemma RefinesFields(c: MessageCodec, w: ByteLink, s: Link)
    requires Refines(c, w, s)
    ensures s.sent == w.base.sent && s.processed == w.base.processed && s.delivered == w.base.delivered
    ensures s.acksRead == w.base.acksRead && s.announce == w.base.announce
  {
  }
}
