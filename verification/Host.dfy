/** The host's control loop: what it answers, and what it hands to the capture backend. */
module Host {
  import opened Messages
  import opened Session

  /** The reply to one message, if it has one. */
  function ReplyTo(a: SurfaceAnnounce, m: StructureMessage): seq<StructureMessage> {
    match m
    case Suspend => [SuspendAck]
    case Reconnect(_) => [ReconnectOk(a)]
    case _ => []
  }

  /** The event a message routes to this surface's backend, if any. */
  function InputOf(id: SurfaceId, m: StructureMessage): seq<InputEvent> {
    if m.Input? && m.surfaceId == id then [m.event] else []
  }

  function Replies(a: SurfaceAnnounce, ms: seq<StructureMessage>): seq<StructureMessage> {
    if ms == [] then [] else Replies(a, ms[..|ms| - 1]) + ReplyTo(a, ms[|ms| - 1])
  }

  function InputsFor(id: SurfaceId, ms: seq<StructureMessage>): seq<InputEvent> {
    if ms == [] then [] else InputsFor(id, ms[..|ms| - 1]) + InputOf(id, ms[|ms| - 1])
  }

  lemma Extend(a: SurfaceAnnounce, ms: seq<StructureMessage>, m: StructureMessage)
    ensures Replies(a, ms + [m]) == Replies(a, ms) + ReplyTo(a, m)
    ensures InputsFor(a.id, ms + [m]) == InputsFor(a.id, ms) + InputOf(a.id, m)
  {
  }

  predicate IsAnswered(m: StructureMessage) { m.Suspend? || m.Reconnect? }

  /** The messages that call for an answer, in order. */
  function Answerable(ms: seq<StructureMessage>): seq<StructureMessage> {
    if ms == [] then []
    else Answerable(ms[..|ms| - 1]) + (if IsAnswered(ms[|ms| - 1]) then [ms[|ms| - 1]] else [])
  }

  /** One answer to each message that calls for one, in order: an ack to a Suspend, the announce to a Reconnect. */
  ghost predicate AnswersInOrder(a: SurfaceAnnounce, asked: seq<StructureMessage>, answers: seq<StructureMessage>) {
    && |answers| == |asked|
    && forall k :: 0 <= k < |asked| ==> answers[k] == if asked[k].Suspend? then SuspendAck else ReconnectOk(a)
  }

  lemma {:induction false} RepliesInOrder(a: SurfaceAnnounce, ms: seq<StructureMessage>)
    ensures AnswersInOrder(a, Answerable(ms), Replies(a, ms))
  {
    if ms != [] {
      RepliesInOrder(a, ms[..|ms| - 1]);
    }
  }

  /** What handling the next message adds to the two outputs, case by case. */
  lemma ExtendOut(a: SurfaceAnnounce, inbox: seq<StructureMessage>, n: nat, out: seq<StructureMessage>)
    requires n < |inbox| && out == [Announce(a)] + Replies(a, inbox[..n])
    ensures var more := [Announce(a)] + Replies(a, inbox[..n + 1]);
            match inbox[n]
            case Suspend => more == out + [SuspendAck]
            case Reconnect(_) => more == out + [ReconnectOk(a)]
            case _ => more == out
    ensures InputsFor(a.id, inbox[..n + 1]) == InputsFor(a.id, inbox[..n]) + InputOf(a.id, inbox[n])
    ensures InputOf(a.id, inbox[n]) == [] ==> InputsFor(a.id, inbox[..n + 1]) == InputsFor(a.id, inbox[..n])
  {
    hide Replies, InputsFor, InputOf;
    var ms, m := inbox[..n], inbox[n];
    assert inbox[..n + 1] == ms + [m];
    Extend(a, ms, m);
    assert [Announce(a)] + (Replies(a, ms) + ReplyTo(a, m)) == [Announce(a)] + Replies(a, ms) + ReplyTo(a, m);
    assert Replies(a, ms) + [] == Replies(a, ms);
    assert InputsFor(a.id, ms) + [] == InputsFor(a.id, ms);
  }

  lemma {:induction false} InputsPrefix(id: SurfaceId, ms: seq<StructureMessage>, i: nat)
    requires i <= |ms|
    ensures InputsFor(id, ms[..i]) <= InputsFor(id, ms)
  {
    if i < |ms| {
      InputsPrefix(id, ms[..|ms| - 1], i);
      assert ms[..|ms| - 1][..i] == ms[..i];
    } else {
      assert ms[..i] == ms;
    }
  }

  /** Why the control loop stopped after handling `n` messages of its inbox. */
  predicate StoppedAt(a: SurfaceAnnounce, inbox: seq<StructureMessage>, n: nat, accepts: nat, writes: nat)
    requires n <= |inbox|
  {
    || (n > 0 && inbox[n - 1].Disconnect?)
    || n == |inbox|
    || (InputOf(a.id, inbox[n]) != [] && |InputsFor(a.id, inbox[..n])| == accepts)
    || (ReplyTo(a, inbox[n]) != [] && |Replies(a, inbox[..n])| == writes)
  }

  lemma Stopped(a: SurfaceAnnounce, inbox: seq<StructureMessage>, n: nat, accepts: nat, writes: nat)
    requires n <= |inbox|
    ensures n == |inbox| ==> StoppedAt(a, inbox, n, accepts, writes)
    ensures n > 0 && inbox[n - 1].Disconnect? ==> StoppedAt(a, inbox, n, accepts, writes)
    ensures n < |inbox| && inbox[n].Input? && inbox[n].surfaceId == a.id && |InputsFor(a.id, inbox[..n])| == accepts
            ==> StoppedAt(a, inbox, n, accepts, writes)
    ensures n < |inbox| && (inbox[n].Suspend? || inbox[n].Reconnect?) && |Replies(a, inbox[..n])| == writes
            ==> StoppedAt(a, inbox, n, accepts, writes)
  {
  }

  /**
   * One connection: announce, then handle messages until the stream ends, a Disconnect arrives, the
   * backend is gone (after `accepts` events) or the stream no longer takes replies (after `writes`).
   */
  method ServeConnection(a: SurfaceAnnounce, inbox: seq<StructureMessage>, accepts: nat, writes: nat)
      returns (out: seq<StructureMessage>, delivered: seq<InputEvent>, handled: nat)
    ensures handled <= |inbox|
    ensures out == [Announce(a)] + Replies(a, inbox[..handled])
    ensures delivered == InputsFor(a.id, inbox[..handled])
    ensures |delivered| <= accepts && |out| - 1 <= writes
    ensures forall i :: 0 <= i < handled - 1 ==> !inbox[i].Disconnect?
    ensures StoppedAt(a, inbox, handled, accepts, writes)
  {
    out, delivered, handled := [Announce(a)], [], 0;
    assert inbox[..0] == [];
    assert Replies(a, []) == [] && InputsFor(a.id, []) == [] && out + [] == out;
    hide Replies, InputsFor, StoppedAt, ReplyTo;
    while handled < |inbox|
      invariant handled <= |inbox|
      invariant out == [Announce(a)] + Replies(a, inbox[..handled]) && |out| - 1 <= writes
      invariant delivered == InputsFor(a.id, inbox[..handled]) && |delivered| <= accepts
      invariant forall i :: 0 <= i < handled ==> !inbox[i].Disconnect?
    {
      ExtendOut(a, inbox, handled, out);
      Stopped(a, inbox, handled, accepts, writes);
      match inbox[handled]
      case Input(sid, event) =>
        if sid == a.id {
          if |delivered| == accepts { return; }
          delivered := delivered + [event];
        }
        handled := handled + 1;
      case Suspend =>
        if |out| - 1 == writes { return; }
        out := out + [SuspendAck];
        handled := handled + 1;
      case Reconnect(_) =>
        if |out| - 1 == writes { return; }
        out := out + [ReconnectOk(a)];
        handled := handled + 1;
      case Disconnect =>
        handled := handled + 1;
        Stopped(a, inbox, handled, accepts, writes);
        return;
      case _ =>
        handled := handled + 1;
    }
    Stopped(a, inbox, handled, accepts, writes);
  }
}
