/**
 * One host/compositor link as a transition system: the control queue, the writer, the structure
 * stream in both directions, the host loop, the reader and the one-place ack channel, under every
 * interleaving and with every task free to fail.
 */
module Protocol {
  import opened Wrappers
  import opened Text
  import opened Messages
  import opened Host

  const CONTROL_CAPACITY := 64
  const CAPTURE_CAPACITY := 64

  datatype Link = Link(
    announce: SurfaceAnnounce,
    // compositor to host
    sent: seq<StructureMessage>,        // history: everything put on the link, in order
    control: seq<StructureMessage>,     // queued, not yet written
    writerUp: bool,
    toHost: seq<StructureMessage>,      // written, not yet read
    lost: seq<StructureMessage>,        // taken by the writer when its write failed
    // the host
    hostUp: bool,
    processed: seq<StructureMessage>,   // history: handled by the control loop
    refused: seq<StructureMessage>,     // read by the control loop when it could not go on
    capture: seq<InputEvent>,           // in the capture channel
    delivered: seq<InputEvent>,         // history: handed to the capture channel
    // host to compositor
    hostSent: seq<StructureMessage>,    // history
    toClient: seq<StructureMessage>,
    absorbed: seq<StructureMessage>,    // history: read by the compositor
    readerUp: bool,
    acks: nat,                          // in the ack channel
    dropped: nat,                       // acks that found the channel full
    waiting: nat,                       // calls of `suspend` in progress
    acksRead: nat)                      // calls of `suspend` that returned true

  datatype Action =
    | Enqueue(msg: StructureMessage)  // `send_input`, or any other message but Suspend
    | CallSuspend | SuspendOk | SuspendTimeout
    | WriterSend | WriterFail
    | HostHandle | HostFail | HostStop | CaptureTake
    | ReaderTake | ReaderStop

  /** The link when `connect` returns: announced, and on resume with a Reconnect already written. */
  function Start(a: SurfaceAnnounce, resume: Option<string>): Link {
    var first := if resume.Some? then [Reconnect(resume.value)] else [];
    Link(a, first, [], true, first, [], true, [], [], [], [], [Announce(a)], [], [Announce(a)], true, 0, 0, 0, 0)
  }

  function Queue(s: Link, m: StructureMessage): Option<Link> {
    if s.writerUp && |s.control| < CONTROL_CAPACITY
    then Some(s.(sent := s.sent + [m], control := s.control + [m]))
    else None
  }

  /** Whether the host loop can finish handling this message now. */
  predicate CanHandle(s: Link, m: StructureMessage) {
    InputOf(s.announce.id, m) != [] ==> |s.capture| < CAPTURE_CAPACITY
  }

  /** What a step makes of a link; None when the step is not enabled. */
  function Step(s: Link, act: Action): Option<Link> {
    match act
    case Enqueue(m) => if m == Suspend then None else Queue(s, m)
    case CallSuspend => var t :- Queue(s, Suspend); Some(t.(waiting := t.waiting + 1))
    case SuspendOk =>
      if s.waiting > 0 && s.acks > 0
      then Some(s.(waiting := s.waiting - 1, acks := s.acks - 1, acksRead := s.acksRead + 1)) else None
    case SuspendTimeout => if s.waiting > 0 then Some(s.(waiting := s.waiting - 1)) else None
    case WriterSend =>
      if s.writerUp && s.control != []
      then Some(s.(control := s.control[1..], toHost := s.toHost + [s.control[0]],
                   writerUp := s.control[0] != Disconnect))
      else None
    case WriterFail =>
      if s.writerUp && s.control != []
      then Some(s.(control := s.control[1..], lost := s.lost + [s.control[0]], writerUp := false)) else None
    case HostHandle =>
      if s.hostUp && s.toHost != [] && CanHandle(s, s.toHost[0]) then
        var m := s.toHost[0];
        var event, reply := InputOf(s.announce.id, m), ReplyTo(s.announce, m);
        Some(s.(toHost := s.toHost[1..], processed := s.processed + [m],
                capture := s.capture + event, delivered := s.delivered + event,
                hostSent := s.hostSent + reply, toClient := s.toClient + reply,
                hostUp := m != Disconnect))
      else None
    case HostFail =>
      if s.hostUp && s.toHost != []
         && (InputOf(s.announce.id, s.toHost[0]) != [] || ReplyTo(s.announce, s.toHost[0]) != [])
      then Some(s.(toHost := s.toHost[1..], refused := s.refused + [s.toHost[0]], hostUp := false)) else None
    case HostStop => if s.hostUp then Some(s.(hostUp := false)) else None
    case CaptureTake => if s.capture != [] then Some(s.(capture := s.capture[1..])) else None
    case ReaderTake =>
      if s.readerUp && s.toClient != [] then
        var m := s.toClient[0];
        var t := s.(toClient := s.toClient[1..], absorbed := s.absorbed + [m]);
        Some(if m != SuspendAck then t else if t.acks == 0 then t.(acks := 1) else t.(dropped := t.dropped + 1))
      else None
    case ReaderStop => if s.readerUp then Some(s.(readerUp := false)) else None
  }

  function Run(s: Link, acts: seq<Action>): Option<Link> {
    if acts == [] then Some(s)
    else var t :- Run(s, acts[..|acts| - 1]); Step(t, acts[|acts| - 1])
  }

  /** Some run of the link ends here. */
  ghost predicate Reachable(s: Link) {
    exists resume, acts :: Run(Start(s.announce, resume), acts) == Some(s)
  }

  function Count(m: StructureMessage, ms: seq<StructureMessage>): nat { multiset(ms)[m] }

  // ---- the invariant ----

  ghost predicate Inv(s: Link) {
    // no message is duplicated, reordered or invented
    && s.sent == s.processed + s.refused + s.toHost + s.lost + s.control
    && (s.lost != [] ==> !s.writerUp) && (s.refused != [] ==> !s.hostUp)
    // the host's outputs are functions of what it processed
    && s.delivered == InputsFor(s.announce.id, s.processed)
    && s.hostSent == [Announce(s.announce)] + Replies(s.announce, s.processed)
    && s.hostSent == s.absorbed + s.toClient
    // every ack that arrived is buffered, dropped or read
    && Count(SuspendAck, s.absorbed) == s.acks + s.dropped + s.acksRead && s.acks <= 1
    // capacities
    && |s.control| <= CONTROL_CAPACITY && |s.capture| <= CAPTURE_CAPACITY
  }

  lemma StartInv(a: SurfaceAnnounce, resume: Option<string>)
    ensures Inv(Start(a, resume))
  {
  }

  lemma QueueInv(s: Link, m: StructureMessage)
    requires Inv(s) && Queue(s, m).Some?
    ensures Inv(Queue(s, m).value)
  {
  }

  lemma Shift<T>(a: seq<T>, b: seq<T>)
    requires b != []
    ensures a + [b[0]] + b[1..] == a + b
  {
  }

  lemma WriterInv(s: Link, t: Link)
    requires Inv(s) && (Step(s, WriterSend) == Some(t) || Step(s, WriterFail) == Some(t))
    ensures Inv(t)
  {
    hide Replies, InputsFor, Count;
    var p := s.processed + s.refused + s.toHost;
    assert s.lost == [];
    assert s.sent == p + s.control;
    Shift(p, s.control);
  }

  lemma MoveFirst<T>(done: seq<T>, none: seq<T>, todo: seq<T>, x: seq<T>, y: seq<T>)
    requires none == [] && todo != []
    ensures done + [todo[0]] + none + todo[1..] + x + y == done + none + todo + x + y
  {
  }

  lemma HostInv(s: Link, t: Link)
    requires Inv(s) && Step(s, HostHandle) == Some(t)
    ensures Inv(t)
  {
    hide Replies, InputsFor, ReplyTo, Count;
    var m := s.toHost[0];
    var reply := ReplyTo(s.announce, m);
    Extend(s.announce, s.processed, m);
    MoveFirst(s.processed, s.refused, s.toHost, s.lost, s.control);
    Assoc(s.absorbed, s.toClient, reply);
    Assoc([Announce(s.announce)], Replies(s.announce, s.processed), reply);
  }

  lemma HostFailInv(s: Link, t: Link)
    requires Inv(s) && Step(s, HostFail) == Some(t)
    ensures Inv(t)
  {
    hide Replies, InputsFor, Count;
  }

  lemma ReaderInv(s: Link, t: Link)
    requires Inv(s) && Step(s, ReaderTake) == Some(t)
    ensures Inv(t)
  {
    hide Replies, InputsFor, Count;
    Shift(s.absorbed, s.toClient);
    CountSnoc(SuspendAck, s.absorbed, s.toClient[0]);
  }

  lemma CountSnoc(x: StructureMessage, ms: seq<StructureMessage>, m: StructureMessage)
    ensures Count(x, ms + [m]) == Count(x, ms) + (if m == x then 1 else 0)
  {
  }

  lemma CountAppend(x: StructureMessage, a: seq<StructureMessage>, b: seq<StructureMessage>)
    ensures Count(x, a + b) == Count(x, a) + Count(x, b)
  {
  }

  /** Every step keeps the invariant. */
  lemma StepInv(s: Link, act: Action, t: Link)
    requires Inv(s) && Step(s, act) == Some(t)
    ensures Inv(t) && t.announce == s.announce
  {
    hide Replies, InputsFor, Count, ReplyTo, InputOf;
    match act
    case Enqueue(m) => QueueInv(s, m);
    case CallSuspend => QueueInv(s, Suspend);
    case WriterSend => WriterInv(s, t);
    case WriterFail => WriterInv(s, t);
    case HostHandle => HostInv(s, t);
    case HostFail => HostFailInv(s, t);
    case ReaderTake => ReaderInv(s, t);
    case _ =>
  }

  lemma {:induction false} RunInv(a: SurfaceAnnounce, resume: Option<string>, acts: seq<Action>)
    requires Run(Start(a, resume), acts).Some?
    ensures Inv(Run(Start(a, resume), acts).value) && Run(Start(a, resume), acts).value.announce == a
  {
    StartInv(a, resume);
    if acts != [] {
      RunInv(a, resume, acts[..|acts| - 1]);
      StepInv(Run(Start(a, resume), acts[..|acts| - 1]).value, acts[|acts| - 1], Run(Start(a, resume), acts).value);
    }
  }

  lemma ReachableInv(s: Link)
    requires Reachable(s)
    ensures Inv(s)
  {
    var resume, acts :| Run(Start(s.announce, resume), acts) == Some(s);
    RunInv(s.announce, resume, acts);
  }

  // ---- what holds of every run ----

  lemma {:induction false} RepliesCount(a: SurfaceAnnounce, ms: seq<StructureMessage>)
    ensures Count(SuspendAck, Replies(a, ms)) == Count(Suspend, ms)
  {
    hide Count, ReplyTo;
    if ms != [] {
      var n := |ms| - 1;
      RepliesCount(a, ms[..n]);
      assert ms == ms[..n] + [ms[n]];
      CountSnoc(Suspend, ms[..n], ms[n]);
      CountAppend(SuspendAck, Replies(a, ms[..n]), ReplyTo(a, ms[n]));
      ReplyCount(a, ms[n]);
    } else {
      EmptyCount(SuspendAck);
      EmptyCount(Suspend);
    }
  }

  lemma EmptyCount(m: StructureMessage)
    ensures Count(m, []) == 0
  {
  }

  lemma ReplyCount(a: SurfaceAnnounce, m: StructureMessage)
    ensures Count(SuspendAck, ReplyTo(a, m)) == if m == Suspend then 1 else 0
  {
  }

  /** No more calls of `suspend` have succeeded than the host has processed Suspends. */
  lemma AcksAreEarned(s: Link)
    requires Inv(s)
    ensures Count(SuspendAck, s.absorbed) + Count(SuspendAck, s.toClient) == Count(Suspend, s.processed)
    ensures s.acksRead <= Count(Suspend, s.processed)
  {
    RepliesCount(s.announce, s.processed);
    CountAppend(SuspendAck, [Announce(s.announce)], Replies(s.announce, s.processed));
    CountAppend(SuspendAck, s.absorbed, s.toClient);
  }

  /**
   * The host's output is one Announce and then, in order, one SuspendAck for each processed Suspend
   * and one ReconnectOk with that same announce for each processed Reconnect; the compositor has read
   * a prefix of it, and the capture backend got exactly the processed events of this surface.
   */
  lemma HostOutputRefinesInput(s: Link)
    requires Reachable(s)
    ensures s.hostSent == [Announce(s.announce)] + Replies(s.announce, s.processed)
    ensures AnswersInOrder(s.announce, Answerable(s.processed), s.hostSent[1..])
    ensures s.absorbed + s.toClient == s.hostSent
    ensures s.delivered == InputsFor(s.announce.id, s.processed)
    ensures s.processed <= s.sent
  {
    ReachableInv(s);
    ProcessedIsPrefix(s);
    RepliesInOrder(s.announce, s.processed);
    assert s.hostSent[1..] == Replies(s.announce, s.processed);
  }

  lemma ProcessedIsPrefix(s: Link)
    requires Inv(s)
    ensures s.processed <= s.sent
  {
  }

  /**
   * Suspend accounting, in every reachable state: each Suspend put on the link is queued, written,
   * lost to a failure, or answered by an ack that is in flight, buffered, dropped or read. While
   * writer and host run nothing is lost, and never more than one ack is buffered.
   */
  lemma SuspendAccounting(s: Link)
    requires Reachable(s)
    ensures Count(Suspend, s.sent)
         == Count(Suspend, s.control) + Count(Suspend, s.toHost) + Count(Suspend, s.lost) + Count(Suspend, s.refused)
            + Count(SuspendAck, s.toClient) + s.acks + s.dropped + s.acksRead
    ensures s.acks <= 1
    ensures s.writerUp ==> s.lost == []
    ensures s.hostUp ==> s.refused == []
  {
    ReachableInv(s);
    AcksAreEarned(s);
    var p := s.processed;
    CountAppend(Suspend, p, s.refused);
    CountAppend(Suspend, p + s.refused, s.toHost);
    CountAppend(Suspend, p + s.refused + s.toHost, s.lost);
    CountAppend(Suspend, p + s.refused + s.toHost + s.lost, s.control);
  }

  lemma CountShort(sent: seq<StructureMessage>, done: seq<StructureMessage>, i: nat)
    requires done <= sent && |done| <= i < |sent| && sent[i] == Suspend
    ensures Count(Suspend, done) < Count(Suspend, sent[..i + 1])
  {
    hide Count;
    var between := sent[|done|..i];
    assert sent[..i] == done + between && sent[..i] + [Suspend] == sent[..i + 1];
    CountSnoc(Suspend, sent[..i], Suspend);
    CountAppend(Suspend, done, between);
  }

  /** A prefix that holds as many Suspends as the list up to `i` reaches past `i`. */
  lemma CountReaches(sent: seq<StructureMessage>, done: seq<StructureMessage>, i: nat)
    requires done <= sent && i < |sent| && sent[i] == Suspend
    requires Count(Suspend, sent[..i + 1]) <= Count(Suspend, done)
    ensures i < |done|
  {
    hide Count;
    if |done| <= i {
      CountShort(sent, done, i);
    }
  }

  /**
   * Suspend ordering, over every interleaving: once `n` calls of `suspend` have returned true, the
   * host has processed everything put on the link up to the `n`-th Suspend, and every event queued
   * before it has been handed to the capture channel, exactly once and in order.
   */
  lemma SuspendOrdering(s: Link, i: nat)
    requires Reachable(s)
    requires i < |s.sent| && s.sent[i] == Suspend && Count(Suspend, s.sent[..i + 1]) <= s.acksRead
    ensures i < |s.processed|
    ensures InputsFor(s.announce.id, s.sent[..i]) <= s.delivered
  {
    ReachableInv(s);
    assert s.delivered == InputsFor(s.announce.id, s.processed);
    AcksAreEarned(s);
    ProcessedIsPrefix(s);
    hide Count, InputsFor, Inv, Reachable;
    CountReaches(s.sent, s.processed, i);
    assert s.sent[..i] == s.processed[..i];
    InputsPrefix(s.announce.id, s.processed, i);
  }

  /** The first successful suspend: nothing queued before it is still on its way. */
  lemma FirstSuspendOrdering(s: Link, i: nat)
    requires Reachable(s) && s.acksRead >= 1
    requires i < |s.sent| && s.sent[i] == Suspend && Suspend !in s.sent[..i]
    ensures i < |s.processed| && InputsFor(s.announce.id, s.sent[..i]) <= s.delivered
  {
    CountSnoc(Suspend, s.sent[..i], Suspend);
    assert s.sent[..i] + [Suspend] == s.sent[..i + 1];
    SuspendOrdering(s, i);
  }

  /** When no suspend timed out, the guarantee holds of the last one too. */
  lemma EverySuspendAnswered(s: Link, i: nat)
    requires Reachable(s) && s.acksRead == Count(Suspend, s.sent)
    requires i < |s.sent| && s.sent[i] == Suspend
    ensures i < |s.processed| && InputsFor(s.announce.id, s.sent[..i]) <= s.delivered
  {
    assert s.sent == s.sent[..i + 1] + s.sent[i + 1..];
    CountAppend(Suspend, s.sent[..i + 1], s.sent[i + 1..]);
    SuspendOrdering(s, i);
  }

  lemma RunSnoc(s: Link, acts: seq<Action>, act: Action)
    ensures Run(s, acts + [act]) == (var t := Run(s, acts); if t.Some? then Step(t.value, act) else None)
  {
  }

  lemma ReachStep(s: Link, act: Action, t: Link)
    requires Reachable(s) && Step(s, act) == Some(t)
    ensures Reachable(t)
  {
    ReachableInv(s);
    StepInv(s, act, t);
    var resume, acts :| Run(Start(s.announce, resume), acts) == Some(s);
    Chain(Start(s.announce, resume), acts, s, act, t);
  }

  lemma Chain(s: Link, acts: seq<Action>, t: Link, act: Action, u: Link)
    requires Run(s, acts) == Some(t) && Step(t, act) == Some(u)
    ensures Run(s, acts + [act]) == Some(u)
  {
  }

  // ---- the last message ----

  /** What has left the control queue. */
  function Written(s: Link): seq<StructureMessage> { s.processed + s.refused + s.toHost + s.lost }

  /** A Disconnect is the last message the writer takes. */
  ghost predicate DisconnectLast(s: Link) {
    && (forall i :: 0 <= i < |Written(s)| - 1 ==> Written(s)[i] != Disconnect)
    && (s.writerUp ==> forall i :: 0 <= i < |Written(s)| ==> Written(s)[i] != Disconnect)
  }

  lemma WriterWrites(s: Link, act: Action, t: Link)
    requires Inv(s) && Step(s, act) == Some(t) && (act == WriterSend || act == WriterFail)
    ensures s.writerUp && s.control != [] && Written(t) == Written(s) + [s.control[0]]
    ensures t.writerUp ==> s.control[0] != Disconnect
  {
    assert s.lost == [];
  }

  lemma HandleWrites(s: Link, t: Link)
    requires Inv(s) && Step(s, HostHandle) == Some(t)
    ensures Written(t) == Written(s) && t.writerUp == s.writerUp
  {
    hide Replies, InputsFor, ReplyTo, Count;
    MoveFirst(s.processed, s.refused, s.toHost, s.lost, []);
  }

  lemma FailWrites(s: Link, t: Link)
    requires Step(s, HostFail) == Some(t)
    ensures Written(t) == Written(s) && t.writerUp == s.writerUp
  {
    Shift(s.processed + s.refused, s.toHost);
  }

  lemma StepWrites(s: Link, act: Action, t: Link)
    requires Inv(s) && Step(s, act) == Some(t)
    ensures if act == WriterSend || act == WriterFail
            then s.writerUp && s.control != [] && Written(t) == Written(s) + [s.control[0]]
                 && (t.writerUp ==> s.control[0] != Disconnect)
            else Written(t) == Written(s) && t.writerUp == s.writerUp
  {
    match act
    case WriterSend => hide Inv, Step, Written; WriterWrites(s, act, t);
    case WriterFail => hide Inv, Step, Written; WriterWrites(s, act, t);
    case HostHandle => hide Inv, Step, Written; HandleWrites(s, t);
    case HostFail => hide Inv; FailWrites(s, t);
    case _ => hide Inv;
  }

  lemma {:induction false} RunDisconnects(a: SurfaceAnnounce, resume: Option<string>, acts: seq<Action>)
    requires Run(Start(a, resume), acts).Some?
    ensures DisconnectLast(Run(Start(a, resume), acts).value)
  {
    if acts != [] {
      var n := |acts| - 1;
      var s, t := Run(Start(a, resume), acts[..n]).value, Run(Start(a, resume), acts).value;
      RunDisconnects(a, resume, acts[..n]);
      RunInv(a, resume, acts[..n]);
      hide Inv, Written, Run, Step;
      StepWrites(s, acts[n], t);
    }
  }

  /** The control loop ends with the Disconnect it handles. */
  predicate StopsAtDisconnect(s: Link) { Disconnect in s.processed ==> !s.hostUp }

  lemma StepStops(s: Link, act: Action, t: Link)
    requires StopsAtDisconnect(s) && Step(s, act) == Some(t)
    ensures StopsAtDisconnect(t)
  {
    hide InputOf, ReplyTo;
  }

  lemma {:induction false} RunStops(a: SurfaceAnnounce, resume: Option<string>, acts: seq<Action>)
    requires Run(Start(a, resume), acts).Some?
    ensures StopsAtDisconnect(Run(Start(a, resume), acts).value)
  {
    if acts != [] {
      var n := |acts| - 1;
      var s, t := Run(Start(a, resume), acts[..n]).value, Run(Start(a, resume), acts).value;
      RunStops(a, resume, acts[..n]);
      hide StopsAtDisconnect, Step, Run;
      StepStops(s, acts[n], t);
    }
  }

  /**
   * In every reachable state the host has handled nothing put on the link after a Disconnect, and its
   * loop has ended once it handled that.
   */
  lemma NothingAfterDisconnect(s: Link, i: nat)
    requires Reachable(s) && i < |s.sent| && s.sent[i] == Disconnect
    ensures |s.processed| <= i + 1
    ensures i < |s.processed| ==> !s.hostUp
  {
    ReachableInv(s);
    ProcessedIsPrefix(s);
    var resume, acts :| Run(Start(s.announce, resume), acts) == Some(s);
    RunDisconnects(s.announce, resume, acts);
    RunStops(s.announce, resume, acts);
    assert s.sent == Written(s) + s.control;
    assert i < |Written(s)| ==> Written(s)[i] == s.sent[i];
  }

  // ---- progress ----

  /** The steps the link takes by itself. */
  predicate Internal(act: Action) { act == WriterSend || act == HostHandle || act == CaptureTake || act == ReaderTake }

  /** Work left on the link. */
  function Work(s: Link): nat { 4 * |s.control| + 3 * |s.toHost| + |s.capture| + |s.toClient| }

  /** Every internal step leaves less work, so the link settles. */
  lemma InternalStepsSettle(s: Link, act: Action, t: Link)
    requires Internal(act) && Step(s, act) == Some(t)
    ensures Work(t) < Work(s)
  {
  }

  /** No internal step is left. */
  ghost predicate Settled(s: Link) { forall act :: Internal(act) ==> Step(s, act).None? }

  /**
   * A settled link with its tasks running has delivered everything: each event for this surface is
   * with the backend, and each Suspend has its ack buffered, dropped or read.
   */
  lemma SettledDelivers(s: Link)
    requires Reachable(s) && TasksUp(s) && Settled(s)
    ensures Delivered(s)
  {
    ReachableInv(s);
    SettledEmpty(s);
    hide Step, Reachable, Settled, InputsFor;
    assert s.sent == s.processed + s.refused + s.toHost + s.lost + s.control == s.processed;
    SuspendAccounting(s);
  }

  lemma SettledEmpty(s: Link)
    requires TasksUp(s) && Settled(s)
    ensures s.control == [] && s.capture == [] && s.toHost == [] && s.toClient == []
  {
    assert Step(s, WriterSend).None? && Step(s, HostHandle).None? && Step(s, CaptureTake).None?
           && Step(s, ReaderTake).None?;
  }

  predicate TasksUp(s: Link) { s.writerUp && s.hostUp && s.readerUp }

  /** Everything sent is processed, its events are with the backend, and every Suspend has its ack. */
  predicate Delivered(s: Link) {
    && s.processed == s.sent && s.delivered == InputsFor(s.announce.id, s.sent)
    && Count(Suspend, s.sent) == s.acks + s.dropped + s.acksRead
  }

  lemma {:induction false} RunFirst(s: Link, act: Action, t: Link, acts: seq<Action>)
    requires Step(s, act) == Some(t)
    ensures Run(s, [act] + acts) == Run(t, acts)
  {
    hide Step;
    if acts == [] {
      assert [act] + acts == [act] && [act][..0] == [];
      assert Run(s, []) == Some(s);
    } else {
      var n := |acts| - 1;
      RunFirst(s, act, t, acts[..n]);
      assert ([act] + acts)[..n + 1] == [act] + acts[..n];
    }
  }

  /** A step of the link's own that is enabled, if the link is not settled. */
  lemma SettledOrNot(s: Link) returns (act: Action)
    ensures Internal(act) && (Step(s, act).None? ==> Settled(s))
  {
    hide Step;
    act := if Step(s, WriterSend).Some? then WriterSend else if Step(s, HostHandle).Some? then HostHandle
           else if Step(s, CaptureTake).Some? then CaptureTake else ReaderTake;
  }

  lemma WriterSendKeeps(s: Link, t: Link)
    requires Step(s, WriterSend) == Some(t)
    ensures s.control != [] && t.sent == s.sent && (TasksUp(s) && s.control[0] != Disconnect ==> TasksUp(t))
  {
  }

  lemma HostHandleKeeps(s: Link, t: Link)
    requires Step(s, HostHandle) == Some(t)
    ensures s.toHost != [] && t.sent == s.sent && (TasksUp(s) && s.toHost[0] != Disconnect ==> TasksUp(t))
  {
    hide CanHandle, InputOf, ReplyTo;
  }

  lemma TakeKeeps(s: Link, act: Action, t: Link)
    requires (act == CaptureTake || act == ReaderTake) && Step(s, act) == Some(t)
    ensures t.sent == s.sent && (TasksUp(s) ==> TasksUp(t))
  {
  }

  /** A step of the link's own sends nothing new, and ends a task only with a Disconnect. */
  lemma InternalKeeps(s: Link, act: Action, t: Link)
    requires Inv(s) && Internal(act) && Step(s, act) == Some(t)
    ensures t.sent == s.sent && (TasksUp(s) && Disconnect !in s.sent ==> TasksUp(t))
  {
    HeadsSent(s);
    hide Inv, Step, TasksUp;
    match act
    case WriterSend => WriterSendKeeps(s, t);
    case HostHandle => HostHandleKeeps(s, t);
    case _ => TakeKeeps(s, act, t);
  }

  lemma HeadsSent(s: Link)
    requires Inv(s)
    ensures (s.control != [] ==> s.control[0] in s.sent) && (s.toHost != [] ==> s.toHost[0] in s.sent)
  {
    hide Replies, InputsFor, Count;
    var before := s.processed + s.refused + s.toHost + s.lost;
    assert s.sent == before + s.control;
    assert s.control != [] ==> s.sent[|before|] == s.control[0];
    assert s.toHost != [] ==> s.sent[|s.processed + s.refused|] == s.toHost[0];
  }

  /** From every reachable state some finite run of the link's own steps ends settled. */
  lemma {:induction false} Settles(s: Link) returns (acts: seq<Action>, t: Link)
    requires Reachable(s)
    ensures (forall act :: act in acts ==> Internal(act)) && Run(s, acts) == Some(t)
    ensures Reachable(t) && Settled(t) && t.sent == s.sent && t.announce == s.announce
    ensures TasksUp(s) && Disconnect !in s.sent ==> TasksUp(t)
    decreases Work(s)
  {
    var act := SettledOrNot(s);
    if Step(s, act).None? {
      acts, t := [], s;
    } else {
      var next := Step(s, act).value;
      ReachableInv(s);
      StepInv(s, act, next);
      InternalStepsSettle(s, act, next);
      InternalKeeps(s, act, next);
      ReachStep(s, act, next);
      hide Step, Reachable, Settled, Inv, TasksUp;
      var more, u := Settles(next);
      RunFirst(s, act, next, more);
      acts, t := [act] + more, u;
    }
  }

  /**
   * Progress: from every reachable state with its tasks running and no Disconnect sent, some finite
   * run of the link's own steps delivers everything sent and answers every Suspend.
   */
  lemma EventuallyDelivered(s: Link)
    requires Reachable(s) && TasksUp(s) && Disconnect !in s.sent
    ensures exists acts, t :: (forall act :: act in acts ==> Internal(act)) && Run(s, acts) == Some(t)
                              && t.sent == s.sent && t.announce == s.announce && Delivered(t)
  {
    var acts, t := Settles(s);
    SettledDelivers(t);
  }
}
