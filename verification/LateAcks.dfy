/**
 * What a true result of `suspend` says about its own Suspend: exactly when it is a guarantee, on a link
 * whose calls do not overlap and where earlier ones may have timed out, and on one where calls overlap
 * and none has failed.
 */
module LateAcks {
  import opened Wrappers
  import opened Text
  import opened Messages
  import opened Host
  import opened Protocol

  // ---- one call at a time ----

  ghost predicate OneAtATime(a: SurfaceAnnounce, resume: Option<string>, acts: seq<Action>) {
    forall i {:trigger acts[..i]} :: 0 <= i <= |acts| ==>
      var s := Run(Start(a, resume), acts[..i]); s.Some? ==> s.value.waiting <= 1
  }

  /** Some run in which calls of `suspend` never overlap ends here. */
  ghost predicate Alone(s: Link) {
    exists resume, acts :: Run(Start(s.announce, resume), acts) == Some(s) && OneAtATime(s.announce, resume, acts)
  }

  lemma AloneReachable(s: Link)
    requires Alone(s)
    ensures Reachable(s)
  {
  }

  lemma AloneStep(s: Link, act: Action, t: Link)
    requires Alone(s) && Step(s, act) == Some(t) && t.waiting <= 1
    ensures Alone(t)
  {
    AloneReachable(s);
    ReachableInv(s);
    StepInv(s, act, t);
    var resume, acts :| Run(Start(s.announce, resume), acts) == Some(s) && OneAtATime(s.announce, resume, acts);
    hide Step, Inv, Reachable, Run, OneAtATime;
    Chain(Start(s.announce, resume), acts, s, act, t);
    StillOneAtATime(s.announce, resume, acts, act, t);
    assert OneAtATime(s.announce, resume, acts + [act]);
  }

  lemma StillOneAtATime(a: SurfaceAnnounce, resume: Option<string>, acts: seq<Action>, act: Action, t: Link)
    requires OneAtATime(a, resume, acts) && Run(Start(a, resume), acts + [act]) == Some(t) && t.waiting <= 1
    ensures OneAtATime(a, resume, acts + [act])
  {
    hide Run;
    var more := acts + [act];
    forall i | 0 <= i <= |more|
      ensures var u := Run(Start(a, resume), more[..i]); u.Some? ==> u.value.waiting <= 1
    {
      assert more[..i] == if i <= |acts| then acts[..i] else more;
    }
  }

  /** Message `i` put on the link is its `n`-th Suspend. */
  predicate IsNthSuspend(s: Link, i: nat, n: nat) {
    i < |s.sent| && s.sent[i] == Suspend && Count(Suspend, s.sent[..i + 1]) == n
  }

  /**
   * The `n`-th call of `suspend`, the only one in progress, returns true as the `k`-th success; its
   * Suspend is message `i`.
   */
  ghost predicate Returns(s: Link, t: Link, i: nat, n: nat, k: nat) {
    && Alone(s) && s.waiting == 1 && Step(s, SuspendOk) == Some(t)
    && Count(Suspend, t.sent) == n && t.acksRead == k && IsNthSuspend(t, i, n)
  }

  // ---- single steps ----

  function AfterHandle(s: Link): Link
    requires s.toHost != []
  {
    s.(toHost := s.toHost[1..], processed := s.processed + [Suspend],
       hostSent := s.hostSent + [SuspendAck], toClient := s.toClient + [SuspendAck])
  }

  function AfterAck(s: Link): Link {
    var t := s.(toClient := [], absorbed := s.absorbed + [SuspendAck]);
    if s.acks == 0 then t.(acks := 1) else t.(dropped := t.dropped + 1)
  }

  lemma HandleSuspend(s: Link)
    requires s.hostUp && s.toHost != [] && s.toHost[0] == Suspend
    ensures Step(s, HostHandle) == Some(AfterHandle(s))
  {
    assert InputOf(s.announce.id, Suspend) == [] && s.capture + [] == s.capture && s.delivered + [] == s.delivered;
  }

  lemma ReadAck(s: Link)
    requires s.readerUp && s.toClient == [SuspendAck]
    ensures Step(s, ReaderTake) == Some(AfterAck(s))
  {
    assert s.toClient[1..] == [];
  }

  lemma SuspendWritten(s: Link)
    requires s.writerUp && s.control == []
    ensures var t := s.(sent := s.sent + [Suspend], control := [Suspend], waiting := s.waiting + 1);
            Step(s, CallSuspend) == Some(t)
            && Step(t, WriterSend) == Some(t.(control := [], toHost := s.toHost + [Suspend]))
  {
    assert s.control + [Suspend] == [Suspend] && [Suspend][1..] == [];
  }

  // ---- whole calls ----

  function AfterTimeout(s: Link): Link { s.(sent := s.sent + [Suspend], toHost := s.toHost + [Suspend]) }

  /** A call that times out while the host is away. */
  lemma CallTimesOut(s: Link)
    requires Alone(s) && s.writerUp && s.control == [] && s.waiting == 0
    ensures Alone(AfterTimeout(s))
  {
    var t := s.(sent := s.sent + [Suspend], control := [Suspend], waiting := 1);
    var u := t.(control := [], toHost := s.toHost + [Suspend]);
    SuspendWritten(s);
    assert Step(u, SuspendTimeout) == Some(AfterTimeout(s));
    hide Step, Alone, AfterTimeout;
    AloneStep(s, CallSuspend, t);
    AloneStep(t, WriterSend, u);
    assert AfterTimeout(s).waiting <= 1 by { TimeoutWaits(s); }
    AloneStep(u, SuspendTimeout, AfterTimeout(s));
  }

  lemma TimeoutWaits(s: Link)
    ensures AfterTimeout(s).waiting == s.waiting
  {
  }

  function AfterAnswer(s: Link): Link
    requires s.toHost != []
  {
    AfterAck(AfterHandle(s))
  }

  /** The host handles a Suspend and the compositor reads the ack. */
  lemma SuspendAnswered(s: Link)
    requires Alone(s) && s.hostUp && s.readerUp && s.toHost != [] && s.toHost[0] == Suspend && s.toClient == []
             && s.waiting <= 1
    ensures Alone(AfterAnswer(s))
  {
    hide Step, Alone;
    var t := AfterHandle(s);
    assert t.toClient == [SuspendAck] && AfterAck(t).waiting == s.waiting;
    HandleSuspend(s);
    ReadAck(t);
    AloneStep(s, HostHandle, t);
    hide AfterHandle, AfterAck;
    AloneStep(t, ReaderTake, AfterAck(t));
  }

  predicate Idle(s: Link) {
    s.writerUp && s.hostUp && s.readerUp && s.control == [] && s.toHost == [] && s.toClient == [] && s.waiting == 0
  }

  function AfterCall(s: Link): Link {
    s.(sent := s.sent + [Suspend], processed := s.processed + [Suspend],
       hostSent := s.hostSent + [SuspendAck], absorbed := s.absorbed + [SuspendAck], acksRead := s.acksRead + 1)
  }

  /** The link while the Suspend of a call is with the host, and when its ack is in. */
  function Asked(s: Link): Link { s.(sent := s.sent + [Suspend], toHost := [Suspend], waiting := 1) }

  lemma CallAsks(s: Link)
    requires Alone(s) && Idle(s)
    ensures Alone(Asked(s))
  {
    var t := s.(sent := s.sent + [Suspend], control := [Suspend], waiting := 1);
    assert s.toHost + [Suspend] == [Suspend] && s.control == [];
    SuspendWritten(s);
    hide Step, Alone;
    AloneStep(s, CallSuspend, t);
    AloneStep(t, WriterSend, Asked(s));
  }

  lemma AskedAnswered(s: Link)
    requires Idle(s) && s.acks == 0
    ensures var t := Asked(s);
            && t.hostUp && t.readerUp && t.toHost == [Suspend] && t.toClient == [] && t.waiting == 1
            && Step(AfterAnswer(t), SuspendOk) == Some(AfterCall(s)) && AfterCall(s).waiting == 0
  {
    assert [Suspend][1..] == [];
  }

  /** A call that is answered. */
  lemma CallAnswered(s: Link)
    requires Alone(s) && Idle(s) && s.acks == 0
    ensures Alone(AfterCall(s))
  {
    hide Step, Alone, AfterAnswer, Asked, AfterCall, Idle;
    CallAsks(s);
    AskedAnswered(s);
    SuspendAnswered(Asked(s));
    AloneStep(AfterAnswer(Asked(s)), SuspendOk, AfterCall(s));
  }

  /** An event and then a Suspend are queued, and the call finds an ack waiting. */
  lemma CallFindsAck(s: Link, m: StructureMessage)
    requires Alone(s) && Idle(s) && s.acks == 1 && m != Suspend
    ensures Alone(Called(s, m)) && Step(Called(s, m), SuspendOk) == Some(Returned(Called(s, m)))
  {
    var q, t := s.(sent := s.sent + [m], control := [m]), Called(s, m);
    assert s.control + [m] == [m] && q.control + [Suspend] == [m, Suspend];
    assert Step(s, Enqueue(m)) == Some(q) && Step(q, CallSuspend) == Some(t);
    assert Step(t, SuspendOk) == Some(Returned(t));
    hide Step, Alone;
    AloneStep(s, Enqueue(m), q);
    AloneStep(q, CallSuspend, t);
  }

  // ---- a slow host ----

  function Times(m: StructureMessage, n: nat): seq<StructureMessage> { seq(n, _ => m) }

  lemma OneMore(m: StructureMessage, n: nat)
    ensures Times(m, n) + [m] == Times(m, n + 1) && Times(m, 0) == []
    ensures n > 0 ==> Times(m, n)[0] == m && Times(m, n)[1..] == Times(m, n - 1)
  {
  }

  lemma {:induction false} CountTimes(m: StructureMessage, n: nat)
    ensures Count(m, Times(m, n)) == n
  {
    if n > 0 {
      CountTimes(m, n - 1);
      OneMore(m, n - 1);
      CountSnoc(m, Times(m, n - 1), m);
    }
  }

  function Output(a: SurfaceAnnounce, n: nat): seq<StructureMessage> { [Announce(a)] + Times(SuspendAck, n) }

  lemma OneMoreAck(a: SurfaceAnnounce, n: nat)
    ensures Output(a, n) + [SuspendAck] == Output(a, n + 1)
  {
    OneMore(SuspendAck, n);
    Assoc([Announce(a)], Times(SuspendAck, n), [SuspendAck]);
  }

  /** The link after `k` calls that were answered and `m` that timed out while the host was away. */
  function TimedOut(a: SurfaceAnnounce, k: nat, m: nat): Link {
    Link(a, Times(Suspend, k + m), [], true, Times(Suspend, m), [], true, Times(Suspend, k), [], [], [],
         Output(a, k), [], Output(a, k), true, 0, 0, 0, k)
  }

  lemma NoCalls(a: SurfaceAnnounce)
    ensures Alone(TimedOut(a, 0, 0))
  {
    var s := Start(a, None);
    OneMore(Suspend, 0);
    OneMore(SuspendAck, 0);
    assert s.absorbed + [] == [Announce(a)];
    assert s == TimedOut(a, 0, 0);
    assert Run(Start(s.announce, None), []) == Some(s);
    assert OneAtATime(s.announce, None, []);
  }

  lemma TimeoutStep(a: SurfaceAnnounce, k: nat, m: nat)
    ensures AfterTimeout(TimedOut(a, k, m)) == TimedOut(a, k, m + 1)
  {
    OneMore(Suspend, k + m);
    OneMore(Suspend, m);
    hide Times, Output;
  }

  lemma OneTimedOut(a: SurfaceAnnounce, k: nat, m: nat)
    requires Alone(TimedOut(a, k, m))
    ensures Alone(TimedOut(a, k, m + 1))
  {
    TimeoutStep(a, k, m);
    hide Alone, Times, Output, AfterTimeout;
    CallTimesOut(TimedOut(a, k, m));
  }

  lemma AnswerStep(a: SurfaceAnnounce, k: nat)
    ensures Idle(TimedOut(a, k, 0)) && AfterCall(TimedOut(a, k, 0)) == TimedOut(a, k + 1, 0)
  {
    OneMore(Suspend, 0);
    OneMore(Suspend, k);
    OneMoreAck(a, k);
    hide Times, Output;
  }

  lemma OneAnswered(a: SurfaceAnnounce, k: nat)
    requires Alone(TimedOut(a, k, 0))
    ensures Alone(TimedOut(a, k + 1, 0))
  {
    AnswerStep(a, k);
    hide Alone, Times, Output, AfterCall, Idle;
    CallAnswered(TimedOut(a, k, 0));
  }

  lemma {:induction false} TimedOutReachable(a: SurfaceAnnounce, k: nat, m: nat)
    ensures Alone(TimedOut(a, k, m))
    decreases k, m
  {
    hide Alone, TimedOut;
    if m > 0 {
      TimedOutReachable(a, k, m - 1);
      OneTimedOut(a, k, m - 1);
    } else if k > 0 {
      TimedOutReachable(a, k - 1, 0);
      OneAnswered(a, k - 1);
    } else {
      NoCalls(a);
    }
  }

  /**
   * The host is back and has answered `j` of the `m` calls that timed out: one ack is kept, the
   * others find the place taken.
   */
  function Late(a: SurfaceAnnounce, k: nat, m: nat, j: nat): Link
    requires j <= m
  {
    TimedOut(a, k, m).(
      toHost := Times(Suspend, m - j), processed := Times(Suspend, k + j),
      hostSent := Output(a, k + j), absorbed := Output(a, k + j),
      acks := if j == 0 then 0 else 1, dropped := if j == 0 then 0 else j - 1)
  }

  lemma {:induction false} LateReachable(a: SurfaceAnnounce, k: nat, m: nat, j: nat)
    requires j <= m
    ensures Alone(Late(a, k, m, j))
    decreases j
  {
    hide Alone, Times, Output;
    if j == 0 {
      TimedOutReachable(a, k, m);
      assert Late(a, k, m, 0) == TimedOut(a, k, m);
    } else {
      LateReachable(a, k, m, j - 1);
      OneLate(a, k, m, j - 1);
    }
  }

  lemma LateStep(a: SurfaceAnnounce, k: nat, m: nat, j: nat)
    requires j < m
    ensures var s := Late(a, k, m, j);
            s.toHost != [] && s.toHost[0] == Suspend && AfterAnswer(s) == Late(a, k, m, j + 1)
  {
    OneMore(Suspend, m - j);
    OneMore(Suspend, k + j);
    OneMoreAck(a, k + j);
    assert Times(Suspend, m - j) != [];
    hide Times, Output;
  }

  lemma OneLate(a: SurfaceAnnounce, k: nat, m: nat, j: nat)
    requires j < m && Alone(Late(a, k, m, j))
    ensures Alone(Late(a, k, m, j + 1))
  {
    LateStep(a, k, m, j);
    hide Alone, Times, Output, AfterAnswer;
    SuspendAnswered(Late(a, k, m, j));
  }

  // ---- the guarantee at the call ----

  /** The link once an event and a Suspend are queued, and once that call has returned on the ack it found. */
  function Called(s: Link, m: StructureMessage): Link {
    s.(sent := s.sent + [m] + [Suspend], control := [m, Suspend], waiting := 1)
  }

  function Returned(s: Link): Link { s.(waiting := 0, acks := 0, acksRead := s.acksRead + 1) }

  function LastCalled(a: SurfaceAnnounce, e: InputEvent, k: nat, n: nat): Link
    requires 1 <= k < n
  {
    Called(Late(a, k - 1, n - k, n - k), Input(a.id, e))
  }

  /**
   * The link when the `n`-th call has returned true on a late ack: its Suspend, and an event before
   * it, are still queued.
   */
  function Answered(a: SurfaceAnnounce, e: InputEvent, k: nat, n: nat): Link
    requires 1 <= k < n
  {
    Returned(LastCalled(a, e, k, n))
  }

  lemma LateIdle(a: SurfaceAnnounce, k: nat, m: nat)
    requires m > 0
    ensures Idle(Late(a, k, m, m)) && Late(a, k, m, m).acks == 1 && Late(a, k, m, m).announce == a
  {
  }

  lemma LastReturn(a: SurfaceAnnounce, e: InputEvent, k: nat, n: nat)
    requires 1 <= k < n
    ensures Alone(LastCalled(a, e, k, n)) && Step(LastCalled(a, e, k, n), SuspendOk) == Some(Answered(a, e, k, n))
  {
    hide Alone, Step, Idle, Late, Called, Returned;
    LateReachable(a, k - 1, n - k, n - k);
    LateIdle(a, k - 1, n - k);
    CallFindsAck(Late(a, k - 1, n - k, n - k), Input(a.id, e));
  }

  lemma AnsweredCounts(a: SurfaceAnnounce, e: InputEvent, k: nat, n: nat)
    requires 1 <= k < n
    ensures var t := Answered(a, e, k, n); Count(Suspend, t.sent) == n && IsNthSuspend(t, n, n)
  {
    var t, m := Answered(a, e, k, n), Input(a.id, e);
    var before := Times(Suspend, n - 1);
    assert t.sent == before + [m] + [Suspend];
    CountTimes(Suspend, n - 1);
    CountSnoc(Suspend, before, m);
    CountSnoc(Suspend, before + [m], Suspend);
    assert t.sent[..n + 1] == t.sent;
  }

  /**
   * After a call that timed out, later ones can be answered by its late ack: for every `k` and `n` with
   * `k < n` the `n`-th call returns true as the `k`-th success while its own Suspend, and an event
   * queued before it, have not left the control queue.
   */
  lemma LateAckAnswers(a: SurfaceAnnounce, e: InputEvent, k: nat, n: nat)
    requires 1 <= k < n
    ensures exists s, t :: Returns(s, t, n, n, k) && t.announce == a && |t.processed| == n - 1
                           && t.control == [Input(a.id, e), Suspend] && t.delivered == []
  {
    LastReturn(a, e, k, n);
    AnsweredCounts(a, e, k, n);
    hide Alone, Step, Count, IsNthSuspend;
    assert Returns(LastCalled(a, e, k, n), Answered(a, e, k, n), n, n, k);
  }

  /**
   * What the true result of the `n`-th call says, exactly: its own Suspend has been processed, in
   * every state where it can return as the `k`-th success, if and only if no earlier call failed.
   */
  lemma SuspendGuaranteeExact(a: SurfaceAnnounce, k: nat, n: nat)
    requires 1 <= k <= n
    ensures (forall s, t: Link, i: nat :: Returns(s, t, i, n, k) && s.announce == a ==> i < |t.processed|) <==> k == n
  {
    if k == n {
      forall s, t: Link, i: nat | Returns(s, t, i, n, k) && s.announce == a ensures i < |t.processed| {
        AloneReachable(s);
        ReachStep(s, SuspendOk, t);
        SuspendOrdering(t, i);
      }
    } else {
      LateAckAnswers(a, MouseDown(0), k, n);
      var s, t :| Returns(s, t, n, n, k) && t.announce == a && |t.processed| == n - 1;
      assert s.announce == a;
    }
  }

  /** When no call failed, every event queued before the last Suspend is with the capture channel, once and in order. */
  lemma LastSuspendOrdering(s: Link, t: Link, i: nat, n: nat)
    requires Returns(s, t, i, n, n)
    ensures i < |t.processed| && InputsFor(t.announce.id, t.sent[..i]) <= t.delivered
  {
    AloneReachable(s);
    ReachStep(s, SuspendOk, t);
    SuspendOrdering(t, i);
  }

  // ---- calls that overlap ----

  /**
   * One of the calls in progress returns true as the `k`-th success; `n` calls have been made and none
   * has failed. The ack may be taken by any of them, the last one included, whose Suspend is message `i`.
   */
  ghost predicate ReturnsAmong(s: Link, t: Link, i: nat, n: nat, k: nat) {
    && Reachable(s) && Step(s, SuspendOk) == Some(t) && t.acksRead == k
    && Count(Suspend, t.sent) == n == t.acksRead + t.waiting && IsNthSuspend(t, i, n)
  }

  /**
   * After `k - 1` calls that returned, one whose ack is in, an event, and `j` more calls; the host
   * has seen the first `k`.
   */
  function InFlight(a: SurfaceAnnounce, e: InputEvent, k: nat, j: nat): Link
    requires 1 <= k
  {
    Link(a, Times(Suspend, k) + [Input(a.id, e)] + Times(Suspend, j), [], true,
         [Input(a.id, e)] + Times(Suspend, j), [], true, Times(Suspend, k), [], [], [],
         Output(a, k), [], Output(a, k), true, 1, 0, 1 + j, k - 1)
  }

  /** The first of these calls, before the event. */
  function FirstAnswered(a: SurfaceAnnounce, k: nat): Link
    requires 1 <= k
  {
    TimedOut(a, k, 0).(acks := 1, waiting := 1, acksRead := k - 1)
  }

  lemma FirstSteps(a: SurfaceAnnounce, k: nat)
    requires 1 <= k
    ensures AfterAnswer(Asked(TimedOut(a, k - 1, 0))) == FirstAnswered(a, k)
  {
    OneMore(Suspend, 0);
    OneMore(Suspend, k - 1);
    OneMoreAck(a, k - 1);
    assert [Suspend][1..] == [];
    hide Times, Output;
  }

  lemma FirstReachable(a: SurfaceAnnounce, k: nat)
    requires 1 <= k
    ensures Reachable(FirstAnswered(a, k))
  {
    TimedOutReachable(a, k - 1, 0);
    AnswerStep(a, k - 1);
    FirstSteps(a, k);
    assert TimedOut(a, k - 1, 0).acks == 0;
    AskedAnswered(TimedOut(a, k - 1, 0));
    hide Alone, TimedOut, AfterAnswer, Asked, FirstAnswered, Idle;
    CallAsks(TimedOut(a, k - 1, 0));
    SuspendAnswered(Asked(TimedOut(a, k - 1, 0)));
    AloneReachable(FirstAnswered(a, k));
  }

  lemma EventWritten(a: SurfaceAnnounce, e: InputEvent, k: nat)
    requires 1 <= k
    ensures var m, s := Input(a.id, e), FirstAnswered(a, k);
            var t := s.(sent := s.sent + [m], control := [m]);
            Step(s, Enqueue(m)) == Some(t) && Step(t, WriterSend) == Some(InFlight(a, e, k, 0))
  {
    var m, s := Input(a.id, e), FirstAnswered(a, k);
    OneMore(Suspend, 0);
    assert s.control + [m] == [m] && [m][1..] == [] && s.toHost == [] && [] + [m] == [m] == [m] + [];
    assert Times(Suspend, k) + [m] + [] == Times(Suspend, k) + [m];
    hide Times, Output;
  }

  lemma CallWritten(a: SurfaceAnnounce, e: InputEvent, k: nat, j: nat)
    requires 1 <= k
    ensures var s := InFlight(a, e, k, j);
            var t := s.(sent := s.sent + [Suspend], control := [Suspend], waiting := s.waiting + 1);
            Step(s, CallSuspend) == Some(t) && Step(t, WriterSend) == Some(InFlight(a, e, k, j + 1))
  {
    var m, s := Input(a.id, e), InFlight(a, e, k, j);
    OneMore(Suspend, j);
    Assoc(Times(Suspend, k) + [m], Times(Suspend, j), [Suspend]);
    Assoc([m], Times(Suspend, j), [Suspend]);
    SuspendWritten(s);
    hide Times, Output, Step;
  }

  lemma {:induction false} InFlightReachable(a: SurfaceAnnounce, e: InputEvent, k: nat, j: nat)
    requires 1 <= k
    ensures Reachable(InFlight(a, e, k, j))
    decreases j
  {
    hide Reachable, Step, InFlight, FirstAnswered;
    if j == 0 {
      var m, s := Input(a.id, e), FirstAnswered(a, k);
      FirstReachable(a, k);
      EventWritten(a, e, k);
      ReachStep(s, Enqueue(m), s.(sent := s.sent + [m], control := [m]));
      ReachStep(s.(sent := s.sent + [m], control := [m]), WriterSend, InFlight(a, e, k, 0));
    } else {
      var s := InFlight(a, e, k, j - 1);
      var t := s.(sent := s.sent + [Suspend], control := [Suspend], waiting := s.waiting + 1);
      InFlightReachable(a, e, k, j - 1);
      CallWritten(a, e, k, j - 1);
      ReachStep(s, CallSuspend, t);
      ReachStep(t, WriterSend, InFlight(a, e, k, j));
    }
  }

  lemma InFlightCounts(a: SurfaceAnnounce, e: InputEvent, k: nat, j: nat)
    requires 1 <= k && 0 < j
    ensures var s := InFlight(a, e, k, j); Count(Suspend, s.sent) == k + j && IsNthSuspend(s, k + j, k + j)
  {
    var m, s := Input(a.id, e), InFlight(a, e, k, j);
    CountTimes(Suspend, k);
    CountTimes(Suspend, j);
    CountSnoc(Suspend, Times(Suspend, k), m);
    CountAppend(Suspend, Times(Suspend, k) + [m], Times(Suspend, j));
    assert s.sent[..k + j + 1] == s.sent;
  }

  /** One of them has returned. */
  function Taken(s: Link): Link
    requires s.waiting > 0
  {
    s.(waiting := s.waiting - 1, acks := 0, acksRead := s.acksRead + 1)
  }

  lemma InFlightReturns(a: SurfaceAnnounce, e: InputEvent, k: nat, j: nat)
    requires 1 <= k && 0 < j
    ensures var s := InFlight(a, e, k, j);
            && s.waiting > 0 && Step(s, SuspendOk) == Some(Taken(s)) && s.announce == a && Taken(s).sent == s.sent
            && Taken(s).acksRead == k && Taken(s).waiting == j && |Taken(s).processed| == k
  {
    hide Output;
  }

  lemma SameSent(s: Link, t: Link, i: nat, n: nat)
    requires s.sent == t.sent
    ensures IsNthSuspend(s, i, n) == IsNthSuspend(t, i, n)
  {
  }

  /** For every `k < n` the last of `n` calls can take the `k`-th ack while its Suspend and an event before it wait. */
  lemma OverlapAnswers(a: SurfaceAnnounce, e: InputEvent, k: nat, n: nat)
    requires 1 <= k < n
    ensures exists s, t :: ReturnsAmong(s, t, n, n, k) && s.announce == a && |t.processed| == k
  {
    hide Reachable, Step, Count, InFlight, IsNthSuspend, Taken;
    var s := InFlight(a, e, k, n - k);
    InFlightReachable(a, e, k, n - k);
    InFlightCounts(a, e, k, n - k);
    InFlightReturns(a, e, k, n - k);
    SameSent(s, Taken(s), n, n);
    assert ReturnsAmong(s, Taken(s), n, n, k);
  }

  /**
   * When calls overlap, an ack answers whichever call takes it: with no call failed, `n` made and the
   * `k`-th returning true, the last one's Suspend has been processed in every such state exactly when
   * `k == n`, that is, when no other call is in progress.
   */
  lemma OverlapExact(a: SurfaceAnnounce, k: nat, n: nat)
    requires 1 <= k <= n
    ensures (forall s, t: Link, i: nat :: ReturnsAmong(s, t, i, n, k) && s.announce == a ==> i < |t.processed|)
            <==> k == n
  {
    hide Reachable, Step, Count;
    if k == n {
      forall s, t: Link, i: nat | ReturnsAmong(s, t, i, n, k) && s.announce == a ensures i < |t.processed| {
        ReachStep(s, SuspendOk, t);
        SuspendOrdering(t, i);
      }
    } else {
      OverlapAnswers(a, MouseDown(0), k, n);
    }
  }
}
