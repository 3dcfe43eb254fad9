/** The concurrent life of one session's receive side (internal/session/session.go): the inbox, the
    rxLoop goroutine between its atomic sections, and RxChan. Every section that runs under the
    session mutex, and every channel operation, is one step; steps interleave freely. */
module RxChannel {
  import opened Bytes
  import opened Frames
  import opened SessionRx

  const INBOX_CAP := 1024
  const RX_CHAN_CAP := 1024

  /** Where rxLoop is: in its select, inside deliverRx after the locked part, about to run its
      deferred close, or gone. */
  datatype Loop = Selecting | Sending(toSend: seq<bytes>, closeAfter: bool) | Leaving | Gone

  datatype Side = Side(
    inbox: seq<Frame>,
    recv: Receiver,         // rxSeq, rxQueue, rxClosed and their history
    loop: Loop,
    chan: seq<bytes>,       // RxChan's buffer
    closes: nat,            // how many times close(RxChan) ran
    stopped: bool,          // rxDone is closed
    sent: bytes,            // everything ever sent on RxChan
    panicked: bool)         // a send on, or a close of, a closed channel

  const NEW_SIDE := Side([], NEW_RECEIVER, Selecting, [], 0, false, [], false)

  datatype Event =
    | Arrive(f: Frame)  // ProcessRx puts a frame in the inbox
    | Accept            // rxLoop receives from the inbox and runs the locked part of deliverRx
    | SeeStop           // rxLoop's select takes rxDone
    | Send              // deliverRx sends the next payload
    | SendStopped       // deliverRx's select takes rxDone instead of sending
    | Finish            // deliverRx returns after its last send
    | Defer             // rxLoop's deferred close
    | CloseRx
    | Stop
    | Receive           // the reader takes one payload

  ghost predicate Enabled(s: Side, e: Event) {
    && !s.panicked
    && match e
       case Arrive(f) => |s.inbox| < INBOX_CAP
       case Accept => s.loop.Selecting? && s.inbox != []
       case SeeStop => s.loop.Selecting? && s.stopped
       case Send => s.loop.Sending? && s.loop.toSend != [] && (s.closes > 0 || |s.chan| < RX_CHAN_CAP)
       case SendStopped => s.loop.Sending? && s.loop.toSend != [] && s.stopped
       case Finish => s.loop.Sending? && s.loop.toSend == []
       case Defer => s.loop.Leaving?
       case CloseRx => true
       case Stop => true
       case Receive => s.chan != []
  }

  /** Where the locked part of deliverRx leaves rxLoop. */
  function Taken(toSend: seq<bytes>, closeAfter: bool, stop: bool): Loop {
    if stop && !closeAfter then Leaving
    else if toSend == [] && !closeAfter then Selecting
    else Sending(toSend, closeAfter)
  }

  function Closing(s: Side): Side {
    s.(closes := s.closes + 1, panicked := s.panicked || s.closes > 0)
  }

  ghost function Next(s: Side, e: Event): Side
    requires Enabled(s, e)
  {
    match e
    case Arrive(f) => s.(inbox := s.inbox + [f])
    case Accept =>
      var d := Deliver(s.recv.rx, s.inbox[0]);
      s.(inbox := s.inbox[1..], recv := Take(s.recv, s.inbox[0]),
         loop := Taken(d.toSend, d.closeAfter, d.stop))
    case SeeStop => s.(loop := Leaving)
    case Send =>
      if s.closes > 0 then s.(panicked := true)
      else s.(chan := s.chan + [s.loop.toSend[0]], sent := s.sent + s.loop.toSend[0],
              loop := s.loop.(toSend := s.loop.toSend[1..]))
    case SendStopped =>
      if s.loop.closeAfter then Closing(s.(loop := Leaving)) else s.(loop := Leaving)
    case Finish =>
      if s.loop.closeAfter then Closing(s.(loop := Leaving, stopped := true)) else s.(loop := Selecting)
    case Defer =>
      if s.recv.rx.closed then s.(loop := Gone)
      else Closing(s.(loop := Gone, recv := s.recv.(rx := s.recv.rx.(closed := true))))
    case CloseRx =>
      if s.recv.rx.closed then s
      else Closing(s.(recv := s.recv.(rx := s.recv.rx.(closed := true))))
    case Stop => s.(stopped := true)
    case Receive => s.(chan := s.chan[1..])
  }

  ghost predicate Runs(s: Side, es: seq<Event>)
    decreases |es|
  {
    es != [] ==> Enabled(s, es[0]) && Runs(Next(s, es[0]), es[1..])
  }

  ghost function After(s: Side, es: seq<Event>): Side
    requires Runs(s, es)
    decreases |es|
  {
    if es == [] then s else After(Next(s, es[0]), es[1..])
  }

  // ----- RxChan is closed at most once, and by the time rxLoop is gone -----

  /** rxClosed is claimed under the mutex before the close happens: the one owed close is either
      done, or in the hands of the deliverRx call that took the FIN. */
  ghost predicate ClosesOnce(loop: Loop, closed: bool, closes: nat) {
    && closes <= 1
    && (loop.Sending? && loop.closeAfter ==> closed && closes == 0)
    && (closed && !(loop.Sending? && loop.closeAfter) ==> closes == 1)
    && (!closed ==> closes == 0)
    && (loop.Gone? ==> closed)
  }

  ghost predicate CloseInv(s: Side) {
    ClosesOnce(s.loop, s.recv.rx.closed, s.closes)
  }

  ghost predicate Takes(s: Side, e: Event, s': Side) {
    Enabled(s, e) && s' == Next(s, e)
  }

  /** The steps of rxLoop and of the reader of its channel. */
  predicate OfLoop(e: Event) {
    !e.Arrive? && !e.CloseRx? && !e.Stop?
  }

  lemma CloseStep(s: Side, e: Event)
    requires CloseInv(s) && Enabled(s, e)
    ensures CloseInv(Next(s, e))
  {
  }

  /** Over every interleaving RxChan is closed at most once, and it is closed once rxLoop is gone. */
  lemma {:induction false} ClosedAtMostOnce(s: Side, es: seq<Event>)
    requires CloseInv(s) && Runs(s, es)
    ensures CloseInv(After(s, es))
    ensures After(s, es).closes <= 1 && (After(s, es).loop.Gone? ==> After(s, es).closes == 1)
    decreases |es|
  {
    if es != [] {
      CloseStep(s, es[0]);
      ClosedAtMostOnce(Next(s, es[0]), es[1..]);
    }
  }

  lemma StaysClosed(s: Side, e: Event)
    requires Enabled(s, e) && s.recv.rx.closed
    ensures Next(s, e).recv.rx.closed
  {
  }

  // ----- sends after the close -----

  /** A CloseRx that takes effect while deliverRx still has payloads to send. */
  ghost predicate Hazard(s: Side, e: Event) {
    e.CloseRx? && !s.recv.rx.closed && s.loop.Sending? && s.loop.toSend != []
  }

  ghost predicate HazardFree(s: Side, es: seq<Event>)
    requires Runs(s, es)
    decreases |es|
  {
    es != [] ==> !Hazard(s, es[0]) && HazardFree(Next(s, es[0]), es[1..])
  }

  /** The channel is closed under a deliverRx call that has something left to send. */
  ghost predicate Exposed(s: Side) {
    s.closes > 0 && s.loop.Sending? && s.loop.toSend != []
  }

  ghost predicate NeverExposed(s: Side, es: seq<Event>)
    requires Runs(s, es)
    decreases |es|
  {
    !Exposed(s) && (es != [] ==> NeverExposed(Next(s, es[0]), es[1..]))
  }

  /** An exposed session crashes as soon as its next send runs; nothing else panics. */
  lemma PanicIff(s: Side, e: Event)
    requires CloseInv(s) && Enabled(s, e)
    ensures Next(s, e).panicked <==> e.Send? && Exposed(s)
  {
  }

  /** Runs that shut the session down only through Stop never send on a closed channel. */
  lemma {:induction false} StopOnlyIsSafe(s: Side, es: seq<Event>)
    requires CloseInv(s) && Runs(s, es) && !Exposed(s) && !s.panicked && forall e <- es :: !e.CloseRx?
    ensures NeverExposed(s, es) && !After(s, es).panicked
    decreases |es|
  {
    if es != [] {
      assert !es[0].CloseRx?;
      CloseStep(s, es[0]);
      PanicIff(s, es[0]);
      StopOnlyIsSafe(Next(s, es[0]), es[1..]);
    }
  }

  /** Nothing that can follow without another CloseRx panics. */
  ghost predicate NeverPanics(s: Side) {
    forall cs: seq<Event> :: Runs(s, cs) && (forall e <- cs :: !e.CloseRx?) ==> !After(s, cs).panicked
  }

  /** It holds of every state of a run. */
  ghost predicate SafeThroughout(s: Side, es: seq<Event>)
    requires Runs(s, es)
    decreases |es|
  {
    NeverPanics(s) && (es != [] ==> SafeThroughout(Next(s, es[0]), es[1..]))
  }

  lemma SafeIffUnexposed(s: Side)
    requires CloseInv(s) && !s.panicked
    ensures NeverPanics(s) <==> !Exposed(s)
  {
    if Exposed(s) {
      var cs := [Send];
      assert cs[1..] == [];
      PanicIff(s, Send);
      assert Runs(s, cs) && After(s, cs) == Next(s, Send);
    } else {
      forall cs: seq<Event> | Runs(s, cs) && (forall e <- cs :: !e.CloseRx?) ensures !After(s, cs).panicked {
        StopOnlyIsSafe(s, cs);
      }
    }
  }

  /** At every state of a run it is certain that no send will meet a closed channel, as long as no further
      CloseRx comes, if and only if no CloseRx of the run took effect while a deliverRx call held unsent
      payloads. */
  lemma {:induction false} SendsSafeIff(s: Side, es: seq<Event>)
    requires CloseInv(s) && Runs(s, es) && !Exposed(s) && !s.panicked
    ensures SafeThroughout(s, es) <==> HazardFree(s, es)
    decreases |es|
  {
    SafeIffUnexposed(s);
    if es != [] {
      var s' := Next(s, es[0]);
      CloseStep(s, es[0]);
      PanicIff(s, es[0]);
      SafeIffUnexposed(s');
      assert Exposed(s') <==> Hazard(s, es[0]);
      if !Exposed(s') {
        SendsSafeIff(s', es[1..]);
      }
    }
  }

  /** The race exists: an arrival is accepted, CloseRx runs, and the pending send panics. */
  lemma CloseRxRace(f: Frame)
    requires f.seqNo == 0 && f.payload != [] && !f.IsFin()
    ensures var es := [Arrive(f), Accept, CloseRx, Send];
            Runs(NEW_SIDE, es) && After(NEW_SIDE, es).panicked
  {
    var s1 := Next(NEW_SIDE, Arrive(f));
    assert s1.inbox == [f];
    var held := map[0 := f];
    assert EMPTY.queue[f.seqNo := f] == held;
    FrontierUnique(held, 0, Frontier(held, 0), 1);
    assert Span(held, 0, 1) == [f];
    assert NonEmptyPayloads([f]) == [f.payload] + NonEmptyPayloads([]);
    var s2 := Next(s1, Accept);
    assert s2.loop == Sending([f.payload], false);
    var s3 := Next(s2, CloseRx);
    var s4 := Next(s3, Send);
    assert s4.panicked;
    var es := [Arrive(f), Accept, CloseRx, Send];
    assert es[1..] == [Accept, CloseRx, Send];
    assert es[1..][1..] == [CloseRx, Send];
    assert es[1..][1..][1..] == [Send];
    assert es[1..][1..][1..][1..] == [];
    assert After(s3, [Send]) == s4 by { assert [Send][1..] == []; }
    assert After(s2, [CloseRx, Send]) == s4;
    assert After(s1, [Accept, CloseRx, Send]) == s4;
  }

  // ----- reading -----

  /** One read of at most n bytes: from what the last read left over, or else from the next non-empty payload
      of the channel. The result is what is returned, what is left over, and the channel after it. */
  function ReadOnce(left: bytes, chan: seq<bytes>, n: nat): (r: (bytes, bytes, seq<bytes>))
    decreases |chan|
  {
    if left != [] then (left[..Min(n, |left|)], left[Min(n, |left|)..], chan)
    else if chan == [] then ([], [], [])
    else ReadOnce(chan[0], chan[1..], n)
  }

  /** A read neither skips, repeats nor reorders a byte. */
  lemma {:induction false} ReadOnceKeeps(left: bytes, chan: seq<bytes>, n: nat)
    ensures var (got, rest, chan') := ReadOnce(left, chan, n);
            |got| <= n && got + rest + Concat(chan') == left + Concat(chan)
    decreases |chan|
  {
    if left != [] {
      var m := Min(n, |left|);
      assert left == left[..m] + left[m..];
    } else if chan != [] {
      ReadOnceKeeps(chan[0], chan[1..], n);
      assert left + Concat(chan) == chan[0] + Concat(chan[1..]);
    }
  }
}
