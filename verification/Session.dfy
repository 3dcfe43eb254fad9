/** The session object shared by client and server (internal/session/session.go). Each method is one
    section run under the session mutex. */
module Sessions {
  import opened Bytes
  import opened Frames
  import opened SessionTx
  import opened SessionRx
  import Runs = SessionRuns
  import RxChannel

  datatype WriteOutcome = Accepted | Refused | Blocked

  class Session {
    const id: SessionID
    const target: bytes
    var txBuf: bytes
    var txSeq: nat
    var synNeeded: bool
    var closeReq: bool
    var finSent: bool
    var finSentAt: nat
    var firstQueuedAt: nat

    var rxSeq: nat
    var rxQueue: map<nat, Frame>
    var rxClosed: bool
    var rxInbox: seq<Frame>
    var stopped: bool
    var rxChan: seq<bytes>       // RxChan's buffer
    var rxChanClosed: bool
    var loop: RxChannel.Loop     // where rxLoop is
    var panicked: bool           // it sent on a closed channel

    ghost const client: bool
    ghost const opener: ClientID
    ghost var stream: bytes
    ghost var emitted: seq<Frame>
    ghost var heardFrom: set<ClientID>
    ghost var arrived: seq<Frame>    // every frame that was put in the inbox
    ghost var have: map<nat, Frame>  // every frame reassembly took into account
    ghost var delivered: bytes
    ghost var sent: bytes            // everything sent on rxChan

    ghost function TxState(): Tx
      reads this`txBuf, this`txSeq, this`synNeeded, this`closeReq, this`finSent, this`finSentAt, this`firstQueuedAt
    {
      Tx(id, target, txBuf, txSeq, synNeeded, closeReq, finSent, finSentAt, firstQueuedAt)
    }

    ghost function Log(): Runs.Sender
      reads this`txBuf, this`txSeq, this`synNeeded, this`closeReq, this`finSent, this`finSentAt, this`firstQueuedAt
      reads this`stream, this`emitted
    {
      Runs.Sender(TxState(), stream, emitted)
    }

    ghost function RxState(): Rx
      reads this`rxSeq, this`rxQueue, this`rxClosed
    {
      Rx(rxSeq, rxQueue, rxClosed)
    }

    /** The receiving half as a whole. */
    ghost function Side(): RxChannel.Side
      reads this`rxSeq, this`rxQueue, this`rxClosed, this`rxInbox, this`stopped, this`rxChan, this`rxChanClosed,
            this`loop
      reads this`panicked, this`have, this`delivered, this`sent
    {
      RxChannel.Side(rxInbox, Received(), loop, rxChan, Closes(), stopped, sent, panicked)
    }

    ghost function Closes(): nat
      reads this`rxChanClosed
    {
      if rxChanClosed then 1 else 0
    }

    ghost predicate LaterOnly()
      reads this`rxSeq, this`rxQueue, this`rxClosed
    {
      !rxClosed ==> forall k: nat :: k in rxQueue ==> k > rxSeq
    }

    /** The sending half is as its history says, the receive queue holds later numbers only, and the channel is
        closed at most once. */
    ghost predicate Valid()
      reads this`txBuf, this`txSeq, this`synNeeded, this`closeReq, this`finSent, this`finSentAt, this`firstQueuedAt
      reads this`rxSeq, this`rxQueue, this`rxClosed, this`rxChanClosed, this`loop, this`stream, this`emitted
    {
      && Runs.Inv(Log(), client)
      && LaterOnly()
      && RxChannel.ClosesOnce(loop, rxClosed, Closes())
    }

    constructor (id: SessionID, target: bytes, needsSyn: bool, now: nat, ghost opener: ClientID)
      ensures Valid() && Log() == Runs.NewSender(id, target, needsSyn, now) && RxState() == EMPTY
      ensures this.id == id && this.target == target && client == needsSyn && this.opener == opener
      ensures heardFrom == {} && arrived == [] && Side() == RxChannel.NEW_SIDE
    {
      this.id, this.target := id, target;
      txBuf, txSeq, synNeeded, closeReq, finSent := [], 0, needsSyn, false, false;
      finSentAt, firstQueuedAt := 0, if needsSyn then now else 0;
      rxSeq, rxQueue, rxClosed, rxInbox, stopped := 0, map[], false, [], false;
      rxChan, rxChanClosed, loop, panicked := [], false, RxChannel.Selecting, false;
      have, delivered, sent := map[], [], [];
      client, this.opener := needsSyn, opener;
      stream, emitted, heardFrom, arrived := [], [], {}, [];
    }

    /** One attempt of EnqueueTx: a writer that finds the buffer over the high-water mark waits and
        tries again after the next drain or close. */
    method EnqueueTx(data: bytes, now: nat) returns (outcome: WriteOutcome)
      requires Valid()
      modifies this`txBuf, this`firstQueuedAt, this`stream
      ensures Valid()
      ensures outcome == if SessionTx.Blocked(old(TxState())) then Blocked else if old(closeReq) then Refused
              else Accepted
      ensures outcome == Blocked <==> old(|txBuf|) > TX_BUF_HIGH_WATER && !closeReq
      ensures outcome == Accepted ==> !closeReq && |txBuf| <= TX_BUF_HIGH_WATER + |data|
      ensures Log() == if outcome == Blocked then old(Log()) else Runs.Next(old(Log()), Runs.Write(data, now))
      ensures outcome != Accepted ==> Log() == old(Log())
    {
      Runs.StepInv(Log(), Runs.Write(data, now), client);
      if |txBuf| > TX_BUF_HIGH_WATER && !closeReq {
        return Blocked;
      }
      if closeReq {
        return Refused;
      }
      txBuf := txBuf + data;
      stream := stream + data;
      if firstQueuedAt == 0 {
        firstQueuedAt := now;
      }
      return Accepted;
    }

    method EnqueueInitialData(data: bytes, now: nat) returns (outcome: WriteOutcome)
      requires Valid()
      modifies this`txBuf, this`firstQueuedAt, this`stream
      ensures Valid()
      ensures outcome == if old(synNeeded) then Accepted
                         else if SessionTx.Blocked(old(TxState())) then Blocked
                         else if old(closeReq) then Refused else Accepted
      ensures Log() == if outcome == Blocked then old(Log()) else Runs.Next(old(Log()), Runs.WriteInitial(data, now))
    {
      if !synNeeded {
        outcome := EnqueueTx(data, now);
        return;
      }
      Runs.StepInv(Log(), Runs.WriteInitial(data, now), client);
      txBuf := data + txBuf;
      stream := data + stream;
      if firstQueuedAt == 0 {
        firstQueuedAt := now;
      }
      return Accepted;
    }

    method RequestClose(now: nat)
      requires Valid()
      modifies this`closeReq, this`firstQueuedAt
      ensures Valid() && Log() == Runs.Next(old(Log()), Runs.CloseRequest(now))
    {
      Runs.StepInv(Log(), Runs.CloseRequest(now), client);
      closeReq := true;
      if firstQueuedAt == 0 {
        firstQueuedAt := now;
      }
    }

    method HasPendingTx() returns (b: bool)
      ensures b == HasPending(TxState())
      ensures b <==> Pending(TxState(), 1) != []
    {
      PendingCount(TxState(), 1);
      b := synNeeded || |txBuf| > 0 || (closeReq && !finSent);
    }

    method IsDone(now: nat) returns (b: bool)
      ensures b <==> finSent && (rxClosed || (finSentAt != 0 && now > finSentAt + SESSION_FINAL_TIMEOUT))
    {
      if finSent && rxClosed {
        return true;
      }
      if finSent && finSentAt != 0 && now - finSentAt > SESSION_FINAL_TIMEOUT {
        return true;
      }
      return false;
    }

    /** Midway through a drain that started in t: the frames so far are the first ones owed then. */
    ghost predicate Midway(t: Tx, cap: nat, frames: seq<Frame>)
      requires cap > 0
      reads this
    {
      var bs := Bodies(t, cap);
      && |frames| <= |bs| && frames == Pending(t, cap)[..|frames|]
      && TxState() == t.(buf := Concat(bs[|frames|..]), next := t.next + |frames|,
                         synNeeded := t.synNeeded && frames == [])
    }

    method TakeSyn(chunk: nat, ghost t: Tx, ghost cap: nat) returns (frames: seq<Frame>)
      requires synNeeded && cap > 0 && (|txBuf| > 0 ==> chunk == cap) && t == TxState()
      modifies this`txBuf, this`txSeq, this`synNeeded
      ensures Midway(t, cap, frames) && |frames| == 1
    {
      hide Pending, Bodies;
      FirstFrame(t, cap);
      var payload := [];
      if |txBuf| > 0 {
        var n := Min(|txBuf|, chunk);
        payload := txBuf[..n];
        txBuf := txBuf[n..];
      }
      frames := [Frame(id, txSeq, FLAG_SYN, target, payload)];
      txSeq := txSeq + 1;
      synNeeded := false;
    }

    method TakeChunks(chunk: nat, maxFrames: int, taken: seq<Frame>, ghost t: Tx, ghost cap: nat)
      returns (frames: seq<Frame>)
      requires cap > 0 && (|t.buf| > 0 ==> chunk == cap) && Midway(t, cap, taken) && !synNeeded
      requires maxFrames > 0 ==> |taken| <= maxFrames
      modifies this`txBuf, this`txSeq
      ensures Midway(t, cap, frames) && |taken| <= |frames| && (maxFrames > 0 ==> |frames| <= maxFrames)
      ensures txBuf != [] ==> maxFrames > 0 && |frames| == maxFrames
    {
      frames := taken;
      while |txBuf| > 0 && (maxFrames <= 0 || |frames| < maxFrames)
        invariant Midway(t, cap, frames) && !synNeeded && |taken| <= |frames|
        invariant maxFrames > 0 ==> |frames| <= maxFrames
        decreases |txBuf|
      {
        ChunkStep(t, cap, |frames|, txBuf);
        var n := Min(|txBuf|, chunk);
        frames := frames + [Frame(id, txSeq, 0, [], txBuf[..n])];
        txSeq := txSeq + 1;
        txBuf := txBuf[n..];
      }
    }

    method TakeFin(maxFrames: int, taken: seq<Frame>, now: nat, ghost t: Tx, ghost cap: nat)
        returns (frames: seq<Frame>)
      requires cap > 0 && Midway(t, cap, taken) && !synNeeded && HasPending(t)
      requires maxFrames > 0 ==> |taken| <= maxFrames
      requires txBuf != [] ==> maxFrames > 0 && |taken| == maxFrames
      modifies this`txSeq, this`finSent, this`finSentAt, this`firstQueuedAt
      ensures var m := Quota(t, cap, maxFrames);
              frames == Pending(t, cap)[..m] && TxState() == Drained(t, cap, m, now)
    {
      PendingCount(t, cap);
      DrainEnds(t, cap, maxFrames, |taken|, now);
      frames := taken;
      if closeReq && !finSent && (maxFrames <= 0 || |frames| < maxFrames) {
        frames := frames + [Frame(id, txSeq, FLAG_FIN, [], [])];
        txSeq := txSeq + 1;
        finSent := true;
        finSentAt := now;
      }
      if !synNeeded && |txBuf| == 0 && !(closeReq && !finSent) {
        firstQueuedAt := 0;
      }
    }

    method TakeFrames(maxPayload: int, maxFrames: int, now: nat) returns (frames: seq<Frame>)
      requires HasPending(TxState())
      modifies this`txBuf, this`txSeq, this`synNeeded, this`finSent, this`finSentAt, this`firstQueuedAt
      ensures var t := old(TxState());
              var cap := ChunkCap(t, maxPayload);
              var m := Quota(t, cap, maxFrames);
              frames == Pending(t, cap)[..m] && TxState() == Drained(t, cap, m, now)
    {
      ghost var t := TxState();
      ghost var cap := ChunkCap(t, maxPayload);
      var chunk := if maxPayload > 0 then maxPayload else |txBuf|;
      frames := [];
      if synNeeded {
        frames := TakeSyn(chunk, t, cap);
      } else {
        BodiesCover(t, cap);
        assert Bodies(t, cap)[0..] == Bodies(t, cap);
      }
      frames := TakeChunks(chunk, maxFrames, frames, t, cap);
      frames := TakeFin(maxFrames, frames, now, t, cap);
    }

    /** drainTx: emits the first min(maxFrames, N) of the N frames owed, and keeps owing the others. */
    method DrainTx(maxPayload: int, maxFrames: int, now: nat) returns (frames: seq<Frame>)
      requires Valid()
      modifies this`txBuf, this`txSeq, this`synNeeded, this`finSent, this`finSentAt, this`firstQueuedAt, this`emitted
      ensures Valid() && Log() == Runs.Next(old(Log()), Runs.Drain(maxPayload, maxFrames, now))
      ensures emitted == old(emitted) + frames
      ensures var t := old(TxState());
              var cap := ChunkCap(t, maxPayload);
              var m := Quota(t, cap, maxFrames);
              frames == Pending(t, cap)[..m] && TxState() == Drained(t, cap, m, now)
    {
      hide Runs.Inv, Pending, Drained;
      ghost var log := Log();
      if !synNeeded && |txBuf| == 0 && !(closeReq && !finSent) {
        NothingOwed(TxState(), ChunkCap(TxState(), maxPayload), now);
        frames := [];
      } else {
        frames := TakeFrames(maxPayload, maxFrames, now);
      }
      emitted := emitted + frames;
      Runs.StepInv(log, Runs.Drain(maxPayload, maxFrames, now), client);
    }

    method CloseRx()
      requires Valid()
      modifies this`rxClosed, this`rxChanClosed
      ensures Valid() && rxClosed && rxChanClosed == (old(rxChanClosed) || !old(rxClosed))
      ensures !panicked ==> RxChannel.Takes(old(Side()), RxChannel.CloseRx, Side())
    {
      if !rxClosed {
        rxClosed := true;
        rxChanClosed := true;
      }
    }

    method Stop()
      requires Valid()
      modifies this`stopped
      ensures Valid() && stopped
      ensures !panicked ==> RxChannel.Takes(old(Side()), RxChannel.Stop, Side())
    {
      stopped := true;
    }

    /** The locked first half of ProcessRx: whether the frame goes on to the inbox. */
    method EnterRx(ghost from: ClientID) returns (open: bool)
      requires Valid()
      modifies this`heardFrom
      ensures Valid() && heardFrom == old(heardFrom) + {from} && open == !rxClosed
    {
      heardFrom := heardFrom + {from};
      open := !rxClosed;
    }

    /** The second half, once its select has fired: the frame goes to the inbox if there is room, is dropped
        when the session is stopped, and a full inbox that stays full stops the session. */
    method OfferRx(f: Frame) returns (queued: bool)
      requires Valid()
      modifies this`rxInbox, this`arrived, this`stopped
      ensures Valid() && (queued ==> |old(rxInbox)| < RxChannel.INBOX_CAP && stopped == old(stopped))
      ensures rxInbox == if queued then old(rxInbox) + [f] else old(rxInbox)
      ensures arrived == if queued then old(arrived) + [f] else old(arrived)
      ensures !queued ==> stopped && (old(stopped) || |old(rxInbox)| >= RxChannel.INBOX_CAP)
      ensures !panicked ==>
                RxChannel.Takes(old(Side()), if queued then RxChannel.Arrive(f) else RxChannel.Stop, Side())
    {
      hide Runs.Inv, Session.LaterOnly, RxChannel.ClosesOnce;
      var stopWins :| !stopWins || stopped;
      if |rxInbox| < RxChannel.INBOX_CAP && !stopWins {
        rxInbox, arrived := rxInbox + [f], arrived + [f];
        return true;
      }
      stopped := true;
      return false;
    }

    method DeliverInOrder(f: Frame) returns (toSend: seq<bytes>, closeAfter: bool)
      requires !rxClosed && f.seqNo == rxSeq && forall k: nat :: k in rxQueue ==> k > rxSeq
      modifies this`rxSeq, this`rxQueue, this`rxClosed
      ensures var m, held := old(rxSeq), old(rxQueue)[f.seqNo := f];
              var n := Frontier(held, m);
              && m < n == rxSeq && rxClosed == closeAfter == held[n - 1].IsFin()
              && toSend == NonEmptyPayloads(Span(held, m, n))
              && (forall k: nat :: k in rxQueue <==> k in held && k >= n)
              && (forall k: nat :: k in rxQueue ==> rxQueue[k] == held[k])
    {
      ghost var m, held := rxSeq, rxQueue[f.seqNo := f];
      ghost var n := Frontier(held, m);
      var cur := f;
      toSend, closeAfter := [], false;
      assert m in held;
      while true
        invariant m <= rxSeq < n && !rxClosed && !closeAfter
        invariant held[rxSeq] == cur
        invariant forall k: nat :: k in rxQueue <==> k in held && k > rxSeq
        invariant forall k: nat :: k in rxQueue ==> rxQueue[k] == held[k]
        invariant toSend == NonEmptyPayloads(Span(held, m, rxSeq))
        decreases n - rxSeq
      {
        FrontierTurn(held, m, n, rxSeq);
        if cur.payload != [] {
          toSend := toSend + [cur.payload];
        }
        rxSeq := rxSeq + 1;
        if cur.IsFin() {
          rxClosed := true;
          closeAfter := true;
          break;
        }
        if rxSeq !in rxQueue {
          break;
        }
        cur := rxQueue[rxSeq];
        rxQueue := rxQueue - {rxSeq};
      }
    }

    /** The locked part of deliverRx. */
    method DeliverRx(f: Frame) returns (toSend: seq<bytes>, closeAfter: bool, stop: bool)
      requires LaterOnly()
      modifies this`rxSeq, this`rxQueue, this`rxClosed
      ensures LaterOnly()
      ensures var d := Deliver(old(RxState()), f);
              RxState() == d.rx && toSend == d.toSend && closeAfter == d.closeAfter && stop == d.stop
    {
      if rxClosed {
        return [], false, true;
      }
      if f.seqNo < rxSeq {
        return [], false, false;
      }
      if f.seqNo > rxSeq {
        rxQueue := rxQueue[f.seqNo := f];
        return [], false, false;
      }
      toSend, closeAfter := DeliverInOrder(f);
      stop := closeAfter;
      ghost var m, held := old(rxSeq), old(rxQueue)[f.seqNo := f];
      assert rxQueue == map k | k in held && !(m <= k < rxSeq) :: held[k];
    }

    // ----- rxLoop -----

    /** rxLoop takes a frame from the inbox and runs the locked part of deliverRx. */
    method AcceptRx()
      requires Valid() && RxChannel.Enabled(Side(), RxChannel.Accept)
      modifies this`rxInbox, this`rxSeq, this`rxQueue, this`rxClosed, this`loop, this`have, this`delivered
      ensures Valid() && RxChannel.Takes(old(Side()), RxChannel.Accept, Side())
    {
      hide Runs.Inv, Deliver, Take, RxChannel.Next, RxChannel.Enabled, RxChannel.ClosesOnce, RxChannel.Taken,
           Session.LaterOnly, Session.Log;
      AcceptIs(Side());
      AcceptCloses(Side());
      var toSend, closeAfter, stop := TakeFrame();
      loop := RxChannel.Taken(toSend, closeAfter, stop);
    }

    ghost function Received(): Receiver
      reads this`rxSeq, this`rxQueue, this`rxClosed, this`have, this`delivered
    {
      Receiver(RxState(), have, delivered)
    }

    method TakeFrame() returns (toSend: seq<bytes>, closeAfter: bool, stop: bool)
      requires LaterOnly() && rxInbox != []
      modifies this`rxInbox, this`rxSeq, this`rxQueue, this`rxClosed, this`have, this`delivered
      ensures LaterOnly() && rxInbox == old(rxInbox)[1..] && Received() == Take(old(Received()), old(rxInbox)[0])
      ensures var d := Deliver(old(RxState()), old(rxInbox)[0]);
              rxClosed == d.rx.closed && toSend == d.toSend && closeAfter == d.closeAfter && stop == d.stop
    {
      hide Deliver, Session.LaterOnly;
      var f := rxInbox[0];
      ghost var r := Take(Received(), f);
      rxInbox := rxInbox[1..];
      toSend, closeAfter, stop := DeliverRx(f);
      have, delivered := r.have, r.delivered;
    }

    /** One turn of the send loop of deliverRx. */
    method SendRx()
      requires Valid() && RxChannel.Enabled(Side(), RxChannel.Send)
      modifies this`rxChan, this`loop, this`sent, this`panicked
      ensures Valid() && RxChannel.Takes(old(Side()), RxChannel.Send, Side())
    {
      hide Runs.Inv, Session.LaterOnly;
      if rxChanClosed {
        panicked := true;
        return;
      }
      var p := loop.toSend[0];
      rxChan, sent := rxChan + [p], sent + p;
      loop := loop.(toSend := loop.toSend[1..]);
    }

    /** deliverRx gives up its sends when the session is stopped. */
    method AbandonRx()
      requires Valid() && RxChannel.Enabled(Side(), RxChannel.SendStopped)
      modifies this`loop, this`rxChanClosed
      ensures Valid() && RxChannel.Takes(old(Side()), RxChannel.SendStopped, Side())
    {
      hide Runs.Inv, Session.LaterOnly;
      if loop.closeAfter {
        rxChanClosed := true;
      }
      loop := RxChannel.Leaving;
    }

    /** deliverRx after its last send. */
    method FinishRx()
      requires Valid() && RxChannel.Enabled(Side(), RxChannel.Finish)
      modifies this`loop, this`rxChanClosed, this`stopped
      ensures Valid() && RxChannel.Takes(old(Side()), RxChannel.Finish, Side())
    {
      hide Runs.Inv, Session.LaterOnly;
      if loop.closeAfter {
        rxChanClosed, stopped, loop := true, true, RxChannel.Leaving;
      } else {
        loop := RxChannel.Selecting;
      }
    }

    /** The deferred close of rxLoop. */
    method LeaveRx()
      requires Valid() && RxChannel.Enabled(Side(), RxChannel.Defer)
      modifies this`loop, this`rxClosed, this`rxChanClosed
      ensures Valid() && RxChannel.Takes(old(Side()), RxChannel.Defer, Side())
    {
      hide Runs.Inv;
      if !rxClosed {
        rxClosed, rxChanClosed := true, true;
      }
      loop := RxChannel.Gone;
    }

    predicate CanStep(e: RxChannel.Event)
      reads this`rxInbox, this`loop, this`stopped, this`rxChan, this`rxChanClosed, this`panicked
    {
      && !panicked
      && match e
         case Accept => loop.Selecting? && rxInbox != []
         case SeeStop => loop.Selecting? && stopped
         case Send => loop.Sending? && loop.toSend != [] && (rxChanClosed || |rxChan| < RxChannel.RX_CHAN_CAP)
         case SendStopped => loop.Sending? && loop.toSend != [] && stopped
         case Finish => loop.Sending? && loop.toSend == []
         case Defer => loop.Leaving?
         case Receive => rxChan != []
         case _ => false
    }

    /** The step e of rxLoop, or of the reader of its channel, if it is one they can take now. */
    method RxStep(e: RxChannel.Event) returns (taken: bool)
      requires Valid() && RxChannel.OfLoop(e)
      modifies this`rxInbox, this`rxSeq, this`rxQueue, this`rxClosed, this`loop, this`have, this`delivered, this`sent,
               this`rxChan, this`rxChanClosed, this`stopped, this`panicked
      ensures Valid() && (taken <==> RxChannel.Enabled(old(Side()), e))
      ensures Side() == if taken then RxChannel.Next(old(Side()), e) else old(Side())
      ensures (old(rxClosed) ==> rxClosed) && (old(stopped) ==> stopped)
    {
      hide Runs.Inv, Deliver, Take;
      taken := CanStep(e);
      if taken {
        if rxClosed { RxChannel.StaysClosed(Side(), e); }
        match e
        case Accept => AcceptRx();
        case SeeStop => loop := RxChannel.Leaving;
        case Send => SendRx();
        case SendStopped => AbandonRx();
        case Finish => FinishRx();
        case Defer => LeaveRx();
        case Receive => rxChan := rxChan[1..];
      }
    }
  }

  lemma AcceptIs(s: RxChannel.Side)
    requires RxChannel.Enabled(s, RxChannel.Accept)
    ensures var d := Deliver(s.recv.rx, s.inbox[0]);
            && s.inbox != [] && Take(s.recv, s.inbox[0]).rx == d.rx
            && RxChannel.Next(s, RxChannel.Accept)
                 == s.(inbox := s.inbox[1..], recv := Take(s.recv, s.inbox[0]),
                       loop := RxChannel.Taken(d.toSend, d.closeAfter, d.stop))
  {
  }

  lemma AcceptCloses(s: RxChannel.Side)
    requires RxChannel.Enabled(s, RxChannel.Accept) && RxChannel.ClosesOnce(s.loop, s.recv.rx.closed, s.closes)
    ensures var d := Deliver(s.recv.rx, s.inbox[0]);
            RxChannel.ClosesOnce(RxChannel.Taken(d.toSend, d.closeAfter, d.stop), d.rx.closed, s.closes)
  {
  }

  /** The SYN takes the first chunk with it. */
  lemma FirstFrame(t: Tx, cap: nat)
    requires cap > 0 && t.synNeeded
    ensures var n := Min(|t.buf|, cap);
            && |Bodies(t, cap)| >= 1 && |Pending(t, cap)| >= 1 && Concat(Bodies(t, cap)[1..]) == t.buf[n..]
            && Pending(t, cap)[..1] == [Frame(t.id, t.next, FLAG_SYN, t.target, t.buf[..n])]
  {
    BodiesCover(t, cap);
    if t.buf != [] {
      ChunkAt(t.buf, cap, 0);
      assert Chunks(t.buf, cap)[0..] == Chunks(t.buf, cap);
    } else {
      assert Bodies(t, cap)[1..] == [];
    }
  }

  /** One turn of the delivery loop at number r. */
  lemma FrontierTurn(held: map<nat, Frame>, m: nat, n: nat, r: nat)
    requires IsFrontier(held, m, n) && m <= r < n
    ensures r in held && (held[r].IsFin() || r + 1 !in held <==> r + 1 == n)
    ensures NonEmptyPayloads(Span(held, m, r + 1))
         == NonEmptyPayloads(Span(held, m, r)) + if held[r].payload == [] then [] else [held[r].payload]
  {
    SpanGrows(held, m, r);
  }

  lemma SpanGrows(held: map<nat, Frame>, a: nat, b: nat)
    requires a <= b && forall i: nat :: a <= i <= b ==> i in held
    ensures NonEmptyPayloads(Span(held, a, b + 1))
         == NonEmptyPayloads(Span(held, a, b)) + if held[b].payload == [] then [] else [held[b].payload]
  {
    assert Span(held, a, b + 1) == Span(held, a, b) + [held[b]];
    NonEmptyPayloadsAppend(Span(held, a, b), held[b]);
  }

  lemma {:induction false} NonEmptyPayloadsAppend(fs: seq<Frame>, f: Frame)
    ensures NonEmptyPayloads(fs + [f]) == NonEmptyPayloads(fs) + if f.payload == [] then [] else [f.payload]
  {
    if fs == [] {
      assert fs + [f] == [f] && [f][1..] == [];
    } else {
      assert (fs + [f])[1..] == fs[1..] + [f];
      NonEmptyPayloadsAppend(fs[1..], f);
    }
  }

  lemma NothingOwed(t: Tx, cap: nat, now: nat)
    requires cap > 0 && !HasPending(t)
    ensures Pending(t, cap) == [] && Drained(t, cap, 0, now) == t
  {
    PendingCount(t, cap);
    assert Bodies(t, cap)[0..] == [];
  }

  /** One turn of the payload loop takes the next chunk owed. */
  lemma ChunkStep(t: Tx, cap: nat, j: nat, rest: bytes)
    requires cap > 0 && j <= |Bodies(t, cap)| && rest == Concat(Bodies(t, cap)[j..]) && rest != []
    requires t.synNeeded ==> j > 0
    ensures j < |Bodies(t, cap)| && t.buf != []
    ensures var n := Min(|rest|, cap);
            rest[n..] == Concat(Bodies(t, cap)[j + 1..])
            && Pending(t, cap)[..j] + [Frame(t.id, t.next + j, 0, [], rest[..n])] == Pending(t, cap)[..j + 1]
  {
    assert |Bodies(t, cap)[j..]| == |Bodies(t, cap)| - j;
    ChunkAt(t.buf, cap, j);
  }

  /** The FIN and the timestamp: what a drain leaves once the payload loop stopped after j frames. */
  lemma DrainEnds(t: Tx, cap: nat, maxFrames: int, j: nat, now: nat)
    requires cap > 0 && j <= |Bodies(t, cap)| && (t.synNeeded ==> j > 0) && Pending(t, cap) != []
    requires maxFrames > 0 ==> j <= maxFrames
    requires Concat(Bodies(t, cap)[j..]) != [] ==> maxFrames > 0 && j == maxFrames
    ensures var rest := Concat(Bodies(t, cap)[j..]);
            var fin := t.closeReq && !t.finSent && (maxFrames <= 0 || j < maxFrames);
            var m := if fin then j + 1 else j;
            && m == Quota(t, cap, maxFrames)
            && Pending(t, cap)[..m] == Pending(t, cap)[..j] + (if fin then [FinFrame(t, j)] else [])
            && Drained(t, cap, m, now) == t.(buf := rest, next := t.next + m, synNeeded := false,
                 finSent := t.finSent || fin, finSentAt := if fin then now else t.finSentAt,
                 queuedAt := if rest == [] && !(t.closeReq && !t.finSent && !fin) then 0 else t.queuedAt)
  {
    if t.synNeeded && t.buf == [] {
      assert Bodies(t, cap)[j..] == [];
    } else {
      ChunkAt(t.buf, cap, j);
    }
  }
}
