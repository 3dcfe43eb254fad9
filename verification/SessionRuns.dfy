/** Whole runs of the sending half: conservation of the byte stream, sequence numbering,
    finality of the FIN, and the order in which writes come out. */
module SessionRuns {
  import opened Bytes
  import opened Frames
  import opened SessionTx

  datatype TxEvent =
    | Write(data: bytes, now: nat)          // EnqueueTx, once it is no longer blocked
    | WriteInitial(data: bytes, now: nat)   // EnqueueInitialData, what VirtualConn.Write calls
    | CloseRequest(now: nat)
    | Drain(maxPayload: int, maxFrames: int, now: nat)

  /** A sender with its history: the stream it accepted and the frames it emitted. */
  datatype Sender = Sender(tx: Tx, stream: bytes, emitted: seq<Frame>)

  function NewSender(id: SessionID, target: bytes, needsSyn: bool, now: nat): Sender {
    Sender(Fresh(id, target, needsSyn, now), [], [])
  }

  function Next(s: Sender, e: TxEvent): Sender {
    match e
    case Write(data, now) =>
      Sender(Enqueue(s.tx, data, now), if s.tx.closeReq then s.stream else s.stream + data, s.emitted)
    case WriteInitial(data, now) =>
      Sender(EnqueueInitial(s.tx, data, now),
             if s.tx.synNeeded then data + s.stream else if s.tx.closeReq then s.stream else s.stream + data,
             s.emitted)
    case CloseRequest(now) =>
      s.(tx := Close(s.tx, now))
    case Drain(maxPayload, maxFrames, now) =>
      var cap := ChunkCap(s.tx, maxPayload);
      var m := Quota(s.tx, cap, maxFrames);
      s.(tx := Drained(s.tx, cap, m, now), emitted := s.emitted + Pending(s.tx, cap)[..m])
  }

  function Run(s: Sender, es: seq<TxEvent>): Sender
    decreases |es|
  {
    if es == [] then s else Run(Next(s, es[0]), es[1..])
  }

  /** Frame i of a sender: numbered i, SYN and target exactly on frame 0 of a client session,
      FIN exactly on the last frame once the FIN is out. */
  predicate WellFormed(s: Sender, client: bool, i: nat)
    requires i < |s.emitted|
  {
    var f := s.emitted[i];
    && f.id == s.tx.id && f.seqNo == i
    && f.flags == (if client && i == 0 then FLAG_SYN else if s.tx.finSent && i == |s.emitted| - 1 then FLAG_FIN else 0)
    && f.target == (if client && i == 0 then s.tx.target else [])
    && (f.flags == FLAG_FIN ==> f.payload == [])
  }

  ghost predicate Inv(s: Sender, client: bool) {
    && Payloads(s.emitted) + s.tx.buf == s.stream
    && s.tx.next == |s.emitted|
    && (s.tx.synNeeded <==> client && s.emitted == [])
    && (s.tx.finSent ==> s.tx.closeReq && s.tx.buf == [] && |s.emitted| > (if client then 1 else 0))
    && forall i: nat :: i < |s.emitted| ==> WellFormed(s, client, i)
  }

  lemma {:induction false} PayloadsOfBodies(fs: seq<Frame>, bs: seq<bytes>)
    requires |fs| == |bs| && forall i :: 0 <= i < |fs| ==> fs[i].payload == bs[i]
    ensures Payloads(fs) == Concat(bs)
  {
    if fs != [] {
      PayloadsOfBodies(fs[1..], bs[1..]);
    }
  }

  lemma PendingPayloads(t: Tx, cap: nat, m: nat)
    requires cap > 0 && m <= |Pending(t, cap)|
    ensures Payloads(Pending(t, cap)[..m]) == Concat(Bodies(t, cap)[..Min(m, |Bodies(t, cap)|)])
  {
    var bs, fs := Bodies(t, cap), Pending(t, cap);
    var k := Min(m, |bs|);
    PayloadsOfBodies(fs[..k], bs[..k]);
    if m > k {
      assert fs[..m] == fs[..k] + [FinFrame(t, k)];
      PayloadsAppend(fs[..k], [FinFrame(t, k)]);
      assert Payloads([FinFrame(t, k)]) == [] + Payloads([]);
    }
  }

  lemma PendingPayloadCap(t: Tx, cap: nat)
    requires cap > 0
    ensures forall i :: 0 <= i < |Pending(t, cap)| ==> |Pending(t, cap)[i].payload| <= cap
  {
    BodiesCover(t, cap);
    var bs := Bodies(t, cap);
    assert forall i :: 0 <= i < |bs| ==> bs[i] in bs;
  }

  /** No byte is lost or made up between the buffer and the emitted payloads. */
  lemma DrainConserves(t: Tx, cap: nat, m: nat, now: nat)
    requires cap > 0 && m <= |Pending(t, cap)|
    ensures Payloads(Pending(t, cap)[..m]) + Drained(t, cap, m, now).buf == t.buf
  {
    var bs := Bodies(t, cap);
    var k := Min(m, |bs|);
    PendingPayloads(t, cap, m);
    ConcatAppend(bs[..k], bs[k..]);
    assert bs[..k] + bs[k..] == bs;
    BodiesCover(t, cap);
  }

  lemma DrainStream(s: Sender, cap: nat, m: nat, now: nat)
    requires cap > 0 && m <= |Pending(s.tx, cap)|
    ensures Payloads(s.emitted + Pending(s.tx, cap)[..m]) + Drained(s.tx, cap, m, now).buf
         == Payloads(s.emitted) + s.tx.buf
  {
    hide Pending, Drained, Payloads;
    var out := Pending(s.tx, cap)[..m];
    DrainConserves(s.tx, cap, m, now);
    PayloadsAppend(s.emitted, out);
    var rest := Drained(s.tx, cap, m, now).buf;
    assert (Payloads(s.emitted) + Payloads(out)) + rest == Payloads(s.emitted) + (Payloads(out) + rest);
  }

  lemma DrainFrames(s: Sender, cap: nat, m: nat, now: nat, client: bool)
    requires Inv(s, client) && cap > 0 && m <= |Pending(s.tx, cap)|
    ensures var s' := s.(tx := Drained(s.tx, cap, m, now), emitted := s.emitted + Pending(s.tx, cap)[..m]);
            forall i: nat :: i < |s'.emitted| ==> WellFormed(s', client, i)
  {
    var s' := s.(tx := Drained(s.tx, cap, m, now), emitted := s.emitted + Pending(s.tx, cap)[..m]);
    forall i: nat | i < |s'.emitted| ensures WellFormed(s', client, i) {
      if i < |s.emitted| {
        assert WellFormed(s, client, i);
        assert s'.emitted[i] == s.emitted[i];
      } else {
        assert s'.emitted[i] == Pending(s.tx, cap)[i - |s.emitted|];
      }
    }
  }

  lemma DrainInv(s: Sender, maxPayload: int, maxFrames: int, now: nat, client: bool)
    requires Inv(s, client)
    ensures Inv(Next(s, Drain(maxPayload, maxFrames, now)), client)
  {
    var cap := ChunkCap(s.tx, maxPayload);
    var m := Quota(s.tx, cap, maxFrames);
    DrainStream(s, cap, m, now);
    DrainFrames(s, cap, m, now, client);
    PendingCount(s.tx, cap);
    var bs := Bodies(s.tx, cap);
    assert m > |bs| ==> bs[|bs|..] == [];
  }

  lemma StepInv(s: Sender, e: TxEvent, client: bool)
    requires Inv(s, client)
    ensures Inv(Next(s, e), client)
  {
    match e
    case Drain(maxPayload, maxFrames, now) =>
      DrainInv(s, maxPayload, maxFrames, now, client);
    case WriteInitial(data, now) =>
      var s' := Next(s, e);
      if !s.tx.synNeeded && !s.tx.closeReq {
        assert Payloads(s.emitted) + (s.tx.buf + data) == (Payloads(s.emitted) + s.tx.buf) + data;
      }
      forall i: nat | i < |s'.emitted| ensures WellFormed(s', client, i) { assert WellFormed(s, client, i); }
    case Write(data, now) =>
      var s' := Next(s, e);
      assert Payloads(s.emitted) + (s.tx.buf + data) == (Payloads(s.emitted) + s.tx.buf) + data;
      forall i: nat | i < |s'.emitted| ensures WellFormed(s', client, i) { assert WellFormed(s, client, i); }
    case CloseRequest(now) =>
      var s' := Next(s, e);
      forall i: nat | i < |s'.emitted| ensures WellFormed(s', client, i) { assert WellFormed(s, client, i); }
  }

  lemma {:induction false} RunInv(s: Sender, es: seq<TxEvent>, client: bool)
    requires Inv(s, client)
    ensures Inv(Run(s, es), client)
    decreases |es|
  {
    if es != [] {
      StepInv(s, es[0], client);
      RunInv(Next(s, es[0]), es[1..], client);
    }
  }

  // ----- the FIN is final -----

  lemma {:induction false} EmittedGrows(s: Sender, es: seq<TxEvent>)
    ensures s.emitted <= Run(s, es).emitted
    ensures Run(s, es).tx.id == s.tx.id && Run(s, es).tx.target == s.tx.target
    decreases |es|
  {
    if es != [] {
      EmittedGrows(Next(s, es[0]), es[1..]);
    }
  }

  /** Once the FIN is out, no continuation emits a frame or accepts a byte. */
  lemma {:induction false} FinIsFinal(s: Sender, es: seq<TxEvent>, client: bool)
    requires Inv(s, client) && s.tx.finSent
    ensures Run(s, es).emitted == s.emitted && Run(s, es).stream == s.stream && !HasPending(Run(s, es).tx)
    decreases |es|
  {
    if es != [] {
      StepInv(s, es[0], client);
      if es[0].Drain? {
        PendingCount(s.tx, ChunkCap(s.tx, es[0].maxPayload));
      }
      FinIsFinal(Next(s, es[0]), es[1..], client);
    }
  }

  lemma {:induction false} RunAppend(s: Sender, es: seq<TxEvent>, e: TxEvent)
    ensures Run(s, es + [e]) == Next(Run(s, es), e)
    decreases |es|
  {
    hide Next;
    if es == [] {
      assert es + [e] == [e] && [e][1..] == [];
    } else {
      assert (es + [e])[1..] == es[1..] + [e];
      RunAppend(Next(s, es[0]), es[1..], e);
    }
  }

  /** Step i of a run is the drain, at this time, that emitted the FIN. */
  ghost predicate FinAt(s0: Sender, es: seq<TxEvent>, i: nat, at: nat)
    requires i < |es|
  {
    && es[i].Drain? && es[i].now == at && !Run(s0, es[..i]).tx.finSent
    && var out := Run(s0, es[..i + 1]).emitted;
       |out| > |Run(s0, es[..i]).emitted| && out[|out| - 1].IsFin()
  }

  /** finSentAt is the time of the drain that emitted the FIN. */
  lemma {:induction false} FinTime(id: SessionID, target: bytes, client: bool, start: nat, es: seq<TxEvent>)
    ensures var s0 := NewSender(id, target, client, start);
            Run(s0, es).tx.finSent ==> exists i: nat :: i < |es| && FinAt(s0, es, i, Run(s0, es).tx.finSentAt)
    decreases |es|
  {
    var s0 := NewSender(id, target, client, start);
    if es != [] {
      hide Next, Inv, FinAt, NewSender;
      var n := |es| - 1;
      var before, e := es[..n], es[n];
      assert es == before + [e];
      RunAppend(s0, before, e);
      FinTime(id, target, client, start, before);
      NewInv(id, target, client, start);
      RunInv(s0, before, client);
      var s, s' := Run(s0, before), Run(s0, es);
      if s'.tx.finSent && s.tx.finSent {
        FinStays(s, e, client);
        var i: nat :| i < n && FinAt(s0, before, i, s.tx.finSentAt);
        FinAtMore(s0, before, e, i, s.tx.finSentAt);
      } else if s'.tx.finSent {
        FinNow(s, e, client);
        FinAtLast(s0, before, e, s'.tx.finSentAt);
      }
    }
  }

  lemma NewInv(id: SessionID, target: bytes, client: bool, start: nat)
    ensures Inv(NewSender(id, target, client, start), client)
  {
    assert Payloads([]) == [];
  }

  lemma FinAtMore(s0: Sender, es: seq<TxEvent>, e: TxEvent, i: nat, at: nat)
    requires i < |es| && FinAt(s0, es, i, at)
    ensures FinAt(s0, es + [e], i, at)
  {
    assert (es + [e])[..i] == es[..i] && (es + [e])[..i + 1] == es[..i + 1];
  }

  lemma FinAtLast(s0: Sender, es: seq<TxEvent>, e: TxEvent, at: nat)
    requires e.Drain? && e.now == at && !Run(s0, es).tx.finSent
    requires var out := Run(s0, es + [e]).emitted; |out| > |Run(s0, es).emitted| && out[|out| - 1].IsFin()
    ensures FinAt(s0, es + [e], |es|, at)
  {
    assert (es + [e])[..|es|] == es && (es + [e])[..|es| + 1] == es + [e];
  }

  lemma FinStays(s: Sender, e: TxEvent, client: bool)
    requires Inv(s, client) && s.tx.finSent
    ensures Next(s, e).tx.finSentAt == s.tx.finSentAt
  {
  }

  lemma FinNow(s: Sender, e: TxEvent, client: bool)
    requires Inv(s, client) && !s.tx.finSent && Next(s, e).tx.finSent
    ensures e.Drain? && Next(s, e).tx.finSentAt == e.now
    ensures var out := Next(s, e).emitted; |out| > |s.emitted| && out[|out| - 1].IsFin()
  {
    StepInv(s, e, client);
    var s' := Next(s, e);
    assert WellFormed(s', client, |s'.emitted| - 1);
  }

  /** A session that sent its FIN has emitted its whole stream, FIN included. */
  lemma DoneLosesNothing(s: Sender, client: bool)
    requires Inv(s, client) && s.tx.finSent
    ensures Payloads(s.emitted) == s.stream && !HasPending(s.tx)
    ensures s.emitted != [] && s.emitted[|s.emitted| - 1].IsFin()
  {
    assert WellFormed(s, client, |s.emitted| - 1);
  }

  // ----- the place in the queue -----

  /** The queue time was set at step k, by the start or by a write or close that found none, and stands since. */
  ghost predicate Since(s0: Sender, es: seq<TxEvent>, k: nat, at: nat)
    requires k <= |es|
  {
    && (if k == 0 then s0.tx.queuedAt == at
        else !es[k - 1].Drain? && es[k - 1].now == at && Run(s0, es[..k - 1]).tx.queuedAt == 0)
    && forall j: nat :: k <= j <= |es| ==> Run(s0, es[..j]).tx.queuedAt == at
  }

  /** In every run a session that owes frames has a queue time, and that is the time of the first write or close
      since it last was drained completely (or started): neither partial drains nor later writes move it. */
  lemma {:induction false} QueuedSince(id: SessionID, target: bytes, client: bool, start: nat, es: seq<TxEvent>)
    requires start > 0 && forall e <- es :: e.now > 0
    ensures var s0 := NewSender(id, target, client, start);
            var t := Run(s0, es).tx;
            && (HasPending(t) ==> t.queuedAt > 0)
            && (t.queuedAt > 0 ==> exists k: nat :: k <= |es| && Since(s0, es, k, t.queuedAt))
    decreases |es|
  {
    var s0 := NewSender(id, target, client, start);
    if es == [] {
      if client { assert Since(s0, es, 0, start); }
    } else {
      var n := |es| - 1;
      var before, e := es[..n], es[n];
      assert es == before + [e];
      RunAppend(s0, before, e);
      QueuedSince(id, target, client, start, before);
      var s, at := Run(s0, before), Run(s0, es).tx.queuedAt;
      QueueStep(s, e);
      if at > 0 && s.tx.queuedAt > 0 {
        var k: nat :| k <= n && Since(s0, before, k, at);
        SinceMore(s0, before, e, k, at);
      } else if at > 0 {
        SinceNow(s0, before, e, at);
      }
    }
  }

  /** One step. */
  lemma QueueStep(s: Sender, e: TxEvent)
    requires e.now > 0 && (HasPending(s.tx) ==> s.tx.queuedAt > 0)
    ensures var t := Next(s, e).tx;
            && (HasPending(t) ==> t.queuedAt > 0)
            && (t.queuedAt > 0 ==> if s.tx.queuedAt > 0 then t.queuedAt == s.tx.queuedAt
                                   else !e.Drain? && t.queuedAt == e.now)
            && (e.Drain? && HasPending(s.tx) ==> (t.queuedAt == 0 <==> !HasPending(t)))
  {
    if e.Drain? {
      var cap := ChunkCap(s.tx, e.maxPayload);
      var m := Quota(s.tx, cap, e.maxFrames);
      PendingAfterDrain(s.tx, cap, m, e.now);
      PendingCount(s.tx, cap);
      PendingCount(Next(s, e).tx, cap);
    }
  }

  lemma SinceMore(s0: Sender, es: seq<TxEvent>, e: TxEvent, k: nat, at: nat)
    requires k <= |es| && Since(s0, es, k, at) && Run(s0, es + [e]).tx.queuedAt == at
    ensures Since(s0, es + [e], k, at)
  {
    hide Run;
    var more := es + [e];
    assert k > 0 ==> more[..k - 1] == es[..k - 1];
    forall j: nat | k <= j <= |more| ensures Run(s0, more[..j]).tx.queuedAt == at {
      assert more[..j] == if j <= |es| then es[..j] else more;
    }
  }

  lemma SinceNow(s0: Sender, es: seq<TxEvent>, e: TxEvent, at: nat)
    requires !e.Drain? && e.now == at && Run(s0, es).tx.queuedAt == 0 && Run(s0, es + [e]).tx.queuedAt == at
    ensures Since(s0, es + [e], |es| + 1, at)
  {
    hide Run;
    var more := es + [e];
    assert more[..|es|] == es && more[..|es| + 1] == more;
  }

  // ----- payload bound -----

  predicate DrainsCapped(es: seq<TxEvent>, cap: nat) {
    forall e <- es :: e.Drain? ==> 0 < e.maxPayload <= cap
  }

  lemma {:induction false} PayloadsCapped(s: Sender, es: seq<TxEvent>, cap: nat)
    requires DrainsCapped(es, cap)
    requires forall f <- s.emitted :: |f.payload| <= cap
    ensures forall f <- Run(s, es).emitted :: |f.payload| <= cap
    decreases |es|
  {
    if es != [] {
      assert es[0] in es;
      if es[0].Drain? {
        PendingPayloadCap(s.tx, ChunkCap(s.tx, es[0].maxPayload));
      }
      PayloadsCapped(Next(s, es[0]), es[1..], cap);
    }
  }

  // ----- the order of writes -----

  /** The data of the writes that were accepted, in the order of the calls. */
  function Accepted(s: Sender, es: seq<TxEvent>): bytes
    decreases |es|
  {
    if es == [] then []
    else
      var rest := Accepted(Next(s, es[0]), es[1..]);
      match es[0]
      case Write(data, _) => if s.tx.closeReq then rest else data + rest
      case WriteInitial(data, _) => if !s.tx.synNeeded && s.tx.closeReq then rest else data + rest
      case _ => rest
  }

  /** No connection write finds bytes already waiting behind an unsent SYN. */
  predicate NoEarlyPileUp(s: Sender, es: seq<TxEvent>)
    decreases |es|
  {
    es != [] ==>
      && (es[0].WriteInitial? && s.tx.synNeeded ==> s.tx.buf == [])
      && NoEarlyPileUp(Next(s, es[0]), es[1..])
  }

  /** Writes come out in call order as long as none of them meets a non-empty buffer before the SYN. */
  lemma {:induction false} WritesInOrder(s: Sender, es: seq<TxEvent>, client: bool)
    requires Inv(s, client) && NoEarlyPileUp(s, es)
    ensures Run(s, es).stream == s.stream + Accepted(s, es)
    decreases |es|
  {
    if es != [] {
      var s' := Next(s, es[0]);
      StepInv(s, es[0], client);
      WritesInOrder(s', es[1..], client);
      if es[0].Write? || es[0].WriteInitial? {
        var data, rest := es[0].data, Accepted(s', es[1..]);
        assert (s.stream + data) + rest == s.stream + (data + rest);
        if es[0].WriteInitial? && s.tx.synNeeded {
          assert s.stream == [];
          assert data + s.stream == s.stream + data;
        }
      }
    }
  }

  /** For one write the guard is exact: EnqueueInitialData appends whatever the caller passes if and only if
      nothing is buffered behind an unsent SYN, or the SYN is out and no close was requested. */
  lemma WriteAppendsIff(s: Sender, client: bool, now: nat)
    requires Inv(s, client)
    ensures (forall data :: Next(s, WriteInitial(data, now)).stream == s.stream + data)
       <==> if s.tx.synNeeded then s.tx.buf == [] else !s.tx.closeReq
  {
    if !s.tx.synNeeded {
      var data: bytes := [0];
      assert s.tx.closeReq ==> Next(s, WriteInitial(data, now)).stream != s.stream + data;
    } else if s.tx.buf == [] {
      assert s.stream == [];
      forall data: bytes ensures data + s.stream == s.stream + data { }
    } else {
      assert s.stream == s.tx.buf;
      var other: byte := if s.stream[0] == 0 then 1 else 0;
      var data: bytes := [other];
      assert (data + s.stream)[0] != (s.stream + data)[0];
      assert Next(s, WriteInitial(data, now)).stream != s.stream + data;
    }
  }

  /** Two writes made before the first drain leave in the opposite order. */
  lemma EarlyWritesReverse(id: SessionID, target: bytes, a: bytes, b: bytes, now: nat)
    ensures var s := Run(NewSender(id, target, true, now), [WriteInitial(a, now), WriteInitial(b, now)]);
            s.stream == b + a && (a != b && |a| == |b| ==> s.stream != a + b)
  {
    var s0 := NewSender(id, target, true, now);
    var s1 := Next(s0, WriteInitial(a, now));
    var es := [WriteInitial(a, now), WriteInitial(b, now)];
    assert s1.stream == a;
    assert es[1..] == [WriteInitial(b, now)] && es[1..][1..] == [];
    assert Run(s0, es) == Run(s1, es[1..]) == Next(s1, WriteInitial(b, now));
    assert |a| == |b| ==> (b + a)[..|b|] == b && (a + b)[..|a|] == a;
  }
}
