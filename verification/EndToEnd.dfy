/** One direction of one session end to end: a sending session object, the encoded batches a carrier
    posts, a transport that may deliver any batch any number of times, in any order or never, the
    receiving session object with its rxLoop, and the reader. */
module EndToEnd {
  import opened Bytes
  import opened Frames
  import Tx = SessionTx
  import Runs = SessionRuns
  import Rx = SessionRx
  import RxChannel
  import Batch = BatchCodec
  import Base64

  datatype Posted = Posted(frames: seq<Frame>, nonce: bytes)

  datatype Pipe = Pipe(
    sender: Runs.Sender,
    posted: seq<Posted>,
    side: RxChannel.Side,
    readBuf: bytes,
    got: bytes)            // everything Read has returned so far

  datatype Event =
    | Local(e: Runs.TxEvent)
    | Post(before: seq<Frame>, maxPayload: int, maxFrames: int, now: nat, after: seq<Frame>, nonce: bytes)
    | PostReset(before: seq<Frame>, payload: bytes, after: seq<Frame>, nonce: bytes)
    | Deliver(k: nat, i: nat, front: bytes, pad: bytes, back: bytes)
    | Receiver(r: RxChannel.Event)
    | Read(n: nat)

  /** The wire: who posts, under which keys, which session is watched, and whether its client is the sender. */
  datatype Link = Link(suite: Batch.Suite, client: ClientID, id: SessionID, uplink: bool)

  predicate Genuine(emitted: seq<Frame>, f: Frame) {
    f.seqNo < |emitted| && emitted[f.seqNo] == f
  }

  /** Frames of other sessions, and of the watched one if it emitted them. */
  predicate Others(fs: seq<Frame>, id: SessionID, emitted: seq<Frame>) {
    forall i :: 0 <= i < |fs| ==> fs[i].id != id || Genuine(emitted, fs[i])
  }

  function Text(l: Link, p: Posted, front: bytes, pad: bytes, back: bytes): bytes
    requires Batch.AllWire(p.frames)
  {
    front + Batch.Body(l.suite, l.client, p.frames, p.nonce) + pad + back
  }

  function Drained(p: Pipe, e: Event): seq<Frame>
    requires e.Post?
  {
    var cap := Tx.ChunkCap(p.sender.tx, e.maxPayload);
    Tx.Pending(p.sender.tx, cap)[..Tx.Quota(p.sender.tx, cap, e.maxFrames)]
  }

  /** The frame that step e takes out of a posted body, after decoding its text. */
  ghost predicate Carries(l: Link, p: Pipe, e: Event, f: Frame)
    requires e.Deliver?
  {
    && e.k < |p.posted| && Batch.AllWire(p.posted[e.k].frames)
    && Base64.Blank(e.front) && Base64.Padding(e.pad) && Base64.Blank(e.back)
    && var c := Batch.Contents(l.suite, Text(l, p.posted[e.k], e.front, e.pad, e.back));
       c.Ok? && e.i < |c.value.1| && c.value.1[e.i] == f && f.id == l.id
  }

  ghost predicate Step(l: Link, p: Pipe, e: Event, p': Pipe) {
    match e
    case Local(t) =>
      // A drain whose frames leave in a later body is one of these.
      p' == p.(sender := Runs.Next(p.sender, t))
    case Post(before, maxPayload, maxFrames, now, after, nonce) =>
      // The drained frames travel with those of other sessions, and of other drains of this one; if encoding
      // fails they are lost.
      && Others(before, l.id, p'.sender.emitted) && Others(after, l.id, p'.sender.emitted)
      && var fs := before + Drained(p, e) + after;
         p' == p.(sender := Runs.Next(p.sender, Runs.Drain(maxPayload, maxFrames, now)),
                  posted := if |fs| <= Batch.MAX_FRAMES && Batch.AllWire(fs)
                            then p.posted + [Posted(fs, nonce)] else p.posted)
    case PostReset(before, payload, after, nonce) =>
      // A client that shuts down resets its sessions; a server resets sessions it does not know.
      && Others(before, l.id, p.sender.emitted) && Others(after, l.id, p.sender.emitted) && (l.uplink ==> payload == [])
      && var fs := before + [ResetFrame(l.id, payload)] + after;
         p' == if |fs| <= Batch.MAX_FRAMES && Batch.AllWire(fs) then p.(posted := p.posted + [Posted(fs, nonce)]) else p
    case Deliver(_, _, _, _, _) =>
      // routeRx keeps resets from the session and tears it down, by steps of the receiver; routeIncoming does not.
      exists f :: Carries(l, p, e, f) &&
        if f.IsRst() && !l.uplink then p' == p
        else
          && RxChannel.Enabled(p.side, RxChannel.Arrive(f))
          && p' == p.(side := RxChannel.Next(p.side, RxChannel.Arrive(f)))
    case Receiver(r) =>
      && !r.Arrive? && !r.Receive? && RxChannel.Enabled(p.side, r)
      && p' == p.(side := RxChannel.Next(p.side, r))
    case Read(n) =>
      && !p.side.panicked
      && var (data, rest, chan) := RxChannel.ReadOnce(p.readBuf, p.side.chan, n);
         p' == p.(got := p.got + data, readBuf := rest, side := p.side.(chan := chan))
  }

  ghost predicate Path(l: Link, ps: seq<Pipe>, es: seq<Event>) {
    |ps| == |es| + 1 && forall i :: 0 <= i < |es| ==> Step(l, ps[i], es[i], ps[i + 1])
  }

  function Start(l: Link, target: bytes, now: nat): Pipe {
    Pipe(Runs.NewSender(l.id, target, l.uplink, now), [], RxChannel.NEW_SIDE, [], [])
  }

  // ----- the invariant -----

  ghost predicate PostOk(l: Link, emitted: seq<Frame>, p: Posted) {
    && Batch.AllWire(p.frames) && |p.frames| <= Batch.MAX_FRAMES
    && forall i :: 0 <= i < |p.frames| && p.frames[i].id == l.id ==>
         Genuine(emitted, p.frames[i]) || (p.frames[i].IsRst() && (l.uplink ==> p.frames[i] == ResetFrame(l.id, [])))
  }

  /** A reset was taken in the place of frame 0. */
  ghost predicate Displaced(id: SessionID, s: RxChannel.Side) {
    0 in s.recv.have && s.recv.have[0] == ResetFrame(id, [])
  }

  /** The frames as the receiver numbers them. */
  ghost function Seen(id: SessionID, emitted: seq<Frame>, s: RxChannel.Side): seq<Frame> {
    if Displaced(id, s) then [ResetFrame(id, [])] + emitted[Min(1, |emitted|)..] else emitted
  }

  /** What reached the channel, and what deliverRx still holds, make up the delivered bytes; only a
      stop in the middle of a delivery leaves some of them unsent. */
  ghost predicate Flow(s: RxChannel.Side) {
    match s.loop
    case Selecting => s.sent == s.recv.delivered
    case Sending(toSend, _) => s.sent + Concat(toSend) == s.recv.delivered
    case _ => s.sent <= s.recv.delivered
  }

  ghost predicate SideInv(id: SessionID, emitted: seq<Frame>, s: RxChannel.Side) {
    && (forall i :: 0 <= i < |s.inbox| ==> Genuine(emitted, s.inbox[i]) || s.inbox[i] == ResetFrame(id, []))
    && (forall k: nat :: k in s.recv.have ==> k < |Seen(id, emitted, s)| && s.recv.have[k] == Seen(id, emitted, s)[k])
    && Rx.Inv(s.recv) && Flow(s) && RxChannel.CloseInv(s)
  }

  ghost predicate Inv(l: Link, p: Pipe) {
    && Runs.Inv(p.sender, l.uplink) && p.sender.tx.id == l.id
    && (forall k :: 0 <= k < |p.posted| ==> PostOk(l, p.sender.emitted, p.posted[k]))
    && SideInv(l.id, p.sender.emitted, p.side)
    && (!l.uplink ==> forall i :: 0 <= i < |p.side.inbox| ==> !p.side.inbox[i].IsRst())
    && p.got + p.readBuf + Concat(p.side.chan) == p.side.sent
  }

  /** Numbered from 0, and no reset among them. */
  ghost predicate Plain(emitted: seq<Frame>) {
    forall i: nat :: i < |emitted| ==> emitted[i].seqNo == i && !emitted[i].IsRst()
  }

  lemma EmittedPlain(s: Runs.Sender, client: bool)
    requires Runs.Inv(s, client)
    ensures Plain(s.emitted)
  {
    forall i: nat | i < |s.emitted| ensures s.emitted[i].seqNo == i && !s.emitted[i].IsRst() {
      assert Runs.WellFormed(s, client, i);
    }
  }

  /** The next frame rxLoop takes is a reset, and it still waits for frame 0. */
  ghost predicate EarlyReset(p: Pipe, e: Event) {
    && e == Receiver(RxChannel.Accept) && p.side.inbox != [] && p.side.inbox[0].IsRst()
    && !p.side.recv.rx.closed && p.side.recv.rx.next == 0
  }

  lemma AcceptHave(id: SessionID, emitted: seq<Frame>, s: RxChannel.Side)
    requires SideInv(id, emitted, s) && Plain(emitted) && RxChannel.Enabled(s, RxChannel.Accept)
    ensures var s' := RxChannel.Next(s, RxChannel.Accept);
            && (forall k: nat :: k in s'.recv.have ==>
                 k < |Seen(id, emitted, s')| && s'.recv.have[k] == Seen(id, emitted, s')[k])
            && (Displaced(id, s') <==>
                 Displaced(id, s) || (s.inbox[0].IsRst() && !s.recv.rx.closed && s.recv.rx.next == 0))
  {
    hide Flow, RxChannel.Next, RxChannel.CloseInv, Rx.Inv;
    FrontTaken(s.recv);
    TakenHave(s);
    assert Genuine(emitted, s.inbox[0]) || s.inbox[0] == ResetFrame(id, []);
  }

  lemma TakenHave(s: RxChannel.Side)
    requires RxChannel.Enabled(s, RxChannel.Accept)
    ensures var f := s.inbox[0];
            RxChannel.Next(s, RxChannel.Accept).recv.have
              == if s.recv.rx.closed || f.seqNo < s.recv.rx.next then s.recv.have else s.recv.have[f.seqNo := f]
  {
    hide Rx.Deliver;
  }

  lemma FrontTaken(r: Rx.Receiver)
    requires Rx.Inv(r)
    ensures 0 in r.have ==> r.rx.next > 0
  {
  }

  lemma AcceptKeeps(id: SessionID, emitted: seq<Frame>, s: RxChannel.Side)
    requires SideInv(id, emitted, s) && Plain(emitted) && RxChannel.Enabled(s, RxChannel.Accept)
    ensures SideInv(id, emitted, RxChannel.Next(s, RxChannel.Accept))
    ensures RxChannel.Next(s, RxChannel.Accept).sent == s.sent && RxChannel.Next(s, RxChannel.Accept).chan == s.chan
  {
    var f := s.inbox[0];
    AcceptHave(id, emitted, s);
    Rx.TakeInv(s.recv, f);
    RxChannel.CloseStep(s, RxChannel.Accept);
    assert Concat([]) == [];
  }

  lemma SendKeeps(id: SessionID, emitted: seq<Frame>, s: RxChannel.Side)
    requires SideInv(id, emitted, s) && RxChannel.Enabled(s, RxChannel.Send)
    ensures var s' := RxChannel.Next(s, RxChannel.Send);
            && SideInv(id, emitted, s')
            && exists d :: s'.sent == s.sent + d && Concat(s'.chan) == Concat(s.chan) + d
  {
    var s' := RxChannel.Next(s, RxChannel.Send);
    var d := s.loop.toSend[0];
    RxChannel.CloseStep(s, RxChannel.Send);
    if s.closes > 0 {
      assert s'.sent == s.sent + [] && Concat(s'.chan) == Concat(s.chan) + [];
    } else {
      ConcatAppend(s.chan, [d]);
      assert Concat([d]) == d + Concat([]);
      assert s'.sent == s.sent + d && Concat(s'.chan) == Concat(s.chan) + d;
      assert (s.sent + d) + Concat(s.loop.toSend[1..]) == s.sent + (d + Concat(s.loop.toSend[1..]));
    }
  }

  lemma SendStep(l: Link, p: Pipe, p': Pipe)
    requires Inv(l, p) && Step(l, p, Receiver(RxChannel.Send), p')
    ensures Inv(l, p')
  {
    hide Runs.Inv, PostOk;
    SendKeeps(l.id, p.sender.emitted, p.side);
    hide SideInv;
    var d :| p'.side.sent == p.side.sent + d && Concat(p'.side.chan) == Concat(p.side.chan) + d;
    var unread := p.got + p.readBuf;
    assert unread + (Concat(p.side.chan) + d) == (unread + Concat(p.side.chan)) + d;
  }

  lemma AcceptStep(l: Link, p: Pipe, p': Pipe)
    requires Inv(l, p) && Step(l, p, Receiver(RxChannel.Accept), p')
    ensures Inv(l, p')
  {
    hide Runs.Inv, PostOk, SideInv;
    EmittedPlain(p.sender, l.uplink);
    AcceptKeeps(l.id, p.sender.emitted, p.side);
  }

  lemma OtherKeeps(id: SessionID, emitted: seq<Frame>, s: RxChannel.Side, r: RxChannel.Event)
    requires SideInv(id, emitted, s) && RxChannel.Enabled(s, r) && !r.Arrive? && !r.Receive? && !r.Accept? && !r.Send?
    ensures var s' := RxChannel.Next(s, r);
            && s'.recv.have == s.recv.have && s'.inbox == s.inbox && s'.sent == s.sent && s'.chan == s.chan
            && Rx.Inv(s'.recv) && Flow(s') && RxChannel.CloseInv(s')
  {
    hide Seen;
    RxChannel.CloseStep(s, r);
    assert Concat([]) == [];
  }

  lemma OtherStep(l: Link, p: Pipe, r: RxChannel.Event, p': Pipe)
    requires Inv(l, p) && Step(l, p, Receiver(r), p') && !r.Accept? && !r.Send?
    ensures Inv(l, p')
  {
    hide Runs.Inv, PostOk, Rx.Inv, Flow, RxChannel.CloseInv, RxChannel.Next;
    OtherKeeps(l.id, p.sender.emitted, p.side, r);
  }

  lemma ReceiverStep(l: Link, p: Pipe, r: RxChannel.Event, p': Pipe)
    requires Inv(l, p) && Step(l, p, Receiver(r), p')
    ensures Inv(l, p')
  {
    hide Inv, Step;
    if r.Accept? {
      AcceptStep(l, p, p');
    } else if r.Send? {
      SendStep(l, p, p');
    } else {
      OtherStep(l, p, r, p');
    }
  }

  lemma SeenGrows(id: SessionID, emitted: seq<Frame>, emitted': seq<Frame>, s: RxChannel.Side)
    requires emitted <= emitted'
    ensures Seen(id, emitted, s) <= Seen(id, emitted', s)
  {
  }

  lemma SenderStep(l: Link, p: Pipe, t: Runs.TxEvent)
    requires Inv(l, p)
    ensures Inv(l, p.(sender := Runs.Next(p.sender, t)))
    ensures p.sender.emitted <= Runs.Next(p.sender, t).emitted
  {
    Runs.StepInv(p.sender, t, l.uplink);
    var em := Runs.Next(p.sender, t).emitted;
    assert forall f: Frame :: Genuine(p.sender.emitted, f) ==> Genuine(em, f);
    SeenGrows(l.id, p.sender.emitted, em, p.side);
  }

  lemma OwnFrame(before: seq<Frame>, out: seq<Frame>, after: seq<Frame>, id: SessionID, emitted: seq<Frame>, i: nat)
    requires Others(before, id, emitted) && Others(after, id, emitted)
    requires i < |before + out + after| && (before + out + after)[i].id == id
    ensures var f := (before + out + after)[i];
            Genuine(emitted, f) || (|before| <= i < |before| + |out| && f == out[i - |before|])
  {
  }

  lemma PostedFrames(l: Link, s: Runs.Sender, out: seq<Frame>, e: Event)
    requires e.Post? && Others(e.before, l.id, s.emitted) && Others(e.after, l.id, s.emitted)
    requires Runs.Inv(s, l.uplink) && |out| <= |s.emitted| && out == s.emitted[|s.emitted| - |out|..]
    ensures var fs := e.before + out + e.after;
            forall i :: 0 <= i < |fs| && fs[i].id == l.id ==> Genuine(s.emitted, fs[i])
  {
    var fs := e.before + out + e.after;
    var n := |s.emitted| - |out|;
    forall j | 0 <= j < |out| ensures Genuine(s.emitted, out[j]) {
      assert out[j] == s.emitted[n + j];
      assert Runs.WellFormed(s, l.uplink, n + j);
    }
    forall i | 0 <= i < |fs| && fs[i].id == l.id ensures Genuine(s.emitted, fs[i]) {
      OwnFrame(e.before, out, e.after, l.id, s.emitted, i);
    }
  }

  lemma PostStep(l: Link, p: Pipe, e: Event, p': Pipe)
    requires Inv(l, p) && e.Post? && Step(l, p, e, p')
    ensures Inv(l, p')
  {
    hide Runs.Inv, SideInv;
    var t := Runs.Drain(e.maxPayload, e.maxFrames, e.now);
    SenderStep(l, p, t);
    var out := Drained(p, e);
    PostedFrames(l, p'.sender, out, e);
  }

  lemma PostResetStep(l: Link, p: Pipe, e: Event, p': Pipe)
    requires Inv(l, p) && e.PostReset? && Step(l, p, e, p')
    ensures Inv(l, p')
  {
    hide Runs.Inv, SideInv;
    if |p'.posted| > |p.posted| {
      var out := [ResetFrame(l.id, e.payload)];
      var fs := e.before + out + e.after;
      forall i | 0 <= i < |fs| && fs[i].id == l.id ensures Genuine(p.sender.emitted, fs[i]) || fs[i] == out[0] {
        OwnFrame(e.before, out, e.after, l.id, p.sender.emitted, i);
      }
      assert PostOk(l, p.sender.emitted, Posted(fs, e.nonce));
    }
  }

  /** Whatever the transport decodes for this session is a frame its sender emitted, or a reset that was
      posted for it. */
  lemma DeliverStep(l: Link, p: Pipe, e: Event, p': Pipe)
    requires Batch.Lawful(l.suite) && Inv(l, p) && e.Deliver? && Step(l, p, e, p')
    ensures Inv(l, p')
    ensures p' == p || (|p'.side.inbox| > 0 && var f := p'.side.inbox[|p'.side.inbox| - 1];
              Genuine(p.sender.emitted, f) || (l.uplink && f == ResetFrame(l.id, [])))
  {
    var f :| Carries(l, p, e, f) &&
             if f.IsRst() && !l.uplink then p' == p
             else
               && RxChannel.Enabled(p.side, RxChannel.Arrive(f))
               && p' == p.(side := RxChannel.Next(p.side, RxChannel.Arrive(f)));
    var post := p.posted[e.k];
    assert PostOk(l, p.sender.emitted, post);
    Batch.RoundTrip(l.suite, l.client, post.frames, post.nonce, e.front, e.pad, e.back);
    assert f == post.frames[e.i];
    if !f.IsRst() || l.uplink {
      RxChannel.CloseStep(p.side, RxChannel.Arrive(f));
    }
  }

  lemma ReadKeepsClose(s: RxChannel.Side, chan: seq<bytes>)
    requires RxChannel.CloseInv(s)
    ensures RxChannel.CloseInv(s.(chan := chan))
  {
  }

  lemma ReadStep(l: Link, p: Pipe, e: Event, p': Pipe)
    requires Inv(l, p) && e.Read? && Step(l, p, e, p')
    ensures Inv(l, p')
  {
    hide Runs.Inv, PostOk, RxChannel.ReadOnce, Rx.Inv, RxChannel.CloseInv;
    assert RxChannel.CloseInv(p'.side) by { ReadKeepsClose(p.side, p'.side.chan); }
    var (data, rest, chan) := RxChannel.ReadOnce(p.readBuf, p.side.chan, e.n);
    RxChannel.ReadOnceKeeps(p.readBuf, p.side.chan, e.n);
    assert p.got + (data + rest + Concat(chan)) == p.got + data + rest + Concat(chan);
    assert p.got + p.readBuf + Concat(p.side.chan) == p.got + (p.readBuf + Concat(p.side.chan));
  }

  lemma StepKeeps(l: Link, p: Pipe, e: Event, p': Pipe)
    requires Batch.Lawful(l.suite) && Inv(l, p) && Step(l, p, e, p')
    ensures Inv(l, p')
  {
    match e
    case Local(t) => SenderStep(l, p, t);
    case Post(_, _, _, _, _, _) => PostStep(l, p, e, p');
    case PostReset(_, _, _, _) => PostResetStep(l, p, e, p');
    case Deliver(_, _, _, _, _) => DeliverStep(l, p, e, p');
    case Receiver(r) => ReceiverStep(l, p, r, p');
    case Read(_) => ReadStep(l, p, e, p');
  }

  lemma StartInv(l: Link, target: bytes, now: nat)
    ensures Inv(l, Start(l, target, now))
  {
    assert Rx.Span(map[], 0, 0) == [];
    assert Payloads([]) == [] && Concat([]) == [];
  }

  lemma {:induction false} PathInv(l: Link, ps: seq<Pipe>, es: seq<Event>, i: nat)
    requires Batch.Lawful(l.suite) && Path(l, ps, es) && Inv(l, ps[0]) && i <= |es|
    ensures Inv(l, ps[i])
  {
    if i > 0 {
      PathInv(l, ps, es, i - 1);
      StepKeeps(l, ps[i - 1], es[i - 1], ps[i]);
    }
  }

  // ----- safety -----

  lemma DeliveredIsPrefix(id: SessionID, emitted: seq<Frame>, s: RxChannel.Side)
    requires SideInv(id, emitted, s)
    ensures var seen := Seen(id, emitted, s);
            && s.recv.rx.next <= |seen| && s.recv.delivered == Payloads(seen[..s.recv.rx.next])
            && s.recv.delivered <= Payloads(seen)
  {
    var n, seen := s.recv.rx.next, Seen(id, emitted, s);
    assert n > 0 ==> n - 1 in s.recv.have;
    assert Rx.Span(s.recv.have, 0, n) == seen[..n];
    PayloadsPrefix(seen, n);
  }

  /** In every run the reader sees a prefix of the frames' payloads as the receiver numbers them. */
  lemma ReaderSees(l: Link, ps: seq<Pipe>, es: seq<Event>, target: bytes, now: nat, i: nat)
    requires Batch.Lawful(l.suite) && Path(l, ps, es) && ps[0] == Start(l, target, now) && i <= |es|
    ensures Inv(l, ps[i]) && ps[i].got <= Payloads(Seen(l.id, ps[i].sender.emitted, ps[i].side))
  {
    StartInv(l, target, now);
    PathInv(l, ps, es, i);
    var p := ps[i];
    DeliveredIsPrefix(l.id, p.sender.emitted, p.side);
    assert p.side.sent <= p.side.recv.delivered;
    assert p.got <= p.side.sent;
  }

  lemma DisplacedStep(l: Link, p: Pipe, e: Event, p': Pipe)
    requires Inv(l, p) && Step(l, p, e, p')
    ensures Displaced(l.id, p'.side) <==> Displaced(l.id, p.side) || EarlyReset(p, e)
    ensures !l.uplink ==> !EarlyReset(p, e)
  {
    hide Runs.Inv, PostOk, Rx.Deliver, Rx.Inv, Flow, RxChannel.CloseInv;
    if e.Receiver? && e.r.Accept? {
      EmittedPlain(p.sender, l.uplink);
      AcceptHave(l.id, p.sender.emitted, p.side);
    }
  }

  /** A reset stands in the place of frame 0 exactly if rxLoop took one while rxSeq was still 0. */
  lemma {:induction false} DisplacedIff(l: Link, ps: seq<Pipe>, es: seq<Event>, target: bytes, now: nat, i: nat)
    requires Batch.Lawful(l.suite) && Path(l, ps, es) && ps[0] == Start(l, target, now) && i <= |es|
    ensures Displaced(l.id, ps[i].side) <==> exists j :: 0 <= j < i && EarlyReset(ps[j], es[j])
    ensures Displaced(l.id, ps[i].side) ==> l.uplink
  {
    hide Step, Inv, Displaced, EarlyReset;
    if i > 0 {
      DisplacedIff(l, ps, es, target, now, i - 1);
      ReaderSees(l, ps, es, target, now, i - 1);
      assert Step(l, ps[i - 1], es[i - 1], ps[i]);
      DisplacedStep(l, ps[i - 1], es[i - 1], ps[i]);
    } else {
      NotDisplaced(l, target, now);
    }
  }

  lemma NotDisplaced(l: Link, target: bytes, now: nat)
    ensures !Displaced(l.id, Start(l, target, now).side)
  {
  }

  /** In every run in which no reset is taken while rxSeq is 0, whatever the transport duplicates, reorders
      or loses and however the receiver is shut down, the bytes returned to the reader are a prefix of the
      bytes the sender accepted. From a server to a client this is every run. */
  lemma ReaderSeesPrefix(l: Link, ps: seq<Pipe>, es: seq<Event>, target: bytes, now: nat, i: nat)
    requires Batch.Lawful(l.suite) && Path(l, ps, es) && ps[0] == Start(l, target, now) && i <= |es|
    requires l.uplink ==> forall j :: 0 <= j < i ==> !EarlyReset(ps[j], es[j])
    ensures ps[i].got <= ps[i].sender.stream
  {
    hide Step, Displaced, EarlyReset, SideInv;
    ReaderSees(l, ps, es, target, now, i);
    DisplacedIff(l, ps, es, target, now, i);
  }

  /** In every other run the reader loses the bytes of frame 0, and sees a prefix of the rest. */
  lemma EarlyResetLoses(l: Link, ps: seq<Pipe>, es: seq<Event>, target: bytes, now: nat, i: nat, j: nat)
    requires Batch.Lawful(l.suite) && Path(l, ps, es) && ps[0] == Start(l, target, now) && j < i <= |es|
    requires EarlyReset(ps[j], es[j])
    ensures var emitted := ps[i].sender.emitted;
            if emitted == [] then ps[i].got == []
            else
              && |emitted[0].payload| <= |ps[i].sender.stream|
              && ps[i].got <= ps[i].sender.stream[|emitted[0].payload|..]
  {
    hide Step, EarlyReset, SideInv;
    ReaderSees(l, ps, es, target, now, i);
    DisplacedIff(l, ps, es, target, now, i);
    var emitted := ps[i].sender.emitted;
    var reset, rest := [ResetFrame(l.id, [])], emitted[Min(1, |emitted|)..];
    PayloadsAppend(reset, rest);
    assert Payloads(reset) == [] + Payloads([]);
    assert Payloads(Seen(l.id, emitted, ps[i].side)) == Payloads(rest);
    if emitted != [] {
      assert Payloads(emitted) == emitted[0].payload + Payloads(rest);
      assert ps[i].sender.stream[|emitted[0].payload|..] == Payloads(rest) + ps[i].sender.tx.buf;
    }
  }

  // ----- completeness -----

  /** Nothing shut the receiver down: no CloseRx took part, and rxLoop never saw rxDone. */
  predicate Undisturbed(e: Event) {
    e.Receiver? ==> !e.r.CloseRx? && !e.r.SeeStop? && !e.r.SendStopped?
  }

  ghost predicate Clean(s: RxChannel.Side) {
    && (s.recv.rx.closed <==> Rx.FinTaken(s.recv))
    && (Rx.FinTaken(s.recv) <==> (s.loop.Sending? && s.loop.closeAfter) || s.loop.Leaving? || s.loop.Gone?)
    && (s.loop.Leaving? || s.loop.Gone? ==> s.sent == s.recv.delivered)
  }

  lemma AcceptClean(s: RxChannel.Side)
    requires Rx.Inv(s.recv) && RxChannel.Enabled(s, RxChannel.Accept) && Clean(s)
    ensures Clean(RxChannel.Next(s, RxChannel.Accept))
  {
    var f := s.inbox[0];
    var held := s.recv.rx.queue[f.seqNo := f];
    if f.seqNo == s.recv.rx.next {
      var n := Rx.Frontier(held, f.seqNo);
      assert f.seqNo in held;
      Rx.TakeInOrder(s.recv, f, held, s.recv.have[f.seqNo := f], f.seqNo, n);
    }
  }

  lemma CleanStep(l: Link, p: Pipe, e: Event, p': Pipe)
    requires Inv(l, p) && Step(l, p, e, p') && Undisturbed(e) && Clean(p.side)
    ensures Clean(p'.side)
  {
    if e.Receiver? && e.r.Accept? {
      AcceptClean(p.side);
    } else if e.Receiver? && e.r.Finish? {
      assert Concat([]) == [];
    }
  }

  lemma {:induction false} PathClean(l: Link, ps: seq<Pipe>, es: seq<Event>, i: nat)
    requires Batch.Lawful(l.suite) && Path(l, ps, es) && Inv(l, ps[0]) && Clean(ps[0].side) && i <= |es|
    requires forall j :: 0 <= j < |es| ==> Undisturbed(es[j])
    ensures Clean(ps[i].side)
  {
    hide Step, Inv, Clean;
    if i > 0 {
      var p, e, p' := ps[i - 1], es[i - 1], ps[i];
      PathClean(l, ps, es, i - 1);
      assert Inv(l, p) by { PathInv(l, ps, es, i - 1); }
      assert Step(l, p, e, p');
      CleanStep(l, p, e, p');
    }
  }

  lemma AllTaken(id: SessionID, s: Runs.Sender, client: bool, side: RxChannel.Side)
    requires Runs.Inv(s, client) && SideInv(id, s.emitted, side) && !Displaced(id, side)
    requires forall k: nat :: k < |s.emitted| ==> k in side.recv.have
    ensures side.recv.delivered == Payloads(s.emitted)
    ensures s.tx.finSent ==> Rx.FinTaken(side.recv)
  {
    DeliveredIsPrefix(id, s.emitted, side);
    var n := side.recv.rx.next;
    assert n > 0 ==> Runs.WellFormed(s, client, n - 1);
    assert n == |s.emitted|;
    assert s.emitted[..n] == s.emitted;
  }

  /** In an undisturbed run the channel closes exactly when the FIN has been processed; and once every
      emitted frame was taken in and sent on, the reader has, or finds waiting, all that was emitted:
      the whole accepted stream if the FIN is out. */
  lemma ReaderSeesAll(l: Link, ps: seq<Pipe>, es: seq<Event>, target: bytes, now: nat, i: nat)
    requires Batch.Lawful(l.suite) && Path(l, ps, es) && ps[0] == Start(l, target, now) && i <= |es|
    requires forall j :: 0 <= j < |es| ==> Undisturbed(es[j])
    requires l.uplink ==> forall j :: 0 <= j < |es| ==> !EarlyReset(ps[j], es[j])
    ensures var p := ps[i];
            && (p.side.closes == 1 <==> Rx.FinTaken(p.side.recv) && !p.side.loop.Sending?)
            && ((forall k: nat :: k < |p.sender.emitted| ==> k in p.side.recv.have) && !p.side.loop.Sending? ==>
                  && p.got + p.readBuf + Concat(p.side.chan) == Payloads(p.sender.emitted)
                  && (p.sender.tx.finSent ==>
                        p.got + p.readBuf + Concat(p.side.chan) == p.sender.stream && p.side.closes == 1))
  {
    StartInv(l, target, now);
    DisplacedIff(l, ps, es, target, now, i);
    PathInv(l, ps, es, i);
    PathClean(l, ps, es, i);
    var p := ps[i];
    if (forall k: nat :: k < |p.sender.emitted| ==> k in p.side.recv.have) && !p.side.loop.Sending? {
      AllTaken(l.id, p.sender, l.uplink, p.side);
    }
  }
}
