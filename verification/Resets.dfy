/** What a client's reset does to the session it names on the server. Client.Shutdown
    (internal/carrier/client.go) sends one for every session so that the server may release them; the server
    (internal/exit/exit.go, internal/session/session.go) has no case for it, and hands it to the session as a
    frame with number 0. */
module Resets {
  import opened Bytes
  import opened Frames
  import opened SessionRx
  import opened SharedNumbers
  import Runs = SessionRuns

  // ----- one reset -----

  /** The frames waiting behind frame 0 go on without a gap up to a FIN. */
  ghost predicate FinWaits(queue: map<nat, Frame>) {
    exists n: nat :: n > 1 && IsFrontier(queue, 1, n) && queue[n - 1].IsFin()
  }

  /** A reset is ignored by exactly the sessions that have taken their frame 0 or are closed. */
  lemma ResetIgnoredIff(rx: Rx, id: SessionID)
    ensures Deliver(rx, ResetFrame(id, [])) == Delivery(rx, [], false, rx.closed) <==> rx.closed || rx.next > 0
  {
    if !rx.closed && rx.next == 0 {
      var held := rx.queue[0 := ResetFrame(id, [])];
      assert IsFrontier(held, 0, Frontier(held, 0));
      assert 0 in held;
    }
  }

  lemma FrontierBehind(queue: map<nat, Frame>, f: Frame, n: nat)
    requires 0 !in queue && f.seqNo == 0 && !f.IsFin() && IsFrontier(queue[0 := f], 0, n)
    ensures n >= 1 && IsFrontier(queue, 1, n)
  {
    var held := queue[0 := f];
    assert 0 in held;
    assert forall i: nat :: i > 0 ==> (i in held <==> i in queue);
  }

  /** A reset ends an open session if and only if the session has not taken its frame 0 and all that it waits
      for is frame 0: the rest of the stream is queued, up to the FIN. */
  lemma ResetEndsIff(rx: Rx, id: SessionID)
    requires !rx.closed && forall k: nat :: k in rx.queue ==> k > rx.next
    ensures var d := Deliver(rx, ResetFrame(id, []));
            && d.rx.closed == d.stop == d.closeAfter
            && (d.rx.closed <==> rx.next == 0 && FinWaits(rx.queue))
  {
    if rx.next == 0 {
      var f := ResetFrame(id, []);
      var held := rx.queue[0 := f];
      var n := Frontier(held, 0);
      FrontierBehind(rx.queue, f, n);
      assert 0 in held;
      assert held[n - 1].IsFin() ==> n > 1;
      if FinWaits(rx.queue) {
        var m: nat :| m > 1 && IsFrontier(rx.queue, 1, m) && rx.queue[m - 1].IsFin();
        FrontierUnique(rx.queue, 1, m, n);
      }
    }
  }

  /** It ends no session that was just opened: such a session takes the reset for its frame 0. */
  lemma ResetAtStart(id: SessionID)
    ensures var d := Deliver(EMPTY, ResetFrame(id, []));
            d.rx == Rx(1, map[], false) && d.toSend == [] && !d.closeAfter && !d.stop
  {
    var f := ResetFrame(id, []);
    var held: map<nat, Frame> := EMPTY.queue[0 := f];
    assert IsFrontier(held, 0, 1);
    FrontierUnique(held, 0, 1, Frontier(held, 0));
    assert Span(held, 0, 1) == [f];
    assert NonEmptyPayloads([f]) == [] + NonEmptyPayloads([]);
    assert Deliver(EMPTY, f).rx.queue == map[];
  }

  // ----- any order of a session's frames and resets -----

  /** Closed by a FIN, or else holding every number of these frames. */
  ghost predicate Kept(r: Receiver, fs: seq<Frame>) {
    && Inv(r) && (r.rx.closed ==> FinTaken(r))
    && (!r.rx.closed ==> forall f <- fs :: f.seqNo in r.have)
  }

  lemma KeptMore(r: Receiver, fs: seq<Frame>, f: Frame)
    requires Kept(r, fs)
    ensures Kept(Take(r, f), fs + [f]) && (r.rx.closed ==> Take(r, f).rx.closed)
  {
    TakeInv(r, f);
    if !r.rx.closed && f.seqNo == r.rx.next {
      var held, have := r.rx.queue[f.seqNo := f], r.have[f.seqNo := f];
      TakeInOrder(r, f, held, have, r.rx.next, Frontier(held, r.rx.next));
    }
  }

  lemma {:induction false} KeptAll(r: Receiver, before: seq<Frame>, fs: seq<Frame>)
    requires Kept(r, before)
    ensures Kept(TakeAll(r, fs), before + fs)
    decreases |fs|
  {
    hide Kept, Take;
    if fs != [] {
      KeptMore(r, before, fs[0]);
      KeptAll(Take(r, fs[0]), before + [fs[0]], fs[1..]);
      assert before + [fs[0]] + fs[1..] == before + fs;
    } else {
      assert before + fs == before;
    }
  }

  /** The FIN was sent, and everything else arrived, if need be with a reset in the place of frame 0. */
  predicate AllIn(n: nat, fin: bool, xs: seq<Item>) {
    n > 0 && fin && (forall k: nat :: 0 < k < n ==> Data(k) in xs) && (Data(0) in xs || Reset in xs)
  }

  ghost predicate Ended(a: Runs.Sender) {
    a.emitted != [] && a.emitted[|a.emitted| - 1].IsFin()
  }

  lemma Numbers(a: Runs.Sender, xs: seq<Item>)
    requires Runs.Inv(a, true) && Within(xs, |a.emitted|)
    ensures forall i :: 0 <= i < |xs| ==> Sent(a, xs)[i].seqNo == if xs[i].Data? then xs[i].number else 0
    ensures forall i :: 0 <= i < |xs| && Sent(a, xs)[i].IsFin() ==>
              xs[i] == Data(|a.emitted| - 1) && |a.emitted| > 1 && Ended(a)
  {
    forall i | 0 <= i < |xs|
      ensures Sent(a, xs)[i].seqNo == if xs[i].Data? then xs[i].number else 0
      ensures Sent(a, xs)[i].IsFin() ==> xs[i] == Data(|a.emitted| - 1) && |a.emitted| > 1 && Ended(a)
    {
      if xs[i].Data? {
        assert Runs.WellFormed(a, true, xs[i].number);
      }
    }
  }

  lemma Arrived(a: Runs.Sender, xs: seq<Item>, f: Frame)
    requires Runs.Inv(a, true) && Within(xs, |a.emitted|) && f in Sent(a, xs)
    ensures if f.seqNo == 0 then Data(0) in xs || Reset in xs else Data(f.seqNo) in xs
    ensures f.IsFin() ==> f.seqNo == |a.emitted| - 1 > 0 && Ended(a)
  {
    Numbers(a, xs);
    var i :| 0 <= i < |xs| && Sent(a, xs)[i] == f;
    assert xs[i] in xs;
  }

  /** The session ends with exactly the sequences that bring all of it, a reset standing for frame 0. */
  lemma EndsIff(a: Runs.Sender, xs: seq<Item>)
    requires Runs.Inv(a, true) && Within(xs, |a.emitted|)
    ensures TakeAll(NEW_RECEIVER, Sent(a, xs)).rx.closed <==> AllIn(|a.emitted|, Ended(a), xs)
  {
    hide TakeAll, AllIn, Sent;
    var fs := Sent(a, xs);
    var r := TakeAll(NEW_RECEIVER, fs);
    NewKept();
    KeptAll(NEW_RECEIVER, [], fs);
    assert [] + fs == fs;
    TakenSpan(fs);
    if r.rx.closed {
      Finished(a, xs, r);
    } else if AllIn(|a.emitted|, Ended(a), xs) {
      Reached(a, xs, r);
    }
  }

  lemma NewKept()
    ensures Kept(NEW_RECEIVER, [])
  {
    assert Span(map[], 0, 0) == [] && Payloads([]) == [];
  }

  /** A closed receiver took it all. */
  lemma Finished(a: Runs.Sender, xs: seq<Item>, r: Receiver)
    requires Runs.Inv(a, true) && Within(xs, |a.emitted|) && r.rx.closed
    requires Kept(r, Sent(a, xs)) && forall k: nat :: k in r.have ==> r.have[k] in Sent(a, xs) && r.have[k].seqNo == k
    ensures AllIn(|a.emitted|, Ended(a), xs)
  {
    hide Sent, Ended;
    TakenFront(r);
    Arrived(a, xs, r.have[r.rx.next - 1]);
    forall k: nat | k < |a.emitted| ensures if k == 0 then Data(0) in xs || Reset in xs else Data(k) in xs {
      Arrived(a, xs, r.have[k]);
    }
  }

  /** An open receiver cannot hold all of an ended stream. */
  lemma Reached(a: Runs.Sender, xs: seq<Item>, r: Receiver)
    requires Runs.Inv(a, true) && Within(xs, |a.emitted|) && AllIn(|a.emitted|, Ended(a), xs)
    requires Kept(r, Sent(a, xs)) && forall k: nat :: k in r.have ==> r.have[k] in Sent(a, xs) && r.have[k].seqNo == k
    ensures r.rx.closed
  {
    var n, fs := |a.emitted|, Sent(a, xs);
    if !r.rx.closed {
      Numbers(a, xs);
      forall k: nat | k < n ensures k in r.have {
        var x := if Data(k) in xs then Data(k) else Reset;
        var i :| 0 <= i < |xs| && xs[i] == x;
        assert fs[i] in fs && fs[i].seqNo == k;
      }
      Last(a, xs, r.have[n - 1]);
    }
  }

  lemma Last(a: Runs.Sender, xs: seq<Item>, f: Frame)
    requires Runs.Inv(a, true) && Within(xs, |a.emitted|) && Ended(a) && f in Sent(a, xs) && f.seqNo == |a.emitted| - 1
    ensures f.IsFin()
  {
    var n := |a.emitted|;
    assert Runs.WellFormed(a, true, n - 1);
    Numbers(a, xs);
    var i :| 0 <= i < |xs| && Sent(a, xs)[i] == f;
  }

  function DataOnly(xs: seq<Item>): (ys: seq<Item>)
    ensures forall x :: x in ys <==> x in xs && x.Data?
  {
    if xs == [] then [] else (if xs[0].Data? then [xs[0]] else []) + DataOnly(xs[1..])
  }

  /** Resets end a session that its own frames leave open if and only if its FIN and every frame before it but
      the first arrived, the first did not, and a reset did. */
  lemma ResetsEndSessionIff(a: Runs.Sender, xs: seq<Item>)
    requires Runs.Inv(a, true) && Within(xs, |a.emitted|)
    ensures Within(DataOnly(xs), |a.emitted|)
    ensures TakeAll(NEW_RECEIVER, Sent(a, xs)).rx.closed && !TakeAll(NEW_RECEIVER, Sent(a, DataOnly(xs))).rx.closed
       <==> Ended(a) && (forall k: nat :: 0 < k < |a.emitted| ==> Data(k) in xs) && Data(0) !in xs && Reset in xs
  {
    var ys := DataOnly(xs);
    forall i | 0 <= i < |ys| ensures ys[i].Data? && ys[i].number < |a.emitted| { assert ys[i] in ys; }
    EndsIff(a, xs);
    EndsIff(a, ys);
  }
}
