/** The receiving half of a session (internal/session/session.go): in-order reassembly of frames
    that arrive in any order, any number of times. */
module SessionRx {
  import opened Bytes
  import opened Frames

  datatype Rx = Rx(next: nat, queue: map<nat, Frame>, closed: bool)

  /** What the locked part of one deliverRx call decides. */
  datatype Delivery = Delivery(rx: Rx, toSend: seq<bytes>, closeAfter: bool, stop: bool)

  const EMPTY := Rx(0, map[], false)

  /** n is where in-order delivery starting at `from` has to stop: the first number not held,
      or the one after a FIN. */
  ghost predicate IsFrontier(have: map<nat, Frame>, from: nat, n: nat) {
    && from <= n
    && (forall i: nat :: from <= i < n ==> i in have)
    && (forall i: nat :: from <= i < n - 1 ==> !have[i].IsFin())
    && (n !in have || (from < n && have[n - 1].IsFin()))
  }

  lemma {:induction false} FrontierExists(have: map<nat, Frame>, from: nat, held: set<nat>)
    requires held == set k | k in have && from <= k
    ensures exists n: nat :: IsFrontier(have, from, n)
    decreases |held|
  {
    if from !in have {
      assert IsFrontier(have, from, from);
    } else if have[from].IsFin() {
      assert IsFrontier(have, from, from + 1);
    } else {
      assert from in held;
      FrontierExists(have, from + 1, held - {from});
      var n: nat :| IsFrontier(have, from + 1, n);
      assert IsFrontier(have, from, n);
    }
  }

  lemma FrontierUnique(have: map<nat, Frame>, from: nat, m: nat, n: nat)
    requires IsFrontier(have, from, m) && IsFrontier(have, from, n)
    ensures m == n
  {
  }

  ghost function Frontier(have: map<nat, Frame>, from: nat): (n: nat)
    ensures IsFrontier(have, from, n)
  {
    FrontierExists(have, from, set k | k in have && from <= k);
    var n: nat :| IsFrontier(have, from, n);
    n
  }

  function Span(have: map<nat, Frame>, a: nat, b: nat): (fs: seq<Frame>)
    requires a <= b && forall i: nat :: a <= i < b ==> i in have
    ensures |fs| == b - a
  {
    seq(b - a, i requires 0 <= i < b - a => have[a + i])
  }

  function NonEmptyPayloads(fs: seq<Frame>): seq<bytes> {
    if fs == [] then []
    else (if fs[0].payload == [] then [] else [fs[0].payload]) + NonEmptyPayloads(fs[1..])
  }

  ghost function Deliver(rx: Rx, f: Frame): Delivery {
    if rx.closed then Delivery(rx, [], false, true)
    else if f.seqNo < rx.next then Delivery(rx, [], false, false)
    else if f.seqNo > rx.next then Delivery(rx.(queue := rx.queue[f.seqNo := f]), [], false, false)
    else
      var held := rx.queue[f.seqNo := f];
      var n := Frontier(held, rx.next);
      assert rx.next in held;
      var fin := held[n - 1].IsFin();
      Delivery(Rx(n, map k | k in held && !(rx.next <= k < n) :: held[k], fin),
               NonEmptyPayloads(Span(held, rx.next, n)), fin, fin)
  }

  // ----- reassembly over whole histories -----

  /** A receiver together with every frame it took into account. */
  datatype Receiver = Receiver(rx: Rx, have: map<nat, Frame>, delivered: bytes)

  const NEW_RECEIVER := Receiver(EMPTY, map[], [])

  ghost predicate FinTaken(r: Receiver) {
    r.rx.next > 0 && r.rx.next - 1 in r.have && r.have[r.rx.next - 1].IsFin()
  }

  /** The queue holds exactly the frames beyond n. */
  ghost predicate Holds(queue: map<nat, Frame>, have: map<nat, Frame>, n: nat) {
    && (forall k: nat :: k in queue <==> k in have && k > n)
    && (forall k: nat :: k in queue ==> queue[k] == have[k])
  }

  ghost predicate Inv(r: Receiver) {
    && IsFrontier(r.have, 0, r.rx.next)
    && (FinTaken(r) ==> r.rx.closed)
    && (!r.rx.closed ==> Holds(r.rx.queue, r.have, r.rx.next))
    && r.delivered == Payloads(Span(r.have, 0, r.rx.next))
  }

  ghost function Take(r: Receiver, f: Frame): Receiver {
    var d := Deliver(r.rx, f);
    Receiver(d.rx,
             if r.rx.closed || f.seqNo < r.rx.next then r.have else r.have[f.seqNo := f],
             r.delivered + Concat(d.toSend))
  }

  ghost function TakeAll(r: Receiver, fs: seq<Frame>): Receiver
    decreases |fs|
  {
    if fs == [] then r else TakeAll(Take(r, fs[0]), fs[1..])
  }

  lemma {:induction false} NonEmptyPayloadsConcat(fs: seq<Frame>)
    ensures Concat(NonEmptyPayloads(fs)) == Payloads(fs)
  {
    if fs != [] {
      NonEmptyPayloadsConcat(fs[1..]);
      var rest := NonEmptyPayloads(fs[1..]);
      assert [] + rest == rest && ([fs[0].payload] + rest)[1..] == rest;
    }
  }

  lemma FrontierJoin(have: map<nat, Frame>, held: map<nat, Frame>, m: nat, n: nat)
    requires IsFrontier(held, m, n) && m < n
    requires forall i: nat :: i < m ==> i in have && !have[i].IsFin()
    requires forall k: nat :: k >= m ==> (k in held <==> k in have)
    requires forall k: nat :: k >= m && k in held ==> held[k] == have[k]
    ensures IsFrontier(have, 0, n)
    ensures Payloads(Span(have, 0, n)) == Payloads(Span(have, 0, m)) + Payloads(Span(held, m, n))
  {
    assert Span(have, 0, n) == Span(have, 0, m) + Span(held, m, n);
    PayloadsAppend(Span(have, 0, m), Span(held, m, n));
  }

  lemma QueueRest(have: map<nat, Frame>, held: map<nat, Frame>, m: nat, n: nat)
    requires m < n && n !in have
    requires forall k: nat :: k in held <==> k >= m && k in have
    requires forall k: nat :: k in held ==> held[k] == have[k]
    ensures Holds(map k | k in held && !(m <= k < n) :: held[k], have, n)
  {
  }

  lemma TakeInOrder(r: Receiver, f: Frame, held: map<nat, Frame>, have: map<nat, Frame>, m: nat, n: nat)
    requires Inv(r) && !r.rx.closed && f.seqNo == r.rx.next == m
    requires held == r.rx.queue[f.seqNo := f] && have == r.have[f.seqNo := f] && n == Frontier(held, m)
    ensures m < n && IsFrontier(have, 0, n) && held[n - 1] == have[n - 1]
    ensures Payloads(Span(have, 0, n)) == r.delivered + Concat(NonEmptyPayloads(Span(held, m, n)))
    ensures n !in have ==> Holds(map k | k in held && !(m <= k < n) :: held[k], have, n)
    ensures n in have ==> have[n - 1].IsFin()
  {
    assert m in held;
    assert forall k: nat :: k in held <==> k >= m && k in have;
    assert forall k: nat :: k in held ==> held[k] == have[k];
    assert forall i: nat :: i < m ==> i in have && !have[i].IsFin() by { assert !FinTaken(r); }
    FrontierJoin(have, held, m, n);
    NonEmptyPayloadsConcat(Span(held, m, n));
    assert Span(have, 0, m) == Span(r.have, 0, m);
    if n !in have {
      QueueRest(have, held, m, n);
    }
  }

  lemma TakeOutOfOrder(r: Receiver, f: Frame)
    requires Inv(r) && (r.rx.closed || f.seqNo != r.rx.next)
    ensures Inv(Take(r, f))
  {
    var r' := Take(r, f);
    assert Concat([]) == [];
    assert Span(r'.have, 0, r.rx.next) == Span(r.have, 0, r.rx.next);
  }

  /** Every arrival keeps the delivered bytes equal to the payloads of frames [0, rxSeq), with rxSeq
      the first number not held (or the one after the FIN). */
  lemma TakeInv(r: Receiver, f: Frame)
    requires Inv(r)
    ensures Inv(Take(r, f))
  {
    if !r.rx.closed && f.seqNo == r.rx.next {
      var held, have := r.rx.queue[f.seqNo := f], r.have[f.seqNo := f];
      TakeInOrder(r, f, held, have, r.rx.next, Frontier(held, r.rx.next));
    } else {
      TakeOutOfOrder(r, f);
    }
  }

  lemma {:induction false} TakeAllInv(r: Receiver, fs: seq<Frame>)
    requires Inv(r)
    ensures Inv(TakeAll(r, fs))
    decreases |fs|
  {
    if fs != [] {
      TakeInv(r, fs[0]);
      TakeAllInv(Take(r, fs[0]), fs[1..]);
    }
  }

  // ----- order and duplicates do not matter -----

  ghost predicate Consistent(fs: seq<Frame>) {
    forall f <- fs, g <- fs :: f.seqNo == g.seqNo ==> f == g
  }

  /** The frames of an arrival sequence, by number. */
  ghost function ByNumber(all: map<nat, Frame>, fs: seq<Frame>): map<nat, Frame>
    decreases |fs|
  {
    if fs == [] then all else ByNumber(all[fs[0].seqNo := fs[0]], fs[1..])
  }

  ghost predicate Tracks(r: Receiver, all: map<nat, Frame>) {
    && Inv(r)
    && IsFrontier(all, 0, r.rx.next)
    && (r.rx.closed <==> FinTaken(r))
    && (if r.rx.closed then r.rx.next - 1 in all && all[r.rx.next - 1] == r.have[r.rx.next - 1] else r.have == all)
    && (forall i: nat :: i < r.rx.next ==> i in r.have && i in all && r.have[i] == all[i])
  }

  lemma TakeTracks(r: Receiver, all: map<nat, Frame>, f: Frame)
    requires Tracks(r, all) && (f.seqNo in all ==> all[f.seqNo] == f)
    ensures Tracks(Take(r, f), all[f.seqNo := f])
  {
    TakeInv(r, f);
  }

  lemma {:induction false} TakeAllTracks(r: Receiver, all: map<nat, Frame>, fs: seq<Frame>)
    requires Tracks(r, all) && Consistent(fs)
    requires forall f <- fs :: f.seqNo in all ==> all[f.seqNo] == f
    ensures Tracks(TakeAll(r, fs), ByNumber(all, fs))
    decreases |fs|
  {
    if fs != [] {
      TakeTracks(r, all, fs[0]);
      TakeAllTracks(Take(r, fs[0]), all[fs[0].seqNo := fs[0]], fs[1..]);
    }
  }

  lemma {:induction false} ByNumberContents(all: map<nat, Frame>, fs: seq<Frame>, k: nat)
    requires Consistent(fs) && forall f <- fs :: f.seqNo in all ==> all[f.seqNo] == f
    ensures k in ByNumber(all, fs) <==> k in all || exists f <- fs :: f.seqNo == k
    ensures k in all ==> ByNumber(all, fs)[k] == all[k]
    ensures forall f <- fs :: f.seqNo == k ==> k in ByNumber(all, fs) && ByNumber(all, fs)[k] == f
    decreases |fs|
  {
    if fs != [] {
      ByNumberContents(all[fs[0].seqNo := fs[0]], fs[1..], k);
    }
  }

  lemma SameFramesSameNumbers(fs: seq<Frame>, gs: seq<Frame>)
    requires Consistent(fs) && Consistent(gs) && forall f :: f in fs <==> f in gs
    ensures ByNumber(map[], fs) == ByNumber(map[], gs)
  {
    forall k: nat
      ensures k in ByNumber(map[], fs) <==> k in ByNumber(map[], gs)
      ensures k in ByNumber(map[], fs) ==> ByNumber(map[], fs)[k] == ByNumber(map[], gs)[k]
    {
      ByNumberContents(map[], fs, k);
      ByNumberContents(map[], gs, k);
    }
  }

  /** Arrivals with the same frames, in any order and with any repetition, leave the same bytes
      delivered, the same rxSeq and the same closed flag; rxSeq is the first number not received. */
  lemma OrderAndDuplicatesDoNotMatter(fs: seq<Frame>, gs: seq<Frame>)
    requires Consistent(fs) && Consistent(gs) && forall f :: f in fs <==> f in gs
    ensures var r, r' := TakeAll(NEW_RECEIVER, fs), TakeAll(NEW_RECEIVER, gs);
            && r.delivered == r'.delivered && r.rx.next == r'.rx.next && r.rx.closed == r'.rx.closed
            && IsFrontier(ByNumber(map[], fs), 0, r.rx.next)
  {
    TakeAllTracks(NEW_RECEIVER, map[], fs);
    TakeAllTracks(NEW_RECEIVER, map[], gs);
    SameFramesSameNumbers(fs, gs);
    var r, r' := TakeAll(NEW_RECEIVER, fs), TakeAll(NEW_RECEIVER, gs);
    FrontierUnique(ByNumber(map[], fs), 0, r.rx.next, r'.rx.next);
    assert Span(r.have, 0, r.rx.next) == Span(r'.have, 0, r.rx.next);
  }

  lemma PairNumbers(f: Frame, g: Frame)
    requires f.seqNo == 0 && g.seqNo == 1
    ensures ByNumber(map[], [f, g]) == map[0 := f, 1 := g]
  {
    var all := map[f.seqNo := f];
    assert [f, g][1..] == [g] && [g][1..] == [];
    assert map[][f.seqNo := f] == all;
    assert ByNumber(all, [g]) == ByNumber(all[g.seqNo := g], []);
    assert all[g.seqNo := g] == map[0 := f, 1 := g];
  }

  /** Frames 0 and 1, wherever they come from, are delivered one after the other. */
  lemma TakesPair(f: Frame, g: Frame)
    requires f.seqNo == 0 && g.seqNo == 1 && !f.IsFin()
    ensures TakeAll(NEW_RECEIVER, [f, g]).delivered == f.payload + g.payload
  {
    hide ByNumber, TakeAll;
    var r, all := TakeAll(NEW_RECEIVER, [f, g]), ByNumber(map[], [f, g]);
    TakeAllTracks(NEW_RECEIVER, map[], [f, g]);
    PairNumbers(f, g);
    assert r.rx.next == 2;
    assert Span(r.have, 0, 2) == [f] + [g];
    PayloadsAppend([f], [g]);
    assert Payloads([f]) == f.payload + Payloads([]) && Payloads([g]) == g.payload + Payloads([]);
  }
}
