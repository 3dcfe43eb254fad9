/** Frames that arrive under one session identifier but were not all numbered by one sender: those of two
    server sessions opened under it one after the other (internal/exit/exit.go, routeIncoming), and the
    resets a client sends when it shuts down (internal/carrier/client.go, Shutdown), which carry number 0. */
module SharedNumbers {
  import opened Bytes
  import opened Frames
  import Tx = SessionTx
  import Runs = SessionRuns
  import opened SessionRx

  // ----- senders with given bytes, one to a frame -----

  lemma {:induction false} ChunksOfOne(b: bytes)
    ensures |Tx.Chunks(b, 1)| == |b| && forall k :: 0 <= k < |b| ==> Tx.Chunks(b, 1)[k] == [b[k]]
  {
    if |b| > 1 {
      ChunksOfOne(b[1..]);
      assert Tx.Chunks(b, 1) == [b[..1]] + Tx.Chunks(b[1..], 1);
    }
  }

  /** Some session accepts these bytes and emits them, each in a frame of its own. */
  lemma Spelled(id: SessionID, client: bool, data: bytes) returns (s: Runs.Sender)
    requires client ==> data != []
    ensures Runs.Inv(s, client) && s.tx.id == id && s.stream == data && |s.emitted| == |data|
    ensures forall k: nat :: k < |data| ==>
              s.emitted[k].payload == [data[k]] && !s.emitted[k].IsFin() && s.emitted[k].seqNo == k
  {
    var s0 := Runs.NewSender(id, [], client, 1);
    var s1 := Runs.Next(s0, Runs.Write(data, 1));
    s := Runs.Next(s1, Runs.Drain(1, 0, 1));
    assert Payloads([]) == [];
    Runs.StepInv(s0, Runs.Write(data, 1), client);
    Runs.StepInv(s1, Runs.Drain(1, 0, 1), client);
    assert [] + data == data;
    SpelledOut(s1, data);
    hide Runs.Next, Tx.Pending;
    forall k: nat | k < |data|
      ensures s.emitted[k].payload == [data[k]] && !s.emitted[k].IsFin() && s.emitted[k].seqNo == k
    {
      assert Runs.WellFormed(s, client, k);
    }
  }

  lemma SpelledOut(s: Runs.Sender, data: bytes)
    requires s.tx.buf == data && s.emitted == [] && !s.tx.closeReq && (s.tx.synNeeded ==> data != [])
    ensures var fs := Runs.Next(s, Runs.Drain(1, 0, 1)).emitted;
            |fs| == |data| && forall k :: 0 <= k < |data| ==> fs[k].payload == [data[k]] && !fs[k].IsFin()
  {
    ChunksOfOne(data);
    assert Tx.ChunkCap(s.tx, 1) == 1;
    assert Runs.Next(s, Runs.Drain(1, 0, 1)).emitted == Tx.Pending(s.tx, 1);
  }

  function Max(a: int, b: int): int {
    if a > b then a else b
  }

  // ----- what the receiver takes comes from what arrived -----

  lemma {:induction false} TakenFrom(r: Receiver, fs: seq<Frame>, all: seq<Frame>)
    requires (forall f <- fs :: f in all) && forall k: nat :: k in r.have ==> r.have[k] in all && r.have[k].seqNo == k
    ensures var r' := TakeAll(r, fs); forall k: nat :: k in r'.have ==> r'.have[k] in all && r'.have[k].seqNo == k
    decreases |fs|
  {
    if fs != [] {
      hide Deliver;
      assert fs[0] in fs;
      var r1 := Take(r, fs[0]);
      forall k: nat | k in r1.have ensures r1.have[k] in all && r1.have[k].seqNo == k { }
      TakenFrom(r1, fs[1..], all);
      assert TakeAll(r, fs) == TakeAll(r1, fs[1..]);
    }
  }

  /** The delivered bytes are the payloads of the frames taken for 0, 1, 2, …, each of them some arrival. */
  lemma TakenSpan(fs: seq<Frame>)
    ensures var r := TakeAll(NEW_RECEIVER, fs);
            && Inv(r) && r.delivered == Payloads(Span(r.have, 0, r.rx.next))
            && forall k: nat :: k in r.have ==> r.have[k] in fs && r.have[k].seqNo == k
  {
    assert Span(map[], 0, 0) == [] && Payloads([]) == [];
    TakeAllInv(NEW_RECEIVER, fs);
    TakenFrom(NEW_RECEIVER, fs, fs);
  }

  lemma TakenFront(r: Receiver)
    requires Inv(r)
    ensures forall k: nat :: k < r.rx.next ==> k in r.have
  {
  }

  lemma SpanOf(have: map<nat, Frame>, n: nat, fs: seq<Frame>)
    requires n <= |fs| && forall k: nat :: k < n ==> k in have && have[k] == fs[k]
    ensures Payloads(Span(have, 0, n)) <= Payloads(fs)
  {
    assert Span(have, 0, n) == fs[..n];
    PayloadsPrefix(fs, n);
  }

  // ----- several sessions under one identifier -----

  /** One frame of one of the sessions. */
  datatype Arrival = Arrival(who: nat, number: nat)

  ghost predicate Opened(ss: seq<Runs.Sender>, id: SessionID, counts: seq<nat>) {
    |ss| == |counts| && forall w :: 0 <= w < |ss| ==>
        Runs.Inv(ss[w], false) && ss[w].tx.id == id && |ss[w].emitted| == counts[w]
  }

  predicate Possible(counts: seq<nat>, arrivals: seq<Arrival>) {
    forall i :: 0 <= i < |arrivals| ==> arrivals[i].who < |counts| && arrivals[i].number < counts[arrivals[i].who]
  }

  function Arriving(ss: seq<Runs.Sender>, arrivals: seq<Arrival>): (fs: seq<Frame>)
    requires forall i :: 0 <= i < |arrivals| ==>
               arrivals[i].who < |ss| && arrivals[i].number < |ss[arrivals[i].who].emitted|
    ensures |fs| == |arrivals|
  {
    seq(|arrivals|, i requires 0 <= i < |arrivals| => ss[arrivals[i].who].emitted[arrivals[i].number])
  }

  ghost predicate OneStream(ss: seq<Runs.Sender>, got: bytes) {
    exists w :: 0 <= w < |ss| && got <= ss[w].stream
  }

  /** No two sessions emitted frames that could follow one another. */
  predicate NoMix(counts: seq<nat>) {
    forall v, w :: 0 <= v < |counts| && 0 <= w < |counts| && v != w ==> counts[v] == 0 || counts[w] <= 1
  }

  lemma NumbersAre(ss: seq<Runs.Sender>, id: SessionID, counts: seq<nat>, w: nat, k: nat)
    requires Opened(ss, id, counts) && w < |ss| && k < counts[w]
    ensures ss[w].emitted[k].seqNo == k
  {
    assert Runs.WellFormed(ss[w], false, k);
  }

  lemma TakenBySender(ss: seq<Runs.Sender>, id: SessionID, counts: seq<nat>, arrivals: seq<Arrival>, f: Frame)
      returns (w: nat)
    requires Opened(ss, id, counts) && Possible(counts, arrivals) && f in Arriving(ss, arrivals)
    ensures w < |ss| && f.seqNo < counts[w] && f == ss[w].emitted[f.seqNo]
  {
    var i :| 0 <= i < |arrivals| && Arriving(ss, arrivals)[i] == f;
    w := arrivals[i].who;
    NumbersAre(ss, id, counts, w, arrivals[i].number);
  }

  lemma UnmixedIsOneStream(ss: seq<Runs.Sender>, id: SessionID, counts: seq<nat>, arrivals: seq<Arrival>)
    requires Opened(ss, id, counts) && Possible(counts, arrivals) && NoMix(counts) && |counts| > 0
    ensures OneStream(ss, TakeAll(NEW_RECEIVER, Arriving(ss, arrivals)).delivered)
  {
    hide TakeAll, Inv, Arriving;
    var fs := Arriving(ss, arrivals);
    var r := TakeAll(NEW_RECEIVER, fs);
    var n := r.rx.next;
    TakenSpan(fs);
    TakenFront(r);
    if n == 0 {
      assert r.delivered <= ss[0].stream;
    } else {
      var last := r.have[n - 1];
      var u := TakenBySender(ss, id, counts, arrivals, last);
      forall k: nat | k < n ensures r.have[k] == ss[u].emitted[k] {
        var w := TakenBySender(ss, id, counts, arrivals, r.have[k]);
        assert k < n - 1 ==> w == u;
      }
      SpanOf(r.have, n, ss[u].emitted);
      assert Payloads(ss[u].emitted) <= ss[u].stream;
      assert r.delivered <= ss[u].stream;
    }
  }

  function Tone(u: nat, v: nat): byte {
    if u == v then 1 else 2
  }

  /** Session v sends ones, all others send twos. */
  lemma Constant(id: SessionID, counts: seq<nat>, v: nat) returns (ss: seq<Runs.Sender>)
    ensures Opened(ss, id, counts)
    ensures forall u: nat :: u < |ss| ==>
              |ss[u].stream| == counts[u] && forall k :: 0 <= k < counts[u] ==> ss[u].stream[k] == Tone(u, v)
    ensures forall u: nat, k: nat :: u < |ss| && k < counts[u] ==>
              ss[u].emitted[k].payload == [Tone(u, v)] && !ss[u].emitted[k].IsFin()
    decreases |counts|
  {
    if counts == [] {
      ss := [];
    } else {
      var n := |counts| - 1;
      var rest := Constant(id, counts[..n], v);
      var s := Spelled(id, false, seq(counts[n], _ => Tone(n, v)));
      ss := rest + [s];
    }
  }

  /** Two sessions with frames 0 and 1 to offer make a stream that neither accepted. */
  lemma MixedStream(id: SessionID, counts: seq<nat>, v: nat, w: nat) returns (ss: seq<Runs.Sender>)
    requires v < |counts| && w < |counts| && v != w && counts[v] > 0 && counts[w] > 1
    ensures Opened(ss, id, counts)
    ensures !OneStream(ss, TakeAll(NEW_RECEIVER, Arriving(ss, [Arrival(v, 0), Arrival(w, 1)])).delivered)
  {
    ss := Constant(id, counts, v);
    var arrivals := [Arrival(v, 0), Arrival(w, 1)];
    var f, g := ss[v].emitted[0], ss[w].emitted[1];
    NumbersAre(ss, id, counts, v, 0);
    NumbersAre(ss, id, counts, w, 1);
    assert Arriving(ss, arrivals) == [f, g];
    TakesPair(f, g);
    var got := TakeAll(NEW_RECEIVER, [f, g]).delivered;
    assert got == [1, 2];
    forall u | 0 <= u < |ss| ensures !(got <= ss[u].stream) {
      assert got[0] == 1 && got[1] == 2;
    }
  }

  ghost predicate NeverMixes(id: SessionID, counts: seq<nat>) {
    forall ss: seq<Runs.Sender>, arrivals: seq<Arrival> :: Opened(ss, id, counts) && Possible(counts, arrivals) ==>
      OneStream(ss, TakeAll(NEW_RECEIVER, Arriving(ss, arrivals)).delivered)
  }

  /** Whatever the sessions opened under one identifier emitted, and whatever arrives of it, the bytes
      delivered are a prefix of one session's stream, if and only if no session that emitted anything
      shares the identifier with one that emitted two frames. The condition holds while the identifier was
      opened once. */
  lemma OneStreamIff(id: SessionID, counts: seq<nat>)
    requires |counts| > 0
    ensures NeverMixes(id, counts) <==> NoMix(counts)
    ensures |counts| == 1 ==> NoMix(counts)
  {
    if NoMix(counts) {
      forall ss: seq<Runs.Sender>, arrivals: seq<Arrival> | Opened(ss, id, counts) && Possible(counts, arrivals)
        ensures OneStream(ss, TakeAll(NEW_RECEIVER, Arriving(ss, arrivals)).delivered)
      {
        UnmixedIsOneStream(ss, id, counts, arrivals);
      }
    } else {
      var v, w :| 0 <= v < |counts| && 0 <= w < |counts| && v != w && counts[v] > 0 && counts[w] > 1;
      var ss := MixedStream(id, counts, v, w);
      assert Possible(counts, [Arrival(v, 0), Arrival(w, 1)]);
    }
  }

  // ----- resets from a client that shuts down -----

  datatype Item = Data(number: nat) | Reset

  predicate Within(xs: seq<Item>, n: nat) {
    forall i :: 0 <= i < |xs| ==> xs[i].Data? ==> xs[i].number < n
  }

  function Sent(a: Runs.Sender, xs: seq<Item>): (fs: seq<Frame>)
    requires Within(xs, |a.emitted|)
    ensures |fs| == |xs|
  {
    seq(|xs|, i requires 0 <= i < |xs| => if xs[i].Data? then a.emitted[xs[i].number] else ResetFrame(a.tx.id, []))
  }

  /** A reset is processed before frame 0, so while rxSeq is still 0. */
  predicate ResetFirst(xs: seq<Item>) {
    xs != [] && (xs[0].Reset? || (xs[0] != Data(0) && ResetFirst(xs[1..])))
  }

  lemma FramesTail(a: Runs.Sender, xs: seq<Item>)
    requires xs != [] && Within(xs, |a.emitted|)
    ensures Within(xs[1..], |a.emitted|) && Sent(a, xs)[1..] == Sent(a, xs[1..])
    ensures Sent(a, xs)[0] == if xs[0].Data? then a.emitted[xs[0].number] else ResetFrame(a.tx.id, [])
  {
  }

  /** The receiver holds only what its sender emitted. */
  ghost predicate Own(r: Receiver, a: Runs.Sender) {
    forall k: nat :: k in r.have ==> k < |a.emitted| && r.have[k] == a.emitted[k]
  }

  lemma {:induction false} OwnThroughout(r: Receiver, a: Runs.Sender, xs: seq<Item>)
    requires Runs.Inv(a, true) && Within(xs, |a.emitted|) && Own(r, a)
    requires r.rx.closed || r.rx.next > 0 || !ResetFirst(xs)
    ensures Own(TakeAll(r, Sent(a, xs)), a)
    decreases |xs|
  {
    if xs != [] {
      FramesTail(a, xs);
      var f := Sent(a, xs)[0];
      if xs[0].Data? {
        assert Runs.WellFormed(a, true, xs[0].number);
      }
      OwnThroughout(Take(r, f), a, xs[1..]);
    }
  }

  /** A reset in place of frame 0; every other number is the sender's. */
  ghost predicate Displaced(r: Receiver, a: Runs.Sender) {
    && !r.rx.closed && r.rx.next > 0 && 0 in r.have && r.have[0] == ResetFrame(a.tx.id, [])
    && forall k: nat :: k in r.have && k > 0 ==> k < |a.emitted| && r.have[k] == a.emitted[k]
  }

  ghost predicate NoFin(a: Runs.Sender) {
    forall k: nat :: k < |a.emitted| ==> !a.emitted[k].IsFin()
  }

  /** Before any frame 0 or reset. */
  ghost predicate Unbegun(r: Receiver, a: Runs.Sender) {
    !r.rx.closed && r.rx.next == 0 && Own(r, a) && 0 !in r.have && Inv(r)
  }

  lemma StaysOpen(r: Receiver, f: Frame)
    requires Inv(r) && !r.rx.closed && !f.IsFin() && forall k: nat :: k in r.have ==> !r.have[k].IsFin()
    ensures var r' := Take(r, f);
            && !r'.rx.closed && (if f.seqNo == r.rx.next then r'.rx.next > r.rx.next else r'.rx.next == r.rx.next)
  {
    if f.seqNo == r.rx.next {
      var held := r.rx.queue[f.seqNo := f];
      assert r.rx.next in held;
      assert IsFrontier(held, r.rx.next, Frontier(held, r.rx.next));
    }
  }

  lemma ItemFrame(a: Runs.Sender, x: Item, f: Frame)
    requires Runs.Inv(a, true) && NoFin(a) && (x.Data? ==> x.number < |a.emitted|)
    requires f == if x.Data? then a.emitted[x.number] else ResetFrame(a.tx.id, [])
    ensures !f.IsFin() && f.seqNo == if x.Data? then x.number else 0
  {
    if x.Data? {
      assert Runs.WellFormed(a, true, x.number);
    }
  }

  lemma DisplacedStep(r: Receiver, a: Runs.Sender, x: Item, f: Frame)
    requires Runs.Inv(a, true) && NoFin(a) && Inv(r) && (x.Data? ==> x.number < |a.emitted|)
    requires f == if x.Data? then a.emitted[x.number] else ResetFrame(a.tx.id, [])
    requires Displaced(r, a) || (Unbegun(r, a) && x != Data(0))
    ensures var r' := Take(r, f);
            && Inv(r') && (forall k: nat :: k in r.have || x == Data(k) ==> k in r'.have)
            && (Displaced(r, a) || x.Reset? ==> Displaced(r', a)) && (Unbegun(r, a) && x.Data? ==> Unbegun(r', a))
  {
    hide Deliver, Inv, Runs.Inv;
    ItemFrame(a, x, f);
    TakeInv(r, f);
    TakenFront(r);
    StaysOpen(r, f);
  }

  /** Once a reset came first it stands for frame 0, and everything else is taken as usual. */
  lemma {:induction false} DisplacedThroughout(r: Receiver, a: Runs.Sender, xs: seq<Item>)
    requires Runs.Inv(a, true) && NoFin(a) && Within(xs, |a.emitted|) && Inv(r)
    requires Displaced(r, a) || (Unbegun(r, a) && ResetFirst(xs))
    ensures var r' := TakeAll(r, Sent(a, xs));
            Displaced(r', a) && Inv(r') && (forall k: nat :: k in r.have || Data(k) in xs ==> k in r'.have)
    decreases |xs|
  {
    hide Deliver, Inv, Runs.Inv, Displaced, Unbegun;
    if xs != [] {
      FramesTail(a, xs);
      var f := Sent(a, xs)[0];
      DisplacedStep(r, a, xs[0], f);
      DisplacedThroughout(Take(r, f), a, xs[1..]);
      assert xs == [xs[0]] + xs[1..];
    } else {
      assert Sent(a, xs) == [];
    }
  }

  /** What a reset that came first costs: exactly the bytes of frame 0. */
  lemma ResetFirstLoses(a: Runs.Sender, xs: seq<Item>)
    requires Runs.Inv(a, true) && NoFin(a) && Within(xs, |a.emitted|) && ResetFirst(xs)
    ensures var r := TakeAll(NEW_RECEIVER, Sent(a, xs));
            && 0 < r.rx.next <= Max(1, |a.emitted|)
               && r.delivered == Payloads(a.emitted[Min(1, |a.emitted|)..][..r.rx.next - 1])
            && (Data(1) in xs ==> r.rx.next > 1)
  {
    assert Span(map[], 0, 0) == [] && Payloads([]) == [];
    DisplacedThroughout(NEW_RECEIVER, a, xs);
    var r := TakeAll(NEW_RECEIVER, Sent(a, xs));
    TakenFront(r);
    var n, rest := r.rx.next, a.emitted[Min(1, |a.emitted|)..];
    assert Span(r.have, 0, n) == [ResetFrame(a.tx.id, [])] + rest[..n - 1];
    PayloadsAppend([ResetFrame(a.tx.id, [])], rest[..n - 1]);
    assert Payloads([ResetFrame(a.tx.id, [])]) == [] + Payloads([]);
  }

  lemma InOrderOrShort(a: Runs.Sender, xs: seq<Item>)
    requires Runs.Inv(a, true) && Within(xs, |a.emitted|) && a.emitted != []
    requires !ResetFirst(xs) || Data(1) !in xs
    ensures TakeAll(NEW_RECEIVER, Sent(a, xs)).delivered <= a.stream
  {
    var fs := Sent(a, xs);
    var r := TakeAll(NEW_RECEIVER, fs);
    TakenSpan(fs);
    TakenFront(r);
    if !ResetFirst(xs) {
      OwnThroughout(NEW_RECEIVER, a, xs);
      if r.rx.next > 0 {
        assert r.have[r.rx.next - 1] == a.emitted[r.rx.next - 1];
      }
      SpanOf(r.have, r.rx.next, a.emitted);
    } else {
      Number0Only(a, xs);
      if r.rx.next > 0 {
        var f := r.have[0];
        assert Span(r.have, 0, 1) == [f];
        assert Payloads([f]) == f.payload + Payloads([]);
        assert a.emitted[0].payload <= Payloads(a.emitted);
      }
    }
  }

  lemma Number0Only(a: Runs.Sender, xs: seq<Item>)
    requires Runs.Inv(a, true) && Within(xs, |a.emitted|) && Data(1) !in xs && a.emitted != []
    ensures TakeAll(NEW_RECEIVER, Sent(a, xs)).rx.next <= 1
    ensures var r := TakeAll(NEW_RECEIVER, Sent(a, xs));
            0 in r.have ==> r.have[0] == a.emitted[0] || r.have[0].payload == []
  {
    var fs := Sent(a, xs);
    TakenSpan(fs);
    TakenFront(TakeAll(NEW_RECEIVER, fs));
    forall f <- fs ensures f.seqNo != 1 && (f.seqNo == 0 ==> f == a.emitted[0] || f.payload == []) {
      var i :| 0 <= i < |xs| && fs[i] == f;
      if xs[i].Data? {
        assert Runs.WellFormed(a, true, xs[i].number);
        assert xs[i] in xs;
      }
    }
  }

  ghost predicate NeverSkips(id: SessionID, n: nat, xs: seq<Item>) {
    forall a: Runs.Sender :: Runs.Inv(a, true) && a.tx.id == id && |a.emitted| == n && Within(xs, n) ==>
      TakeAll(NEW_RECEIVER, Sent(a, xs)).delivered <= a.stream
  }

  /** Whatever n frames a session emitted, the bytes delivered from this order of its frames and resets are a
      prefix of its stream, if and only if no reset is processed while rxSeq is 0, or frame 1 never comes. */
  lemma ResetOrderIff(id: SessionID, n: nat, xs: seq<Item>)
    requires n > 0 && Within(xs, n)
    ensures NeverSkips(id, n, xs) <==> !ResetFirst(xs) || Data(1) !in xs
  {
    if !ResetFirst(xs) || Data(1) !in xs {
      forall a: Runs.Sender | Runs.Inv(a, true) && a.tx.id == id && |a.emitted| == n
        ensures TakeAll(NEW_RECEIVER, Sent(a, xs)).delivered <= a.stream
      {
        InOrderOrShort(a, xs);
      }
    } else {
      var a := Spelled(id, true, seq(n, k => if k == 0 then 1 else 2));
      ResetFirstLoses(a, xs);
      var r := TakeAll(NEW_RECEIVER, Sent(a, xs));
      assert Within(xs, n) && n > 1;
      var rest := a.emitted[1..][..r.rx.next - 1];
      assert Payloads(rest) == rest[0].payload + Payloads(rest[1..]) && rest[0] == a.emitted[1];
      assert r.delivered[0] == 2 && a.stream[0] == 1;
    }
  }
}
