/** A server that makes a response over the client's cap (internal/exit/exit.go): twenty-four sessions of one
    client, each with two mebibytes read upstream, but for one byte of the oldest. */
module ExitOverflows {
  import opened Bytes
  import opened Frames
  import opened Drains
  import opened ExitDrain
  import opened ExitRounds
  import opened ExitLimits
  import opened Sessions
  import opened SessionTables
  import opened ExitServer
  import FrameCodec
  import Batch = BatchCodec
  import Tx = SessionTx
  import Runs = SessionRuns

  const UPSTREAM_READ_BUF := 256 * 1024

  // ----- identifiers -----

  function Id(i: nat): SessionID
    requires i < 256
  {
    seq(16, k => if k == 0 then i else 0)
  }

  lemma IdsDiffer(i: nat, j: nat)
    requires i < 256 && j < 256 && i != j
    ensures Id(i) != Id(j)
  {
    assert Id(i)[0] != Id(j)[0];
  }

  ghost function Ids(n: nat): (s: set<SessionID>)
    requires n <= 256
  {
    if n == 0 then {} else Ids(n - 1) + {Id(n - 1)}
  }

  lemma {:induction false} IdsAre(n: nat)
    requires n <= 256
    ensures forall i: nat :: i < n ==> Id(i) in Ids(n)
    ensures forall id <- Ids(n) :: exists i: nat :: i < n && id == Id(i)
  {
    hide Id;
    if n > 0 {
      IdsAre(n - 1);
    }
  }

  lemma {:induction false} IdsCount(n: nat)
    requires n <= 256
    ensures |Ids(n)| == n
  {
    hide Id;
    if n > 0 {
      IdsCount(n - 1);
      IdsAre(n - 1);
      if Id(n - 1) in Ids(n - 1) {
        var i: nat :| i < n - 1 && Id(n - 1) == Id(i);
        IdsDiffer(i, n - 1);
        assert false;
      }
    }
  }

  // ----- one session -----

  /** The sending half of a session that read n bytes, the first of them at this time, and sent none. */
  ghost predicate Holds(t: Tx.Tx, n: nat, since: nat) {
    !t.synNeeded && t.next == 0 && |t.buf| == n && t.queuedAt == since
  }

  /** Nothing is queued, and no OnTx call is on its way. */
  ghost predicate Calm(server: Server)
    reads server`pendingRSTs, server`pendingCtrl, server`callbacks
  {
    server.pendingRSTs == map[] && server.pendingCtrl == map[] && server.callbacks == multiset{}
  }

  /** One read upstream, and its OnTx call. */
  method ReadOnce(server: Server, s: Session, data: bytes, now: nat)
    requires server.Valid() && Calm(server) && s.id in server.sessions && server.sessions[s.id] == s && s.Valid()
    requires !s.closeReq && |s.txBuf| <= Tx.TX_BUF_HIGH_WATER
    modifies server`callbacks, server`txReady, s`txBuf, s`firstQueuedAt, s`stream
    ensures server.Valid() && Calm(server) && s.Valid() && server.txReady == old(server.txReady) + {s.id}
    ensures s.TxState() == Tx.Enqueue(old(s.TxState()), data, now)
    ensures server.States() == old(server.States())[s.id := s.TxState()]
  {
    hide Server.Valid, Session.Valid, Server.States, Tx.Enqueue;
    forall k | k in server.sessions ensures k != s.id ==> server.sessions[k] != s { server.SlotAt(k); }
    var _ := server.UpstreamRead(s, data, now);
    server.OnTx(s.id);
    server.OneChanged(s);
  }

  method OpenEmpty(server: Server, id: SessionID, owner: ClientID, now: nat) returns (s: Session)
    requires server.Valid() && Calm(server)
    modifies server`sessions, server`sessionOwners, server`upstreams, server`firstReply, server`lastActivity,
             server`losses
    ensures server.Valid() && Calm(server) && fresh(s) && s.Valid() && s.id == id
            && s.TxState() == Tx.Fresh(id, [], false, now)
    ensures server.sessions == With(old(server.sessions), id, s) && id in server.sessions && server.sessions[id] == s
    ensures server.sessionOwners == With(old(server.sessionOwners), id, owner)
    ensures server.States() == old(server.States())[id := s.TxState()]
  {
    hide Server.Valid, Session.Valid, With;
    hide Server.States, Session.TxState, Session.Log, Runs.NewSender;
    ghost var sessions := server.sessions;
    s := server.OpenSession(id, [], owner, 0, now);
    NewTx(s, id, now);
    WithAt(sessions, id, s, id);
  }

  lemma NewTx(s: Session, id: SessionID, now: nat)
    requires s.Log() == Runs.NewSender(id, [], false, now)
    ensures s.id == id && s.TxState() == Tx.Fresh(id, [], false, now)
  {
  }

  /** It reads n bytes, a buffer at a time. */
  method Fill(server: Server, s: Session, n: nat, now: nat)
    requires server.Valid() && Calm(server) && 0 < n <= Tx.TX_BUF_HIGH_WATER && now > 0
    requires s.id in server.sessions && server.sessions[s.id] == s && s.Valid()
             && s.TxState() == Tx.Fresh(s.id, [], false, now)
    modifies server`callbacks, server`txReady, s`txBuf, s`firstQueuedAt, s`stream
    ensures server.Valid() && Calm(server) && server.txReady == old(server.txReady) + {s.id}
    ensures Holds(s.TxState(), n, now) && server.States() == old(server.States())[s.id := s.TxState()]
  {
    hide Server.Valid, Session.Valid, Server.States;
    ghost var before := server.States();
    var done := 0;
    StateIn(server, s);
    while done < n
      invariant done <= n && server.Valid() && Calm(server) && s.Valid()
      invariant Holds(s.TxState(), done, if done == 0 then 0 else now) && !s.closeReq
      invariant server.txReady == old(server.txReady) + if done == 0 then {} else {s.id}
      invariant server.States() == before[s.id := s.TxState()]
    {
      var m := Min(UPSTREAM_READ_BUF, n - done);
      ReadOnce(server, s, seq(m, _ => 0), now);
      done := done + m;
    }
  }

  lemma StateIn(server: Server, s: Session)
    requires s.id in server.sessions && server.sessions[s.id] == s
    ensures server.States() == server.States()[s.id := s.TxState()]
  {
  }

  // ----- all of them -----

  function Size(i: nat): nat {
    if i == 0 then OVERSHOOT - 1 else OVERSHOOT
  }

  ghost predicate Filled(txs: Senders<SessionID>, n: nat)
    requires n <= 256
  {
    txs.Keys == Ids(n) && forall i: nat :: i < n ==> Id(i) in txs && Holds(txs[Id(i)], Size(i), i + 1)
  }

  lemma FilledMore(txs: Senders<SessionID>, n: nat, t: Tx.Tx)
    requires n < 256 && Filled(txs, n) && Holds(t, Size(n), n + 1)
    ensures Filled(txs[Id(n) := t], n + 1)
  {
    hide Id, Holds;
    forall i: nat | i < n ensures Id(i) != Id(n) { IdsDiffer(i, n); }
  }

  lemma NoneFilled(server: Server)
    requires server.sessions == map[]
    ensures Filled(server.States(), 0) && Ids(0) == {}
  {
  }

  lemma IdsNext(n: nat)
    requires n < 256
    ensures Ids(n + 1) == Ids(n) + {Id(n)}
  {
  }

  lemma WithValues<V>(m: map<SessionID, V>, id: SessionID, v: V)
    ensures With(m, id, v).Values <= m.Values + {v}
  {
  }

  /** Twenty-four of one client. */
  method FillAll(owner: ClientID) returns (server: Server)
    ensures fresh({server}) && server.Valid() && Calm(server) && Filled(server.States(), 24)
    ensures server.sessions.Keys == server.txReady == Ids(24) && fresh(server.sessions.Values)
    ensures forall id <- server.sessionOwners :: server.sessionOwners[id] == owner
  {
    hide Server.Valid, Session.Valid, Server.States, Filled, Id, Ids, Holds;
    server := new Server();
    server.CoherentNow();
    NoneFilled(server);
    for n := 0 to 24
      invariant server.Valid() && Calm(server) && Filled(server.States(), n)
      invariant server.sessions.Keys == server.txReady == Ids(n)
      invariant forall id <- server.sessionOwners :: server.sessionOwners[id] == owner
      invariant fresh({server}) && fresh(server.sessions.Values)
    {
      ghost var txs, sessions := server.States(), server.sessions;
      var s := OpenEmpty(server, Id(n), owner, n + 1);
      Fill(server, s, Size(n), n + 1);
      FilledMore(txs, n, s.TxState());
      assert server.States() == txs[Id(n) := s.TxState()];
      WithValues(sessions, Id(n), s);
      IdsNext(n);
    }
  }

  lemma {:induction false} AtLeast(refs: seq<SessionID>, ids: set<SessionID>)
    requires forall id <- ids :: id in refs
    ensures |refs| >= |ids|
    decreases |refs|
  {
    if refs != [] {
      AtLeast(refs[1..], ids - {refs[0]});
    } else {
      assert ids == {};
    }
  }

  lemma QueueIsBulk(server: Server, owner: ClientID, refs: seq<SessionID>)
    requires Filled(server.States(), 24) && server.sessions.Keys == server.txReady == Ids(24)
    requires (forall id <- server.sessionOwners :: server.sessionOwners[id] == owner)
    requires server.sessionOwners.Keys == server.sessions.Keys && server.IsQueue(owner, refs)
    ensures Bulk(server.States(), refs) && |server.sessions| == 24
    ensures forall id <- refs :: id in server.States()
              && var t := server.States()[id]; t.next + |t.buf| + 1 <= FrameCodec.SEQ_LIMIT
  {
    hide Id, Ids, Holds, Server.States, Bulk;
    var txs := server.States();
    IdsAre(24);
    IdsCount(24);
    AtLeast(refs, Ids(24));
    assert |server.sessions| == |server.sessions.Keys|;
    forall id <- refs ensures Placed(txs, id) && txs[id].queuedAt == server.sessions[id].firstQueuedAt {
      assert id in Ids(24);
      server.StateAt(id);
      PlacedAt(txs, id);
    }
    Oldest(txs, refs);
  }

  ghost predicate Placed(txs: Senders<SessionID>, id: SessionID) {
    id in txs && exists i: nat :: i < 24 && id == Id(i) && Holds(txs[id], Size(i), i + 1)
  }

  lemma PlacedAt(txs: Senders<SessionID>, id: SessionID)
    requires Filled(txs, 24) && id in Ids(24)
    ensures Placed(txs, id)
  {
    hide Id, Ids, Holds;
    IdsAre(24);
    var i: nat :| i < 24 && id == Id(i);
  }

  lemma Oldest(txs: Senders<SessionID>, refs: seq<SessionID>)
    requires Filled(txs, 24) && Distinct(refs) && |refs| >= 24 && Id(0) in refs
    requires forall id <- refs :: Placed(txs, id)
    requires forall i, j :: 0 <= i < j < |refs| ==>
               refs[i] in txs && refs[j] in txs && txs[refs[i]].queuedAt <= txs[refs[j]].queuedAt
    ensures Bulk(txs, refs)
    ensures forall id <- refs :: txs[id].next + |txs[id].buf| + 1 <= FrameCodec.SEQ_LIMIT
  {
    hide Id, Ids, Filled;
    var k :| 0 <= k < |refs| && refs[k] == Id(0);
    var y: nat :| y < 24 && refs[k] == Id(y) && Holds(txs[refs[k]], Size(y), y + 1);
    if y > 0 { IdsDiffer(0, y); assert false; }
    assert refs[0] in refs;
    var z: nat :| z < 24 && refs[0] == Id(z) && Holds(txs[refs[0]], Size(z), z + 1);
    assert txs[refs[0]].queuedAt <= txs[refs[k]].queuedAt;
    assert z == 0;
    forall i | 0 <= i < |refs|
      ensures refs[i] in txs && !txs[refs[i]].synNeeded && txs[refs[i]].next == 0
      ensures |txs[refs[i]].buf| == if i == 0 then OVERSHOOT - 1 else OVERSHOOT
    {
      assert refs[i] in refs;
      var j: nat :| j < 24 && refs[i] == Id(j) && Holds(txs[refs[i]], Size(j), j + 1);
      if i > 0 { assert refs[i] != refs[0]; }
    }
  }

  /** The response of such a server to a poll, as EncodeBatch makes it with a suite that cannot compress it, is
      longer than the client reads. */
  method Overflow(owner: ClientID, nonce: bytes) returns (out: seq<Frame>, body: bytes)
    ensures Batch.AllWire(out) && |body| > RESPONSE_CAP && body == Batch.Body(Batch.PlainSuite(), owner, out, nonce)
  {
    hide Server.Valid, Server.States, Filled, Ids, Session.Valid, Server.IsQueue, Bulk, Serve, Batch.PlainSuite,
         Batch.Body, Batch.Plain, Booked, Server.Table, Batch.Lawful;
    var server := FillAll(owner);
    server.CoherentNow();
    forall refs | server.IsQueue(owner, refs)
      ensures Bulk(server.States(), refs) && |server.sessions| == 24
      ensures forall id <- refs :: id in server.States()
                && var t := server.States()[id]; t.next + |t.buf| + 1 <= FrameCodec.SEQ_LIMIT
    {
      QueueIsBulk(server, owner, refs);
    }
    ghost var txs := server.States();
    server.OwedInStates();
    ghost var refs, queued, frames;
    var urgent;
    out, urgent, refs, queued, frames := server.DrainAll(owner, MAX_RESPONSE_BYTES, 25);
    assert queued == [];
    TooLong(txs, refs, owner, out, nonce);
    var r := Batch.EncodeBatch(Batch.PlainSuite(), owner, out, nonce);
    body := r.value;
  }

  lemma TooLong(txs: Senders<SessionID>, refs: seq<SessionID>, owner: ClientID, out: seq<Frame>, nonce: bytes)
    requires Bulk(txs, refs)
    requires forall id <- refs :: id in txs && txs[id].next + |txs[id].buf| + 1 <= FrameCodec.SEQ_LIMIT
    requires out == [] + Serve(OwedIn(txs), refs, BatchCap(24), MAX_RESPONSE_BYTES).frames
    ensures Batch.AllWire(out) && |out| <= Batch.MAX_FRAMES
    ensures |Batch.Body(Batch.PlainSuite(), owner, out, nonce)| > RESPONSE_CAP
  {
    hide Serve, Bulk, Batch.PlainSuite, Batch.Body, Batch.Plain, Batch.Lawful;
    Batch.LawfulIsPossible();
    var fs := Serve(OwedIn(txs), refs, BatchCap(24), MAX_RESPONSE_BYTES).frames;
    assert [] + fs == fs;
    ResponseOverflows(txs, refs, 24, owner, Batch.PlainSuite(), nonce);
    assert Batch.PlainSuite().zstd(Batch.Plain(owner, fs)) == Batch.Plain(owner, fs);
  }
}
