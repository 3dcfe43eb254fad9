/** Two sessions under one identifier (internal/exit/exit.go, routeIncoming and openSession): the server drops
    its mutex between the look-up and the registration, so two SYNs for one identifier, such as those of a
    batch that was posted twice, may both be dialled. Each session then numbers its frames from 0. */
module ExitReopens {
  import opened Bytes
  import opened Frames
  import opened Drains
  import opened ExitDrain
  import opened ExitRounds
  import opened Sessions
  import opened SessionTables
  import opened ExitServer
  import opened ExitRouting
  import opened ExitWorlds
  import opened SessionRx
  import opened SessionStreams
  import Tx = SessionTx
  import Runs = SessionRuns

  // ----- a run in which the reader gets a stream that nobody wrote -----

  function Numbered(id: SessionID, pieces: seq<bytes>): (fs: seq<Frame>)
    ensures |fs| == |pieces|
  {
    seq(|pieces|, i requires 0 <= i < |pieces| => Frame(id, i, 0, [], pieces[i]))
  }

  lemma FirstOwed(t: Tx.Tx, data: bytes, now: nat)
    requires !t.synNeeded && !t.closeReq && t.buf == [] && t.next == 0
    ensures Tx.Pending(Tx.Enqueue(t, data, now), MAX_FRAME_PAYLOAD)
            == Numbered(t.id, Tx.Chunks(data, MAX_FRAME_PAYLOAD))
    ensures !Tx.Blocked(t) && (data != [] ==> Tx.HasPending(Tx.Enqueue(t, data, now)))
  {
    var t' := Tx.Enqueue(t, data, now);
    assert t'.buf == [] + data == data;
    assert Tx.Pending(t', MAX_FRAME_PAYLOAD) == Numbered(t.id, Tx.Chunks(data, MAX_FRAME_PAYLOAD)) + [];
  }

  lemma ServeOnly(owed: Owed<SessionID>, refs: seq<SessionID>, id: SessionID, slots: nat, budget: int)
    requires Distinct(refs) && (forall k :: k in refs <==> k == id) && id in owed
    requires |owed[id]| <= MAX_DRAIN_FRAMES_PER_SESSION <= slots && budget > 0
    ensures Serve(owed, refs, slots, budget).frames == owed[id]
  {
    assert |refs| == 1 && refs[0] == id by {
      assert refs != [] by { assert id in refs; }
      assert refs[0] in refs && refs[|refs| - 1] in refs;
    }
    assert owed[id][..|owed[id]|] == owed[id];
  }

  /** Nothing is queued or on its way, and no session but this one may be registered. */
  ghost predicate Idle(server: Server, id: SessionID)
    reads server
  {
    && server.sessions.Keys <= {id} && server.sessionOwners.Keys <= {id}
    && server.pendingRSTs == map[] && server.pendingCtrl == map[] && server.callbacks == multiset{}
  }

  /** This session is registered, and no other. */
  ghost predicate Alone(server: Server, s: Session, owner: ClientID)
    reads server
  {
    Idle(server, s.id) && server.sessions == map[s.id := s] && server.sessionOwners == map[s.id := owner]
  }

  lemma WithOnly<V>(m: map<SessionID, V>, id: SessionID, v: V)
    requires m.Keys <= {id}
    ensures With(m, id, v) == map[id := v]
  {
  }

  method Read(server: Server, s: Session, data: bytes, ghost owner: ClientID, now: nat)
    requires server.Valid() && Alone(server, s, owner) && s.Valid()
    requires !s.synNeeded && !s.closeReq && s.txBuf == [] && s.txSeq == 0
    modifies server`callbacks, server`txReady, s`txBuf, s`firstQueuedAt, s`stream
    ensures server.Valid() && Alone(server, s, owner) && s.id in server.txReady
    ensures s.Valid() && s.stream == old(s.stream) + data
    ensures Owes(s) == Numbered(s.id, Tx.Chunks(data, MAX_FRAME_PAYLOAD))
  {
    hide Server.Valid, Session.Valid, Tx.Pending, Tx.Enqueue, Tx.HasPending, Numbered;
    FirstOwed(s.TxState(), data, now);
    var _ := server.UpstreamRead(s, data, now);
    server.OnTx(s.id);
  }

  method PollAll(server: Server, s: Session, owner: ClientID, now: nat) returns (out: seq<Frame>)
    requires server.Valid() && Alone(server, s, owner) && s.id in server.txReady
             && |Owes(s)| <= MAX_DRAIN_FRAMES_PER_SESSION
    modifies server`txReady, server`firstReply, server`lastActivity, server`pendingRSTs, server`pendingCtrl
    modifies s`txBuf, s`firstQueuedAt, s`txSeq, s`synNeeded, s`finSent, s`finSentAt, s`emitted
    ensures server.Valid() && Alone(server, s, owner) && out == old(Owes(s))
  {
    hide Server.Valid, Server.States, Session.Valid, Serve, Server.OwedBy, Booked, Owes, Answered;
    ghost var refs, queued, frames;
    ghost var table, n := server.Table(), |server.sessions|;
    var urgent;
    out, urgent, refs, queued, frames := server.DrainAll(owner, 1, now);
    ServeOnly(table, refs, s.id, BatchCap(n), 1);
  }

  lemma ChunksOfTwo(b: bytes, cap: nat)
    requires cap > 0 && b != [] && |b| <= 2 * cap
    ensures Tx.Chunks(b, cap) == if |b| <= cap then [b] else [b[..cap], b[cap..]]
  {
    if |b| > cap {
      assert Tx.Chunks(b, cap) == [b[..cap]] + Tx.Chunks(b[cap..], cap);
    }
  }

  lemma NeitherStream(a: bytes, b: bytes, cap: nat)
    requires 0 < |a| <= cap < |b| && a[0] != b[0]
    ensures !(a + b[cap..] <= a) && !(a + b[cap..] <= b)
  {
    assert (a + b[cap..])[0] == a[0];
  }

  /** A dial ends, the new session reads something upstream, and the client polls. */
  method OpenReadPoll(server: Server, r: Route, data: bytes, now: nat) returns (s: Session, out: seq<Frame>)
    requires server.Valid() && Idle(server, r.f.id) && r.server == server && r.Valid() && r.step.Dialling?
    requires |Tx.Chunks(data, MAX_FRAME_PAYLOAD)| <= MAX_DRAIN_FRAMES_PER_SESSION
    modifies server, r
    ensures server.Valid() && Idle(server, r.f.id)
    ensures fresh(s) && s.id == r.f.id && s.opener == r.owner && s.stream == data
    ensures out == Numbered(r.f.id, Tx.Chunks(data, MAX_FRAME_PAYLOAD))
  {
    hide Server.Valid, Session.Valid, Route.Course, With, Numbered, Owes;
    ghost var sessions := server.sessions;
    WithOnly(server.sessionOwners, r.f.id, r.owner);
    s := r.Open(0, now);
    WithOnly(sessions, r.f.id, s);
    assert s.TxState().id == r.f.id;
    Read(server, s, data, r.owner, now);
    out := PollAll(server, s, r.owner, now);
  }

  /** Two calls that both looked and checked their dials before either opened. */
  method Race(id: SessionID, target: bytes, owner: ClientID, now: nat) returns (server: Server, r1: Route, r2: Route)
    ensures fresh({server}) && fresh({r1, r2}) && r1 != r2 && server.Valid() && Idle(server, id)
    ensures forall r <- {r1, r2} :: r.server == server && r.Valid() && r.step.Dialling? && r.f.id == id
              && r.owner == owner
  {
    hide Server.Valid, Session.Valid, Route.Course;
    server := new Server();
    server.CoherentNow();
    var syn := Frame(id, 0, FLAG_SYN, target, []);
    r1 := new Route(server, syn, owner);
    r2 := new Route(server, syn, owner);
    r1.Look();
    r2.Look();
    r1.CheckDial(now);
    r2.CheckDial(now);
  }

  /** What the first session has is polled before the second replaces it. A reader that gets frame 0 of the
      first and frame 1 of the second delivers bytes that are a prefix of neither session's stream. */
  method Reopened(id: SessionID, target: bytes, owner: ClientID, a: bytes, b: bytes, now: nat)
    returns (s1: Session, s2: Session, out1: seq<Frame>, out2: seq<Frame>)
    requires 0 < |a| <= MAX_FRAME_PAYLOAD < |b| <= 2 * MAX_FRAME_PAYLOAD && a[0] != b[0]
    ensures s1.id == s2.id == id && s1.opener == s2.opener == owner
    ensures s1.stream == a && s2.stream == b && |out1| == 1 && |out2| == 2
    ensures var got := TakeAll(NEW_RECEIVER, [out1[0], out2[1]]).delivered; !(got <= s1.stream) && !(got <= s2.stream)
  {
    hide Server.Valid, Session.Valid, Route.Course, TakeAll, Tx.Chunks;
    ChunksOfTwo(a, MAX_FRAME_PAYLOAD);
    ChunksOfTwo(b, MAX_FRAME_PAYLOAD);
    var server, r1, r2 := Race(id, target, owner, now);
    s1, out1 := OpenReadPoll(server, r1, a, now);
    s2, out2 := OpenReadPoll(server, r2, b, now);
    TakesPair(out1[0], out2[1]);
    NeitherStream(a, b, MAX_FRAME_PAYLOAD);
  }

  // ----- when only one session was ever made under the identifier -----

  /** In any world: if a client's sessions under an identifier are all one object, then whatever frames of it
      came out of polls, a reader delivers a prefix of that session's stream. `FromClient` is what `Poll` and
      `Respond` promise of every session frame they return. */
  lemma OpenedOnce(server: Server, routes: set<Route>, born: set<Session>, owner: ClientID, id: SessionID,
        fs: seq<Frame>)
    requires World(server, routes, born)
    requires forall s, t :: s in born && t in born && s.id == t.id == id && s.opener == t.opener == owner ==> s == t
    requires forall f <- fs :: f.id == id && FromClient(f, owner, born)
    ensures var got := TakeAll(NEW_RECEIVER, fs).delivered;
            got == [] || exists s <- born :: s.id == id && s.opener == owner && got <= s.stream
  {
    hide Server.Valid, Session.Valid, Route.Course, TakeAll, Underway;
    var ss := set s | s in born && s.opener == owner;
    forall f <- fs ensures exists s <- ss :: f in s.emitted {
      assert FromClient(f, owner, born);
      var s :| s in born && s.opener == owner && f in s.emitted;
      assert s in ss;
    }
    OneObject(ss, id, fs);
  }
}
