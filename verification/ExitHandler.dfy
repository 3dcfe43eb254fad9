/** The response half of handleTunnel (internal/exit/exit.go): one drain, then more of them while a bulk
    response is being coalesced, with anything else running in between. */
module ExitHandler {
  import opened Bytes
  import opened Frames
  import opened Sessions
  import opened Drains
  import opened ExitDrain
  import opened SessionTables
  import opened ExitServer
  import opened ExitPolls
  import opened ExitLedgers
  import opened ExitRouting
  import opened ExitWorlds
  import Tx = SessionTx
  import Runs = SessionRuns

  const COALESCE_MIN_FRAMES := 4

  method PayloadTotal(fs: seq<Frame>) returns (total: nat)
    ensures total == |Payloads(fs)|
  {
    total := 0;
    for i := 0 to |fs|
      invariant total == |Payloads(fs[..i])|
    {
      PayloadsAppend(fs[..i], [fs[i]]);
      assert fs[..i + 1] == fs[..i] + [fs[i]];
      assert Payloads([fs[i]]) == fs[i].payload + Payloads([]);
      total := total + |fs[i].payload|;
    }
    assert fs[..|fs|] == fs;
  }

  lemma {:induction false} SessionBytes(fs: seq<Frame>)
    ensures |Payloads(OfSessions(fs))| <= |Payloads(fs)|
  {
    if fs != [] {
      SessionBytes(fs[1..]);
      var rest := OfSessions(fs[1..]);
      assert [] + rest == rest && ([fs[0]] + rest)[1..] == rest;
    }
  }

  lemma StillFromClient(fs: seq<Frame>, owner: ClientID, server: Server, was: Moment, born0: set<Session>,
        born: set<Session>)
    requires forall f <- fs :: Emitted(f, owner, was, born0)
    requires was.emitted.Keys == born0 && Later(was, Now(server, born))
    ensures forall f <- fs :: FromClient(f, owner, born)
  {
    hide Keeps;
    forall f <- fs ensures FromClient(f, owner, born) {
      assert Emitted(f, owner, was, born0);
      var s :| s in born0 && s in was.emitted && s.opener == owner && f in was.emitted[s];
      assert s in born && f in s.emitted;
    }
  }

  /** f had been emitted then by a session object that this client opened. */
  ghost predicate Emitted(f: Frame, owner: ClientID, was: Moment, born: set<Session>) {
    exists s <- born :: s in was.emitted && s.opener == owner && f in was.emitted[s]
  }

  lemma EmittedNow(fs: seq<Frame>, owner: ClientID, server: Server, born: set<Session>)
    requires forall f <- fs :: FromClient(f, owner, born)
    ensures forall f <- fs :: Emitted(f, owner, Now(server, born), born)
  {
    forall f <- fs ensures Emitted(f, owner, Now(server, born), born) {
      var s :| s in born && s.opener == owner && f in s.emitted;
      assert s in Now(server, born).emitted;
    }
  }

  /** One more round, after anything else. */
  method Round(server: Server, owner: ClientID, ghost frames: seq<Frame>, budget: int, movers: set<Route>,
               ghost routes: set<Route>, born0: set<Session>, now: nat)
    returns (more: seq<Frame>, born: set<Session>, time: nat, ghost log: seq<Answer>)
    requires World(server, routes, born0) && movers <= routes && budget > 0
    requires forall f <- OfSessions(frames) :: FromClient(f, owner, born0)
    modifies server, movers, born0
    ensures World(server, routes, born) && born0 <= born && fresh(born - born0) && time >= now
    ensures forall f <- OfSessions(frames + more) :: FromClient(f, owner, born)
    ensures |Payloads(OfSessions(more))| < budget + OVERSHOOT
    ensures Balanced(old(Emissions(born0)), Emissions(born), log) && Ours(log) == more && Rounds(log) == 1
  {
    hide World, Payloads, OfSessions, Later, FromClient, Emitted, Balanced, Emissions;
    EmittedNow(OfSessions(frames), owner, server, born0);
    ghost var was, emitted := Now(server, born0), Emissions(born0);
    ghost var theirs, ours;
    born, time, theirs := Interleave(server, movers, routes, born0, now);
    ghost var stirred, mid := Now(server, born), Emissions(born);
    var urgent;
    more, urgent, ours := PollAs(server, owner, budget, true, movers, routes, born, time);
    LaterOn(was, stirred, Now(server, born));
    BalancedOn(emitted, mid, Emissions(born), theirs, ours);
    log := theirs + ours;
    NotMine(theirs);
    OneAnswer(ours[0]);
    LedgerAppend(theirs, ours);
    StillFromClient(OfSessions(frames), owner, server, was, born0, born);
    OfSessionsAppend(frames, more);
  }

  /** A whole response: however many rounds are coalesced and whatever runs between and during them, it is all
      that its own polls returned, one after the other, and every frame that any session emitted meanwhile is in
      what some poll returned. The payload of its session frames stays under the response budget plus one session's
      drain, and every one was emitted by a session this client opened. An urgent response, or one of few frames, is
      its first poll alone; any other goes on for all its rounds, or until its budget is used up. */
  method Respond(server: Server, owner: ClientID, movers: set<Route>, ghost routes: set<Route>, born0: set<Session>,
        rounds: nat, now: nat)
    returns (frames: seq<Frame>, born: set<Session>, ghost log: seq<Answer>, ghost first: seq<Frame>,
             ghost urgentFirst: bool)
    requires World(server, routes, born0) && movers <= routes
    modifies server, movers, born0
    ensures World(server, routes, born) && born0 <= born && fresh(born - born0)
    ensures |Payloads(OfSessions(frames))| < MAX_RESPONSE_BYTES + OVERSHOOT
    ensures forall f <- OfSessions(frames) :: FromClient(f, owner, born)
    ensures Balanced(old(Emissions(born0)), Emissions(born), log) && frames == Ours(log)
    ensures log != [] && log[0].mine && log[0].out == first && Rounds(log) <= 1 + rounds
    ensures !urgentFirst && |first| > COALESCE_MIN_FRAMES ==>
              Rounds(log) == 1 + rounds || |Payloads(frames)| >= MAX_RESPONSE_BYTES
    ensures urgentFirst || |first| <= COALESCE_MIN_FRAMES || |Payloads(first)| >= MAX_RESPONSE_BYTES ==> frames == first
  {
    hide World, Payloads, OfSessions, FromClient, Balanced, Emissions;
    ghost var emitted := Emissions(born0);
    var urgent, time := false, now;
    born := born0;
    frames, urgent, log := PollAs(server, owner, MAX_RESPONSE_BYTES, true, movers, routes, born, now);
    first, urgentFirst := frames, urgent;
    OneAnswer(log[0]);
    assert log == [log[0]];
    var totalBytes := PayloadTotal(frames);
    SessionBytes(frames);
    if !urgent && |frames| > COALESCE_MIN_FRAMES && totalBytes < MAX_RESPONSE_BYTES {
      var n := rounds;
      while n > 0 && totalBytes < MAX_RESPONSE_BYTES
        invariant World(server, routes, born) && born0 <= born && fresh(born - born0)
        invariant totalBytes == |Payloads(frames)| >= |Payloads(OfSessions(frames))|
        invariant |Payloads(OfSessions(frames))| < MAX_RESPONSE_BYTES + OVERSHOOT
        invariant forall f <- OfSessions(frames) :: FromClient(f, owner, born)
        invariant Balanced(emitted, Emissions(born), log) && frames == Ours(log)
        invariant log != [] && log[0].mine && log[0].out == first
        invariant 0 <= n <= rounds && Rounds(log) == 1 + rounds - n
      {
        ghost var mid := Emissions(born);
        var more;
        ghost var entries;
        more, born, time, entries := Round(server, owner, frames, MAX_RESPONSE_BYTES - totalBytes, movers, routes, born,
          time);
        BalancedOn(emitted, mid, Emissions(born), log, entries);
        LedgerAppend(log, entries);
        OfSessionsAppend(frames, more);
        PayloadsAppend(OfSessions(frames), OfSessions(more));
        PayloadsAppend(frames, more);
        SessionBytes(more);
        var added := PayloadTotal(more);
        totalBytes := totalBytes + added;
        frames := frames + more;
        log := log + entries;
        n := n - 1;
      }
    }
  }

  // ----- with nothing new arriving, polling empties the client's sessions -----

  ghost predicate AllOf(server: Server, owner: ClientID, ids: seq<SessionID>)
    reads server
  {
    && Distinct(ids)
    && forall id :: id in ids <==>
         id in server.sessions && id in server.sessionOwners && server.sessionOwners[id] == owner
  }

  lemma {:induction false} Listed(s: set<SessionID>) returns (ids: seq<SessionID>)
    ensures Distinct(ids) && forall id :: id in ids <==> id in s
    decreases s
  {
    ids := [];
    if s != {} {
      var x :| x in s;
      var rest := Listed(s - {x});
      ids := [x] + rest;
    }
  }

  lemma OwedMeansReady(server: Server, id: SessionID)
    requires server.Valid() && server.callbacks == multiset{} && id in server.sessions && server.Table()[id] != []
    ensures id in server.txReady && id in server.sessionOwners
  {
    hide Session.Valid, Tx.HasPending, Tx.Pending;
    assert server.Slot(id);
    Tx.PendingCount(server.sessions[id].TxState(), MAX_FRAME_PAYLOAD);
  }

  /** Serving this list takes away exactly the frames it returns, and returns none only if none is owed. */
  ghost predicate Empties(owed: Owed<SessionID>, ids: seq<SessionID>, refs: seq<SessionID>, slots: nat, budget: int)
    requires (forall id <- refs :: id in owed) && forall id <- ids :: id in owed
  {
    var r := Serve(owed, refs, slots, budget);
    && r.owed.Keys == owed.Keys
    && Total(r.owed, ids) == Total(owed, ids) - |r.frames|
    && (r.frames == [] ==> forall id <- ids :: owed[id] == [])
  }

  /** What one drain with budget does to the frames this client is owed: it takes away exactly the frames
      it returns, and it returns none only if none is owed. */
  lemma DrainEmpties(server: Server, owner: ClientID, ids: seq<SessionID>, refs: seq<SessionID>, slots: nat,
        budget: int)
    requires server.Valid() && server.callbacks == multiset{} && AllOf(server, owner, ids)
             && server.IsQueue(owner, refs)
    requires slots > 0 && budget > 0 && forall id <- refs :: id in server.Table()
    ensures forall id <- ids :: id in server.Table()
    ensures Empties(server.Table(), ids, refs, slots, budget)
  {
    hide Session.Valid, Server.Valid, Server.Table, Serve, Total;
    server.TableAt();
    ServeConserves(server.Table(), refs, ids, slots, budget);
    forall id <- ids | server.Table()[id] != [] ensures Serve(server.Table(), refs, slots, budget).frames != [] {
      OwedMeansReady(server, id);
      ServeProgress(server.Table(), refs, slots, budget, id);
    }
  }

  method FlushRound(server: Server, owner: ClientID, ghost ids: seq<SessionID>, budget: int, now: nat)
    returns (frames: seq<Frame>, ghost queued: seq<Frame>, ghost served: seq<Frame>)
    requires server.Valid() && server.callbacks == multiset{} && AllOf(server, owner, ids) && budget > 0
    requires forall id <- ids :: id in server.Table()
    modifies server`txReady, server`firstReply, server`lastActivity, server`pendingRSTs, server`pendingCtrl,
             server.sessions.Values
    ensures server.Valid() && AllOf(server, owner, ids) && frames == queued + served
    ensures forall id <- ids :: id in server.Table()
    ensures Total(server.Table(), ids) == Total(old(server.Table()), ids) - |served|
    ensures served == [] ==> forall id <- ids :: server.Table()[id] == []
    ensures queued == old(Queued(server.pendingCtrl, owner)) + old(Queued(server.pendingRSTs, owner))
    ensures Queued(server.pendingCtrl, owner) == [] && Queued(server.pendingRSTs, owner) == []
  {
    hide Session.Valid, Server.Valid, Server.Table, Server.IsQueue, Server.OwedBy, Booked, Serve, Total;
    ghost var before, n := server.Table(), |server.sessions|;
    forall refs: seq<SessionID> | server.IsQueue(owner, refs) && forall id <- refs :: id in before
      ensures Empties(before, ids, refs, BatchCap(n), budget)
    {
      DrainEmpties(server, owner, ids, refs, BatchCap(n), budget);
    }
    var urgent;
    ghost var refs;
    frames, urgent, refs, queued, served := server.DrainAll(owner, budget, now);
    if served == [] {
      NothingLeft(before, server.Table(), ids);
    }
  }

  lemma {:induction false} TotalZero<K>(owed: Owed<K>, ids: seq<K>)
    requires forall id <- ids :: id in owed
    ensures Total(owed, ids) == 0 <==> forall id <- ids :: owed[id] == []
  {
    if ids != [] {
      TotalZero(owed, ids[1..]);
      assert ids == [ids[0]] + ids[1..];
    }
  }

  lemma NothingLeft<K>(before: Owed<K>, after: Owed<K>, ids: seq<K>)
    requires forall id <- ids :: id in before && id in after && before[id] == []
    requires Total(after, ids) == Total(before, ids)
    ensures forall id <- ids :: after[id] == []
  {
    TotalZero(before, ids);
    TotalZero(after, ids);
  }

  lemma MyList(server: Server, owner: ClientID) returns (ids: seq<SessionID>)
    ensures AllOf(server, owner, ids) && forall id <- ids :: id in server.Table()
  {
    ids := Listed(set id | id in server.sessions && id in server.sessionOwners && server.sessionOwners[id] == owner);
  }

  /** Polls until one comes back empty. With no new data and no callback on its way, the client's queues
      and sessions are then empty, and exactly the frames they owed have left. */
  method Flush(server: Server, owner: ClientID, budget: int, now: nat)
    returns (out: seq<Frame>, ghost ids: seq<SessionID>, ghost queued: seq<Frame>, ghost served: seq<Frame>)
    requires server.Valid() && server.callbacks == multiset{} && budget > 0
    modifies server`txReady, server`firstReply, server`lastActivity, server`pendingRSTs, server`pendingCtrl,
             server.sessions.Values
    ensures server.Valid() && AllOf(server, owner, ids)
            && forall id <- ids :: id in old(server.Table()) && id in server.Table()
    ensures forall id <- ids :: server.Table()[id] == []
    ensures out == queued + served
    ensures queued == old(Queued(server.pendingCtrl, owner)) + old(Queued(server.pendingRSTs, owner))
    ensures |served| == Total(old(server.Table()), ids)
    ensures Queued(server.pendingCtrl, owner) == [] && Queued(server.pendingRSTs, owner) == []
  {
    hide Session.Valid, Server.Valid, Server.Table, Total, Queued, AllOf;
    ids := MyList(server, owner);
    ghost var table := server.Table();
    out, queued, served := FlushRound(server, owner, ids, budget, now);
    var done := |out| == 0;
    while !done
      invariant server.Valid() && AllOf(server, owner, ids)
      invariant forall id <- ids :: id in server.Table() && id in table
      invariant |served| + Total(server.Table(), ids) == Total(table, ids)
      invariant out == queued + served
      invariant Queued(server.pendingCtrl, owner) == [] && Queued(server.pendingRSTs, owner) == []
      invariant done ==> forall id <- ids :: server.Table()[id] == []
      decreases Total(server.Table(), ids), if done then 0 else 1
    {
      var frames;
      ghost var none, more;
      frames, none, more := FlushRound(server, owner, ids, budget, now);
      assert out + frames == queued + (served + more);
      out, served := out + frames, served + more;
      done := |frames| == 0;
    }
    TotalZero(server.Table(), ids);
  }
}
