/** The rounds that `ExitFairness` speaks of are those of the server (internal/exit/exit.go): one drainAll for a
    client, then what its sessions read upstream, then the OnTx calls of these reads, and so on. */
module ExitHistories {
  import opened Bytes
  import opened Frames
  import opened Drains
  import opened ExitDrain
  import opened ExitRounds
  import opened ExitFairness
  import opened Sessions
  import opened ExitServer
  import opened ExitPolls
  import Tx = SessionTx
  import Runs = SessionRuns

  // ----- a part of the table -----

  function Only<K(==), V>(m: map<K, V>, ids: set<K>): map<K, V> {
    map id | id in m && id in ids :: m[id]
  }

  lemma {:induction false} ServeWithin<K>(owed: Owed<K>, refs: seq<K>, slots: int, budget: int, ids: set<K>)
    requires (forall id <- refs :: id in owed) && forall id <- refs :: id in ids
    ensures forall id <- refs :: id in Only(owed, ids)
    ensures var r, part := Serve(owed, refs, slots, budget), Serve(Only(owed, ids), refs, slots, budget);
            part.frames == r.frames && part.owed == Only(r.owed, ids)
    decreases |refs|
  {
    if refs != [] && slots > 0 && budget > 0 {
      var id := refs[0];
      var m := Share(owed[id], slots);
      var owed' := owed[id := owed[id][m..]];
      assert Only(owed', ids) == Only(owed, ids)[id := owed[id][m..]];
      ServeWithin(owed', refs[1..], slots - m, budget - |Payloads(owed[id][..m])|, ids);
    }
  }

  /** What a response does to all sessions it does to the client's. */
  lemma AnsweredWithin<K>(txs: Senders<K>, txs': Senders<K>, refs: seq<K>, slots: int, budget: int, now: nat,
        ids: set<K>)
    requires Answered(txs, txs', refs, slots, budget, now) && forall id <- refs :: id in ids
    ensures Answered(Only(txs, ids), Only(txs', ids), refs, slots, budget, now)
  {
    hide Serve, Tx.Pending, Tx.Drained;
    ServeWithin(OwedIn(txs), refs, slots, budget, ids);
    assert OwedIn(Only(txs, ids)) == Only(OwedIn(txs), ids);
  }

  // ----- the server -----

  /** The sending halves of the client's sessions. */
  ghost function Of(server: Server, owner: ClientID): Senders<SessionID>
    reads server`sessions, server`sessionOwners, server.sessions.Values
  {
    Only(server.States(), Owned(server, owner))
  }

  lemma QueueByAge(server: Server, owner: ClientID, refs: seq<SessionID>)
    requires server.Valid() && server.callbacks == multiset{} && server.IsQueue(owner, refs)
    ensures ByAge(Of(server, owner), refs) && forall id <- refs :: id in Owned(server, owner)
  {
    hide Session.Valid, Tx.HasPending, Runs.Inv;
    forall id <- Of(server, owner) | Tx.HasPending(Of(server, owner)[id]) ensures id in refs {
      assert server.Slot(id);
    }
  }

  /** What came of these states by writes alone. */
  ghost predicate AllWritten(mid: Senders<SessionID>, txs: Senders<SessionID>) {
    txs.Keys == mid.Keys && forall id <- mid :: Written(mid[id], txs[id])
  }

  lemma WrittenOn(t: Tx.Tx, t': Tx.Tx, log: Runs.Sender, e: Runs.TxEvent)
    requires Written(t, t') && log.tx == t' && !e.Drain?
    ensures Written(t, t') && Written(t, Runs.Next(log, e).tx)
  {
    var es: seq<Runs.TxEvent> :| (forall e <- es :: !e.Drain?) && t' == Runs.Run(Runs.Sender(t, [], []), es).tx;
    Runs.RunAppend(Runs.Sender(t, [], []), es, e);
    var es' := es + [e];
    assert forall d <- es' :: !d.Drain?;
    assert Runs.Run(Runs.Sender(t, [], []), es').tx == Runs.Next(log, e).tx;
  }

  lemma WrittenNothing(txs: Senders<SessionID>)
    ensures AllWritten(txs, txs)
  {
    forall id <- txs ensures Written(txs[id], txs[id]) { WritesAllowed(txs[id], [], 0); }
  }

  /** One read, or the end of the stream, on the upstream connection of some session. */
  method Upstream(server: Server, id: SessionID, now: nat, ghost mid: Senders<SessionID>)
    requires server.Valid() && id in server.sessions && AllWritten(mid, server.States())
    modifies server`callbacks, {server.sessions[id]}`txBuf, {server.sessions[id]}`firstQueuedAt,
             {server.sessions[id]}`stream, {server.sessions[id]}`closeReq, {server.sessions[id]}`stopped
    ensures server.Valid() && AllWritten(mid, server.States())
  {
    hide Server.Valid, Session.Valid, Written, Runs.Next;
    server.SlotAt(id);
    forall k | k in server.sessions ensures k != id ==> server.sessions[k] != server.sessions[id] { server.SlotAt(k); }
    var s := server.sessions[id];
    var end: bool := *;
    if end {
      WrittenOn(mid[id], s.TxState(), s.Log(), Runs.CloseRequest(now));
      server.UpstreamEnd(s, now);
    } else {
      var data: bytes := *;
      WrittenOn(mid[id], s.TxState(), s.Log(), Runs.Write(data, now));
      var _ := server.UpstreamRead(s, data, now);
    }
  }

  /** Any number of those, and then every OnTx call they are owed. */
  method Between(server: Server, now: nat, ghost mid: Senders<SessionID>)
    requires server.Valid() && AllWritten(mid, server.States())
    modifies server`callbacks, server`txReady, server.sessions.Values`txBuf, server.sessions.Values`firstQueuedAt,
             server.sessions.Values`stream, server.sessions.Values`closeReq, server.sessions.Values`stopped
    ensures server.Valid() && AllWritten(mid, server.States()) && server.callbacks == multiset{}
  {
    hide Server.Valid, AllWritten;
    var n: nat := *;
    while n > 0
      invariant server.Valid() && AllWritten(mid, server.States())
    {
      if server.sessions.Keys != {} {
        var id :| id in server.sessions.Keys;
        Upstream(server, id, now, mid);
      }
      n := n - 1;
    }
    while server.callbacks != multiset{}
      invariant server.Valid() && AllWritten(mid, server.States())
      decreases |server.callbacks|
    {
      var id :| id in server.callbacks;
      server.OnTx(id);
    }
  }

  lemma PassesWithin(txs: Senders<SessionID>, mid: Senders<SessionID>, txs': Senders<SessionID>, refs: seq<SessionID>,
                     slots: int, budget: int, now: nat, ids: set<SessionID>)
    requires Answered(txs, mid, refs, slots, budget, now) && AllWritten(mid, txs') && forall id <- refs :: id in ids
    ensures Passes(Only(txs, ids), Only(mid, ids), Only(txs', ids), refs, slots, budget, now)
  {
    hide Answered, Written;
    AnsweredWithin(txs, mid, refs, slots, budget, now, ids);
  }

  /** One poll, and what comes upstream until the next: a round. */
  method OneRound(server: Server, owner: ClientID, budget: int, now: nat) returns (ghost r: Response<SessionID>)
    requires server.Valid() && server.callbacks == multiset{}
    modifies server`txReady, server`firstReply, server`lastActivity, server`pendingRSTs, server`pendingCtrl,
             server`callbacks, server.sessions.Values
    ensures server.Valid() && server.callbacks == multiset{}
    ensures r.txs == old(Of(server, owner)) && ByAge(r.txs, r.refs)
    ensures r.slots == BatchCap(|server.sessions|) && r.budget == budget
    ensures Passes(r.txs, r.mid, Of(server, owner), r.refs, r.slots, r.budget, r.now)
  {
    hide Server.Valid, Server.Table, Server.States, Server.IsQueue, Session.Valid, ByAge, Answered, Passes, Only,
         AllWritten, Booked, Serve, Server.OwedBy;
    ghost var txs, ids := server.States(), Owned(server, owner);
    forall refs | server.IsQueue(owner, refs)
      ensures ByAge(Of(server, owner), refs) && forall id <- refs :: id in ids
    {
      QueueByAge(server, owner, refs);
    }
    ghost var refs, queued, frames;
    var out, urgent;
    out, urgent, refs, queued, frames := server.DrainAll(owner, budget, now);
    ghost var mid, slots := server.States(), BatchCap(|server.sessions|);
    WrittenNothing(mid);
    Between(server, now, mid);
    PassesWithin(txs, mid, server.States(), refs, slots, budget, now, ids);
    r := Response(Only(txs, ids), refs, slots, budget, Only(mid, ids), now);
  }

  /** Any number of rounds make a history; what `Starves`, `WaitsIff` and `ServedInTime` say holds of it. */
  method Rounds(server: Server, owner: ClientID, budget: int, n: nat, now: nat)
      returns (ghost rs: seq<Response<SessionID>>)
    requires server.Valid() && server.callbacks == multiset{}
    modifies server`txReady, server`firstReply, server`lastActivity, server`pendingRSTs, server`pendingCtrl,
             server`callbacks, server.sessions.Values
    ensures server.Valid() && server.callbacks == multiset{} && |rs| == n && History(rs)
    ensures forall k :: 0 <= k < n ==> rs[k].slots == BatchCap(|server.sessions|) && rs[k].budget == budget
    ensures n > 0 ==> rs[0].txs == old(Of(server, owner))
  {
    hide Server.Valid, ByAge, Passes, Of;
    rs := [];
    for i := 0 to n
      invariant server.Valid() && server.callbacks == multiset{} && |rs| == i && History(rs)
      invariant forall k :: 0 <= k < i ==> rs[k].slots == BatchCap(|server.sessions|) && rs[k].budget == budget
      invariant i > 0 ==> rs[0].txs == old(Of(server, owner))
      invariant i == 0 ==> Of(server, owner) == old(Of(server, owner))
      invariant i > 0 ==>
                  var r := rs[i - 1]; Passes(r.txs, r.mid, Of(server, owner), r.refs, r.slots, r.budget, r.now)
    {
      ghost var r := OneRound(server, owner, budget, now + i);
      rs := rs + [r];
    }
  }
}
