/** The server's session table (internal/exit/exit.go). Every method is one section run under the
    server mutex, or one call on a session object, and needs nothing but the invariant: any two of
    them may run in either order, so what they keep holds in every interleaving. */
module ExitServer {
  import opened Bytes
  import opened Frames
  import opened Sessions
  import opened Drains
  import opened ExitDrain
  import opened ExitRounds
  import opened SessionTables
  import Tx = SessionTx
  import Runs = SessionRuns
  import RxChannel

  const IDLE_SESSION_TIMEOUT := 600_000_000_000
  const DIAL_FAILURE_BACKOFF := 2_000_000_000

  function Queued(m: map<ClientID, seq<Frame>>, owner: ClientID): seq<Frame> {
    if owner in m then m[owner] else []
  }

  /** Taking a client's queue removes its entry, and no other. */
  function Emptied(m: map<ClientID, seq<Frame>>, owner: ClientID): (r: map<ClientID, seq<Frame>>)
    ensures Queued(r, owner) == [] && forall c :: c != owner ==> Queued(r, c) == Queued(m, c)
  {
    if Queued(m, owner) != [] then m - {owner} else m
  }

  ghost predicate InStep(sessions: set<SessionID>, owners: set<SessionID>, conns: set<SessionID>,
                         activity: set<SessionID>, first: set<SessionID>)
  {
    owners == sessions && conns == sessions && activity == sessions && first <= sessions
  }

  lemma InStepWithout<S>(sessions: map<SessionID, S>, owners: map<SessionID, ClientID>, conns: map<SessionID, nat>,
                         activity: map<SessionID, nat>, first: set<SessionID>, id: SessionID)
    requires InStep(sessions.Keys, owners.Keys, conns.Keys, activity.Keys, first)
    ensures InStep(Without(sessions, id).Keys, Without(owners, id).Keys, Without(conns, id).Keys,
              Without(activity, id).Keys, first - {id})
  {
  }

  lemma InStepWith(a: set<SessionID>, b: set<SessionID>, c: set<SessionID>, d: set<SessionID>, e: set<SessionID>,
      id: SessionID)
    requires InStep(a, b, c, d, e)
    ensures InStep(a + {id}, b + {id}, c + {id}, d + {id}, e + {id})
  {
  }

  class Server {
    var sessions: map<SessionID, Session>
    var sessionOwners: map<SessionID, ClientID>
    var upstreams: map<SessionID, nat>
    var lastActivity: map<SessionID, nat>
    var firstReply: set<SessionID>
    var txReady: set<SessionID>
    var pendingRSTs: map<ClientID, seq<Frame>>
    var pendingCtrl: map<ClientID, seq<Frame>>
    var dialFail: map<bytes, nat>
    ghost var losses: multiset<SessionID>  // how often a session was removed, or taken over by another client
    var callbacks: multiset<SessionID>  // OnTx calls that have not yet taken the mutex

    /** The tables speak of the same sessions. */
    ghost predicate Coherent()
      reads this
    {
      InStep(sessions.Keys, sessionOwners.Keys, upstreams.Keys, lastActivity.Keys, firstReply)
    }

    /** A registered session belongs to the client that opened it, and is never stranded: while it
        owes a frame it is marked ready, or an OnTx call is on its way. */
    ghost predicate Slot(id: SessionID)
      requires id in sessions && id in sessionOwners
      reads this`sessions, this`sessionOwners, this`txReady, this`callbacks, sessions[id]
    {
      var s := sessions[id];
      && s.id == id && s.opener == sessionOwners[id] && !s.client && s.Valid()
      && (Tx.HasPending(s.TxState()) ==> id in txReady || id in callbacks)
    }

    ghost predicate Slots()
      reads this`sessions, this`sessionOwners, this`txReady, this`callbacks, sessions.Values
    {
      forall id :: id in sessions ==> id in sessionOwners && Slot(id)
    }

    /** Only resets wait in the queues; no frame of a session is one. */
    ghost predicate OnlyResets()
      reads this`pendingRSTs, this`pendingCtrl
    {
      && (forall c <- pendingRSTs, f <- pendingRSTs[c] :: f.IsRst())
      && (forall c <- pendingCtrl, f <- pendingCtrl[c] :: f.IsRst())
    }

    ghost predicate Valid()
      reads this, sessions.Values
    {
      Coherent() && Slots() && OnlyResets()
    }

    ghost function Table(): Owed<SessionID>
      reads this`sessions, sessions.Values
    {
      map id | id in sessions :: Owes(sessions[id])
    }

    ghost function States(): Senders<SessionID>
      reads this`sessions, sessions.Values
    {
      map id | id in sessions :: sessions[id].TxState()
    }

    ghost function Books(): Ledger<SessionID>
      reads this`sessionOwners, this`upstreams, this`lastActivity, this`firstReply, this`txReady
    {
      Ledger(sessionOwners, upstreams, lastActivity, firstReply, txReady)
    }

    constructor ()
      ensures Valid() && sessions == map[] && pendingRSTs == map[] && pendingCtrl == map[] && callbacks == multiset{}
              && dialFail == map[] && txReady == {}
    {
      sessions, sessionOwners, upstreams, lastActivity := map[], map[], map[], map[];
      firstReply, txReady, pendingRSTs, pendingCtrl, dialFail := {}, {}, map[], map[], map[];
      callbacks, losses := multiset{}, multiset{};
    }

    // ----- the upstream pump and OnTx -----

    /** Either nothing is owed, or an OnTx call is on its way. */
    ghost predicate Quiet(s: Session)
      reads this`callbacks, s`txBuf, s`txSeq, s`synNeeded, s`closeReq, s`finSent, s`finSentAt, s`firstQueuedAt
    {
      Tx.HasPending(s.TxState()) ==> s.id in callbacks
    }

    /** The pump of any session object, registered or not, hands over what it read upstream. */
    method UpstreamRead(s: Session, data: bytes, now: nat) returns (outcome: WriteOutcome)
      requires Valid() && s.Valid()
      modifies s`txBuf, s`firstQueuedAt, s`stream, this`callbacks
      ensures Valid() && s.Valid() && (old(Quiet(s)) ==> Quiet(s))
      ensures outcome == if Tx.Blocked(old(s.TxState())) then Blocked else if old(s.closeReq) then Refused else Accepted
      ensures callbacks == old(callbacks) + if outcome == Accepted then multiset{s.id} else multiset{}
      ensures s.Log() == if outcome == Blocked then old(s.Log()) else Runs.Next(old(s.Log()), Runs.Write(data, now))
    {
      hide Server.OnlyResets, Server.Slot, Session.Valid, Runs.Inv, Runs.Next;
      outcome := s.EnqueueTx(data, now);
      if outcome == Accepted {
        callbacks := callbacks + multiset{s.id};
      }
      forall k | k in sessions ensures Slot(k) {
        if sessions[k] == s { SlotGains(k); } else { SlotKept(k); }
      }
    }

    method UpstreamEnd(s: Session, now: nat)
      requires Valid() && s.Valid()
      modifies s`closeReq, s`firstQueuedAt, s`stopped, this`callbacks
      ensures Valid() && s.Valid() && s.stopped && Quiet(s)
      ensures callbacks == old(callbacks) + multiset{s.id}
      ensures s.Log() == Runs.Next(old(s.Log()), Runs.CloseRequest(now))
    {
      hide Server.OnlyResets, Server.Slot, Session.Valid, Runs.Inv, Runs.Next;
      s.RequestClose(now);
      callbacks := callbacks + multiset{s.id};
      s.Stop();
      forall k | k in sessions ensures Slot(k) {
        if sessions[k] == s { SlotGains(k); } else { SlotKept(k); }
      }
    }

    // What routing calls and receive loops do to a session object of their own, registered or not, under
    // the session mutex alone.

    method EnterRx(s: Session, ghost from: ClientID) returns (open: bool)
      requires Valid() && s.Valid()
      modifies s`heardFrom
      ensures Valid() && s.Valid() && s.heardFrom == old(s.heardFrom) + {from} && open == !s.rxClosed
    {
      hide Server.Slot, Server.OnlyResets, Session.Valid, Runs.Inv;
      open := s.EnterRx(from);
      forall k | k in sessions ensures Slot(k) {
        if sessions[k] == s { SlotGains(k); } else { SlotKept(k); }
      }
    }

    method OfferRx(s: Session, f: Frame) returns (queued: bool)
      requires Valid() && s.Valid()
      modifies s`rxInbox, s`arrived, s`stopped
      ensures Valid() && s.Valid() && (!queued ==> s.stopped)
      ensures queued ==> s.stopped == old(s.stopped)
      ensures !queued ==> old(s.stopped) || |old(s.rxInbox)| >= RxChannel.INBOX_CAP
      ensures s.rxInbox == if queued then old(s.rxInbox) + [f] else old(s.rxInbox)
      ensures s.arrived == if queued then old(s.arrived) + [f] else old(s.arrived)
    {
      hide Server.Slot, Server.OnlyResets, Session.Valid, Runs.Inv;
      queued := s.OfferRx(f);
      forall k | k in sessions ensures Slot(k) {
        if sessions[k] == s { SlotGains(k); } else { SlotKept(k); }
      }
    }

    /** A step of rxLoop, or of the reader of its channel, if it is one they can take now. */
    method RxTurn(s: Session, e: RxChannel.Event) returns (taken: bool)
      requires Valid() && s.Valid() && RxChannel.OfLoop(e)
      modifies s`rxInbox, s`rxSeq, s`rxQueue, s`rxClosed, s`loop, s`have, s`delivered, s`sent, s`panicked, s`rxChan,
               s`rxChanClosed, s`stopped
      ensures Valid() && s.Valid() && (taken <==> RxChannel.Enabled(old(s.Side()), e))
              && (old(s.rxClosed) ==> s.rxClosed) && (old(s.stopped) ==> s.stopped)
      ensures s.Side() == if taken then RxChannel.Next(old(s.Side()), e) else old(s.Side())
    {
      hide Server.Slot, Server.OnlyResets, Session.Valid, Session.Side, RxChannel.Enabled, RxChannel.Next, Runs.Inv;
      taken := s.RxStep(e);
      forall k | k in sessions ensures Slot(k) {
        if sessions[k] == s { SlotGains(k); } else { SlotKept(k); }
      }
    }

    method OnTx(id: SessionID)
      requires Valid() && id in callbacks
      modifies this`txReady, this`callbacks
      ensures Valid() && txReady == old(txReady) + {id} && callbacks == old(callbacks) - multiset{id}
    {
      hide Server.OnlyResets, Session.Valid, Runs.Inv, Runs.Next;
      txReady := txReady + {id};
      callbacks := callbacks - multiset{id};
    }

    // ----- draining -----

    // drainAll holds the server mutex but not the session's: upstream data may land between the drain,
    // the HasPendingTx that follows, and the delete. So these are three steps, and each needs only what
    // UpstreamRead keeps.

    method DrainReady(s: Session, cap: nat, now: nat) returns (frames: seq<Frame>)
      requires Valid() && s.id in sessions && sessions[s.id] == s && cap > 0
      modifies s`txBuf, s`txSeq, s`synNeeded, s`finSent, s`finSentAt, s`firstQueuedAt, s`emitted
      ensures Valid()
      ensures frames == old(Owes(s))[..Min(cap, |old(Owes(s))|)] && Owes(s) == old(Owes(s))[|frames|..]
      ensures s.emitted == old(s.emitted) + frames
      ensures Table() == old(Table())[s.id := Owes(s)]
      ensures s.Log() == Runs.Next(old(s.Log()), Runs.Drain(MAX_FRAME_PAYLOAD, cap, now))
      ensures States() == old(States())[s.id := Tx.Drained(old(s.TxState()), MAX_FRAME_PAYLOAD, |frames|, now)]
    {
      hide Server.Slot, Server.OnlyResets, Server.Table, Server.States, Session.Valid, Runs.Inv, Runs.Next;
      forall k | k in sessions ensures k != s.id ==> sessions[k] != s { SlotAt(k); }
      SlotAt(s.id);
      PendingShrinks(s.TxState(), cap, now);
      frames := s.DrainTx(MAX_FRAME_PAYLOAD, cap, now);
      OneChanged(s);
      forall k | k in sessions ensures Slot(k) {
        if sessions[k] == s { SlotGains(k); } else { SlotKept(k); }
      }
    }

    twostate lemma OneChanged(s: Session)
      requires s.id in sessions && sessions[s.id] == s && sessions == old(sessions)
      requires forall k | k in sessions && k != s.id :: unchanged(sessions[k])
      ensures Table() == old(Table())[s.id := Owes(s)] && States() == old(States())[s.id := s.TxState()]
    {
      hide Owes, Session.TxState;
    }

    method ClearReady(s: Session)
      requires Valid() && Quiet(s) && (s.id in sessions ==> sessions[s.id] == s)
      modifies this`txReady
      ensures Valid() && txReady == old(txReady) - {s.id}
    {
      hide Server.OnlyResets, Session.Valid, Runs.Inv, Runs.Next;
      txReady := txReady - {s.id};
    }

    /** refs lists the ready sessions of one client, oldest queue first. */
    ghost predicate IsQueue(owner: ClientID, refs: seq<SessionID>)
      reads this`sessions, this`sessionOwners, this`txReady, sessions.Values
    {
      && Distinct(refs)
      && (forall id :: id in refs <==>
           id in txReady && id in sessions && id in sessionOwners && sessionOwners[id] == owner)
      && (forall i, j :: 0 <= i < j < |refs| ==> sessions[refs[i]].firstQueuedAt <= sessions[refs[j]].firstQueuedAt)
    }

    /** The snapshot and its unstable sort: some arrangement by age of the client's ready sessions. */
    method ByAge(owner: ClientID) returns (refs: seq<SessionID>)
      requires Valid()
      ensures IsQueue(owner, refs)
    {
      var ages := map id | id in txReady && id in sessions && sessionOwners[id] == owner :: sessions[id].firstQueuedAt;
      refs := SortByAge(ages);
    }

    method DrainOne(s: Session, cap: nat, now: nat, ghost owed: seq<Frame>) returns (frames: seq<Frame>)
      requires Valid() && s.id in sessions && sessions[s.id] == s && cap > 0 && owed == Owes(s)
      modifies s`txBuf, s`txSeq, s`synNeeded, s`finSent, s`finSentAt, s`firstQueuedAt, s`emitted, this`txReady
      ensures Valid()
      ensures |frames| == Min(cap, |owed|) && frames == owed[..|frames|]
      ensures Table() == old(Table())[s.id := owed[|frames|..]] && s.emitted == old(s.emitted) + frames
      ensures txReady == if Tx.HasPending(s.TxState()) then old(txReady) else old(txReady) - {s.id}
      ensures States() == old(States())[s.id := Tx.Drained(old(s.TxState()), MAX_FRAME_PAYLOAD, |frames|, now)]
    {
      hide Session.Valid, Server.Table, Server.States, Server.Valid, Runs.Inv, Tx.Pending;
      frames := DrainReady(s, cap, now);
      var pending := s.HasPendingTx();
      if !pending {
        ClearReady(s);
      }
    }

    /** A session that sent something is live, and its first reply is no longer due. */
    method Account(id: SessionID, now: nat) returns (first: bool)
      requires Valid() && id in sessions
      modifies this`firstReply, this`lastActivity
      ensures Valid() && first == (id in old(firstReply))
      ensures firstReply == old(firstReply) - {id} && lastActivity == old(lastActivity)[id := now]
    {
      hide Server.OnlyResets, Server.Slot;
      first := id in firstReply;
      firstReply := firstReply - {id};
      lastActivity := lastActivity[id := now];
    }

    lemma StateAt(id: SessionID)
      requires id in sessions
      ensures id in States() && States()[id] == sessions[id].TxState()
      ensures Owes(sessions[id]) == Tx.Pending(sessions[id].TxState(), MAX_FRAME_PAYLOAD)
    {
    }

    lemma StatesAt()
      ensures States().Keys == sessions.Keys
    {
    }

    lemma OwedInStates()
      ensures Table() == OwedIn(States())
    {
      hide Tx.Pending;
    }

    lemma TableAt()
      ensures Table().Keys == sessions.Keys && forall id :: id in sessions ==> Table()[id] == Owes(sessions[id])
    {
    }

    /** A slot survives whatever leaves its session object, its owner and its marks alone. */
    twostate lemma SlotKept(id: SessionID)
      requires id in old(sessions) && id in old(sessionOwners) && old(Slot(id))
      requires id in sessions && sessions[id] == old(sessions[id]) && unchanged(sessions[id])
      requires id in sessionOwners && sessionOwners[id] == old(sessionOwners[id])
      requires id in old(txReady) ==> id in txReady
      requires id in old(callbacks) ==> id in callbacks
      ensures Slot(id)
    {
    }

    /** A write through a session's own object: it is still valid, and an OnTx call is on its way or it
        owes nothing it did not owe before. */
    twostate lemma SlotGains(id: SessionID)
      requires id in old(sessions) && id in old(sessionOwners) && old(Slot(id))
      requires id in sessions && sessions[id] == old(sessions[id]) && sessions[id].Valid()
      requires id in sessionOwners && sessionOwners[id] == old(sessionOwners[id])
      requires id in old(txReady) ==> id in txReady
      requires id in old(callbacks) ==> id in callbacks
      requires Tx.HasPending(sessions[id].TxState()) ==>
               Tx.HasPending(old(sessions[id].TxState())) || sessions[id].id in callbacks
      ensures Slot(id)
    {
    }

    lemma SlotNew(id: SessionID)
      requires id in sessions && id in sessionOwners
      requires sessions[id].id == id && Newborn(sessions[id]) && sessions[id].opener == sessionOwners[id]
      ensures Slot(id)
    {
    }

    lemma SlotAt(id: SessionID)
      requires Valid() && id in sessions
      ensures sessions[id].id == id && sessions[id].Valid() && id in sessionOwners
              && sessions[id].opener == sessionOwners[id]
    {
      assert Slot(id);
    }

    lemma RegisteredValid(s: Session)
      requires Valid() && s in sessions.Values
      ensures s.Valid()
    {
      var id :| id in sessions && sessions[id] == s;
      assert Slot(id);
    }

    /** Marks of sessions that are no longer registered are dropped. */
    method PurgeReady()
      requires Valid()
      modifies this`txReady
      ensures Valid() && txReady == old(txReady) * sessions.Keys
    {
      hide Server.OnlyResets, Server.Slot;
      txReady := txReady * sessions.Keys;
      forall k | k in sessions ensures Slot(k) { SlotKept(k); }
    }

    /** Control and reset frames go first, and are taken out of their queues. */
    method TakeQueued(owner: ClientID) returns (out: seq<Frame>)
      requires Valid()
      modifies this`pendingCtrl, this`pendingRSTs
      ensures Valid() && out == old(Queued(pendingCtrl, owner)) + old(Queued(pendingRSTs, owner))
      ensures forall f <- out :: f.IsRst()
      ensures pendingCtrl == Emptied(old(pendingCtrl), owner) && pendingRSTs == Emptied(old(pendingRSTs), owner)
    {
      hide Server.Slot;
      out := [];
      if |Queued(pendingCtrl, owner)| > 0 {
        out := out + pendingCtrl[owner];
        pendingCtrl := pendingCtrl - {owner};
      }
      if |Queued(pendingRSTs, owner)| > 0 {
        out := out + pendingRSTs[owner];
        pendingRSTs := pendingRSTs - {owner};
      }
    }

    /** One turn of the drain loop, for a session not served yet in this response. */
    method ServeNext(s: Session, remaining: nat, now: nat, ghost owed: seq<Frame>,
                     ghost was: Owed<SessionID>, ghost first: set<SessionID>, ghost activity: map<SessionID, nat>)
      returns (frames: seq<Frame>, isFirst: bool)
      requires Valid() && s.id in sessions && sessions[s.id] == s && remaining > 0
      requires s.id in was && owed == Owes(s) == was[s.id]
      requires Booked(was, Table(), first, firstReply, activity, lastActivity, now)
      modifies s`txBuf, s`txSeq, s`synNeeded, s`finSent, s`finSentAt, s`firstQueuedAt, s`emitted
      modifies this`txReady, this`firstReply, this`lastActivity
      ensures Valid() && Booked(was, Table(), first, firstReply, activity, lastActivity, now)
      ensures |frames| == Share(owed, remaining) && frames == owed[..|frames|]
      ensures Table() == old(Table())[s.id := owed[|frames|..]]
      ensures firstReply == if isFirst then old(firstReply) - {s.id} else old(firstReply)
      ensures isFirst ==> s.id in old(firstReply)
      ensures States() == old(States())[s.id := Tx.Drained(old(s.TxState()), MAX_FRAME_PAYLOAD, |frames|, now)]
    {
      hide Session.Valid, Server.Valid, Server.Table, Server.States, Tx.Drained, Runs.Inv, Tx.HasPending, Owes, Booked;
      TableAt();
      BookServed(was, Table(), first, firstReply, activity, lastActivity, now, s.id, Share(owed, remaining));
      var perSessionCap := MAX_DRAIN_FRAMES_PER_SESSION;
      if remaining < perSessionCap {
        perSessionCap := remaining;
      }
      frames := DrainOne(s, perSessionCap, now, owed);
      isFirst := false;
      if |frames| > 0 {
        isFirst := Account(s.id, now);
      }
    }

    /** The drain loop, with its caps. */
    method ServeList(order: seq<SessionID>, slots: nat, byteBudget: int, now: nat)
      returns (frames: seq<Frame>, urgent: bool)
      requires Valid() && Distinct(order) && forall id <- order :: id in sessions
      modifies this`txReady, this`firstReply, this`lastActivity
      modifies sessions.Values`txBuf, sessions.Values`txSeq, sessions.Values`synNeeded, sessions.Values`finSent,
               sessions.Values`finSentAt, sessions.Values`firstQueuedAt, sessions.Values`emitted
      ensures Valid() && forall id <- order :: id in old(Table())
      ensures var r := Serve(old(Table()), order, slots, byteBudget); Table() == r.owed && frames == r.frames
      ensures Booked(old(Table()), Table(), old(firstReply), firstReply, old(lastActivity), lastActivity, now)
      ensures urgent <==> firstReply != old(firstReply)
      ensures Shrunk(old(States()), States(), now)
    {
      hide Shrunk, OwedIn, Tx.Pending, Tx.Drained, Session.TxState, Session.Valid, Server.Valid, Server.Table,
           Server.States, Runs.Inv, Tx.HasPending, Owes, Booked, Serve, Serving, Distinct;
      ghost var was, first, activity := Table(), firstReply, lastActivity;
      ghost var txs := States();
      ShrunkStart(txs, now);
      TableAt();
      BookStart();
      ServingStart(was, order, slots, byteBudget);
      frames, urgent := [], false;
      var remaining, remainingBytes := slots, byteBudget;
      var i := 0;
      while i < |order| && remaining > 0 && remainingBytes > 0
        invariant 0 <= i <= |order| && remaining >= 0 && Valid()
        invariant Booked(was, Table(), first, firstReply, activity, lastActivity, now)
        invariant Serving(was, order, slots, byteBudget, i, frames, Table(), remaining, remainingBytes)
        invariant firstReply <= first && (urgent <==> firstReply != first)
        invariant Shrunk(txs, States(), now)
      {
        ServingTurn(was, order, slots, byteBudget, i, frames, Table(), remaining, remainingBytes);
        var id := order[i];
        SlotAt(id);
        TableAt();
        StateAt(id);
        ShrunkTurn(txs, States(), id, Share(was[id], remaining), now);
        var got, isFirst := ServeNext(sessions[id], remaining, now, was[id], was, first, activity);
        urgent := urgent || isFirst;
        remainingBytes := remainingBytes - |Payloads(got)|;
        frames := frames + got;
        remaining := remaining - |got|;
        i := i + 1;
      }
      ServingDone(was, order, slots, byteBudget, i, frames, Table(), remaining, remainingBytes);
    }

    /** The same, seen from the sending halves. */
    method AnswerList(order: seq<SessionID>, slots: nat, byteBudget: int, now: nat)
      returns (frames: seq<Frame>, urgent: bool)
      requires Valid() && Distinct(order) && forall id <- order :: id in sessions
      modifies this`txReady, this`firstReply, this`lastActivity
      modifies sessions.Values`txBuf, sessions.Values`txSeq, sessions.Values`synNeeded, sessions.Values`finSent,
               sessions.Values`finSentAt, sessions.Values`firstQueuedAt, sessions.Values`emitted
      ensures Valid() && ServedAs(old(Table()), Table(), order, slots, byteBudget, frames)
      ensures Booked(old(Table()), Table(), old(firstReply), firstReply, old(lastActivity), lastActivity, now)
      ensures urgent <==> firstReply != old(firstReply)
      ensures Answered(old(States()), States(), order, slots, byteBudget, now)
    {
      hide Shrunk, Answered, OwedIn, Session.Valid, Server.Valid, Server.Table, Server.States, Booked, Serve;
      ghost var txs := States();
      OwedInStates();
      StatesAt();
      frames, urgent := ServeList(order, slots, byteBudget, now);
      OwedInStates();
      ServedAnswers(txs, States(), order, slots, byteBudget, now);
    }

    lemma QueueMembers(owner: ClientID)
      ensures forall refs: seq<SessionID> :: IsQueue(owner, refs) ==>
                Distinct(refs) && forall id <- refs :: id in sessions
    {
    }

    lemma BookStart()
      requires Valid()
      ensures forall now :: Booked(Table(), Table(), firstReply, firstReply, lastActivity, lastActivity, now)
    {
    }

    /** f is owed by a registered session that this very client opened. */
    ghost predicate OwedBy(owner: ClientID, f: Frame)
      reads this`sessions, sessions.Values
    {
      exists id :: id in sessions && sessions[id].opener == owner && f in Owes(sessions[id])
    }

    ghost predicate AllOwedBy(owner: ClientID, fs: seq<Frame>)
      reads this`sessions, sessions.Values
    {
      forall f <- fs :: OwedBy(owner, f)
    }

    lemma OnlyOwner(owner: ClientID, refs: seq<SessionID>, slots: int, budget: int)
      requires Valid() && IsQueue(owner, refs) && forall id <- refs :: id in Table()
      ensures AllOwedBy(owner, Serve(Table(), refs, slots, budget).frames)
    {
      hide Session.Valid, Runs.Inv, Serve, Owes;
      forall f <- Serve(Table(), refs, slots, budget).frames ensures OwedBy(owner, f) {
        ServeFrom(Table(), refs, slots, budget, f);
        var id :| id in refs && f in Table()[id];
        assert Slot(id);
      }
    }

    method DrainSessions(owner: ClientID, byteBudget: int, now: nat)
      returns (frames: seq<Frame>, urgent: bool, ghost refs: seq<SessionID>)
      requires Valid()
      modifies this`txReady, this`firstReply, this`lastActivity
      modifies sessions.Values`txBuf, sessions.Values`txSeq, sessions.Values`synNeeded, sessions.Values`finSent,
               sessions.Values`finSentAt, sessions.Values`firstQueuedAt, sessions.Values`emitted
      ensures Valid() && old(IsQueue(owner, refs))
      ensures ServedAs(old(Table()), Table(), refs, BatchCap(|sessions|), byteBudget, frames)
      ensures Booked(old(Table()), Table(), old(firstReply), firstReply, old(lastActivity), lastActivity, now)
      ensures urgent <==> firstReply != old(firstReply)
      ensures old(AllOwedBy(owner, frames))
      ensures Answered(old(States()), States(), refs, BatchCap(|sessions|), byteBudget, now)
    {
      hide Shrunk, Answered, OwedIn, Server.States, Server.AllOwedBy, Session.Valid, Server.Valid, Server.Table,
           Server.IsQueue, Runs.Inv, Tx.HasPending, Booked, Serve;
      QueueMembers(owner);
      var order := ByAge(owner);
      refs := order;
      TableAt();
      OnlyOwner(owner, refs, BatchCap(|sessions|), byteBudget);
      PurgeReady();
      frames, urgent := AnswerList(order, BatchCap(|sessions|), byteBudget, now);
    }

    /** drainAll: what the client has waiting, then its ready sessions as `Serve` says, oldest first. */
    method DrainAll(owner: ClientID, byteBudget: int, now: nat)
      returns (out: seq<Frame>, urgent: bool, ghost refs: seq<SessionID>, ghost queued: seq<Frame>,
               ghost frames: seq<Frame>)
      requires Valid()
      modifies this`txReady, this`firstReply, this`lastActivity, this`pendingRSTs, this`pendingCtrl
      modifies sessions.Values`txBuf, sessions.Values`txSeq, sessions.Values`synNeeded, sessions.Values`finSent,
               sessions.Values`finSentAt, sessions.Values`firstQueuedAt, sessions.Values`emitted
      ensures queued == old(Queued(pendingCtrl, owner)) + old(Queued(pendingRSTs, owner))
      ensures forall f <- queued :: f.IsRst()
      ensures pendingCtrl == Emptied(old(pendingCtrl), owner) && pendingRSTs == Emptied(old(pendingRSTs), owner)
      ensures Valid() && old(IsQueue(owner, refs)) && out == queued + frames
      ensures ServedAs(old(Table()), Table(), refs, BatchCap(|sessions|), byteBudget, frames)
      ensures old(AllOwedBy(owner, frames))
      ensures Booked(old(Table()), Table(), old(firstReply), firstReply, old(lastActivity), lastActivity, now)
      ensures urgent <==> queued != [] || firstReply != old(firstReply)
      ensures Answered(old(States()), States(), refs, BatchCap(|sessions|), byteBudget, now)
    {
      hide Answered, Server.States, Session.Valid, Server.Valid, Server.Table, Server.IsQueue, Server.AllOwedBy,
           Runs.Inv, Tx.HasPending, Booked, ServedAs, Queued, Emptied, BatchCap;
      out := TakeQueued(owner);
      queued := out;
      var fs, isFirst;
      fs, isFirst, refs := DrainSessions(owner, byteBudget, now);
      frames := fs;
      urgent := out != [] || isFirst;
      out := out + fs;
    }

    // ----- suppressed dials -----

    method IsDialSuppressed(target: bytes, now: nat) returns (b: bool)
      requires Valid()
      modifies this`dialFail
      ensures Valid() && (b <==> target in old(dialFail) && now <= old(dialFail)[target])
      ensures dialFail == if b then old(dialFail) else old(dialFail) - {target}
    {
      hide Server.OnlyResets, Server.Slots;
      b := target in dialFail && now <= dialFail[target];
      if !b && target in dialFail {
        dialFail := dialFail - {target};
      }
      assert target !in old(dialFail) ==> old(dialFail) - {target} == old(dialFail);
    }

    method RecordDialFailure(target: bytes, eligible: bool, now: nat)
      requires Valid()
      modifies this`dialFail
      ensures Valid()
      ensures dialFail == if eligible then old(dialFail)[target := now + DIAL_FAILURE_BACKOFF] else old(dialFail)
    {
      hide Server.OnlyResets, Server.Slots;
      if eligible {
        dialFail := dialFail[target := now + DIAL_FAILURE_BACKOFF];
      }
    }

    method ClearDialFailure(target: bytes)
      requires Valid()
      modifies this`dialFail
      ensures Valid() && dialFail == old(dialFail) - {target}
    {
      hide Server.OnlyResets, Server.Slots;
      dialFail := dialFail - {target};
    }

    // ----- opening, resetting, collecting -----

    twostate lemma SlotsRegistered(sess: Session)
      requires old(Slots()) && Newborn(sess)
      requires sessions == With(old(sessions), sess.id, sess)
               && sessionOwners == With(old(sessionOwners), sess.id, sess.opener)
      requires txReady == old(txReady) && callbacks == old(callbacks) && unchanged(old(sessions).Values)
      ensures Slots()
    {
      hide Server.Slot, Newborn, With;
      forall k | k in sessions ensures k in sessionOwners && Slot(k) {
        WithAt(old(sessions), sess.id, sess, k);
        WithAt(old(sessionOwners), sess.id, sess.opener, k);
        if k == sess.id {
          SlotNew(k);
        } else {
          SlotKept(k);
        }
      }
    }

    /** What every table with one session more, or replaced, still satisfies. */
    twostate lemma Registered(sess: Session)
      requires old(Valid()) && Newborn(sess)
      requires sessions == With(old(sessions), sess.id, sess)
               && sessionOwners == With(old(sessionOwners), sess.id, sess.opener)
      requires upstreams.Keys == old(upstreams).Keys + {sess.id}
               && lastActivity.Keys == old(lastActivity).Keys + {sess.id}
      requires firstReply == old(firstReply) + {sess.id} && txReady == old(txReady) && callbacks == old(callbacks)
      requires pendingRSTs == old(pendingRSTs) && pendingCtrl == old(pendingCtrl) && unchanged(old(sessions).Values)
      ensures Valid()
    {
      hide Server.Slots, Newborn, InStep, With;
      InStepWith(old(sessions).Keys, old(sessionOwners).Keys, old(upstreams).Keys, old(lastActivity).Keys,
          old(firstReply), sess.id);
      SlotsRegistered(sess);
    }

    method SetTables(sess: Session, owner: ClientID, conn: nat, now: nat)
      modifies this`sessions, this`sessionOwners, this`upstreams, this`firstReply, this`lastActivity, this`losses
      ensures Keeps(old(sessionOwners), old(losses), sessionOwners, losses)
      ensures sessions == With(old(sessions), sess.id, sess)
              && sessionOwners == With(old(sessionOwners), sess.id, owner)
      ensures upstreams == With(old(upstreams), sess.id, conn) && lastActivity == With(old(lastActivity), sess.id, now)
      ensures firstReply == old(firstReply) + {sess.id}
    {
      var id := sess.id;
      if id in sessionOwners && sessionOwners[id] != owner {
        losses := losses + multiset{id};
      }
      sessions := With(sessions, id, sess);
      sessionOwners := With(sessionOwners, id, owner);
      upstreams := With(upstreams, id, conn);
      firstReply := firstReply + {id};
      lastActivity := With(lastActivity, id, now);
    }

    /** The registration part of openSession; sess was just created, for the client `owner`. */
    method Register(sess: Session, owner: ClientID, conn: nat, now: nat)
      requires Valid() && Newborn(sess) && sess.opener == owner
      modifies this`sessions, this`sessionOwners, this`upstreams, this`firstReply, this`lastActivity, this`losses
      ensures Valid()
      ensures sessions == With(old(sessions), sess.id, sess)
              && sessionOwners == With(old(sessionOwners), sess.id, owner)
      ensures upstreams == With(old(upstreams), sess.id, conn) && lastActivity == With(old(lastActivity), sess.id, now)
      ensures firstReply == old(firstReply) + {sess.id}
      ensures Keeps(old(sessionOwners), old(losses), sessionOwners, losses)
      ensures States() == old(States())[sess.id := sess.TxState()]
    {
      hide Server.Valid, Server.States, Newborn, With, Keeps;
      SetTables(sess, owner, conn, now);
      Registered(sess);
      StatesWith(sess);
    }

    twostate lemma StatesWith(sess: Session)
      requires sessions == With(old(sessions), sess.id, sess) && unchanged(old(sessions).Values)
      ensures States() == old(States())[sess.id := sess.TxState()]
    {
      hide Session.TxState;
    }

    /** openSession once the dial has succeeded. */
    method OpenSession(id: SessionID, target: bytes, owner: ClientID, conn: nat, now: nat) returns (sess: Session)
      requires Valid()
      modifies this`sessions, this`sessionOwners, this`upstreams, this`firstReply, this`lastActivity, this`losses
      ensures Valid() && fresh(sess) && sess.Valid() && sess.opener == owner && sess.heardFrom == {}
              && sess.emitted == []
      ensures sess.Log() == Runs.NewSender(id, target, false, now) && sess.Side() == RxChannel.NEW_SIDE
      ensures sessions == With(old(sessions), id, sess) && sessionOwners == With(old(sessionOwners), id, owner)
      ensures upstreams == With(old(upstreams), id, conn) && lastActivity == With(old(lastActivity), id, now)
      ensures firstReply == old(firstReply) + {id}
      ensures Keeps(old(sessionOwners), old(losses), sessionOwners, losses)
      ensures States() == old(States())[id := sess.TxState()]
    {
      hide Server.Valid, Server.States, Session.Valid, Newborn, With;
      ghost var before := States();
      sess := new Session(id, target, false, now, owner);
      assert States() == before;
      MadeNow(sess, now);
      Register(sess, owner, conn, now);
    }

    method QueueRST(owner: ClientID, id: SessionID)
      requires Valid()
      modifies this`pendingRSTs
      ensures Valid()
      ensures pendingRSTs == old(pendingRSTs)[owner := old(Queued(pendingRSTs, owner)) + [ResetFrame(id, [])]]
    {
      hide Server.Slot;
      pendingRSTs := pendingRSTs[owner := Queued(pendingRSTs, owner) + [ResetFrame(id, [])]];
    }

    method QueueVersionResponse(owner: ClientID, id: SessionID, info: bytes)
      requires Valid()
      modifies this`pendingCtrl
      ensures Valid()
      ensures pendingCtrl == old(pendingCtrl)[owner := old(Queued(pendingCtrl, owner)) + [ResetFrame(id, info)]]
    {
      hide Server.Slot;
      pendingCtrl := pendingCtrl[owner := Queued(pendingCtrl, owner) + [ResetFrame(id, info)]];
    }

    /** The end of routeIncoming: activity is touched only while the session is still registered. */
    method Touch(id: SessionID, now: nat)
      requires Valid()
      modifies this`lastActivity
      ensures Valid() && lastActivity == if id in sessions then old(lastActivity)[id := now] else old(lastActivity)
    {
      hide Server.OnlyResets, Server.Slot;
      if id in sessions {
        lastActivity := lastActivity[id := now];
      }
    }

    twostate lemma SlotsForgotten(id: SessionID)
      requires old(Slots())
      requires sessions == Without(old(sessions), id) && sessionOwners == Without(old(sessionOwners), id)
      requires txReady == old(txReady) - {id} && callbacks == old(callbacks) && unchanged(old(sessions).Values)
      ensures Slots()
    {
      hide Server.Slot, Session.Valid, Runs.Inv, Tx.HasPending, Without;
      forall k | k in sessions ensures k in sessionOwners && Slot(k) {
        WithoutAt(old(sessions), id, k);
        WithoutAt(old(sessionOwners), id, k);
        SlotKept(k);
      }
    }

    /** What every table without one session still satisfies. */
    twostate lemma Forgotten(id: SessionID)
      requires old(Valid())
      requires sessions == Without(old(sessions), id) && sessionOwners == Without(old(sessionOwners), id)
      requires upstreams == Without(old(upstreams), id) && lastActivity == Without(old(lastActivity), id)
      requires firstReply == old(firstReply) - {id} && txReady == old(txReady) - {id} && callbacks == old(callbacks)
      requires pendingRSTs == old(pendingRSTs) && pendingCtrl == old(pendingCtrl) && unchanged(old(sessions).Values)
      ensures Valid() && Books() == Shed(old(Books()), {id})
    {
      hide Server.Slots, InStep, Without, Shed;
      InStepWithout(old(sessions), old(sessionOwners), old(upstreams), old(lastActivity), old(firstReply), id);
      SlotsForgotten(id);
      ForgottenBooks(old(Books()), id);
    }

    method Unset(id: SessionID)
      modifies this`sessions, this`sessionOwners, this`upstreams, this`firstReply, this`lastActivity, this`txReady,
               this`losses
      ensures sessions == Without(old(sessions), id) && sessionOwners == Without(old(sessionOwners), id)
      ensures upstreams == Without(old(upstreams), id) && lastActivity == Without(old(lastActivity), id)
      ensures firstReply == old(firstReply) - {id} && txReady == old(txReady) - {id}
      ensures Keeps(old(sessionOwners), old(losses), sessionOwners, losses)
    {
      losses := losses + multiset{id};
      sessions := Without(sessions, id);
      sessionOwners := Without(sessionOwners, id);
      txReady := txReady - {id};
      firstReply := firstReply - {id};
      upstreams := Without(upstreams, id);
      lastActivity := Without(lastActivity, id);
    }

    method Forget(id: SessionID)
      requires Valid()
      modifies this`sessions, this`sessionOwners, this`upstreams, this`firstReply, this`lastActivity, this`txReady,
               this`losses
      ensures Valid() && sessions == Without(old(sessions), id) && Books() == Shed(old(Books()), {id})
      ensures Keeps(old(sessionOwners), old(losses), sessionOwners, losses)
    {
      hide Server.Valid, Server.Books, Without, Keeps;
      Unset(id);
      Forgotten(id);
    }

    lemma ForgottenBooks(b: Ledger<SessionID>, id: SessionID)
      ensures Shed(b, {id}) == Ledger(Without(b.owners, id), Without(b.conns, id), Without(b.activity, id),
                b.first - {id}, b.ready - {id})
    {
    }

    method CollectIfDone(id: SessionID, now: nat) returns (done: bool)
      requires Valid() && id in sessions
      modifies this`sessions, this`sessionOwners, this`upstreams, this`firstReply, this`lastActivity, this`txReady,
               this`losses
      modifies {sessions[id]}`stopped
      ensures Valid() && done == old(DoneAt(sessions[id], now))
      ensures sessions == if done then Without(old(sessions), id) else old(sessions)
      ensures Books() == if done then Shed(old(Books()), {id}) else old(Books())
      ensures var s := old(sessions[id]); if done then Complete(s, now) && s.stopped else !(s.finSent && s.rxClosed)
      ensures Keeps(old(sessionOwners), old(losses), sessionOwners, losses)
    {
      hide Session.Valid, Server.Valid, Runs.Inv, Without, Shed, Keeps;
      var s := sessions[id];
      SlotAt(id);
      KeepsAll(sessionOwners, losses);
      done := s.IsDone(now);
      if done {
        FinEmittedAll(s);
        StopRegistered(s);
        Forget(id);
      }
    }

    /** A session that was found done leaves, whatever happened to it since. */
    method Drop(s: Session)
      requires Valid() && s.id in sessions && sessions[s.id] == s && s.finSent
      modifies this`sessions, this`sessionOwners, this`upstreams, this`firstReply, this`lastActivity, this`txReady,
               this`losses, s`stopped
      ensures Valid() && sessions == Without(old(sessions), s.id) && Books() == Shed(old(Books()), {s.id})
      ensures Keeps(old(sessionOwners), old(losses), sessionOwners, losses)
      ensures s.Valid() && s.stopped && Payloads(s.emitted) == s.stream
    {
      hide Session.Valid, Server.Valid, Server.Books, Without, Shed, Keeps;
      SlotAt(s.id);
      FinEmittedAll(s);
      StopRegistered(s);
      Forget(s.id);
    }

    /** gcDoneSessions: removes exactly the done sessions, each of which has emitted its whole stream. */
    method GcDoneSessions(now: nat)
      requires Valid()
      modifies this`sessions, this`sessionOwners, this`upstreams, this`firstReply, this`lastActivity, this`txReady,
               this`losses
      modifies sessions.Values`stopped
      ensures Valid()
      ensures sessions == map id | id in old(sessions) && !old(DoneAt(sessions[id], now)) :: old(sessions[id])
      ensures Books() == Shed(old(Books()), old(sessions.Keys) - sessions.Keys)
      ensures Sifted(old(sessions), sessions, {}, now)
      ensures Keeps(old(sessionOwners), old(losses), sessionOwners, losses)
    {
      hide Complete, Session.Valid, Server.Valid, DoneAt, Shed, Keeps, Runs.Inv;
      var todo := sessions.Keys;
      ghost var all := sessions;
      ghost var gone := {};
      ShedNone(Books());
      KeepsAll(sessionOwners, losses);
      while todo != {}
        invariant Valid() && todo <= sessions.Keys && todo <= all.Keys
        invariant gone == all.Keys - sessions.Keys && Books() == Shed(old(Books()), gone)
        invariant Keeps(old(sessionOwners), old(losses), sessionOwners, losses)
        invariant forall id :: id in sessions ==> id in all && sessions[id] == all[id]
        invariant forall id :: id in all && id !in todo ==> (id in sessions <==> !old(DoneAt(sessions[id], now)))
        invariant Sifted(all, sessions, todo, now)
        decreases todo
      {
        var id :| id in todo;
        ShedMore(old(Books()), gone, id);
        ghost var owners, lost := sessionOwners, losses;
        var done := CollectIfDone(id, now);
        KeepsOn(old(sessionOwners), old(losses), owners, lost, sessionOwners, losses);
        gone := gone + if done then {id} else {};
        todo := todo - {id};
      }
    }

    method StopRegistered(s: Session)
      requires Valid() && s.Valid()
      modifies s`stopped
      ensures Valid() && s.Valid() && s.stopped
    {
      hide Server.OnlyResets, Session.Valid, Runs.Inv, Tx.HasPending;
      s.Stop();
    }

    /** The locked part of gcIdleSessions: removes exactly the sessions idle for the timeout. */
    method GcIdleSessions(now: nat) returns (victims: set<Session>)
      requires Valid()
      modifies this`sessions, this`sessionOwners, this`upstreams, this`firstReply, this`lastActivity, this`txReady,
               this`losses
      ensures Valid()
      ensures forall id :: id in sessions <==>
                id in old(sessions) && id in old(lastActivity) && old(lastActivity)[id] > now - IDLE_SESSION_TIMEOUT
      ensures forall id :: id in sessions ==> sessions[id] == old(sessions)[id]
      ensures Books() == Shed(old(Books()), old(sessions.Keys) - sessions.Keys)
      ensures forall s :: s in victims <==> exists id ::
                id in old(sessions) && id !in sessions && old(sessions)[id] == s
      ensures Keeps(old(sessionOwners), old(losses), sessionOwners, losses)
    {
      hide Server.Valid, Shed, Keeps;
      var todo := lastActivity.Keys;
      ghost var all, activity := sessions, lastActivity;
      ghost var gone := {};
      victims := {};
      CoherentNow();
      ShedNone(Books());
      KeepsAll(sessionOwners, losses);
      while todo != {}
        invariant Valid() && todo <= sessions.Keys <= all.Keys == activity.Keys
        invariant gone == all.Keys - sessions.Keys && Books() == Shed(old(Books()), gone)
        invariant Keeps(old(sessionOwners), old(losses), sessionOwners, losses)
        invariant forall id :: id in sessions ==> sessions[id] == all[id]
        invariant forall id :: id in all && id !in todo ==>
                    (id in sessions <==> activity[id] > now - IDLE_SESSION_TIMEOUT)
        invariant forall s :: s in victims <==> exists id :: id in gone && all[id] == s
        decreases todo
      {
        var id :| id in todo;
        ShedActivity(old(Books()), gone);
        assert lastActivity == activity - gone;
        if lastActivity[id] <= now - IDLE_SESSION_TIMEOUT {
          ShedMore(old(Books()), gone, id);
          victims := victims + {sessions[id]};
          ghost var owners, lost := sessionOwners, losses;
          Forget(id);
          KeepsOn(old(sessionOwners), old(losses), owners, lost, sessionOwners, losses);
          gone := gone + {id};
        }
        todo := todo - {id};
      }
      assert forall id :: id in gone <==> id in old(sessions) && id !in sessions;
    }

    /** What gcIdleSessions does to a victim once the mutex is released; it may have been replaced or
        still be in use by a routing call. */
    method ForceClose(s: Session)
      requires Valid() && s.Valid()
      modifies s`rxClosed, s`rxChanClosed, s`stopped
      ensures Valid() && s.Valid() && s.rxClosed && s.stopped
    {
      hide Server.OnlyResets, Server.Slot, Session.Valid, Runs.Inv;
      s.CloseRx();
      s.Stop();
      forall k | k in sessions ensures Slot(k) {
        if sessions[k] == s { SlotGains(k); } else { SlotKept(k); }
      }
    }

    lemma CoherentNow()
      requires Valid()
      ensures lastActivity.Keys == sessions.Keys && sessionOwners.Keys == sessions.Keys
    {
    }
  }

  /** A server session that was just made, and owes nothing yet. */
  ghost predicate Newborn(s: Session)
    reads s
  {
    s.Valid() && !s.client && !Tx.HasPending(s.TxState())
  }

  lemma MadeNow(s: Session, now: nat)
    requires s.Valid() && !s.client && s.Log() == Runs.NewSender(s.id, s.target, false, now)
    ensures Newborn(s)
  {
  }
}
