/** The client's session table and its polls (internal/carrier/client.go). Every method is one section
    run under the client mutex, or one call on a session object, and needs nothing but the invariant. */
module Carrier {
  import opened Bytes
  import opened Frames
  import opened Drains
  import opened CarrierDrain
  import opened Sessions
  import opened SessionTables
  import Tx = SessionTx
  import Runs = SessionRuns
  import RxChannel

  class Client {
    const clientID: ClientID
    var sessions: map<SessionID, Session>
    var inFlight: set<SessionID>
    var txReady: set<SessionID>
    var callbacks: multiset<SessionID>        // OnTx calls that have not yet taken the mutex
    var polls: map<nat, set<SessionID>>       // the drained sessions of every poll still to release them

    /** A registered session is never stranded: while it owes a frame it is marked ready, in flight, or an
        OnTx call is on its way. */
    ghost predicate Slot(id: SessionID)
      requires id in sessions
      reads this`sessions, this`txReady, this`inFlight, this`callbacks, sessions[id]
    {
      var s := sessions[id];
      && s.id == id && s.opener == clientID && s.client && s.Valid()
      && (Tx.HasPending(s.TxState()) ==> id in txReady || id in inFlight || id in callbacks)
    }

    ghost predicate Slots()
      reads this`sessions, this`txReady, this`inFlight, this`callbacks, sessions.Values
    {
      forall id :: id in sessions ==> Slot(id)
    }

    ghost predicate Valid()
      reads this, sessions.Values
    {
      Slots() && Exclusive(polls, inFlight)
    }

    ghost function Table(): Owed<SessionID>
      reads this`sessions, sessions.Values
    {
      map id | id in sessions :: Owes(sessions[id])
    }

    /** Everything a session emitted or still owes; a drain only moves frames from one to the other. */
    ghost function Ever(): map<SessionID, seq<Frame>>
      reads this`sessions, sessions.Values
    {
      map id | id in sessions :: sessions[id].emitted + Owes(sessions[id])
    }

    constructor (clientID: ClientID)
      ensures Valid() && this.clientID == clientID && sessions == map[] && polls == map[] && callbacks == multiset{}
    {
      this.clientID := clientID;
      sessions, inFlight, txReady, callbacks, polls := map[], {}, {}, multiset{}, map[];
    }

    // ----- slots -----

    lemma SlotAt(id: SessionID)
      requires Slots() && id in sessions
      ensures sessions[id].id == id && sessions[id].Valid() && sessions[id].opener == clientID
    {
      assert Slot(id);
    }

    lemma RegisteredValid(s: Session)
      requires Valid() && s in sessions.Values
      ensures s.Valid() && s.opener == clientID
    {
      var id :| id in sessions && sessions[id] == s;
      assert Slot(id);
    }

    lemma TableAt()
      ensures Table().Keys == sessions.Keys && forall id :: id in sessions ==> Table()[id] == Owes(sessions[id])
    {
    }

    /** A slot survives whatever leaves its session object and its marks alone. */
    twostate lemma SlotKept(id: SessionID)
      requires id in old(sessions) && old(Slot(id))
      requires id in sessions && sessions[id] == old(sessions[id]) && unchanged(sessions[id])
      requires id in old(txReady) ==> id in txReady || id in inFlight
      requires id in old(inFlight) ==> id in inFlight
      requires id in old(callbacks) ==> id in callbacks
      ensures Slot(id)
    {
    }

    /** A call on a session's own object: it is still valid, and an OnTx call is on its way or it owes
        nothing it did not owe before. */
    twostate lemma SlotGains(id: SessionID)
      requires id in old(sessions) && old(Slot(id))
      requires id in sessions && sessions[id] == old(sessions[id]) && sessions[id].Valid()
      requires id in old(txReady) ==> id in txReady
      requires id in old(inFlight) ==> id in inFlight
      requires id in old(callbacks) ==> id in callbacks
      requires Tx.HasPending(sessions[id].TxState()) ==>
               Tx.HasPending(old(sessions[id].TxState())) || sessions[id].id in callbacks
      ensures Slot(id)
    {
    }

    lemma SlotNew(id: SessionID)
      requires id in sessions && id in txReady
      requires var s := sessions[id]; s.id == id && s.opener == clientID && s.client && s.Valid()
      ensures Slot(id)
    {
    }

    // ----- sessions and their callers -----

    /** The registration in NewSession, for an identifier drawn at random: nothing depends on its being new. */
    method NewSession(id: SessionID, target: bytes, now: nat) returns (s: Session)
      requires Valid()
      modifies this`sessions, this`txReady
      ensures Valid() && fresh(s) && s.Log() == Runs.NewSender(id, target, true, now) && s.Side() == RxChannel.NEW_SIDE
      ensures sessions == With(old(sessions), id, s) && txReady == old(txReady) + {id}
    {
      hide Client.Slot, Exclusive, Session.Valid, Runs.Inv, Runs.NewSender, With;
      s := new Session(id, target, true, now, clientID);
      ghost var made := s;
      sessions := With(sessions, id, s);
      txReady := txReady + {id};
      forall k | k in sessions ensures Slot(k) {
        WithAt(old(sessions), id, made, k);
        if k == id { SlotNew(k); } else { SlotKept(k); }
      }
    }

    /** VirtualConn.Write on any session object, registered or not. */
    method Write(s: Session, data: bytes, now: nat) returns (outcome: WriteOutcome)
      requires Valid() && s.Valid()
      modifies s`txBuf, s`firstQueuedAt, s`stream, this`callbacks
      ensures Valid() && s.Valid() && (old(Quiet(s)) ==> Quiet(s))
      ensures s.Log() == if outcome == Blocked then old(s.Log())
              else Runs.Next(old(s.Log()), Runs.WriteInitial(data, now))
      ensures callbacks == old(callbacks) + if outcome == Accepted then multiset{s.id} else multiset{}
    {
      hide Client.Slot, Exclusive, Session.Valid, Runs.Inv;
      outcome := s.EnqueueInitialData(data, now);
      if outcome == Accepted {
        callbacks := callbacks + multiset{s.id};
      }
      forall k | k in sessions ensures Slot(k) {
        if sessions[k] == s { SlotGains(k); } else { SlotKept(k); }
      }
    }

    method RequestClose(s: Session, now: nat)
      requires Valid() && s.Valid()
      modifies s`closeReq, s`firstQueuedAt, this`callbacks
      ensures Valid() && s.Valid() && s.Log() == Runs.Next(old(s.Log()), Runs.CloseRequest(now)) && Quiet(s)
      ensures callbacks == old(callbacks) + multiset{s.id}
    {
      hide Client.Slot, Exclusive, Session.Valid, Runs.Inv, Runs.Next;
      s.RequestClose(now);
      callbacks := callbacks + multiset{s.id};
      forall k | k in sessions ensures Slot(k) {
        if sessions[k] == s { SlotGains(k); } else { SlotKept(k); }
      }
    }

    method OnTx(id: SessionID)
      requires Valid() && id in callbacks
      modifies this`txReady, this`callbacks
      ensures Valid() && txReady == old(txReady) + {id} && callbacks == old(callbacks) - multiset{id}
    {
      hide Exclusive, Session.Valid, Runs.Inv, Runs.Next;
      txReady := txReady + {id};
      callbacks := callbacks - multiset{id};
    }

    // ----- responses -----

    // What replies and receive loops do to a session object of their own, under its mutex alone.

    method EnterRx(s: Session) returns (open: bool)
      requires Valid() && s.Valid()
      modifies s`heardFrom
      ensures Valid() && s.Valid() && open == !s.rxClosed
    {
      hide Client.Slot, Exclusive, Session.Valid, Runs.Inv;
      open := s.EnterRx(clientID);
      forall k | k in sessions ensures Slot(k) {
        if sessions[k] == s { SlotGains(k); } else { SlotKept(k); }
      }
    }

    method OfferRx(s: Session, f: Frame) returns (queued: bool)
      requires Valid() && s.Valid()
      modifies s`rxInbox, s`arrived, s`stopped
      ensures Valid() && s.Valid() && (if queued then s.stopped == old(s.stopped) else s.stopped)
      ensures s.rxInbox == if queued then old(s.rxInbox) + [f] else old(s.rxInbox)
      ensures s.arrived == if queued then old(s.arrived) + [f] else old(s.arrived)
    {
      hide Client.Slot, Exclusive, Session.Valid, Runs.Inv;
      queued := s.OfferRx(f);
      forall k | k in sessions ensures Slot(k) {
        if sessions[k] == s { SlotGains(k); } else { SlotKept(k); }
      }
    }

    /** A step of rxLoop, or of the reader of its channel, if it is one they can take now. */
    method RxTurn(s: Session, e: RxChannel.Event) returns (taken: bool)
      requires Valid() && s.Valid() && RxChannel.OfLoop(e)
      modifies s`rxInbox, s`rxSeq, s`rxQueue, s`rxClosed, s`loop, s`have, s`delivered, s`sent, s`panicked, s`rxChan,
               s`rxChanClosed, s`stopped
      ensures Valid() && s.Valid() && (taken <==> RxChannel.Enabled(old(s.Side()), e))
              && (old(s.rxClosed) ==> s.rxClosed) && (old(s.stopped) ==> s.stopped)
      ensures s.Side() == if taken then RxChannel.Next(old(s.Side()), e) else old(s.Side())
    {
      hide Client.Slot, Exclusive, Session.Valid, Session.Side, RxChannel.Enabled, RxChannel.Next, Runs.Inv;
      taken := s.RxStep(e);
      forall k | k in sessions ensures Slot(k) {
        if sessions[k] == s { SlotGains(k); } else { SlotKept(k); }
      }
    }

    /** The steps of a reset: the session is shut for reading, asked to close, taken out, and stopped. */
    method ShutRx(s: Session)
      requires Valid() && s.Valid()
      modifies s`rxClosed, s`rxChanClosed
      ensures Valid() && s.Valid() && s.rxClosed
    {
      hide Client.Slot, Exclusive, Session.Valid, Runs.Inv;
      s.CloseRx();
      forall k | k in sessions ensures Slot(k) {
        if sessions[k] == s { SlotGains(k); } else { SlotKept(k); }
      }
    }

    method Stop(s: Session)
      requires Valid() && s.Valid()
      modifies s`stopped
      ensures Valid() && s.Valid() && s.stopped
    {
      hide Client.Slot, Exclusive, Session.Valid, Runs.Inv;
      s.Stop();
      forall k | k in sessions ensures Slot(k) {
        if sessions[k] == s { SlotGains(k); } else { SlotKept(k); }
      }
    }

    /** Taken out of the table, though not out of the air: a poll may still hold its identifier. */
    method Remove(id: SessionID)
      requires Valid()
      modifies this`sessions, this`txReady
      ensures Valid() && sessions == Without(old(sessions), id) && txReady == old(txReady) - {id}
    {
      hide Client.Slot, Exclusive, Without;
      sessions := Without(sessions, id);
      txReady := txReady - {id};
      forall k | k in sessions ensures Slot(k) {
        WithoutAt(old(sessions), id, k);
        SlotKept(k);
      }
    }

    // ----- draining -----

    // drainAll holds the client mutex but not the session's: a write may land between the drain and the
    // bookkeeping that follows. So these are two steps, and the second needs only what Write keeps.

    /** Either nothing is owed, or an OnTx call is on its way. */
    ghost predicate Quiet(s: Session)
      reads this`callbacks, s`txBuf, s`txSeq, s`synNeeded, s`closeReq, s`finSent, s`finSentAt, s`firstQueuedAt
    {
      Tx.HasPending(s.TxState()) ==> s.id in callbacks
    }

    method TakeOwed(s: Session, cap: nat, now: nat, ghost owed: seq<Frame>) returns (frames: seq<Frame>)
      requires s.Valid() && cap > 0 && owed == Owes(s)
      modifies s`txBuf, s`txSeq, s`synNeeded, s`finSent, s`finSentAt, s`firstQueuedAt, s`emitted
      ensures s.Valid() && (Tx.HasPending(s.TxState()) ==> Tx.HasPending(old(s.TxState())))
      ensures frames == [] ==> !Tx.HasPending(s.TxState())
      ensures |frames| == Min(cap, |owed|) && frames == owed[..|frames|] && Owes(s) == owed[|frames|..]
      ensures s.synNeeded == (old(s.synNeeded) && frames == []) && s.emitted == old(s.emitted) + frames
      ensures frames + Owes(s) == owed
    {
      hide Session.Valid, Runs.Inv, Tx.Pending, Tx.HasPending, Tx.Bodies;
      PendingShrinks(s.TxState(), cap, now);
      NothingLeftUnsent(s.TxState());
      frames := s.DrainTx(MAX_FRAME_PAYLOAD, cap, now);
      assert frames + owed[|frames|..] == owed;
    }

    method DrainReady(s: Session, cap: nat, now: nat, ghost owed: seq<Frame>) returns (frames: seq<Frame>)
      requires Slots() && s.id in sessions && sessions[s.id] == s && cap > 0 && owed == Owes(s)
      modifies s`txBuf, s`txSeq, s`synNeeded, s`finSent, s`finSentAt, s`firstQueuedAt, s`emitted
      ensures Slots() && (frames == [] ==> Quiet(s))
      ensures |frames| == Min(cap, |owed|) && frames == owed[..|frames|] && Owes(s) == owed[|frames|..]
      ensures Table() == old(Table())[s.id := owed[|frames|..]] && Ever() == old(Ever())
      ensures s.synNeeded == (old(s.synNeeded) && frames == []) && s.emitted == old(s.emitted) + frames
    {
      hide Client.Slot, Client.Ever, Client.Table, Session.Valid, Runs.Inv, Owes, Tx.HasPending;
      forall k | k in sessions ensures k != s.id ==> sessions[k] != s { SlotAt(k); }
      SlotAt(s.id);
      frames := TakeOwed(s, cap, now, owed);
      SameEver(s);
      forall k | k in sessions ensures Slot(k) {
        if sessions[k] == s { SlotGains(k); } else { SlotKept(k); }
      }
    }

    twostate lemma SameEver(s: Session)
      requires s.id in sessions && sessions[s.id] == s && sessions == old(sessions)
      requires forall k | k in sessions && k != s.id :: unchanged(sessions[k])
      requires old(s.emitted) <= s.emitted && s.emitted[|old(s.emitted)|..] + Owes(s) == old(Owes(s))
      ensures Ever() == old(Ever()) && Table() == old(Table())[s.id := Owes(s)]
    {
      hide Owes;
      assert s.emitted + Owes(s) == old(s.emitted) + (s.emitted[|old(s.emitted)|..] + Owes(s));
    }

    /** Out of the ready marks, and into the air if anything was drained. */
    method Launch(s: Session, frames: seq<Frame>)
      requires Slots() && s.id in sessions && sessions[s.id] == s && (frames == [] ==> Quiet(s))
      modifies this`txReady, this`inFlight
      ensures Slots() && txReady == old(txReady) - {s.id}
      ensures inFlight == if frames == [] then old(inFlight) else old(inFlight) + {s.id}
    {
      hide Session.Valid, Runs.Inv;
      txReady := txReady - {s.id};
      if frames != [] {
        inFlight := inFlight + {s.id};
      }
    }

    /** The same in a poll whose sessions are entered one by one. */
    method Board(s: Session, frames: seq<Frame>, poll: nat)
      requires Valid() && s.id in sessions && sessions[s.id] == s && s.id !in inFlight && (frames == [] ==> Quiet(s))
      modifies this`txReady, this`inFlight, this`polls
      ensures Valid() && txReady == old(txReady) - {s.id}
      ensures inFlight == if frames == [] then old(inFlight) else old(inFlight) + {s.id}
      ensures polls == if frames == [] then old(polls) else old(polls)[poll := Aboard(old(polls), poll) + {s.id}]
    {
      hide Client.Slots, Exclusive;
      Launch(s, frames);
      if frames != [] {
        Boards(polls, old(inFlight), poll, s.id);
        polls := polls[poll := Aboard(polls, poll) + {s.id}];
      }
    }

    /** The sessions whose SYN is unsent, as far as a request can still take them. */
    ghost predicate UnsentSyns(syn: set<SessionID>)
      reads this`sessions, this`inFlight, sessions.Values
    {
      forall id :: id in sessions && id !in inFlight ==> (sessions[id].synNeeded <==> id in syn)
    }

    /** The state of the request being packed. */
    ghost function Here(frames: seq<Frame>, drained: seq<SessionID>, remaining: nat): Packing<SessionID>
      reads this`sessions, this`inFlight, this`txReady, sessions.Values
    {
      Packing(frames, Table(), inFlight, txReady, drained, remaining)
    }

    /** One call of the closure `drain`. */
    method Drain(id: SessionID, synOnly: bool, frames: seq<Frame>, drained: seq<SessionID>, remaining: nat,
        now: nat, ghost syn: set<SessionID>)
      returns (frames': seq<Frame>, drained': seq<SessionID>, remaining': nat)
      requires Slots() && id in sessions && UnsentSyns(syn)
      modifies this`txReady, this`inFlight, {sessions[id]}`txBuf, {sessions[id]}`txSeq, {sessions[id]}`synNeeded,
               {sessions[id]}`finSent, {sessions[id]}`finSentAt, {sessions[id]}`firstQueuedAt, {sessions[id]}`emitted
      ensures Slots() && UnsentSyns(syn)
      ensures Ever() == old(Ever())
      ensures Here(frames', drained', remaining') == Turn(old(Here(frames, drained, remaining)), id, syn, synOnly)
    {
      hide Client.Ever, Client.Slots, Client.Table, Session.Valid, Session.TxState, Runs.Inv, Tx.HasPending, Owes;
      frames', drained', remaining' := frames, drained, remaining;
      TableAt();
      var s := sessions[id];
      if remaining <= 0 || id in inFlight || (synOnly && !s.synNeeded) {
        return;
      }
      SlotAt(id);
      forall k | k in sessions ensures k != id ==> sessions[k] != s { SlotAt(k); }
      var perSessionCap := MAX_DRAIN_FRAMES_PER_SESSION;
      if remaining < perSessionCap {
        perSessionCap := remaining;
      }
      ghost var owed := Owes(s);
      var got := DrainReady(s, perSessionCap, now, owed);
      Launch(s, got);
      if |got| == 0 {
        return;
      }
      drained' := drained + [id];
      frames' := frames + got;
      remaining' := remaining - |got|;
    }

    /** One pass over the snapshot. */
    method PassOver(refs: seq<SessionID>, synOnly: bool, frames0: seq<Frame>, drained0: seq<SessionID>,
        remaining0: nat, now: nat, ghost syn: set<SessionID>)
      returns (frames: seq<Frame>, drained: seq<SessionID>, remaining: nat)
      requires Slots() && UnsentSyns(syn) && forall id <- refs :: id in sessions
      modifies this`txReady, this`inFlight, sessions.Values`txBuf, sessions.Values`txSeq, sessions.Values`synNeeded,
               sessions.Values`finSent, sessions.Values`finSentAt, sessions.Values`firstQueuedAt,
               sessions.Values`emitted
      ensures Slots() && UnsentSyns(syn) && forall id <- refs :: id in old(Table())
      ensures Ever() == old(Ever())
      ensures Here(frames, drained, remaining)
           == Pass(old(Here(frames0, drained0, remaining0)), refs, |refs|, syn, synOnly)
    {
      hide Client.Ever, Client.Slots, Client.UnsentSyns, Client.Table, Turn, Pass;
      TableAt();
      ghost var p0 := Here(frames0, drained0, remaining0);
      frames, drained, remaining := frames0, drained0, remaining0;
      PassStart(p0, refs, syn, synOnly);
      for i := 0 to |refs|
        invariant Slots() && UnsentSyns(syn) && Ever() == old(Ever())
        invariant Here(frames, drained, remaining) == Pass(p0, refs, i, syn, synOnly)
      {
        PassTurn(p0, refs, i, syn, synOnly);
        frames, drained, remaining := Drain(refs[i], synOnly, frames, drained, remaining, now, syn);
      }
    }

    /** refs lists the ready sessions, oldest queue first. */
    ghost predicate IsQueue(refs: seq<SessionID>)
      reads this`sessions, this`txReady, sessions.Values
    {
      && Distinct(refs) && (forall id :: id in refs <==> id in txReady && id in sessions)
      && (forall i, j :: 0 <= i < j < |refs| ==> sessions[refs[i]].firstQueuedAt <= sessions[refs[j]].firstQueuedAt)
    }

    /** The snapshot and its unstable sort; marks of sessions that are gone are dropped. */
    method ByAge() returns (refs: seq<SessionID>)
      requires Slots()
      modifies this`txReady
      ensures Slots() && old(IsQueue(refs)) && txReady == old(txReady) * sessions.Keys
    {
      hide Session.Valid, Runs.Inv;
      var ages := map id | id in txReady && id in sessions :: sessions[id].firstQueuedAt;
      refs := SortByAge(ages);
      txReady := txReady * sessions.Keys;
    }

    ghost function SynSet(): set<SessionID>
      reads this`sessions, sessions.Values
    {
      set id | id in sessions && sessions[id].synNeeded
    }

    lemma SynStart()
      ensures UnsentSyns(SynSet())
    {
    }

    lemma QueueMembers()
      ensures forall refs: seq<SessionID> :: IsQueue(refs) ==> forall id <- refs :: id in sessions
    {
    }

    /** Both passes over one snapshot. */
    method PackAll(order: seq<SessionID>, now: nat)
      returns (frames: seq<Frame>, drained: seq<SessionID>, ghost p: Packing<SessionID>, ghost q: Packing<SessionID>)
      requires Slots() && forall id <- order :: id in sessions
      modifies this`txReady, this`inFlight, sessions.Values`txBuf, sessions.Values`txSeq, sessions.Values`synNeeded,
               sessions.Values`finSent, sessions.Values`finSentAt, sessions.Values`firstQueuedAt,
               sessions.Values`emitted
      ensures Slots() && (forall id <- order :: id in p.owed)
      ensures Ever() == old(Ever())
      ensures p == old(Here([], [], BatchCap(|sessions|))) && q == Pack(p, order, old(SynSet()))
      ensures q == Here(frames, drained, q.remaining)
    {
      hide Client.Ever, Client.Slots, Client.UnsentSyns, Client.Table, Turn, Pass;
      ghost var syn := SynSet();
      SynStart();
      TableAt();
      p := Here([], [], BatchCap(|sessions|));
      var remaining;
      frames, drained, remaining := PassOver(order, true, [], [], BatchCap(|sessions|), now, syn);
      frames, drained, remaining := PassOver(order, false, frames, drained, remaining, now, syn);
      q := Here(frames, drained, remaining);
    }

    /** drainAll: the request is what `Pack` says of the state it starts from, under the cap for the number
        of sessions, and a poll that drained anything holds its sessions until it releases them. */
    method DrainAll(poll: nat, now: nat)
      returns (frames: seq<Frame>, drained: seq<SessionID>,
               ghost refs: seq<SessionID>, ghost p: Packing<SessionID>, ghost q: Packing<SessionID>)
      requires Valid() && poll !in polls
      modifies this`txReady, this`inFlight, this`polls, sessions.Values`txBuf, sessions.Values`txSeq,
               sessions.Values`synNeeded,
               sessions.Values`finSent, sessions.Values`finSentAt, sessions.Values`firstQueuedAt,
               sessions.Values`emitted
      ensures Valid() && old(IsQueue(refs)) && forall id <- refs :: id in p.owed
      ensures Ever() == old(Ever())
      ensures p == Packing([], old(Table()), old(inFlight), old(txReady) * old(sessions.Keys), [],
                BatchCap(|old(sessions)|))
      ensures q == Pack(p, refs, old(SynSet())) && Sound(p, q)
      ensures frames == q.frames && drained == q.drained && Table() == q.owed && inFlight == q.flying
              && txReady == q.ready
      ensures polls == if drained == [] then old(polls) else old(polls)[poll := set id <- drained]
    {
      hide Client.Ever, Client.Slots, Client.Table, Client.IsQueue, Pack, Sound, Exclusive;
      QueueMembers();
      var order := ByAge();
      refs := order;
      frames, drained, p, q := PackAll(order, now);
      PackSound(p, refs, old(SynSet()));
      PollStarts(polls, p, q, poll);
      if |drained| > 0 {
        polls := polls[poll := set id <- drained];
      }
    }

    lemma OwedUnderOwnName(id: SessionID, f: Frame)
      requires Slots() && id in sessions && f in Owes(sessions[id])
      ensures f.id == id
    {
      hide Session.Valid;
      assert Slot(id);
    }

    lemma OwnNames()
      requires Slots()
      ensures forall k <- Table() :: forall f <- Table()[k] :: f.id == k
    {
      hide Client.Slots, Owes;
      TableAt();
      forall k <- Table(), f <- Table()[k] ensures f.id == k { OwedUnderOwnName(k, f); }
    }

    lemma EverAt()
      ensures Ever().Keys == sessions.Keys
      ensures forall id <- sessions :: Ever()[id] == sessions[id].emitted + Owes(sessions[id])
    {
    }

    lemma FramesAreOfDrained(p: Packing<SessionID>, q: Packing<SessionID>)
      requires Slots() && Sound(p, q) && p.owed == Table()
      ensures forall f <- q.frames :: f.id in q.drained
    {
      hide Client.Slots, Sound, Owes;
      TableAt();
      forall f <- q.frames ensures f.id in q.drained {
        SoundFrom(p, q, f);
        var id :| id in q.drained && id in p.owed && f in p.owed[id];
        OwedUnderOwnName(id, f);
      }
    }

    /** What a session's frames in the request are, by its name alone. */
    lemma {:induction false} SharesOf(ids: seq<SessionID>, was: Owed<SessionID>, now: Owed<SessionID>, id: SessionID)
      requires Distinct(ids) && forall k <- ids :: k in was && k in now && |now[k]| <= |was[k]|
      requires forall k <- ids :: forall f <- was[k] :: f.id == k
      ensures OfId(Shares(ids, was, now), id) == if id in ids then was[id][..|was[id]| - |now[id]|] else []
      decreases |ids|
    {
      hide Shares, OfId;
      SharesLast(ids, was, now, id);
      if ids != [] {
        var n := |ids| - 1;
        var k, rest := ids[n], ids[..n];
        var part := was[k][..|was[k]| - |now[k]|];
        assert ids == rest + [k] && k !in rest;
        SharesOf(rest, was, now, id);
        OfIdAppend(Shares(rest, was, now), part, id);
        assert forall f <- part :: f in was[k];
        OfIdAlike(part, k, id);
      }
    }

    lemma SharesLast(ids: seq<SessionID>, was: Owed<SessionID>, now: Owed<SessionID>, id: SessionID)
      requires forall k <- ids :: k in was && k in now && |now[k]| <= |was[k]|
      ensures ids == [] ==> Shares(ids, was, now) == [] && OfId([], id) == []
      ensures ids != [] ==>
                var n := |ids| - 1;
                var k := ids[n];
                Shares(ids, was, now) == Shares(ids[..n], was, now) + was[k][..|was[k]| - |now[k]|]
    {
    }

    /** Where everything ever owed is the same, what is owed no more was emitted. */
    lemma EmittedShares(p: Packing<SessionID>, q: Packing<SessionID>, id: SessionID, before: seq<Frame>)
      requires Slots() && Sound(p, q) && id in sessions && p.owed.Keys == sessions.Keys && q.owed == Table()
      requires forall k <- p.owed :: forall f <- p.owed[k] :: f.id == k
      requires sessions[id].emitted + Owes(sessions[id]) == before + p.owed[id]
      ensures sessions[id].emitted == before + OfId(q.frames, id)
    {
      hide Client.Slots, Owes, OfId, Shares;
      TableAt();
      SharesOf(q.drained, p.owed, q.owed, id);
      var owed := Owes(sessions[id]);
      var m := |p.owed[id]| - |owed|;
      assert sessions[id].emitted == (before + p.owed[id])[..|before| + m];
      assert (before + p.owed[id])[..|before| + m] == before + p.owed[id][..m];
      if id !in q.drained { assert m == 0; }
    }

    /** The start of a poll: its frames belong to the sessions it drained, and none of these is in any
        other poll; the frame cap holds; and the frames are exactly what the sessions emitted. */
    method StartPoll(poll: nat, now: nat) returns (frames: seq<Frame>, drained: seq<SessionID>)
      requires Valid() && poll !in polls
      modifies this`txReady, this`inFlight, this`polls, sessions.Values`txBuf, sessions.Values`txSeq,
               sessions.Values`synNeeded, sessions.Values`finSent, sessions.Values`finSentAt,
               sessions.Values`firstQueuedAt, sessions.Values`emitted
      ensures Valid() && (forall f <- frames :: f.id in drained) && Distinct(drained)
      ensures |frames| <= BatchCap(|sessions|)
      ensures forall id <- drained :: id !in old(inFlight)
      ensures polls == if drained == [] then old(polls) else old(polls)[poll := set id <- drained]
      ensures forall id <- sessions :: sessions[id].emitted == old(sessions[id].emitted) + OfId(frames, id)
    {
      hide Client.Slots, Client.Table, Client.IsQueue, Client.Ever, Pack, Sound, OfId;
      ghost var refs, p, q;
      ghost var ever, emitted := Ever(), map id | id in sessions :: sessions[id].emitted;
      forall p, q | Sound(p, q) && p.owed == Table() ensures forall f <- q.frames :: f.id in q.drained {
        FramesAreOfDrained(p, q);
      }
      OwnNames();
      EverAt();
      TableAt();
      frames, drained, refs, p, q := DrainAll(poll, now);
      OnceEach(p, q);
      EverAt();
      forall id <- sessions ensures sessions[id].emitted == emitted[id] + OfId(frames, id) {
        EmittedShares(p, q, id, emitted[id]);
      }
    }

    /** One turn of the release: out of the air, and marked ready again if anything is left to send. */
    method Land(id: SessionID)
      requires Slots()
      modifies this`inFlight, this`txReady
      ensures Slots() && inFlight == old(inFlight) - {id}
      ensures txReady == if id in sessions && Tx.HasPending(sessions[id].TxState()) then old(txReady) + {id}
              else old(txReady)
    {
      hide Session.Valid, Runs.Inv;
      inFlight := inFlight - {id};
      if id in sessions {
        var pending := sessions[id].HasPendingTx();
        if pending {
          txReady := txReady + {id};
        }
      }
    }

    /** releaseInFlight, at the end of the poll that drained these sessions. */
    method ReleaseInFlight(poll: nat, ids: seq<SessionID>)
      requires Valid() && poll in polls && polls[poll] == set id <- ids
      modifies this`inFlight, this`txReady, this`polls
      ensures Valid() && polls == old(polls) - {poll} && inFlight == old(inFlight) - old(polls)[poll]
      ensures forall id :: id in txReady <==>
                id in old(txReady) || (id in old(polls)[poll] && id in sessions
                    && Tx.HasPending(sessions[id].TxState()))
    {
      hide Client.Slots, Exclusive, Tx.HasPending;
      PollEnds(polls, inFlight, poll);
      ghost var landed := {};
      for i := 0 to |ids|
        invariant Slots() && polls == old(polls) && (forall id :: id in landed <==> id in ids[..i])
        invariant inFlight == old(inFlight) - landed
        invariant forall id :: id in txReady <==>
                    id in old(txReady) || (id in landed && id in sessions && Tx.HasPending(sessions[id].TxState()))
      {
        Land(ids[i]);
        landed := landed + {ids[i]};
      }
      assert landed == polls[poll];
      polls := polls - {poll};
    }

    /** One turn of the release, by what HasPendingTx said of the session a moment ago. */
    method LandFrom(poll: nat, id: SessionID, pending: bool)
      requires Valid() && poll in polls && id in polls[poll]
      requires id in sessions && !pending ==> sessions[id].id == id && Quiet(sessions[id])
      modifies this`inFlight, this`txReady, this`polls
      ensures Valid() && inFlight == old(inFlight) - {id} && polls == old(polls)[poll := old(polls)[poll] - {id}]
      ensures txReady == if id in sessions && pending then old(txReady) + {id} else old(txReady)
    {
      hide Exclusive, Session.Valid, Runs.Inv;
      Lands(polls, inFlight, poll, id);
      inFlight := inFlight - {id};
      polls := polls[poll := polls[poll] - {id}];
      if id in sessions && pending {
        txReady := txReady + {id};
      }
    }

    /** A poll that released all of its sessions is over. */
    method Close(poll: nat)
      requires Valid() && poll in polls && polls[poll] == {}
      modifies this`polls
      ensures Valid() && polls == old(polls) - {poll}
    {
      hide Client.Slots, Exclusive;
      PollEnds(polls, inFlight, poll);
      assert inFlight - polls[poll] == inFlight;
      polls := polls - {poll};
    }

    /** A session that was found done leaves, whatever happened to it since. */
    method Drop(s: Session)
      requires Valid() && s.id in sessions && sessions[s.id] == s && s.finSent
      modifies this`sessions, this`txReady, s`stopped
      ensures Valid() && sessions == Without(old(sessions), s.id) && txReady == old(txReady) - {s.id}
      ensures s.Valid() && s.stopped && Payloads(s.emitted) == s.stream
    {
      hide Session.Valid, Client.Slots, Exclusive, Without;
      SlotAt(s.id);
      FinEmittedAll(s);
      Stop(s);
      Remove(s.id);
    }

    method CollectIfDone(id: SessionID, now: nat) returns (done: bool)
      requires Valid() && id in sessions
      modifies this`sessions, this`txReady, {sessions[id]}`stopped
      ensures Valid() && done == old(DoneAt(sessions[id], now))
      ensures sessions == if done then Without(old(sessions), id) else old(sessions)
      ensures txReady == if done then old(txReady) - {id} else old(txReady)
      ensures var s := old(sessions[id]); if done then Complete(s, now) && s.stopped else !(s.finSent && s.rxClosed)
    {
      hide Session.Valid, Client.Slots, Exclusive, Without;
      var s := sessions[id];
      SlotAt(id);
      done := s.IsDone(now);
      if done {
        FinEmittedAll(s);
        Stop(s);
        Remove(id);
      }
    }

    /** gcDoneSessions: removes exactly the done sessions, each of which has emitted its whole stream. */
    method GcDoneSessions(now: nat)
      requires Valid()
      modifies this`sessions, this`txReady, sessions.Values`stopped
      ensures Valid()
      ensures sessions == map id | id in old(sessions) && !old(DoneAt(sessions[id], now)) :: old(sessions[id])
      ensures txReady == old(txReady) - (old(sessions.Keys) - sessions.Keys)
      ensures Sifted(old(sessions), sessions, {}, now)
    {
      hide Complete, Session.Valid, Client.Valid, DoneAt;
      var todo := sessions.Keys;
      ghost var all := sessions;
      while todo != {}
        invariant Valid() && todo <= sessions.Keys && todo <= all.Keys
                  && txReady == old(txReady) - (all.Keys - sessions.Keys)
        invariant forall id :: id in sessions ==> id in all && sessions[id] == all[id]
        invariant forall id :: id in all && id !in todo ==> (id in sessions <==> !old(DoneAt(sessions[id], now)))
        invariant Sifted(all, sessions, todo, now)
        decreases todo
      {
        var id :| id in todo;
        var done := CollectIfDone(id, now);
        todo := todo - {id};
      }
    }
  }

  lemma OnceEach(p: Packing<SessionID>, q: Packing<SessionID>)
    requires Sound(p, q)
    ensures Distinct(q.drained) && |q.frames| <= p.remaining && forall id <- q.drained :: id !in p.flying
  {
  }

  lemma NothingLeftUnsent(t: Tx.Tx)
    ensures Tx.Pending(t, MAX_FRAME_PAYLOAD) == [] <==> !Tx.HasPending(t)
    ensures t.synNeeded ==> Tx.HasPending(t)
  {
    Tx.PendingCount(t, MAX_FRAME_PAYLOAD);
  }
}
