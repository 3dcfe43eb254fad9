/** drainAll of the server (internal/exit/exit.go) as it runs: under the server mutex from end to end, but
    taking the session mutex anew for each call, so that writers, receive loops and routing calls that
    already hold their session go on between any two of its steps. */
module ExitPolls {
  import opened Bytes
  import opened Frames
  import opened Drains
  import opened ExitDrain
  import opened Sessions
  import opened SessionTables
  import opened ExitServer
  import Tx = SessionTx
  import Runs = SessionRuns

  /** The frames of a response that are not resets: those of sessions. */
  function OfSessions(fs: seq<Frame>): seq<Frame> {
    if fs == [] then [] else (if fs[0].IsRst() then [] else [fs[0]]) + OfSessions(fs[1..])
  }

  lemma {:induction false} OfSessionsAlike(fs: seq<Frame>)
    ensures (forall f <- fs :: !f.IsRst()) ==> OfSessions(fs) == fs
    ensures (forall f <- fs :: f.IsRst()) ==> OfSessions(fs) == []
  {
    if fs != [] {
      OfSessionsAlike(fs[1..]);
      assert fs[0] in fs && fs == [fs[0]] + fs[1..];
    }
  }

  lemma {:induction false} OfSessionsAppend(a: seq<Frame>, b: seq<Frame>)
    ensures OfSessions(a + b) == OfSessions(a) + OfSessions(b)
  {
    if a == [] {
      assert a + b == b;
    } else {
      var rest := a[1..] + b;
      var head := if a[0].IsRst() then [] else [a[0]];
      assert (a + b)[1..] == rest && (a + b)[0] == a[0];
      OfSessionsAppend(a[1..], b);
      assert OfSessions(a + b) == head + OfSessions(rest);
    }
  }

  /** f was emitted by a registered session that this client opened. */
  ghost predicate Given(f: Frame, owner: ClientID, server: Server)
    reads server`sessions, server.sessions.Values`emitted
  {
    exists s <- server.sessions.Values :: s.opener == owner && f in s.emitted
  }

  ghost predicate AllGiven(fs: seq<Frame>, owner: ClientID, server: Server)
    reads server`sessions, server.sessions.Values`emitted
  {
    forall f <- fs :: Given(f, owner, server)
  }

  /** The slots and the bytes that the session frames packed so far have used up. */
  ghost predicate Packed(given: seq<Frame>, slots: nat, budget: int, remaining: nat, left: int) {
    && |given| + remaining == slots && |Payloads(given)| == budget - left && (left > -OVERSHOOT || left == budget)
  }

  lemma PackedMore(given: seq<Frame>, slots: nat, budget: int, remaining: nat, left: int, frames: seq<Frame>)
    requires Packed(given, slots, budget, remaining, left) && left > 0
             && |frames| <= Min(MAX_DRAIN_FRAMES_PER_SESSION, remaining)
    requires forall f <- frames :: |f.payload| <= MAX_FRAME_PAYLOAD
    ensures Packed(given + frames, slots, budget, remaining - |frames|, left - |Payloads(frames)|)
  {
    hide Payloads;
    PayloadsAppend(given, frames);
    FewBytes(frames);
  }

  lemma FewBytes(frames: seq<Frame>)
    requires |frames| <= MAX_DRAIN_FRAMES_PER_SESSION && forall f <- frames :: |f.payload| <= MAX_FRAME_PAYLOAD
    ensures |Payloads(frames)| <= OVERSHOOT
  {
    forall i | 0 <= i < |frames| ensures |frames[i].payload| <= MAX_FRAME_PAYLOAD { assert frames[i] in frames; }
    PayloadsBound(frames, MAX_FRAME_PAYLOAD);
  }

  lemma OwedFrames(s: Session)
    ensures forall f <- Owes(s) :: !f.IsRst() && |f.payload| <= MAX_FRAME_PAYLOAD
  {
    Runs.PendingPayloadCap(s.TxState(), MAX_FRAME_PAYLOAD);
  }

  /** A part of a list of one session's frames and others. */
  lemma OneTold(given: seq<Frame>, got: seq<Frame>, own: SessionID)
    requires forall f <- got :: f.id == own
    ensures forall id :: OfId(given + got, id) == OfId(given, id) + if id == own then got else []
  {
    forall id ensures OfId(given + got, id) == OfId(given, id) + if id == own then got else [] {
      OfIdAppend(given, got, id);
      OfIdAlike(got, own, id);
    }
  }

  lemma QueueListed(server: Server, owner: ClientID, refs: seq<SessionID>)
    requires server.IsQueue(owner, refs)
    ensures forall id <- refs :: id in server.sessions && id in server.sessionOwners
              && server.sessionOwners[id] == owner
    ensures Distinct(refs) && Lists(refs, server.txReady * Owned(server, owner))
  {
  }

  ghost function Owned(server: Server, owner: ClientID): set<SessionID>
    reads server`sessions, server`sessionOwners
  {
    set id | id in server.sessions && id in server.sessionOwners && server.sessionOwners[id] == owner
  }

  ghost function EmittedBy(server: Server): map<SessionID, seq<Frame>>
    reads server`sessions, server.sessions.Values`emitted
  {
    map id | id in server.sessions :: server.sessions[id].emitted
  }

  datatype DrainStep =
    | Ready
    | Drained(s: Session, frames: seq<Frame>)
    | Checked(s: Session, frames: seq<Frame>, pending: bool)
    | Ended

  /** One call of drainAll. */
  class Drain {
    const server: Server
    const owner: ClientID
    const budget: int
    const slots: nat
    var refs: seq<SessionID>
    var at: nat
    var remaining: nat
    var left: int
    var out: seq<Frame>
    var urgent: bool
    var step: DrainStep
    ghost var queued: seq<Frame>                 // the part of `out` that was waiting in the client's queues,
    ghost var given: seq<Frame>                  // and the part that came out of sessions
    ghost const was: map<SessionID, seq<Frame>>  // what each registered session had emitted before
    ghost const first: set<SessionID>            // whose first reply was due before

    /** What was packed keeps its accounts, and comes from sessions of this client. */
    ghost predicate Accounts()
      reads this`out, this`queued, this`given, this`remaining, this`left, server`sessions,
            server.sessions.Values`emitted
    {
      && out == queued + given && (forall f <- queued :: f.IsRst()) && (forall f <- given :: !f.IsRst())
      && Packed(given, slots, budget, remaining, left) && AllGiven(given, owner, server)
    }

    ghost predicate Listed()
      reads this`refs, this`at, server`sessions, server`sessionOwners
    {
      && at <= |refs| && Distinct(refs)
      && forall id <- refs :: id in server.sessions && id in server.sessionOwners && server.sessionOwners[id] == owner
    }

    /** Between two calls on a session: the frames are out of it; if it was seen with nothing left, it owes nothing
        now, or an OnTx call is on its way; and so it is if it gave fewer frames than it could have. */
    ghost predicate InHand()
      reads this, server, server.sessions.Values, if step.Drained? || step.Checked? then {step.s} else {}
    {
      step.Drained? || step.Checked? ==>
        var s, fs := step.s, step.frames;
        && at < |refs| && refs[at] == s.id && s.id in server.sessions && server.sessions[s.id] == s && s.opener == owner
        && |fs| <= Min(MAX_DRAIN_FRAMES_PER_SESSION, remaining) && left > 0
        && (forall f <- fs :: !f.IsRst() && |f.payload| <= MAX_FRAME_PAYLOAD && f in s.emitted && f.id == s.id)
        && (step.Checked? && !step.pending ==> server.Quiet(s))
        && (|fs| == Min(MAX_DRAIN_FRAMES_PER_SESSION, remaining) || server.Quiet(s))
    }

    /** These are the frames the sessions emitted since: every session's, all of them, in order. */
    ghost predicate Told(all: seq<Frame>)
      reads server`sessions, server.sessions.Values`emitted
    {
      && was.Keys == server.sessions.Keys
      && forall id <- server.sessions :: server.sessions[id].emitted == was[id] + OfId(all, id)
    }

    ghost function InTransit(): seq<Frame>
      reads this`step
    {
      if step.Drained? || step.Checked? then step.frames else []
    }

    ghost predicate Urged()
      reads this`urgent, this`queued, server`firstReply
    {
      server.firstReply <= first && (urgent <==> queued != [] || server.firstReply != first)
    }

    ghost predicate Valid()
      reads this, server, server.sessions.Values, if step.Drained? || step.Checked? then {step.s} else {}
    {
      Accounts() && Listed() && InHand() && Told(given + InTransit()) && Urged()
    }

    /** Nothing is left to do about this session: it gave eight frames, no slot is left, or it owed nothing more at its
        turn and owes nothing now, or an OnTx call is on its way. */
    ghost predicate Settled(id: SessionID)
      requires id in server.sessions
      reads this`given, this`remaining, server`sessions, server`callbacks, server.sessions.Values
    {
      |OfId(given, id)| >= MAX_DRAIN_FRAMES_PER_SESSION || remaining == 0 || server.Quiet(server.sessions[id])
    }

    ghost predicate Passed()
      reads this`given, this`remaining, this`refs, this`at, server`sessions, server`callbacks, server.sessions.Values
    {
      forall i :: 0 <= i < at && i < |refs| && refs[i] in server.sessions ==> Settled(refs[i])
    }

    ghost function Rank(): nat
      reads this`step, this`refs, this`at
    {
      3 * (if at <= |refs| then |refs| - at else 0)
        + match step case Ready => 3 case Drained(_, _) => 2 case Checked(_, _, _) => 1 case Ended => 0
    }

    constructor (server: Server, owner: ClientID, budget: int, slots: nat)
      ensures this.server == server && this.owner == owner && this.budget == budget && this.slots == slots
      ensures Valid() && refs == [] && at == 0 && step == Ready && out == [] && remaining == slots && left == budget
              && !urgent
      ensures was == EmittedBy(server) && first == server.firstReply
    {
      this.server, this.owner, this.budget, this.slots := server, owner, budget, slots;
      refs, at, remaining, left, out, urgent, step := [], 0, slots, budget, [], false, Ready;
      queued, given, was, first := [], [], EmittedBy(server), server.firstReply;
    }

    /** The queued frames, and the snapshot by age. */
    method Begin()
      requires server.Valid() && Valid() && out == [] && refs == [] && at == 0 && step == Ready && left == budget
               && remaining == slots && !urgent && server.firstReply == first
      modifies this`refs, this`out, this`urgent, this`queued, server`pendingCtrl, server`pendingRSTs, server`txReady
      ensures server.Valid() && Valid() && step == Ready && at == 0 && given == []
      ensures var queue := refs; old(server.IsQueue(owner, queue))
      ensures queued == old(Queued(server.pendingCtrl, owner)) + old(Queued(server.pendingRSTs, owner))
      ensures Queued(server.pendingCtrl, owner) == [] && Queued(server.pendingRSTs, owner) == []
      ensures Lists(refs, old(server.txReady) * Owned(server, owner))
    {
      hide Server.Valid, Packed, AllGiven, Drain.Told, Lists, Owned, Server.IsQueue, Emptied, Queued;
      assert queued + given == [] && given == [];
      var waiting := server.TakeQueued(owner);
      var queue := Snapshot();
      Load(waiting, queue);
    }

    method Snapshot() returns (queue: seq<SessionID>)
      requires server.Valid()
      modifies server`txReady
      ensures server.Valid() && Distinct(queue) && old(server.IsQueue(owner, queue))
      ensures forall id <- queue ::
                id in server.sessions && id in server.sessionOwners && server.sessionOwners[id] == owner
      ensures Lists(queue, old(server.txReady) * Owned(server, owner))
    {
      hide Server.Valid, Lists, Owned, Server.IsQueue;
      queue := server.ByAge(owner);
      QueueListed(server, owner, queue);
      server.PurgeReady();
    }

    method Load(waiting: seq<Frame>, queue: seq<SessionID>)
      requires Valid() && step == Ready && at == 0 && given == [] && queued == [] && !urgent
               && server.firstReply == first
      requires Distinct(queue)
      requires forall id <- queue ::
                 id in server.sessions && id in server.sessionOwners && server.sessionOwners[id] == owner
      requires forall f <- waiting :: f.IsRst()
      modifies this`refs, this`out, this`urgent, this`queued
      ensures Valid() && refs == queue && queued == waiting
    {
      hide Packed, AllGiven, Drain.Told;
      refs, out, urgent := queue, waiting, |waiting| > 0;
      queued := waiting;
    }

    /** What was given stays given while sessions only emit more. */
    twostate lemma StillGiven()
      requires old(Accounts()) && unchanged(this) && server.sessions == old(server.sessions)
      requires forall s <- server.sessions.Values :: old(s.emitted) <= s.emitted
      ensures Accounts()
    {
      hide Packed;
      forall f <- given ensures Given(f, owner, server) {
        assert old(Given(f, owner, server));
        var s :| s in server.sessions.Values && s.opener == owner && f in old(s.emitted);
        assert f in s.emitted;
      }
    }

    twostate lemma Grew(s: Session)
      requires old(Told(given)) && given == old(given) && server.sessions == old(server.sessions)
      requires s.id in server.sessions && server.sessions[s.id] == s
      requires forall k | k in server.sessions && k != s.id ::
                 server.sessions[k].emitted == old(server.sessions[k].emitted)
      requires old(s.emitted) <= s.emitted && forall f <- s.emitted[|old(s.emitted)|..] :: f.id == s.id
      ensures Told(given + s.emitted[|old(s.emitted)|..])
    {
      hide OfId;
      OneTold(given, s.emitted[|old(s.emitted)|..], s.id);
    }

    /** DrainTxLimited on one session. */
    method DrainOne(s: Session, now: nat) returns (got: seq<Frame>)
      requires server.Valid() && Accounts() && Told(given) && remaining > 0
      requires s.id in server.sessions && server.sessions[s.id] == s
      modifies s`txBuf, s`txSeq, s`synNeeded, s`finSent, s`finSentAt, s`firstQueuedAt, s`emitted
      ensures server.Valid() && Accounts() && Told(given + got) && s.emitted == old(s.emitted) + got
      ensures |got| == Min(Min(MAX_DRAIN_FRAMES_PER_SESSION, remaining), |old(Owes(s))|)
      ensures |got| == Min(MAX_DRAIN_FRAMES_PER_SESSION, remaining) || server.Quiet(s)
      ensures forall f <- got :: !f.IsRst() && |f.payload| <= MAX_FRAME_PAYLOAD && f in s.emitted && f.id == s.id
    {
      hide Server.Valid, Session.Valid, Drain.Accounts, Drain.Told, Server.Quiet;
      server.SlotAt(s.id);
      forall k | k in server.sessions ensures k != s.id ==> server.sessions[k] != s { server.SlotAt(k); }
      OwedFrames(s);
      ghost var was := s.emitted;
      var perSessionCap := MAX_DRAIN_FRAMES_PER_SESSION;
      if remaining < perSessionCap {
        perSessionCap := remaining;
      }
      got := server.DrainReady(s, perSessionCap, now);
      StillGiven();
      assert s.emitted[|was|..] == got;
      Grew(s);
      OwesNothing(server, s);
    }

    /** The next session listed, if slots and budget are left. */
    method DrainNext(now: nat)
      requires server.Valid() && Valid() && step.Ready?
      modifies this`step, server.sessions.Values`txBuf, server.sessions.Values`txSeq, server.sessions.Values`synNeeded,
               server.sessions.Values`finSent, server.sessions.Values`finSentAt, server.sessions.Values`firstQueuedAt,
               server.sessions.Values`emitted
      ensures server.Valid() && Valid() && Rank() < old(Rank()) && (old(Passed()) ==> Passed())
      ensures step.Ended? <==> at == |refs| || remaining == 0 || left <= 0
      ensures step.Ended? || (step.Drained? && step.s == server.sessions[refs[at]])
      ensures step.Drained? ==>
                && step.s.emitted == old(server.sessions[refs[at]].emitted) + step.frames
                && |step.frames| == Min(Min(MAX_DRAIN_FRAMES_PER_SESSION, remaining),
                     |old(Owes(server.sessions[refs[at]]))|)
      ensures forall s <- server.sessions.Values :: old(s.emitted) <= s.emitted
    {
      hide Server.Valid, Session.Valid, Drain.Accounts, Drain.Told, Server.Quiet;
      if at == |refs| || remaining == 0 || left <= 0 {
        step := Ended;
        return;
      }
      var id := refs[at];
      server.SlotAt(id);
      var s := server.sessions[id];
      forall k | k in server.sessions ensures k != id ==> server.sessions[k] != s { server.SlotAt(k); }
      assert given + [] == given;
      var frames := DrainOne(s, now);
      step := Drained(s, frames);
    }

    method Check()
      requires server.Valid() && Valid() && step.Drained?
      modifies this`step
      ensures server.Valid() && Valid() && Rank() < old(Rank()) && (old(Passed()) ==> Passed())
      ensures step == Checked(old(step).s, old(step).frames, Tx.HasPending(old(step).s.TxState()))
    {
      hide Server.Valid, Tx.HasPending, Drain.Told, Drain.Accounts, Drain.Passed;
      var pending := step.s.HasPendingTx();
      step := Checked(step.s, step.frames, pending);
    }

    /** The server's part of the bookkeeping that follows. */
    method Settle(s: Session, sent: bool, pending: bool, now: nat) returns (firstNow: bool)
      requires server.Valid() && s.id in server.sessions && server.sessions[s.id] == s && (!pending ==> server.Quiet(s))
      modifies server`txReady, server`firstReply, server`lastActivity
      ensures server.Valid() && firstNow == (sent && s.id in old(server.firstReply))
      ensures server.txReady == if pending then old(server.txReady) else old(server.txReady) - {s.id}
      ensures server.firstReply == if sent then old(server.firstReply) - {s.id} else old(server.firstReply)
      ensures server.lastActivity == if sent then old(server.lastActivity)[s.id := now] else old(server.lastActivity)
    {
      hide Server.Valid, Session.Valid;
      firstNow := false;
      if !pending {
        server.ClearReady(s);
      }
      if sent {
        firstNow := server.Account(s.id, now);
      }
    }

    method Take(frames: seq<Frame>, firstNow: bool)
      requires Accounts() && Told(given + frames) && |frames| <= remaining && forall f <- frames :: !f.IsRst()
      requires Packed(given + frames, slots, budget, remaining - |frames|, left - |Payloads(frames)|)
      requires AllGiven(frames, owner, server) && Listed() && at < |refs|
      requires server.firstReply <= first && (urgent || firstNow <==> queued != [] || server.firstReply != first)
      modifies this`left, this`out, this`given, this`remaining, this`at, this`step, this`urgent
      ensures Valid() && step == Ready && at == old(at) + 1 && urgent == (old(urgent) || firstNow)
      ensures out == old(out) + frames && given == old(given) + frames && remaining == old(remaining) - |frames|
    {
      hide Packed, Drain.Told, Payloads, Given;
      assert queued + (given + frames) == out + frames && (given + frames) + [] == given + frames;
      left := left - |Payloads(frames)|;
      out := out + frames;
      remaining := remaining - |frames|;
      given := given + frames;
      at, step, urgent := at + 1, Ready, urgent || firstNow;
    }

    /** The bookkeeping, on what was seen then. */
    method Book(now: nat)
      requires server.Valid() && Valid() && step.Checked?
      modifies this`left, this`out, this`given, this`remaining, this`at, this`step, this`urgent, server`txReady,
               server`firstReply, server`lastActivity
      ensures server.Valid() && Valid() && Rank() < old(Rank()) && step.Ready? && (old(Passed()) ==> Passed())
      ensures var s, frames := old(step).s, old(step).frames;
              && out == old(out) + frames && given == old(given) + frames
              && server.txReady == (if old(step).pending then old(server.txReady) else old(server.txReady) - {s.id})
              && urgent == (old(urgent) || (|frames| > 0 && s.id in old(server.firstReply)))
              && server.firstReply == (if |frames| > 0 then old(server.firstReply) - {s.id} else old(server.firstReply))
              && server.lastActivity == (if |frames| > 0 then old(server.lastActivity)[s.id := now]
                   else old(server.lastActivity))
    {
      hide Server.Valid, Session.Valid, Packed, AllGiven, Payloads, Server.Quiet, Drain.Told, Drain.Passed,
           Drain.Accounts;
      var s, frames := step.s, step.frames;
      GivenNow(this);
      PackedNow(this);
      Share8(this);
      var firstNow := Settle(s, |frames| > 0, step.pending, now);
      Take(frames, firstNow);
      PassedOne();
    }

    twostate lemma PassedOne()
      requires refs == old(refs) && old(at) < |refs| && at == old(at) + 1
      requires server.sessions == old(server.sessions) && unchanged(server.sessions.Values)
      requires remaining <= old(remaining) && old(given) <= given && server.callbacks == old(server.callbacks)
      requires refs[old(at)] in server.sessions ==> Settled(refs[old(at)])
      ensures old(Passed()) ==> Passed()
    {
      hide Server.Quiet;
      var got := given[|old(given)|..];
      assert given == old(given) + got;
      forall id ensures |OfId(given, id)| >= |OfId(old(given), id)| { OfIdAppend(old(given), got, id); }
    }
  }

  lemma OwesNothing(server: Server, s: Session)
    ensures Owes(s) == [] ==> server.Quiet(s)
  {
    Tx.PendingCount(s.TxState(), MAX_FRAME_PAYLOAD);
  }

  lemma GivenNow(d: Drain)
    requires d.Valid() && d.step.Checked?
    ensures AllGiven(d.step.frames, d.owner, d.server)
  {
    hide Packed, Payloads;
    var s := d.step.s;
    forall f <- d.step.frames ensures Given(f, d.owner, d.server) { assert s in d.server.sessions.Values; }
  }

  lemma PackedNow(d: Drain)
    requires d.Valid() && d.step.Checked?
    ensures var frames := d.step.frames;
            Packed(d.given + frames, d.slots, d.budget, d.remaining - |frames|, d.left - |Payloads(frames)|)
  {
    hide Packed, Payloads;
    PackedMore(d.given, d.slots, d.budget, d.remaining, d.left, d.step.frames);
  }

  /** What the session in hand will have given. */
  lemma Share8(d: Drain)
    requires d.Valid() && d.step.Checked?
    ensures |OfId(d.given + d.step.frames, d.step.s.id)| >= |d.step.frames|
  {
    hide Packed, Payloads, OfId;
    OneTold(d.given, d.step.frames, d.step.s.id);
  }
}
