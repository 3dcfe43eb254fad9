/** drainAll of the client (internal/carrier/client.go) as it runs: under the client mutex from end to end, but
    taking a session's mutex anew for each call, so that writers, receive loops and replies that already hold
    their session go on between any two of its steps. */
module CarrierPolls {
  import opened Bytes
  import opened Frames
  import opened Drains
  import opened CarrierDrain
  import opened Sessions
  import opened SessionTables
  import opened Carrier
  import Tx = SessionTx
  import Runs = SessionRuns

  datatype PackStep =
    | Ready
    | Chosen(s: Session)
    | Drained(s: Session, frames: seq<Frame>)
    | Ended

  /** Every frame was emitted by a session this poll drained. */
  ghost predicate Aired(client: Client, frames: seq<Frame>, drained: seq<SessionID>)
    reads client`sessions, client.sessions.Values`emitted
  {
    forall f <- frames :: f.id in drained && f.id in client.sessions && f in client.sessions[f.id].emitted
  }

  lemma AiredMore(client: Client, frames: seq<Frame>, drained: seq<SessionID>, s: Session, got: seq<Frame>)
    requires Aired(client, frames, drained) && s.id in client.sessions && client.sessions[s.id] == s
    requires forall f <- got :: f.id == s.id && f in s.emitted
    ensures Aired(client, frames + got, drained + [s.id])
  {
  }

  lemma QueueListed(client: Client, refs: seq<SessionID>)
    requires client.IsQueue(refs)
    ensures Distinct(refs) && forall id <- refs :: id in client.sessions
  {
  }

  ghost function EmittedBy(client: Client): map<SessionID, seq<Frame>>
    reads client`sessions, client.sessions.Values`emitted
  {
    map id | id in client.sessions :: client.sessions[id].emitted
  }

  /** One call of drainAll. */
  class Pack {
    const client: Client
    const poll: nat
    const cap: nat
    var order: seq<SessionID>
    var synOnly: bool
    var at: nat
    var frames: seq<Frame>
    var drained: seq<SessionID>
    var remaining: nat
    var step: PackStep
    ghost const was: map<SessionID, seq<Frame>>  // what each registered session had emitted before

    /** These are the frames the sessions emitted since: every session's, all of them, in order. */
    ghost predicate Told(all: seq<Frame>)
      reads client`sessions, client.sessions.Values`emitted
    {
      && was.Keys == client.sessions.Keys
      && forall id <- client.sessions :: client.sessions[id].emitted == was[id] + OfId(all, id)
    }

    ghost function InTransit(): seq<Frame>
      reads this`step
    {
      if step.Drained? then step.frames else []
    }

    /** What was packed so far, and who is held for it. */
    ghost predicate Accounts()
      reads this`frames, this`drained, this`remaining, client`polls, client`sessions, client.sessions.Values`emitted
    {
      && |frames| + remaining == cap && Distinct(drained) && Aired(client, frames, drained)
      && (poll in client.polls <==> drained != []) && Aboard(client.polls, poll) == set id <- drained
    }

    ghost predicate Listed()
      reads this`order, this`at, client`sessions
    {
      at <= |order| && Distinct(order) && forall id <- order :: id in client.sessions
    }

    function InHand(): set<Session>
      reads this`step
    {
      if step.Chosen? || step.Drained? then {step.s} else {}
    }

    /** Between two calls on a session: it is in no other poll; the frames are out of it, and if there were none
        it owes nothing now, or an OnTx call is on its way. */
    ghost predicate Holds()
      reads this, client, InHand()
    {
      && (forall s <- InHand() ::
            at < |order| && order[at] == s.id && s.id in client.sessions && client.sessions[s.id] == s
              && s.id !in client.inFlight)
      && (step.Chosen? ==> remaining > 0) && (step.Ended? ==> at == |order| && !synOnly)
      && (step.Drained? ==>
            && |step.frames| <= remaining && (forall f <- step.frames :: f.id == step.s.id && f in step.s.emitted)
            && (step.frames == [] ==> client.Quiet(step.s)))
    }

    ghost predicate Valid()
      reads this, client, client.sessions.Values`emitted, InHand()
    {
      Accounts() && Listed() && Holds() && Told(frames + InTransit())
    }

    /** Nothing is left to do about this session: it is in flight, the request is full, or it owed nothing at its turn
        and owes nothing now, or an OnTx call is on its way. */
    ghost predicate Settled(id: SessionID)
      requires id in client.sessions
      reads this`remaining, client`inFlight, client`sessions, client`callbacks, client.sessions.Values
    {
      id in client.inFlight || remaining == 0 || client.Quiet(client.sessions[id])
    }

    /** The second pass has settled every session it went past. */
    ghost predicate Passed()
      reads this, client, client.sessions.Values
    {
      !synOnly ==> forall i :: 0 <= i < at && i < |order| && order[i] in client.sessions ==> Settled(order[i])
    }

    ghost function Rank(): nat
      reads this`step, this`order, this`at, this`synOnly
    {
      4 * ((if synOnly then |order| + 1 else 0) + if at <= |order| then |order| - at else 0)
        + match step case Ready => 3 case Chosen(_) => 2 case Drained(_, _) => 1 case Ended => 0
    }

    constructor (client: Client, poll: nat, cap: nat)
      requires poll !in client.polls
      ensures this.client == client && this.poll == poll && this.cap == cap
      ensures Valid() && order == [] && at == 0 && step == Ready && frames == [] && drained == [] && remaining == cap
              && synOnly
      ensures was == EmittedBy(client)
    {
      this.client, this.poll, this.cap := client, poll, cap;
      order, at, frames, drained, remaining, step, synOnly := [], 0, [], [], cap, Ready, true;
      was := EmittedBy(client);
    }

    /** The snapshot by age. */
    method Begin()
      requires client.Valid() && Valid() && step == Ready && at == 0
      modifies this`order, client`txReady
      ensures client.Valid() && Valid() && step == Ready && at == 0
      ensures var queue := order; old(client.IsQueue(queue))
      ensures Lists(order, old(client.txReady) * client.sessions.Keys)
    {
      hide Client.Slots, Exclusive, Pack.Accounts, Pack.Told, Session.Valid;
      var queue := client.ByAge();
      QueueListed(client, queue);
      order := queue;
    }

    /** The head of the closure `drain`: the next session in this pass, unless it is to be skipped. */
    method Choose()
      requires client.Valid() && Valid() && step.Ready?
      modifies this`step, this`at, this`synOnly
      ensures client.Valid() && Valid() && Rank() < old(Rank())
      ensures step.Ended? ==> old(at) == |order| && !old(synOnly)
      ensures step.Chosen? ==> at == old(at) && (synOnly ==> step.s.synNeeded)
      ensures step.Ready? && at > old(at) ==>
                var id := order[old(at)];
                remaining == 0 || id in client.inFlight || (synOnly && !client.sessions[id].synNeeded)
      ensures old(Passed()) ==> Passed()
    {
      hide Client.Valid, Pack.Accounts, Pack.Told, Session.Valid;
      if at == |order| {
        if synOnly {
          synOnly, at := false, 0;
        } else {
          step := Ended;
        }
        return;
      }
      var id := order[at];
      client.SlotAt(id) by { SlotsOf(client); }
      var s := client.sessions[id];
      if remaining == 0 || id in client.inFlight || (synOnly && !s.synNeeded) {
        at := at + 1;
      } else {
        step := Chosen(s);
      }
    }

    /** DrainTxLimited on the session chosen. */
    method DrainChosen(now: nat)
      requires client.Valid() && Valid() && step.Chosen?
      modifies this`step, step.s`txBuf, step.s`txSeq, step.s`synNeeded, step.s`finSent, step.s`finSentAt,
               step.s`firstQueuedAt, step.s`emitted
      ensures client.Valid() && Valid() && Rank() < old(Rank()) && step.Drained? && step.s == old(step).s
      ensures step.s.Valid() && step.s.emitted == old(step.s.emitted) + step.frames
      ensures |step.frames| == Min(Min(remaining, MAX_DRAIN_FRAMES_PER_SESSION), |old(Owes(step.s))|)
      ensures old(Passed()) ==> Passed()
    {
      hide Client.Slots, Exclusive, Session.Valid, Pack.Told, Pack.Accounts, Client.Quiet;
      forall k | k in client.sessions ensures k != step.s.id ==> client.sessions[k] != step.s { client.SlotAt(k); }
      var s := step.s;
      assert frames + [] == frames;
      var got := DrainOne(s, now);
      step := Drained(s, got);
    }

    method DrainOne(s: Session, now: nat) returns (got: seq<Frame>)
      requires client.Valid() && Accounts() && Told(frames) && remaining > 0
      requires s.id in client.sessions && client.sessions[s.id] == s
      modifies s`txBuf, s`txSeq, s`synNeeded, s`finSent, s`finSentAt, s`firstQueuedAt, s`emitted
      ensures client.Valid() && Accounts() && Told(frames + got)
      ensures s.Valid() && s.emitted == old(s.emitted) + got && (got == [] ==> client.Quiet(s))
      ensures |got| == Min(Min(remaining, MAX_DRAIN_FRAMES_PER_SESSION), |old(Owes(s))|)
      ensures forall f <- got :: f.id == s.id
    {
      hide Client.Slots, Exclusive, Session.Valid, Pack.Told, Client.Quiet;
      client.SlotAt(s.id);
      OwnFrames(client, s);
      forall k | k in client.sessions ensures k != s.id ==> client.sessions[k] != s { client.SlotAt(k); }
      ghost var was := s.emitted;
      var perSessionCap := MAX_DRAIN_FRAMES_PER_SESSION;
      if remaining < perSessionCap {
        perSessionCap := remaining;
      }
      got := client.DrainReady(s, perSessionCap, now, Owes(s));
      assert s.emitted[|was|..] == got;
      Grew(s);
      client.SlotAt(s.id);
    }

    twostate lemma Grew(s: Session)
      requires old(Told(frames)) && frames == old(frames) && client.sessions == old(client.sessions)
      requires s.id in client.sessions && client.sessions[s.id] == s
      requires forall k <- client.sessions :: k != s.id ==>
                 client.sessions[k].emitted == old(client.sessions[k].emitted)
      requires old(s.emitted) <= s.emitted && forall f <- s.emitted[|old(s.emitted)|..] :: f.id == s.id
      ensures Told(frames + s.emitted[|old(s.emitted)|..])
    {
      hide OfId;
      OneTold(frames, s.emitted[|old(s.emitted)|..], s.id);
    }

    /** The bookkeeping that follows. */
    method Book()
      requires client.Valid() && Valid() && step.Drained?
      modifies this`at, this`step, this`frames, this`drained, this`remaining, client`txReady, client`inFlight,
               client`polls
      ensures client.Valid() && Valid() && Rank() < old(Rank()) && step.Ready?
      ensures frames == old(frames) + old(step).frames
      ensures drained == if old(step).frames == [] then old(drained) else old(drained) + [old(step).s.id]
      ensures client.polls - {poll} == old(client.polls) - {poll}
      ensures old(Passed()) ==> Passed()
    {
      hide Client.Valid, Client.Quiet, Session.Valid, Aired, Pack.Told, Pack.Passed;
      var s, got := step.s, step.frames;
      assert frames + got == frames + got + [];
      assert got == [] ==> frames + got == frames + [];
      AiredMore(client, frames, drained, s, got);
      NotYet(this, s.id);
      client.Board(s, got, poll);
      at, step := at + 1, Ready;
      if |got| > 0 {
        Add(s.id, got);
      }
      PassedOne();
    }

    twostate lemma PassedOne()
      requires order == old(order) && synOnly == old(synOnly) && old(at) < |order| && at == old(at) + 1
      requires client.sessions == old(client.sessions) && unchanged(client.sessions.Values)
      requires remaining <= old(remaining) && old(client.inFlight) <= client.inFlight
               && client.callbacks == old(client.callbacks)
      requires order[old(at)] in client.sessions ==> Settled(order[old(at)])
      ensures old(Passed()) ==> Passed()
    {
      hide Client.Quiet;
    }

    method Add(id: SessionID, got: seq<Frame>)
      requires |got| <= remaining && |frames| + remaining == cap && id !in drained && Distinct(drained)
      requires Aired(client, frames + got, drained + [id]) && poll in client.polls
      requires client.polls[poll] == (set k <- drained) + {id}
      modifies this`drained, this`frames, this`remaining
      ensures Accounts() && drained == old(drained) + [id] && frames == old(frames) + got
    {
      hide Aired;
      drained := drained + [id];
      frames := frames + got;
      remaining := remaining - |got|;
    }
  }

  /** Frames of one session reach only that session's share. */
  lemma OneTold(frames: seq<Frame>, got: seq<Frame>, own: SessionID)
    requires forall f <- got :: f.id == own
    ensures forall id :: OfId(frames + got, id) == OfId(frames, id) + if id == own then got else []
  {
    forall id ensures OfId(frames + got, id) == OfId(frames, id) + if id == own then got else [] {
      OfIdAppend(frames, got, id);
      OfIdAlike(got, own, id);
    }
  }

  /** A session that is not in flight was not drained by this poll. */
  lemma NotYet(d: Pack, id: SessionID)
    requires d.client.Valid() && d.Accounts() && id !in d.client.inFlight
    ensures id !in d.drained
  {
    hide Client.Slots, Aired;
    assert forall k <- d.drained :: k in Aboard(d.client.polls, d.poll);
  }

  lemma SlotsOf(client: Client)
    requires client.Valid()
    ensures client.Slots()
  {
  }

  lemma OwnFrames(client: Client, s: Session)
    requires client.Slots() && s.id in client.sessions && client.sessions[s.id] == s
    ensures forall f <- Owes(s) :: f.id == s.id
  {
    forall f <- Owes(s) ensures f.id == s.id { client.OwedUnderOwnName(s.id, f); }
  }
}
