/** Everything that runs concurrently in the client (internal/carrier/client.go): polls, replies being
    routed, callers of sessions, receive loops and the collector. A `Reply` is one call of routeRx; it
    takes the client mutex or a session's once a step, so anything may run between its steps. */
module CarrierRouting {
  import opened Bytes
  import opened Frames
  import opened Drains
  import opened CarrierDrain
  import opened SessionStreams
  import RxChannel
  import Rx = SessionRx
  import opened Sessions
  import opened SessionTables
  import opened Carrier
  import opened CarrierPolls

  datatype Step =
    | Looking
    | Handing(s: Session) | Offering(s: Session)
    | Shutting(s: Session) | Closing(s: Session) | Removing(s: Session) | Stopping(s: Session)
    | Finished

  class Reply {
    const client: Client
    const f: Frame
    var step: Step
    ghost var at: Session?   // the session that the frame is for
    ghost var removed: bool  // this call took the session out of the table

    constructor (client: Client, f: Frame)
      ensures this.client == client && this.f == f && step == Looking && at == null && Course()
    {
      this.client, this.f := client, f;
      step, at, removed := Looking, null, false;
    }

    /** A reset tears its session down, any other frame is handed over. */
    ghost predicate Course()
      reads this
    {
      && (step.Looking? ==> at == null) && (!step.Looking? && !step.Finished? ==> at == step.s)
      && (step.Handing? || step.Offering? ==> !f.IsRst())
      && (step.Shutting? || step.Closing? || step.Removing? || step.Stopping? ==> f.IsRst())
      && (at != null && f.IsRst() && (step.Stopping? || step.Finished?) ==> removed)
    }

    ghost function At(): set<Session>
      reads this`at
    {
      if at == null then {} else {at}
    }

    /** No frame is lost on its way: once it is through, it is in the inbox of its session, or that session
        does not receive any more or is stopped. A reset shuts its session, closes it, and stops it. */
    ghost predicate Arrived()
      reads this`step, this`at, At()`arrived, At()`rxClosed, At()`closeReq, At()`stopped
    {
      at != null ==>
        if f.IsRst() then
          && (step.Closing? || step.Removing? || step.Stopping? || step.Finished? ==> at.rxClosed)
          && (step.Removing? || step.Stopping? || step.Finished? ==> at.closeReq)
          && (step.Finished? ==> at.stopped)
        else
          step.Finished? ==> f in at.arrived || at.rxClosed || at.stopped
    }

    /** How a call ends, if there was a session for its frame: the frame is there, or a reset took the session
        out, shut, closed and stopped. */
    ghost predicate Through()
      reads this, At()`arrived, At()`rxClosed, At()`closeReq, At()`stopped
    {
      step.Finished? &&
        (at != null ==>
           && at.opener == client.clientID
           && if f.IsRst() then at.rxClosed && at.closeReq && at.stopped && removed
              else f in at.arrived || at.rxClosed || at.stopped)
    }

    function Held(): set<Session>
      reads this
    {
      if step.Looking? || step.Finished? then {} else {step.s}
    }

    /** The session is held by this client, and its objects are in order. */
    ghost predicate Valid()
      reads this, Held()
    {
      forall s <- Held() :: s.Valid() && s.opener == client.clientID
    }

    method Look()
      requires client.Valid() && step.Looking? && Course()
      modifies this`step, this`at
      ensures Valid() && Held() <= client.sessions.Values && Course() && Arrived() && At() <= Held()
      ensures at == if f.id in client.sessions then client.sessions[f.id] else null
      ensures step == if f.id !in client.sessions then Finished
                      else if f.IsRst() then Shutting(client.sessions[f.id]) else Handing(client.sessions[f.id])
    {
      hide Session.Valid, Exclusive, Client.Slots;
      if f.id !in client.sessions {
        step := Finished;
      } else {
        client.SlotAt(f.id);
        var s := client.sessions[f.id];
        step := if f.IsRst() then Shutting(s) else Handing(s);
        at := s;
      }
    }

    method Remove()
      requires client.Valid() && Valid() && step.Removing? && Course() && Arrived()
      modifies this`step, this`removed, client`sessions, client`txReady
      ensures client.Valid() && Valid() && step == Stopping(old(step).s) && Course() && Arrived()
      ensures client.sessions == Without(old(client.sessions), f.id)
    {
      hide Client.Valid, Session.Valid, Without;
      client.Remove(f.id);
      step, removed := Stopping(step.s), true;
    }

    /** A step that needs no client mutex. */
    ghost predicate Aside()
      reads this`step
    {
      !step.Looking? && !step.Removing? && !step.Finished?
    }

    /** What happened to a session stays. */
    twostate predicate Onwards(s: Session)
      reads s`arrived, s`rxClosed, s`closeReq, s`stopped
    {
      && old(s.arrived) <= s.arrived && (old(s.rxClosed) ==> s.rxClosed)
      && (old(s.closeReq) ==> s.closeReq) && (old(s.stopped) ==> s.stopped)
    }

    /** The two halves of ProcessRx. */
    method HandOver()
      requires client.Valid() && Valid() && (step.Handing? || step.Offering?) && Course()
      modifies this`step, Held()`rxInbox, Held()`arrived, Held()`stopped, Held()`heardFrom
      ensures client.Valid() && Valid() && Held() <= old(Held()) && old(step).s.Valid()
      ensures Course() && Arrived() && Onwards(old(step).s)
      ensures old(step).Handing? ==> step == if old(step.s.rxClosed) then Finished else Offering(old(step).s)
      ensures old(step).Offering? ==>
                step.Finished? && (old(step).s.rxInbox == old(step.s.rxInbox) + [f] ||
                                   (old(step).s.rxInbox == old(step.s.rxInbox) && old(step).s.stopped))
    {
      hide Client.Valid, Session.Valid;
      var s := step.s;
      if step.Handing? {
        var open := client.EnterRx(s);
        step := if open then Offering(s) else Finished;
      } else {
        var _ := client.OfferRx(s, f);
        step := Finished;
      }
    }

    /** The steps of a reset that need no client mutex. */
    method TearDown(now: nat)
      requires client.Valid() && Valid() && (step.Shutting? || step.Closing? || step.Stopping?) && Course() && Arrived()
      modifies this`step, client`callbacks, Held()`rxClosed, Held()`rxChanClosed, Held()`closeReq,
               Held()`firstQueuedAt, Held()`stopped
      ensures client.Valid() && Valid() && Held() <= old(Held()) && old(step).s.Valid()
      ensures old(step).Shutting? ==> old(step).s.rxClosed && step == Closing(old(step).s)
      ensures old(step).Closing? ==> old(step).s.closeReq && step == Removing(old(step).s)
      ensures old(step).Stopping? ==> old(step).s.stopped && step.Finished?
      ensures old(client.callbacks) <= client.callbacks && (old(client.Quiet(step.s)) ==> client.Quiet(old(step).s))
      ensures Course() && Arrived() && Onwards(old(step).s)
    {
      hide Client.Valid, Session.Valid;
      match step
      case Shutting(s) =>
        client.ShutRx(s);
        step := Closing(s);
      case Closing(s) =>
        client.RequestClose(s, now);
        step := Removing(s);
      case Stopping(s) =>
        client.Stop(s);
        step := Finished;
    }

    method StepAside(now: nat)
      requires client.Valid() && Valid() && Aside() && Course() && Arrived()
      modifies this`step, client`callbacks, Held()`rxInbox, Held()`arrived, Held()`stopped, Held()`heardFrom,
               Held()`rxClosed, Held()`rxChanClosed, Held()`closeReq, Held()`firstQueuedAt
      ensures client.Valid() && Valid() && Held() <= old(Held()) && old(step).s.Valid()
      ensures old(client.callbacks) <= client.callbacks && (old(client.Quiet(step.s)) ==> client.Quiet(old(step).s))
      ensures Course() && Arrived() && Onwards(old(step).s)
    {
      hide Client.Valid, Session.Valid;
      if step.Handing? || step.Offering? {
        HandOver();
      } else {
        TearDown(now);
      }
    }

    /** One more step of the call. */
    method Advance(now: nat)
      requires client.Valid() && Valid() && !step.Finished? && Course() && Arrived()
      modifies this`step, this`at, this`removed, client`sessions, client`txReady, client`callbacks
      modifies Held()`rxInbox, Held()`arrived, Held()`stopped, Held()`heardFrom, Held()`rxClosed, Held()`rxChanClosed
      modifies Held()`closeReq, Held()`firstQueuedAt
      ensures client.Valid() && Valid() && forall s <- old(Held()) :: s.Valid() && Onwards(s)
      ensures Held() <= old(Held()) + client.sessions.Values && At() <= old(At()) + Held() && Course() && Arrived()
      ensures at == if !old(step.Looking?) then old(at)
                    else if f.id in client.sessions then client.sessions[f.id] else null
      ensures client.sessions == if old(step).Removing? then Without(old(client.sessions), f.id)
              else old(client.sessions)
    {
      hide Client.Valid, Session.Valid, Without;
      if step.Looking? {
        Look();
      } else if step.Removing? {
        Remove();
      } else {
        StepAside(now);
      }
    }
  }

  type Outstanding = map<nat, seq<SessionID>>

  /** A client, the replies being routed, and every session object ever made. */
  ghost predicate Objects(client: Client, replies: set<Reply>, born: set<Session>)
    reads client, replies, born, client.sessions.Values
  {
    && client.Valid() && client.sessions.Values <= born
    && (forall s <- born :: s.Valid() && s.opener == client.clientID)
    && Landed(replies, born)
    && (forall r <- replies :: r.client == client && r.Held() <= born && r.Course())
  }

  /** No frame is lost on its way. */
  ghost predicate Landed(replies: set<Reply>, born: set<Session>)
    reads replies`step, replies`at, born`arrived, born`rxClosed, born`closeReq, born`stopped
  {
    forall r <- replies :: r.At() <= born && r.Arrived()
  }

  /** What arrived stays arrived, and a session that is shut, closed or stopped stays so; so a step of one call, if
      it is at all the step of one, keeps the frames of the others where they are. */
  twostate lemma LandedOn(was: (set<Reply>, set<Session>), new turned: set<Reply>, new more: set<Session>)
    requires old(Landed(was.0, was.1)) && was.1 <= more
    requires forall r <- turned :: r.At() <= more && r.Arrived()
    requires forall s <- was.1 :: old(s.arrived) <= s.arrived && (old(s.rxClosed) ==> s.rxClosed)
    requires forall s <- was.1 :: (old(s.closeReq) ==> s.closeReq) && (old(s.stopped) ==> s.stopped)
    requires forall q <- was.0 :: q !in turned ==> q.step == old(q.step) && q.at == old(q.at)
    ensures Landed(was.0, more)
  {
    forall q <- was.0 ensures q.At() <= more && q.Arrived() {
      if q !in turned { assert old(q.At() <= was.1 && q.Arrived()); }
    }
  }

  lemma OnItsWay(r: Reply, replies: set<Reply>, born: set<Session>)
    requires Landed(replies, born) && r in replies
    ensures r.Arrived() && r.At() <= born
  {
  }

  /** What each of these polls will release. */
  ghost predicate Books(polls: map<nat, set<SessionID>>, held: Outstanding) {
    held.Keys == polls.Keys && forall p <- held :: polls[p] == (set id <- held[p]) && Distinct(held[p])
  }

  ghost predicate World(client: Client, replies: set<Reply>, born: set<Session>, held: Outstanding)
    reads client, replies, born, client.sessions.Values
  {
    Objects(client, replies, born) && Books(client.polls, held)
  }

  method Turn(client: Client, r: Reply, ghost replies: set<Reply>, ghost born: set<Session>, now: nat)
    requires Objects(client, replies, born) && r in replies && !r.step.Finished?
    modifies client`sessions, client`txReady, client`callbacks, r, born
    ensures Objects(client, replies, born)
    ensures r.at == if !old(r.step.Looking?) then old(r.at)
                    else if r.f.id in client.sessions then client.sessions[r.f.id] else null
  {
    hide Client.Valid, Session.Valid, Without, Landed, Reply.Arrived, Reply.Course;
    assert r.Held() <= born;
    ghost var was := client.sessions;
    OnItsWay(r, replies, born);
    r.Advance(now);
    WithoutValues(was, r.f.id);
    LandedOn((replies, born), {r}, born);
  }

  lemma WithoutValues<V>(m: map<SessionID, V>, id: SessionID)
    ensures Without(m, id).Values <= m.Values && forall k <- Without(m, id) :: k in m && Without(m, id)[k] == m[k]
  {
  }

  // ----- polls -----

  /** What a connection, or a receive loop, does to its session object at any time. */
  method Use(client: Client, s: Session, ghost replies: set<Reply>, ghost born: set<Session>, now: nat)
    requires Objects(client, replies, born) && s in born
    modifies client`callbacks, s`txBuf, s`firstQueuedAt, s`stream, s`closeReq, s`stopped
    modifies s`rxInbox, s`rxSeq, s`rxQueue, s`rxClosed, s`loop, s`have, s`delivered, s`sent, s`panicked, s`rxChan,
             s`rxChanClosed
    ensures Objects(client, replies, born)
    ensures forall t <- born :: (old(client.Quiet(t)) ==> client.Quiet(t)) && (old(t.rxClosed) ==> t.rxClosed)
  {
    hide Client.Valid, Session.Valid, Landed, Reply.Course, RxChannel.Enabled, RxChannel.Next, Session.Side;
    var write: bool, deliver: bool := *, *;
    if deliver {
      var e: RxChannel.Event := *;
      if RxChannel.OfLoop(e) {
        var _ := client.RxTurn(s, e);
      }
    } else if write {
      var data: bytes := *;
      var _ := client.Write(s, data, now);
    } else {
      client.RequestClose(s, now);
    }
    LandedOn((replies, born), {}, born);
  }

  method Hand(client: Client, r: Reply, ghost replies: set<Reply>, ghost born: set<Session>, now: nat)
    requires Objects(client, replies, born) && r in replies && r.Aside()
    modifies client`callbacks, r`step, born`rxInbox, born`arrived, born`stopped, born`heardFrom, born`rxClosed,
             born`rxChanClosed,
             born`closeReq, born`firstQueuedAt
    ensures Objects(client, replies, born)
    ensures forall t <- born :: (old(client.Quiet(t)) ==> client.Quiet(t)) && (old(t.rxClosed) ==> t.rxClosed)
  {
    hide Client.Valid, Session.Valid, Landed, Reply.Arrived, Reply.Course;
    assert r.Held() <= born;
    OnItsWay(r, replies, born);
    r.StepAside(now);
    LandedOn((replies, born), {r}, born);
  }

  /** Any number of such steps. */
  method Stir(client: Client, replies: set<Reply>, born: set<Session>, now: nat)
    requires Objects(client, replies, born)
    modifies client`callbacks, replies`step, born`txBuf, born`firstQueuedAt, born`stream, born`closeReq, born`stopped,
             born`rxInbox, born`rxSeq, born`rxQueue, born`rxClosed, born`loop, born`have, born`delivered, born`sent,
             born`panicked, born`rxChan, born`rxChanClosed, born`heardFrom, born`arrived
    ensures Objects(client, replies, born)
    ensures forall t <- born :: (old(client.Quiet(t)) ==> client.Quiet(t)) && (old(t.rxClosed) ==> t.rxClosed)
  {
    hide Objects, Client.Quiet;
    var n: nat := *;
    while n > 0
      invariant Objects(client, replies, born)
      invariant forall t <- born :: (old(client.Quiet(t)) ==> client.Quiet(t)) && (old(t.rxClosed) ==> t.rxClosed)
    {
      var use: bool := *;
      if use && born != {} {
        var s :| s in born;
        Use(client, s, replies, born, now);
      } else if replies != {} {
        var r :| r in replies;
        var aside: bool := !r.step.Looking? && !r.step.Removing? && !r.step.Finished?;
        if aside {
          Hand(client, r, replies, born, now);
        }
      }
      n := n - 1;
    }
  }

  /** Between two steps of a drain. */
  method StirPoll(client: Client, d: Pack, replies: set<Reply>, born: set<Session>, now: nat)
    requires Objects(client, replies, born) && d.client == client && d.Valid()
    modifies client`callbacks, replies`step, born`txBuf, born`firstQueuedAt, born`stream, born`closeReq, born`stopped,
             born`rxInbox, born`rxSeq, born`rxQueue, born`rxClosed, born`loop, born`have, born`delivered, born`sent,
             born`panicked, born`rxChan, born`rxChanClosed, born`heardFrom, born`arrived
    ensures Objects(client, replies, born) && d.Valid() && (old(d.Passed()) ==> d.Passed())
  {
    hide Objects, Client.Quiet, Pack.Accounts;
    InHandBorn(d, replies, born);
    RegisteredBorn(client, replies, born);
    Stir(client, replies, born, now);
  }

  lemma InHandBorn(d: Pack, replies: set<Reply>, born: set<Session>)
    requires Objects(d.client, replies, born) && d.Valid()
    ensures d.InHand() <= born
  {
    hide Client.Valid;
  }

  method PackTurn(client: Client, d: Pack, ghost replies: set<Reply>, ghost born: set<Session>, now: nat)
    requires Objects(client, replies, born) && d.client == client && d.Valid() && !d.step.Ended?
    modifies d, client`txReady, client`inFlight, client`polls
    modifies born`txBuf, born`txSeq, born`synNeeded, born`finSent, born`finSentAt, born`firstQueuedAt, born`emitted
    ensures Objects(client, replies, born) && d.Valid() && d.Rank() < old(d.Rank())
    ensures client.polls - {d.poll} == old(client.polls) - {d.poll} && (old(d.Passed()) ==> d.Passed())
    ensures d.order == old(d.order)
    ensures forall s <- born :: s !in client.sessions.Values ==> s.emitted == old(s.emitted)
  {
    hide Client.Valid, Session.Valid, Landed, Reply.Course, Pack.Accounts, Pack.Listed, Pack.Passed, Pack.Told;
    InHandBorn(d, replies, born);
    match d.step
    case Ready => d.Choose();
    case Chosen(_) => d.DrainChosen(now);
    case Drained(_, _) => d.Book();
  }

  /** A step of the drain, after any number of the others. */
  method PollTurn(client: Client, d: Pack, replies: set<Reply>, born: set<Session>, held: Outstanding, now: nat)
    requires Objects(client, replies, born) && d.client == client && d.Valid() && !d.step.Ended?
    requires Books(client.polls - {d.poll}, held)
    modifies d, client`txReady, client`inFlight, client`polls, client`callbacks, replies`step, born
    ensures Objects(client, replies, born) && d.Valid() && d.Rank() < old(d.Rank())
    ensures Books(client.polls - {d.poll}, held) && (old(d.Passed()) ==> d.Passed()) && d.order == old(d.order)
    ensures forall s <- born :: s !in client.sessions.Values ==> s.emitted == old(s.emitted)
  {
    hide Objects, Books, Pack.Valid, Pack.Passed;
    StirPoll(client, d, replies, born, now);
    PackTurn(client, d, replies, born, now);
  }

  method Start(client: Client, poll: nat, ghost replies: set<Reply>, ghost born: set<Session>, ghost held: Outstanding)
    returns (d: Pack)
    requires World(client, replies, born, held) && poll !in held
    modifies client`txReady
    ensures World(client, replies, born, held) && fresh(d) && d.Valid()
    ensures d.client == client && d.poll == poll && d.cap == BatchCap(|client.sessions|)
    ensures Books(client.polls - {poll}, held) && d.Passed()
    ensures d.was == EmittedBy(client) && Lists(d.order, old(client.txReady) * client.sessions.Keys)
  {
    hide Objects, Books, Pack.Passed, Pack.Valid, EmittedBy, Lists;
    NotHeld(client, poll, held);
    d := Launch(client, poll, replies, born);
    assert client.polls - {poll} == client.polls;
  }

  lemma NotHeld(client: Client, poll: nat, held: Outstanding)
    requires Books(client.polls, held) && poll !in held
    ensures poll !in client.polls
  {
  }

  method Launch(client: Client, poll: nat, ghost replies: set<Reply>, ghost born: set<Session>) returns (d: Pack)
    requires Objects(client, replies, born) && poll !in client.polls
    modifies client`txReady
    ensures Objects(client, replies, born) && fresh(d) && d.Valid() && d.Passed()
    ensures d.client == client && d.poll == poll && d.cap == BatchCap(|client.sessions|)
    ensures d.was == EmittedBy(client) && Lists(d.order, old(client.txReady) * client.sessions.Keys)
  {
    hide Client.Valid, Session.Valid, Landed, Reply.Course, Pack.Accounts, Pack.Listed, Pack.Told, Pack.Holds,
         Pack.Passed, Client.IsQueue, EmittedBy, Lists;
    d := new Pack(client, poll, BatchCap(|client.sessions|));
    d.Begin();
    FirstPass(d);
  }

  lemma FirstPass(d: Pack)
    requires d.synOnly
    ensures d.Passed()
  {
  }

  /** f was emitted by a session object of this client. */
  ghost predicate Sent(f: Frame, born: set<Session>)
    reads born`emitted
  {
    exists s <- born :: f in s.emitted
  }

  lemma Packaged(client: Client, d: Pack, replies: set<Reply>, born: set<Session>, held: Outstanding)
    requires Objects(client, replies, born) && d.client == client && d.Valid() && Books(client.polls - {d.poll}, held)
    ensures Books(client.polls, if d.drained == [] then held else held[d.poll := d.drained])
    ensures forall f <- d.frames :: f.id in d.drained && Sent(f, born)
    ensures |d.frames| <= d.cap && Distinct(d.drained)
  {
    hide Client.Valid, Session.Valid, Landed, Reply.Course, Pack.Holds;
    if d.drained == [] {
      assert client.polls - {d.poll} == client.polls;
    }
  }

  /** What a finished drain means for every session object: the request holds exactly what it emitted. */
  lemma AllInRequest(client: Client, d: Pack, replies: set<Reply>, born: set<Session>, s: Session)
    requires Objects(client, replies, born) && d.client == client && d.Valid() && d.step.Ended?
    requires s in born && s in client.sessions.Values
    ensures s.id in client.sessions && client.sessions[s.id] == s && s.id in d.was
    ensures s.emitted == d.was[s.id] + OfId(d.frames, s.id)
  {
    hide Session.Valid, OfId;
    var id :| id in client.sessions && client.sessions[id] == s;
    client.SlotAt(id);
    assert d.frames + [] == d.frames;
  }

  lemma AllSettled(client: Client, d: Pack, replies: set<Reply>, born: set<Session>)
    requires Objects(client, replies, born) && d.client == client && d.Valid() && d.Passed() && d.step.Ended?
    ensures forall id <- d.order :: id in client.sessions &&
              (id in client.inFlight || |d.frames| == d.cap || client.Quiet(client.sessions[id]))
  {
    hide Client.Valid, Session.Valid, Landed, Reply.Course, Client.Quiet;
  }

  /** The start of a poll: drainAll, with anything that needs no client mutex between its steps. The request
      keeps its cap, holds frames of the drained sessions only, and no session twice. It holds exactly what
      every session object emitted meanwhile; and unless it is full, every ready session is now in flight, or
      owes nothing that no OnTx call is on its way for. */
  method Begin(client: Client, poll: nat, replies: set<Reply>, born: set<Session>, held: Outstanding, now: nat)
    returns (frames: seq<Frame>, drained: seq<SessionID>, held': Outstanding)
    requires World(client, replies, born, held) && poll !in held
    modifies client`txReady, client`inFlight, client`polls, client`callbacks, replies`step, born
    ensures World(client, replies, born, held') && held' == if drained == [] then held else held[poll := drained]
    ensures |frames| <= old(BatchCap(|client.sessions|)) && Distinct(drained)
    ensures forall f <- frames :: f.id in drained && Sent(f, born)
    ensures forall s <- born :: s.emitted ==
              old(s.emitted) + if s in client.sessions.Values then OfId(frames, s.id) else []
    ensures forall id <- old(client.txReady) :: id in client.sessions ==>
              id in client.inFlight || |frames| == BatchCap(|client.sessions|) || client.Quiet(client.sessions[id])
  {
    hide Objects, Books, OfId, Pack.Valid, Pack.Passed, Client.Quiet, Sent;
    var d := Start(client, poll, replies, born, held);
    RegisteredBorn(client, replies, born);
    ghost var order := d.order;
    while !d.step.Ended?
      invariant Objects(client, replies, born) && d.Valid() && Books(client.polls - {poll}, held) && d.Passed()
      invariant forall s <- born :: s !in client.sessions.Values ==> s.emitted == old(s.emitted)
      invariant d.order == order
      decreases d.Rank()
    {
      PollTurn(client, d, replies, born, held, now);
    }
    Packaged(client, d, replies, born, held);
    AllSettled(client, d, replies, born);
    frames, drained := d.frames, d.drained;
    forall s <- born
      ensures s.emitted == old(s.emitted) + if s in client.sessions.Values then OfId(frames, s.id) else []
    {
      if s in client.sessions.Values { AllInRequest(client, d, replies, born, s); }
    }
    held' := if |drained| == 0 then held else held[poll := drained];
  }

  lemma RegisteredBorn(client: Client, replies: set<Reply>, born: set<Session>)
    requires Objects(client, replies, born)
    ensures client.sessions.Values <= born
  {
  }

  /** HasPendingTx on a session of the poll, if it is still registered, with anything that needs no client mutex
      before and after. */
  method Ask(client: Client, id: SessionID, replies: set<Reply>, born: set<Session>, now: nat) returns (pending: bool)
    requires Objects(client, replies, born)
    modifies client`callbacks, replies`step, born`txBuf, born`firstQueuedAt, born`stream, born`closeReq, born`stopped,
             born`rxInbox, born`rxSeq, born`rxQueue, born`rxClosed, born`loop, born`have, born`delivered, born`sent,
             born`panicked, born`rxChan, born`rxChanClosed, born`heardFrom, born`arrived
    ensures Objects(client, replies, born)
    ensures id in client.sessions ==>
              client.sessions[id].id == id && client.sessions[id] in born
                && (!pending ==> client.Quiet(client.sessions[id]))
  {
    hide Objects;
    Stir(client, replies, born, now);
    pending := false;
    if id in client.sessions {
      RegisteredAt(client, id, replies, born);
      pending := client.sessions[id].HasPendingTx();
    }
    Stir(client, replies, born, now);
  }

  lemma RegisteredAt(client: Client, id: SessionID, replies: set<Reply>, born: set<Session>)
    requires Objects(client, replies, born) && id in client.sessions
    ensures client.sessions[id] in born && client.sessions[id].id == id
  {
    hide Session.Valid;
    client.SlotAt(id);
  }

  method LandOne(client: Client, poll: nat, id: SessionID, pending: bool, ghost replies: set<Reply>,
        ghost born: set<Session>)
    requires Objects(client, replies, born) && poll in client.polls && id in client.polls[poll]
    requires id in client.sessions && !pending ==>
               client.sessions[id].id == id && client.Quiet(client.sessions[id])
    modifies client`inFlight, client`txReady, client`polls
    ensures Objects(client, replies, born)
    ensures client.polls == old(client.polls)[poll := old(client.polls)[poll] - {id}]
    ensures id in client.sessions && pending ==> id in client.txReady
  {
    hide Client.Valid, Session.Valid, Landed, Reply.Course;
    client.LandFrom(poll, id, pending);
  }

  /** releaseInFlight, at the end of a poll, whatever became of its request: session by session, with anything
      that needs no client mutex in between. */
  method End(client: Client, poll: nat, replies: set<Reply>, born: set<Session>, held: Outstanding, now: nat)
    returns (held': Outstanding)
    requires World(client, replies, born, held) && poll in held
    modifies client`inFlight, client`txReady, client`polls, client`callbacks, replies`step, born
    ensures World(client, replies, born, held') && held' == held - {poll}
  {
    hide Objects;
    var ids := held[poll];
    ghost var polls := client.polls;
    assert ids[0..] == ids;
    for i := 0 to |ids|
      invariant Objects(client, replies, born) && poll in client.polls
      invariant client.polls == polls[poll := set id <- ids[i..]]
    {
      var pending := Ask(client, ids[i], replies, born, now);
      OneLess(ids, i);
      LandOne(client, poll, ids[i], pending, replies, born);
    }
    assert ids[|ids|..] == [];
    Over(client, poll, replies, born);
    held' := held - {poll};
  }

  lemma OneLess(ids: seq<SessionID>, i: nat)
    requires i < |ids| && Distinct(ids)
    ensures var here, rest := ids[i..], ids[i + 1..]; ids[i] in here && (set id <- here) - {ids[i]} == set id <- rest
  {
    assert ids[i..] == [ids[i]] + ids[i + 1..];
  }

  method Over(client: Client, poll: nat, ghost replies: set<Reply>, ghost born: set<Session>)
    requires Objects(client, replies, born) && poll in client.polls && client.polls[poll] == {}
    modifies client`polls
    ensures Objects(client, replies, born) && client.polls == old(client.polls) - {poll}
  {
    hide Client.Valid, Session.Valid, Landed, Reply.Course;
    client.Close(poll);
  }

  // ----- everything else -----

  /** A new tunnelled connection. */
  method Dial(client: Client, id: SessionID, target: bytes, ghost replies: set<Reply>, born: set<Session>, now: nat)
    returns (born': set<Session>)
    requires Objects(client, replies, born)
    modifies client`sessions, client`txReady
    ensures Objects(client, replies, born') && born <= born' && fresh(born' - born)
  {
    hide Client.Valid, Session.Valid;
    var s := client.NewSession(id, target, now);
    born' := born + {s};
    client.SlotAt(id) by { SlotsOf(client); }
    assert client.sessions[id] == s;
    assert client.sessions.Values <= old(client.sessions.Values) + {s};
  }

  method Callback(client: Client, id: SessionID, ghost replies: set<Reply>, ghost born: set<Session>)
    requires Objects(client, replies, born) && id in client.callbacks
    modifies client`txReady, client`callbacks
    ensures Objects(client, replies, born)
  {
    hide Client.Valid, Session.Valid, Landed, Reply.Course;
    client.OnTx(id);
  }

  /** IsDone on one session, with anything that needs no client mutex before and after. */
  method AskDone(client: Client, id: SessionID, replies: set<Reply>, born: set<Session>, now: nat)
    returns (s: Session, done: bool)
    requires Objects(client, replies, born) && id in client.sessions
    modifies client`callbacks, replies`step, born`txBuf, born`firstQueuedAt, born`stream, born`closeReq, born`stopped,
             born`rxInbox, born`rxSeq, born`rxQueue, born`rxClosed, born`loop, born`have, born`delivered, born`sent,
             born`panicked, born`rxChan, born`rxChanClosed, born`heardFrom, born`arrived
    ensures Objects(client, replies, born) && s == client.sessions[id] && s.id == id && s in born
    ensures if done then DoneAt(s, now) else !old(DoneAt(client.sessions[id], now))
    ensures StillDone(born, now)
  {
    hide Objects;
    RegisteredAt(client, id, replies, born);
    Stir(client, replies, born, now);
    s := client.sessions[id];
    done := s.IsDone(now);
    Stir(client, replies, born, now);
  }

  method Discard(client: Client, s: Session, ghost replies: set<Reply>, ghost born: set<Session>)
    requires Objects(client, replies, born) && s.id in client.sessions && client.sessions[s.id] == s && s.finSent
             && s in born
    modifies client`sessions, client`txReady, s`stopped
    ensures Objects(client, replies, born) && client.sessions == Without(old(client.sessions), s.id)
    ensures Payloads(s.emitted) == s.stream
  {
    hide Client.Valid, Session.Valid, Landed, Reply.Course, Without;
    WithoutValues(client.sessions, s.id);
    client.Drop(s);
    LandedOn((replies, born), {}, born);
  }

  /** A session is asked, and removed if it was done. */
  method CollectOne(client: Client, id: SessionID, replies: set<Reply>, born: set<Session>, now: nat)
    returns (done: bool)
    requires Objects(client, replies, born) && id in client.sessions
    modifies client`sessions, client`txReady, client`callbacks, replies`step, born`txBuf, born`firstQueuedAt,
             born`stream, born`closeReq, born`stopped, born`rxInbox, born`rxSeq, born`rxQueue, born`rxClosed,
             born`loop, born`have, born`delivered, born`sent, born`panicked, born`rxChan, born`rxChanClosed,
             born`heardFrom, born`arrived
    ensures Objects(client, replies, born)
    ensures client.sessions == if done then Without(old(client.sessions), id) else old(client.sessions)
    ensures if done then DoneAt(old(client.sessions[id]), now) else !old(DoneAt(client.sessions[id], now))
    ensures StillDone(born, now)
  {
    hide Objects;
    var s;
    s, done := AskDone(client, id, replies, born, now);
    if done {
      Discard(client, s, replies, born);
    }
  }

  /** gcDoneSessions, session by session, with anything that needs no client mutex in between. */
  method Collect(client: Client, replies: set<Reply>, born: set<Session>, now: nat)
    requires Objects(client, replies, born)
    modifies client`sessions, client`txReady, client`callbacks, replies`step, born`txBuf, born`firstQueuedAt,
             born`stream, born`closeReq, born`stopped, born`rxInbox, born`rxSeq, born`rxQueue, born`rxClosed,
             born`loop, born`have, born`delivered, born`sent, born`panicked, born`rxChan, born`rxChanClosed,
             born`heardFrom, born`arrived
    ensures Objects(client, replies, born) && client.sessions.Keys <= old(client.sessions.Keys)
    ensures forall id <- old(client.sessions.Keys) - client.sessions.Keys :: Complete(old(client.sessions)[id], now)
    ensures forall id <- old(client.sessions) :: old(DoneAt(client.sessions[id], now)) ==> id !in client.sessions
  {
    hide Objects, DoneAt, Complete;
    var todo := client.sessions.Keys;
    ghost var all := client.sessions;
    RegisteredBorn(client, replies, born);
    assert forall id <- all :: all[id] in born;
    while todo != {}
      invariant Objects(client, replies, born) && todo <= client.sessions.Keys <= all.Keys
      invariant forall id <- client.sessions :: client.sessions[id] == all[id]
      invariant forall id <- all.Keys - client.sessions.Keys :: DoneAt(all[id], now)
      invariant forall id <- all :: old(DoneAt(all[id], now)) ==> DoneAt(all[id], now)
      invariant forall id <- all :: old(DoneAt(all[id], now)) && id in client.sessions ==> id in todo
      decreases todo
    {
      var id :| id in todo;
      ghost var table := client.sessions;
      var done := CollectOne(client, id, replies, born, now);
      if done { WithoutValues(table, id); }
      todo := todo - {id};
    }
    OverOnceDone(client, replies, born, now);
  }

  lemma OverOnceDone(client: Client, replies: set<Reply>, born: set<Session>, now: nat)
    requires Objects(client, replies, born)
    ensures forall s <- born :: DoneAt(s, now) ==> Complete(s, now)
  {
    hide Client.Valid, Session.Valid;
    forall s <- born | DoneAt(s, now) ensures Complete(s, now) { FinEmittedAll(s); }
  }

  /** One step of anything; a drain runs to its end, stirred by steps that need no client mutex. */
  method Act(client: Client, replies: set<Reply>, born0: set<Session>, held0: Outstanding, next: nat, now: nat)
    returns (born: set<Session>, held: Outstanding)
    requires World(client, replies, born0, held0) && next !in held0
    modifies client, replies, born0
    ensures World(client, replies, born, held) && born0 <= born && fresh(born - born0)
            && held.Keys <= held0.Keys + {next}
  {
    hide Objects, Books;
    born, held := born0, held0;
    var kind: nat := *;
    if kind == 0 && replies != {} {
      var r :| r in replies;
      if !r.step.Finished? {
        Turn(client, r, replies, born, now);
      }
    } else if kind == 1 {
      var frames, drained;
      frames, drained, held := Begin(client, next, replies, born, held, now);
    } else if kind == 2 && held != map[] {
      var p :| p in held;
      held := End(client, p, replies, born, held, now);
    } else if kind == 3 {
      var id: SessionID, target: bytes := *, *;
      born := Dial(client, id, target, replies, born, now);
    } else if kind == 4 && born != {} {
      var s :| s in born;
      Use(client, s, replies, born, now);
    } else if kind == 5 {
      Collect(client, replies, born, now);
    } else if client.callbacks != multiset{} {
      var id :| id in client.callbacks;
      Callback(client, id, replies, born);
    }
  }

  /** Every interleaving of polls, replies, connections, receive loops, callbacks and collections keeps
      the client in order: in every reachable state no registered session that owes a frame is stranded, the
      outstanding polls share no session, and every reply that is through saw its frame to its session, or tore
      that session down. */
  method AnyRun(client: Client, replies: set<Reply>, now: nat) returns (born: set<Session>, held: Outstanding)
    requires client.Valid() && client.polls == map[]
    requires forall r <- replies :: r.client == client && r.step.Looking? && r.at == null
    modifies client, replies, client.sessions.Values
    ensures client.Valid() && client.sessions.Values <= born && Books(client.polls, held)
    ensures (forall s <- born :: s.Valid()) && forall r <- replies :: r.step.Finished? ==> r.Through()
  {
    hide World, Books;
    born, held := client.sessions.Values, map[];
    StartWorld(client, replies);
    var n: nat, time: nat, pass: nat, next: nat := *, now, *, 0;
    while n > 0
      invariant World(client, replies, born, held) && (forall p <- held :: p < next)
      invariant forall s <- born :: s in old(client.sessions.Values) || fresh(s)
    {
      time := time + pass;
      pass := *;
      born, held := Act(client, replies, born, held, next, time);
      next := next + 1;
      n := n - 1;
    }
    Unfold(client, replies, born, held);
  }

  lemma StartWorld(client: Client, replies: set<Reply>)
    requires client.Valid() && client.polls == map[]
    requires forall r <- replies :: r.client == client && r.step.Looking? && r.at == null
    ensures World(client, replies, client.sessions.Values, map[])
  {
    hide Client.Valid, Session.Valid;
    forall s <- client.sessions.Values ensures s.Valid() && s.opener == client.clientID { client.RegisteredValid(s); }
  }

  lemma Unfold(client: Client, replies: set<Reply>, born: set<Session>, held: Outstanding)
    requires World(client, replies, born, held)
    ensures client.Valid() && client.sessions.Values <= born && Books(client.polls, held)
    ensures (forall s <- born :: s.Valid()) && forall r <- replies :: r.step.Finished? ==> r.Through()
  {
    hide Client.Valid, Session.Valid;
    forall r <- replies | r.step.Finished? ensures r.Through() { OnItsWay(r, replies, born); }
  }

  /** If a client's sessions under an identifier are one object, then whatever frames of it came out of polls are
      reassembled on the server to a prefix of that session's stream. `Sent` is what `Begin` promises of every
      frame of a request. */
  lemma DialledOnce(client: Client, replies: set<Reply>, born: set<Session>, held: Outstanding, id: SessionID,
        fs: seq<Frame>)
    requires World(client, replies, born, held)
    requires forall s, t :: s in born && t in born && s.id == t.id == id ==> s == t
    requires forall f <- fs :: f.id == id && Sent(f, born)
    ensures var got := Rx.TakeAll(Rx.NEW_RECEIVER, fs).delivered;
            got == [] || exists s <- born :: s.id == id && got <= s.stream
  {
    hide Client.Valid, Session.Valid, Rx.TakeAll;
    OneObject(born, id, fs);
  }
}
