/** Every interleaving on the server: routing calls of any clients, polls step by step, collections, idle
    sweeps, upstream pumps, receive loops and OnTx calls. */
module ExitWorlds {
  import opened Bytes
  import opened Frames
  import opened Drains
  import opened ExitDrain
  import RxChannel
  import opened Sessions
  import opened SessionTables
  import opened ExitServer
  import opened ExitPolls
  import opened ExitLedgers
  import opened ExitRouting

  /** If a call registered a session, it is its client's for as long as it was not lost since. */
  ghost predicate Standing(accepted: bool, mark: nat, id: SessionID, owner: ClientID,
                           owners: map<SessionID, ClientID>, losses: multiset<SessionID>)
  {
    accepted ==> mark <= losses[id] && (mark == losses[id] ==> id in owners && owners[id] == owner)
  }

  ghost predicate Backed(r: Route, owners: map<SessionID, ClientID>, losses: multiset<SessionID>)
    reads r`accepted, r`mark
  {
    Standing(r.accepted, r.mark, r.f.id, r.owner, owners, losses)
  }

  lemma BackedOn(r: Route, owners: map<SessionID, ClientID>, losses: multiset<SessionID>,
                 owners': map<SessionID, ClientID>, losses': multiset<SessionID>)
    requires Backed(r, owners, losses) && Keeps(owners, losses, owners', losses')
    ensures Backed(r, owners', losses')
  {
  }

  lemma BackedNow(r: Route, accepted: bool, mark: nat, keys: set<SessionID>, owners: map<SessionID, ClientID>,
        losses: multiset<SessionID>)
    requires Standing(accepted, mark, r.f.id, r.owner, owners, losses) && r.Onward(keys, owners, accepted, mark)
    requires Keeps(owners, losses, r.server.sessionOwners, r.server.losses)
    ensures Backed(r, r.server.sessionOwners, r.server.losses) && (accepted ==> r.accepted && r.mark == mark)
  {
  }

  /** The frame of a call in progress is on its way to an object its own client opened. */
  ghost predicate Underway(server: Server, r: Route, born: set<Session>)
    reads r, server`sessionOwners, server`losses
  {
    && r.server == server && r.Course() && Backed(r, server.sessionOwners, server.losses)
    && (Holding(r.step) ==> r.step.sess in born && r.step.sess.opener == r.owner)
  }

  /** A session object, registered or not, is valid and only ever heard from the client that opened it. */
  ghost predicate Sound(s: Session)
    reads s
  {
    s.Valid() && s.heardFrom <= {s.opener}
  }

  /** No frame is lost on its way. */
  ghost predicate Landed(routes: set<Route>, born: set<Session>)
    reads routes`step, routes`at, born`arrived, born`rxClosed, born`stopped
  {
    forall r <- routes :: r.At() <= born && r.Arrived()
  }

  /** What arrived stays arrived, what is closed stays closed, and what is stopped stays stopped; so a step of
      one call, if it is at all the step of one, keeps the frames of the others where they are. */
  twostate lemma LandedOn(was: (set<Route>, set<Session>), new turned: set<Route>, new more: set<Session>)
    requires old(Landed(was.0, was.1)) && was.1 <= more
    requires forall r <- turned :: r.At() <= more && r.Arrived()
    requires forall s <- was.1 :: old(s.arrived) <= s.arrived
    requires forall s <- was.1 :: old(s.rxClosed) ==> s.rxClosed
    requires forall s <- was.1 :: old(s.stopped) ==> s.stopped
    requires forall q <- was.0 :: q !in turned ==> q.step == old(q.step) && q.at == old(q.at)
    ensures Landed(was.0, more)
  {
    forall q <- was.0 ensures q.At() <= more && q.Arrived() {
      if q !in turned { assert old(q.At() <= was.1 && q.Arrived()); }
    }
  }

  lemma OnItsWay(r: Route, routes: set<Route>, born: set<Session>)
    requires Landed(routes, born) && r in routes
    ensures r.Arrived() && r.At() <= born
  {
  }

  /** A server, the routing calls begun or to come, and every session object ever made. */
  ghost predicate World(server: Server, routes: set<Route>, born: set<Session>)
    reads server, routes, born, server.sessions.Values
  {
    && server.Valid() && server.sessions.Values <= born
    && (forall s <- born :: Sound(s))
    && Landed(routes, born)
    && (forall r <- routes :: Underway(server, r, born))
  }

  /** What later moments are compared with. */
  datatype Moment = Moment(owners: map<SessionID, ClientID>, losses: multiset<SessionID>,
      emitted: map<Session, seq<Frame>>)

  ghost function Now(server: Server, born: set<Session>): Moment
    reads server`sessionOwners, server`losses, born`emitted
  {
    Moment(server.sessionOwners, server.losses, map s | s in born :: s.emitted)
  }

  /** Sessions stay registered to their clients unless they are lost, and what was emitted stays emitted. */
  ghost predicate Later(a: Moment, b: Moment) {
    && Keeps(a.owners, a.losses, b.owners, b.losses)
    && (forall s <- a.emitted :: s in b.emitted && a.emitted[s] <= b.emitted[s])
  }

  lemma LaterOn(a: Moment, b: Moment, c: Moment)
    requires Later(a, b) && Later(b, c)
    ensures Later(a, c)
  {
    KeepsOn(a.owners, a.losses, b.owners, b.losses, c.owners, c.losses);
  }

  lemma LaterSame(a: Moment)
    ensures Later(a, a)
  {
  }

  // ----- routing calls -----

  lemma AtTurn(server: Server, r: Route, routes: set<Route>, born: set<Session>)
    requires World(server, routes, born) && r in routes
    ensures server.Valid() && r.server == server && r.Valid() && r.Arrived() && r.At() <= born && Landed(routes, born)
    ensures r.Held() + server.sessions.Values <= born && forall s <- r.Held() :: s.opener == r.owner
    ensures forall s <- born :: Sound(s)
    ensures Standing(r.accepted, r.mark, r.f.id, r.owner, server.sessionOwners, server.losses)
  {
    hide Server.Valid, Session.Valid, Route.Course, Standing;
  }

  /** What one step of a call does to the sessions it knows. */
  twostate predicate Stepped(was: (Route, set<Session>))
    reads was.0, was.0.server, was.0.server.sessions.Values, was.1, was.0.Held(), was.0.At()
  {
    var (r, held) := was;
    && r.server.Valid() && r.Valid() && r.Arrived() && r.At() <= old(r.At()) + r.Held()
    && (forall s <- held :: s.Valid() && s.heardFrom <= old(s.heardFrom) + {r.owner} && r.Onwards(s))
    && (forall s <- r.Held() + r.server.sessions.Values ::
          s in old(r.server.sessions.Values) + held || (fresh(s) && Unheard(s)))
    && r.Onward(old(r.server.sessions.Keys), old(r.server.sessionOwners), old(r.accepted), old(r.mark))
    && Keeps(old(r.server.sessionOwners), old(r.server.losses), r.server.sessionOwners, r.server.losses)
  }

  /** With everything else left alone, it keeps the world. */
  twostate lemma Turned(was: (Server, Route, set<Route>, set<Session>), new more: set<Session>)
    requires old(World(was.0, was.2, was.3)) && was.1 in was.2 && Stepped((was.1, old(was.1.Held())))
    requires more == was.3 + was.1.Held() + was.0.sessions.Values
    requires forall q <- was.2 :: q != was.1 ==> unchanged(q)
    requires forall s <- was.3 :: s !in old(was.1.Held()) ==> unchanged(s)
    requires forall s <- was.3 :: s.emitted == old(s.emitted) && s.rxClosed == old(s.rxClosed)
    ensures World(was.0, was.2, more) && Later(old(Now(was.0, was.3)), Now(was.0, more))
    ensures forall s <- more :: s in was.3 || (fresh(s) && s.emitted == [])
  {
    hide Server.Valid, Session.Valid, Route.Course, Route.Onward, Standing, Keeps, Route.Arrived;
    var (server, r, routes, born) := was;
    assert old(r.At() <= born);
    assert old(Underway(server, r, born));
    BackedNow(r, old(r.accepted), old(r.mark), old(server.sessions.Keys), old(server.sessionOwners),
        old(server.losses));
    LandedOn((routes, born), {r}, more);
    assert old(r.Held() + server.sessions.Values <= born && forall s <- r.Held() :: s.opener == r.owner);
    forall s <- more ensures Sound(s) && (s in born || (fresh(s) && s.emitted == [])) {
      if s in born {
        assert old(Sound(s));
      } else {
        assert s in r.Held() + server.sessions.Values && Unheard(s);
      }
    }
    forall q <- routes ensures Underway(server, q, more) {
      assert old(Underway(server, q, born));
      if q != r {
        BackedOn(q, old(server.sessionOwners), old(server.losses), server.sessionOwners, server.losses);
      }
    }
  }

  method Turn(server: Server, r: Route, ghost routes: set<Route>, born: set<Session>, now: nat)
      returns (born': set<Session>)
    requires World(server, routes, born) && r in routes && !r.step.Finished?
    modifies server, r, born`rxInbox, born`stopped, born`heardFrom, born`arrived
    ensures World(server, routes, born') && born <= born' && fresh(born' - born) && Rank(r.step) < Rank(old(r.step))
    ensures Later(old(Now(server, born)), Now(server, born'))
    ensures (forall s <- born' :: s in born || s.emitted == []) && r.server == server && r.Did(now)
  {
    hide World, Later, Route.Did, Rank, Server.Valid, Session.Valid, Keeps, Route.Course, Landed, Route.Onward,
         Standing, Unheard, Now;
    AtTurn(server, r, routes, born);
    r.Advance(now);
    born' := born + r.Held() + server.sessions.Values;
    Turned((server, r, routes, born), born');
  }

  // ----- what goes on with no need of the server mutex -----

  method PumpUpstream(server: Server, s: Session, ghost routes: set<Route>, ghost born: set<Session>, now: nat)
    requires World(server, routes, born) && s in born
    modifies server`callbacks, s`txBuf, s`firstQueuedAt, s`stream, s`closeReq, s`stopped
    ensures World(server, routes, born) && (old(s.stopped) ==> s.stopped)
    ensures forall t <- born :: old(server.Quiet(t)) ==> server.Quiet(t)
  {
    hide Server.Valid, Session.Valid, Route.Course, Landed, Keeps, Standing;
    var read: bool := *;
    if read {
      var data: bytes := *;
      var _ := server.UpstreamRead(s, data, now);
    } else {
      server.UpstreamEnd(s, now);
    }
    LandedOn((routes, born), {}, born);
  }

  method PumpDown(server: Server, s: Session, ghost routes: set<Route>, ghost born: set<Session>)
    requires World(server, routes, born) && s in born
    modifies s`rxInbox, s`rxSeq, s`rxQueue, s`rxClosed, s`loop, s`have, s`delivered, s`sent, s`panicked, s`rxChan,
             s`rxChanClosed, s`stopped
    ensures World(server, routes, born) && (old(s.rxClosed) ==> s.rxClosed) && (old(s.stopped) ==> s.stopped)
  {
    hide Server.Valid, Session.Valid, Route.Course, Landed, Keeps, Standing, RxChannel.Enabled, RxChannel.Next,
         Session.Side;
    var e: RxChannel.Event := *;
    if RxChannel.OfLoop(e) {
      var _ := server.RxTurn(s, e);
    } else {
      server.ForceClose(s);
    }
    LandedOn((routes, born), {}, born);
  }

  /** The upstream pump, the receive loop, or a forced close, on any session object ever made. */
  method Pump(server: Server, s: Session, ghost routes: set<Route>, ghost born: set<Session>, now: nat)
    requires World(server, routes, born) && s in born
    modifies server`callbacks, s`txBuf, s`firstQueuedAt, s`stream, s`closeReq, s`stopped
    modifies s`rxInbox, s`rxSeq, s`rxQueue, s`rxClosed, s`loop, s`have, s`delivered, s`sent, s`panicked, s`rxChan,
             s`rxChanClosed
    ensures World(server, routes, born)
    ensures forall t <- born :: old(server.Quiet(t)) ==> server.Quiet(t)
    ensures forall t <- born :: (old(t.rxClosed) ==> t.rxClosed) && (old(t.stopped) ==> t.stopped)
  {
    hide World;
    var down: bool := *;
    if down {
      PumpDown(server, s, routes, born);
    } else {
      PumpUpstream(server, s, routes, born, now);
    }
  }

  /** The two halves of ProcessRx, in a call that already holds its session. */
  method HandOn(server: Server, r: Route, ghost routes: set<Route>, ghost born: set<Session>, ghost now: nat)
    requires World(server, routes, born) && r in routes && (r.step.Delivering? || r.step.Offering?)
    modifies r`step, born`rxInbox, born`stopped, born`heardFrom, born`arrived
    ensures World(server, routes, born) && forall t <- born :: old(t.stopped) ==> t.stopped
  {
    hide Server.Valid, Session.Valid, Route.Course, Keeps, Standing, Landed;
    OnItsWay(r, routes, born);
    r.HandOver(now);
    LandedOn((routes, born), {r}, born);
  }

  /** Any number of such steps. */
  method Stir(server: Server, movers: set<Route>, ghost routes: set<Route>, born: set<Session>, now: nat)
    requires World(server, routes, born) && movers <= routes
    modifies server`callbacks, movers`step, born`txBuf, born`firstQueuedAt, born`stream, born`closeReq, born`stopped,
             born`rxInbox, born`rxSeq, born`rxQueue, born`rxClosed, born`loop, born`have, born`delivered, born`sent,
             born`panicked, born`rxChan, born`rxChanClosed, born`heardFrom, born`arrived
    ensures World(server, routes, born)
    ensures forall t <- born :: old(server.Quiet(t)) ==> server.Quiet(t)
    ensures forall t <- born :: (old(t.rxClosed) ==> t.rxClosed) && (old(t.stopped) ==> t.stopped)
  {
    hide World, Server.Quiet;
    var n: nat := *;
    while n > 0
      invariant World(server, routes, born)
      invariant forall t <- born :: old(server.Quiet(t)) ==> server.Quiet(t)
      invariant forall t <- born :: (old(t.rxClosed) ==> t.rxClosed) && (old(t.stopped) ==> t.stopped)
    {
      var pump: bool := *;
      if pump && born != {} {
        var s :| s in born;
        Pump(server, s, routes, born, now);
      } else if movers != {} {
        var r :| r in movers;
        if r.step.Delivering? || r.step.Offering? {
          HandOn(server, r, routes, born, now);
        }
      }
      n := n - 1;
    }
  }

  /** Between two steps of a drain. */
  method StirPoll(server: Server, d: Drain, movers: set<Route>, ghost routes: set<Route>, born: set<Session>, now: nat)
    requires World(server, routes, born) && movers <= routes && d.server == server && d.Valid()
    modifies server`callbacks, movers`step, born`txBuf, born`firstQueuedAt, born`stream, born`closeReq, born`stopped,
             born`rxInbox, born`rxSeq, born`rxQueue, born`rxClosed, born`loop, born`have, born`delivered, born`sent,
             born`panicked, born`rxChan, born`rxChanClosed, born`heardFrom, born`arrived
    ensures World(server, routes, born) && d.Valid() && (old(d.Passed()) ==> d.Passed())
  {
    hide World, Server.Quiet, Drain.Accounts, Drain.Told;
    InHandBorn(d, routes, born);
    Stir(server, movers, routes, born, now);
  }

  lemma InHandBorn(d: Drain, routes: set<Route>, born: set<Session>)
    requires World(d.server, routes, born) && d.Valid()
    ensures d.step.Drained? || d.step.Checked? ==> d.step.s in born
    ensures d.server.sessions.Values <= born
  {
    hide Server.Valid;
  }

  // ----- polls -----

  /** f was emitted by a session object that this client opened. */
  ghost predicate FromClient(f: Frame, owner: ClientID, born: set<Session>)
    reads born`emitted
  {
    exists s <- born :: s.opener == owner && f in s.emitted
  }

  /** What does not change from step to step of a drain. */
  ghost predicate SameList(d: Drain, refs: seq<SessionID>, queued: seq<Frame>)
    reads d`refs, d`queued
  {
    d.refs == refs && d.queued == queued
  }

  method Next(server: Server, d: Drain, ghost routes: set<Route>, ghost born: set<Session>, now: nat)
    requires World(server, routes, born) && d.server == server && d.Valid() && d.step.Ready?
    modifies d`step
    modifies born`txBuf, born`txSeq, born`synNeeded, born`finSent, born`finSentAt, born`firstQueuedAt, born`emitted
    ensures World(server, routes, born) && d.Valid() && d.Rank() < old(d.Rank()) && (old(d.Passed()) ==> d.Passed())
    ensures Later(old(Now(server, born)), Now(server, born))
    ensures d.step.Ended? ==> d.at == |d.refs| || d.remaining == 0 || d.left <= 0
    ensures forall s <- born :: s !in server.sessions.Values ==> s.emitted == old(s.emitted)
  {
    hide Server.Valid, Session.Valid, Route.Course, Landed, Standing, Drain.Valid, Drain.Passed, Owes;
    KeepsAll(server.sessionOwners, server.losses);
    d.DrainNext(now);
    forall s <- born ensures Sound(s) {
      if s in server.sessions.Values { server.RegisteredValid(s); }
    }
  }

  method DrainTurn(server: Server, d: Drain, ghost routes: set<Route>, ghost born: set<Session>, now: nat)
    requires World(server, routes, born) && d.server == server && d.Valid() && !d.step.Ended?
    modifies d, server`txReady, server`firstReply, server`lastActivity
    modifies born`txBuf, born`txSeq, born`synNeeded, born`finSent, born`finSentAt, born`firstQueuedAt, born`emitted
    ensures World(server, routes, born) && d.Valid() && d.Rank() < old(d.Rank()) && (old(d.Passed()) ==> d.Passed())
    ensures Later(old(Now(server, born)), Now(server, born)) && SameList(d, old(d.refs), old(d.queued))
    ensures d.given != old(d.given) ==> d.budget > 0
    ensures d.step.Ended? ==> d.at == |d.refs| || d.remaining == 0 || d.left <= 0
    ensures forall s <- born :: s !in server.sessions.Values ==> s.emitted == old(s.emitted)
  {
    hide Server.Valid, Session.Valid, Route.Course, Landed, Standing, Drain.Accounts, Drain.Listed, Drain.Told,
         Drain.Passed;
    KeepsAll(server.sessionOwners, server.losses);
    match d.step
    case Ready => Next(server, d, routes, born, now);
    case Drained(_, _) => d.Check();
    case Checked(_, _, _) =>
      WithBudget(d);
      d.Book(now);
  }

  lemma WithBudget(d: Drain)
    requires d.Valid() && d.step.Checked?
    ensures d.budget > 0
  {
  }

  /** A step of the drain, after any number of the others. */
  method PollTurn(server: Server, d: Drain, movers: set<Route>, ghost routes: set<Route>, born: set<Session>, now: nat)
    requires World(server, routes, born) && movers <= routes && d.server == server && d.Valid() && !d.step.Ended?
    modifies d, server`txReady, server`firstReply, server`lastActivity, server`callbacks, movers`step, born
    ensures World(server, routes, born) && d.Valid() && d.Rank() < old(d.Rank()) && (old(d.Passed()) ==> d.Passed())
    ensures Later(old(Now(server, born)), Now(server, born)) && SameList(d, old(d.refs), old(d.queued))
    ensures d.given != old(d.given) ==> d.budget > 0
    ensures d.step.Ended? ==> d.at == |d.refs| || d.remaining == 0 || d.left <= 0
    ensures forall s <- born :: s !in server.sessions.Values ==> s.emitted == old(s.emitted)
  {
    hide World, Later, Drain.Valid, Drain.Passed;
    StirPoll(server, d, movers, routes, born, now);
    DrainTurn(server, d, routes, born, now);
  }

  method Start(server: Server, owner: ClientID, budget: int, slots: nat, ghost routes: set<Route>,
        ghost born: set<Session>)
    returns (d: Drain)
    requires World(server, routes, born)
    modifies server`pendingCtrl, server`pendingRSTs, server`txReady
    ensures World(server, routes, born) && fresh(d) && d.Valid() && d.Passed() && d.given == [] && !d.step.Ended?
    ensures d.server == server && d.owner == owner && d.budget == budget && d.slots == slots
    ensures d.queued == old(Queued(server.pendingCtrl, owner)) + old(Queued(server.pendingRSTs, owner))
    ensures Queued(server.pendingCtrl, owner) == [] && Queued(server.pendingRSTs, owner) == []
    ensures d.was == EmittedBy(server) && d.first == server.firstReply
    ensures Lists(d.refs, old(server.txReady) * Owned(server, owner))
  {
    hide Server.Valid, Session.Valid, Route.Course, Landed, Standing, Drain.Accounts, Drain.Listed, Drain.Told,
         Drain.Urged, Server.IsQueue, Lists, Owned, EmittedBy;
    d := new Drain(server, owner, budget, slots);
    d.Begin();
  }

  /** What a finished drain returns. */
  lemma Packaged(d: Drain, routes: set<Route>, born: set<Session>)
    requires World(d.server, routes, born) && d.Valid() && d.step.Ended?
    ensures d.out == d.queued + OfSessions(d.out) && OfSessions(d.out) == d.given
    ensures |d.given| <= d.slots && (d.budget > 0 ==> |Payloads(d.given)| < d.budget + OVERSHOOT)
    ensures forall f <- d.given :: FromClient(f, d.owner, born)
    ensures d.urgent <==> d.queued != [] || d.server.firstReply != d.first
  {
    hide Server.Valid, Session.Valid, Route.Course, Landed, Standing, OfSessions, Payloads, Drain.Told;
    OfSessionsAppend(d.queued, d.given);
    OfSessionsAlike(d.queued);
    OfSessionsAlike(d.given);
    assert [] + d.given == d.given;
    forall f <- d.given ensures FromClient(f, d.owner, born) {
      assert Given(f, d.owner, d.server);
    }
  }

  /** Every session object emitted exactly the frames that are returned under its name. */
  lemma AllReturned(d: Drain, routes: set<Route>, born: set<Session>, s: Session)
    requires World(d.server, routes, born) && d.Valid() && d.step.Ended? && s in d.server.sessions.Values
    ensures s.id in d.server.sessions && d.server.sessions[s.id] == s && s.id in d.was
    ensures s.emitted == d.was[s.id] + OfId(d.given, s.id)
  {
    hide Session.Valid, OfId;
    var id :| id in d.server.sessions && d.server.sessions[id] == s;
    d.server.SlotAt(id);
    assert d.given + [] == d.given;
  }

  /** The client's ready sessions were all served, as far as the caps go. */
  lemma AllSettled(d: Drain, routes: set<Route>, born: set<Session>)
    requires World(d.server, routes, born) && d.Valid() && d.Passed()
    requires d.at == |d.refs| || d.remaining == 0 || d.left <= 0
    ensures forall id <- d.refs :: id in d.server.sessions &&
              (|OfId(d.given, id)| >= MAX_DRAIN_FRAMES_PER_SESSION || d.server.Quiet(d.server.sessions[id])
               || |d.given| == d.slots || |Payloads(d.given)| >= d.budget)
  {
    hide Server.Valid, Session.Valid, Server.Quiet, OfId, Payloads;
  }

  /** One call of drainAll, with anything that needs no server mutex between its steps. It returns what was
      waiting in the client's queues, all of it, and then frames of sessions, within the caps, each emitted by a
      session this client opened; it returns exactly what every session object emitted meanwhile; and unless a
      cap is reached every ready session of the client gave eight frames, or owes nothing that no OnTx call is on
      its way for. It is urgent exactly with queued frames or a first reply. */
  method Poll(server: Server, owner: ClientID, budget: int, movers: set<Route>, ghost routes: set<Route>,
        born: set<Session>, now: nat)
    returns (out: seq<Frame>, urgent: bool)
    requires World(server, routes, born) && movers <= routes
    modifies server, movers`step, born
    ensures World(server, routes, born) && Later(old(Now(server, born)), Now(server, born))
    ensures server.sessions == old(server.sessions)
    ensures budget > 0 ==> |Payloads(OfSessions(out))| < budget + OVERSHOOT
    ensures budget <= 0 ==> OfSessions(out) == []
    ensures |OfSessions(out)| <= BatchCap(|server.sessions|)
    ensures forall f <- OfSessions(out) :: FromClient(f, owner, born)
    ensures out == old(Queued(server.pendingCtrl, owner)) + old(Queued(server.pendingRSTs, owner)) + OfSessions(out)
    ensures Queued(server.pendingCtrl, owner) == [] && Queued(server.pendingRSTs, owner) == []
    ensures forall s <- born :: s.emitted ==
              old(s.emitted) + if s in server.sessions.Values then OfId(OfSessions(out), s.id) else []
    ensures forall id <- old(server.txReady) * Owned(server, owner) :: id in server.sessions &&
              (|OfId(OfSessions(out), id)| >= MAX_DRAIN_FRAMES_PER_SESSION || server.Quiet(server.sessions[id])
               || |OfSessions(out)| == BatchCap(|server.sessions|) || |Payloads(OfSessions(out))| >= budget)
    ensures urgent <==> |out| > |OfSessions(out)| || server.firstReply != old(server.firstReply)
  {
    hide World, Later, Payloads, OfSessions, OfId, Drain.Valid, Drain.Passed, Server.Quiet, FromClient, Owned, Lists,
         EmittedBy;
    var slots := BatchCap(|server.sessions|);
    ghost var before := Now(server, born);
    EmittedAt(server);
    var d := Start(server, owner, budget, slots, routes, born);
    assert Now(server, born) == before;
    ghost var refs, queued := d.refs, d.queued;
    RunDrain(server, d, movers, routes, born, now);
    out, urgent := d.out, d.urgent;
    Packaged(d, routes, born);
    AllSettled(d, routes, born);
    Listing(refs, old(server.txReady) * Owned(server, owner));
    forall s <- born
      ensures s.emitted == old(s.emitted) + if s in server.sessions.Values then OfId(OfSessions(out), s.id) else []
    {
      if s in server.sessions.Values { AllReturned(d, routes, born, s); }
    }
  }

  lemma EmittedAt(server: Server)
    ensures forall id <- server.sessions ::
            id in EmittedBy(server) && EmittedBy(server)[id] == server.sessions[id].emitted
  {
  }

  lemma Listing(refs: seq<SessionID>, ids: set<SessionID>)
    requires Lists(refs, ids)
    ensures forall id <- ids :: id in refs
  {
  }

  /** The steps of a drain, to the end. */
  method RunDrain(server: Server, d: Drain, movers: set<Route>, ghost routes: set<Route>, born: set<Session>, now: nat)
    requires World(server, routes, born) && movers <= routes && d.server == server && d.Valid() && d.Passed()
    requires d.given == [] && !d.step.Ended?
    modifies d, server`txReady, server`firstReply, server`lastActivity, server`callbacks, movers`step, born
    ensures World(server, routes, born) && d.Valid() && d.Passed() && d.step.Ended?
    ensures Later(old(Now(server, born)), Now(server, born)) && SameList(d, old(d.refs), old(d.queued))
    ensures d.budget <= 0 ==> d.given == []
    ensures d.at == |d.refs| || d.remaining == 0 || d.left <= 0
    ensures forall s <- born :: s !in server.sessions.Values ==> s.emitted == old(s.emitted)
  {
    hide World, Later, Drain.Valid, Drain.Passed;
    ghost var before := Now(server, born);
    LaterSame(before);
    while !d.step.Ended?
      invariant World(server, routes, born) && d.Valid() && Later(before, Now(server, born)) && d.Passed()
      invariant SameList(d, old(d.refs), old(d.queued)) && (d.budget <= 0 ==> d.given == [])
      invariant forall s <- born :: s !in server.sessions.Values ==> s.emitted == old(s.emitted)
      invariant d.step.Ended? ==> d.at == |d.refs| || d.remaining == 0 || d.left <= 0
      decreases d.Rank()
    {
      ghost var was := Now(server, born);
      PollTurn(server, d, movers, routes, born, now);
      LaterOn(before, was, Now(server, born));
    }
  }

  // ----- collectors and callbacks -----

  method Discard(server: Server, s: Session, ghost routes: set<Route>, ghost born: set<Session>)
    requires World(server, routes, born) && s.id in server.sessions && server.sessions[s.id] == s && s.finSent
    modifies server, s`stopped
    ensures World(server, routes, born) && Later(old(Now(server, born)), Now(server, born))
    ensures server.sessions == Without(old(server.sessions), s.id) && Payloads(s.emitted) == s.stream
  {
    hide Server.Valid, Session.Valid, Route.Course, Landed, Standing, Keeps, Without;
    ghost var was, owners, losses := server.sessions, server.sessionOwners, server.losses;
    server.Drop(s);
    LandedOn((routes, born), {}, born);
    ValuesWithout(was, s.id);
    forall r <- routes ensures Underway(server, r, born) {
      BackedOn(r, owners, losses, server.sessionOwners, server.losses);
    }
  }

  lemma ValuesWithout<V>(m: map<SessionID, V>, id: SessionID)
    ensures Without(m, id).Values <= m.Values && forall k <- Without(m, id) :: k in m && Without(m, id)[k] == m[k]
  {
  }

  /** IsDone on one session, with anything that needs no server mutex before and after. */
  method Ask(server: Server, id: SessionID, movers: set<Route>, ghost routes: set<Route>, born: set<Session>, now: nat)
    returns (s: Session, done: bool)
    requires World(server, routes, born) && movers <= routes && id in server.sessions
    modifies server`callbacks, movers`step, born`txBuf, born`firstQueuedAt, born`stream, born`closeReq, born`stopped,
             born`rxInbox, born`rxSeq, born`rxQueue, born`rxClosed, born`loop, born`have, born`delivered, born`sent,
             born`panicked, born`rxChan, born`rxChanClosed, born`heardFrom, born`arrived
    ensures World(server, routes, born) && s == server.sessions[id] && s.id == id && s in born
    ensures if done then DoneAt(s, now) else !old(DoneAt(server.sessions[id], now))
    ensures StillDone(born, now)
  {
    hide World;
    RegisteredAt(server, id, routes, born);
    Stir(server, movers, routes, born, now);
    s := server.sessions[id];
    done := s.IsDone(now);
    Stir(server, movers, routes, born, now);
  }

  /** A session is asked, and removed if it was done. */
  method CollectOne(server: Server, id: SessionID, movers: set<Route>, ghost routes: set<Route>, born: set<Session>,
        now: nat)
    returns (done: bool)
    requires World(server, routes, born) && movers <= routes && id in server.sessions
    modifies server, movers`step, born`txBuf, born`firstQueuedAt, born`stream, born`closeReq, born`stopped,
             born`rxInbox, born`rxSeq, born`rxQueue, born`rxClosed, born`loop, born`have, born`delivered, born`sent,
             born`panicked, born`rxChan, born`rxChanClosed, born`heardFrom, born`arrived
    ensures World(server, routes, born) && Later(old(Now(server, born)), Now(server, born))
    ensures server.sessions == if done then Without(old(server.sessions), id) else old(server.sessions)
    ensures if done then DoneAt(old(server.sessions[id]), now) else !old(DoneAt(server.sessions[id], now))
    ensures StillDone(born, now)
  {
    hide World, Later;
    LaterSame(Now(server, born));
    var s;
    s, done := Ask(server, id, movers, routes, born, now);
    if done {
      Discard(server, s, routes, born);
    }
  }

  lemma RegisteredAt(server: Server, id: SessionID, routes: set<Route>, born: set<Session>)
    requires World(server, routes, born) && id in server.sessions
    ensures server.sessions[id] in born && server.sessions[id].id == id
  {
    hide Session.Valid;
    server.SlotAt(id);
  }

  /** gcDoneSessions, session by session, with anything that needs no server mutex in between. */
  method Collect(server: Server, movers: set<Route>, ghost routes: set<Route>, born: set<Session>, now: nat)
    requires World(server, routes, born) && movers <= routes
    modifies server, movers`step, born`txBuf, born`firstQueuedAt, born`stream, born`closeReq, born`stopped,
             born`rxInbox, born`rxSeq, born`rxQueue, born`rxClosed, born`loop, born`have, born`delivered, born`sent,
             born`panicked, born`rxChan, born`rxChanClosed, born`heardFrom, born`arrived
    ensures World(server, routes, born) && Later(old(Now(server, born)), Now(server, born))
    ensures server.sessions.Keys <= old(server.sessions.Keys)
    ensures forall id <- old(server.sessions.Keys) - server.sessions.Keys :: Complete(old(server.sessions)[id], now)
    ensures forall id <- old(server.sessions) :: old(DoneAt(server.sessions[id], now)) ==> id !in server.sessions
  {
    hide World, Later, DoneAt, Complete;
    ghost var before := Now(server, born);
    LaterSame(before);
    var todo := server.sessions.Keys;
    ghost var all := server.sessions;
    RegisteredUnder(server, routes, born);
    assert forall id <- all :: all[id] in born;
    while todo != {}
      invariant World(server, routes, born) && Later(before, Now(server, born))
      invariant todo <= server.sessions.Keys <= all.Keys
                && forall id <- server.sessions :: server.sessions[id] == all[id]
      invariant forall id <- all.Keys - server.sessions.Keys :: DoneAt(all[id], now)
      invariant forall id <- all :: old(DoneAt(all[id], now)) ==> DoneAt(all[id], now)
      invariant forall id <- all :: old(DoneAt(all[id], now)) && id in server.sessions ==> id in todo
      decreases todo
    {
      var id :| id in todo;
      ghost var was, table := Now(server, born), server.sessions;
      var done := CollectOne(server, id, movers, routes, born, now);
      LaterOn(before, was, Now(server, born));
      if done { ValuesWithout(table, id); }
      todo := todo - {id};
    }
    OverOnceDone(server, routes, born, now);
  }

  lemma OverOnceDone(server: Server, routes: set<Route>, born: set<Session>, now: nat)
    requires World(server, routes, born)
    ensures forall s <- born :: DoneAt(s, now) ==> Complete(s, now)
  {
    hide Server.Valid, Session.Valid;
    forall s <- born | DoneAt(s, now) ensures Complete(s, now) { FinEmittedAll(s); }
  }

  method TakeIdle(server: Server, ghost routes: set<Route>, ghost born: set<Session>, now: nat)
    returns (victims: set<Session>)
    requires World(server, routes, born)
    modifies server
    ensures World(server, routes, born) && Later(old(Now(server, born)), Now(server, born))
    ensures victims <= born && IdleTaken(old(server.sessions), old(server.lastActivity), server.sessions, now)
    ensures forall id <- old(server.sessions.Keys) - server.sessions.Keys :: old(server.sessions)[id] in victims
  {
    hide Server.Valid, Session.Valid, Route.Course, Landed, Standing, Keeps;
    ghost var owners, losses := server.sessionOwners, server.losses;
    victims := server.GcIdleSessions(now);
    forall r <- routes ensures Underway(server, r, born) {
      BackedOn(r, owners, losses, server.sessionOwners, server.losses);
    }
  }

  /** Exactly the sessions stay that were active within the timeout. */
  ghost predicate IdleTaken(was: map<SessionID, Session>, activity: map<SessionID, nat>,
                            left: map<SessionID, Session>, now: nat)
  {
    forall id :: id in left <==> id in was && id in activity && activity[id] > now - IDLE_SESSION_TIMEOUT
  }

  method CloseVictim(server: Server, s: Session, ghost routes: set<Route>, ghost born: set<Session>)
    requires World(server, routes, born) && s in born
    modifies s`rxClosed, s`rxChanClosed, s`stopped
    ensures World(server, routes, born) && s.rxClosed && s.stopped
  {
    hide Server.Valid, Session.Valid, Route.Course, Landed, Keeps, Standing;
    server.ForceClose(s);
    LandedOn((routes, born), {}, born);
  }

  method CloseVictims(server: Server, victims: set<Session>, movers: set<Route>, ghost routes: set<Route>,
                      born: set<Session>, now: nat)
    requires World(server, routes, born) && movers <= routes && victims <= born
    modifies server`callbacks, movers`step, born`txBuf, born`firstQueuedAt, born`stream, born`closeReq, born`stopped,
             born`rxInbox, born`rxSeq, born`rxQueue, born`rxClosed, born`loop, born`have, born`delivered, born`sent,
             born`panicked, born`rxChan, born`rxChanClosed, born`heardFrom, born`arrived
    ensures World(server, routes, born) && forall s <- victims :: s.rxClosed && s.stopped
  {
    hide World, Server.Quiet;
    var todo := victims;
    while todo != {}
      invariant World(server, routes, born) && todo <= victims
      invariant forall s <- victims - todo :: s.rxClosed && s.stopped
      decreases todo
    {
      var s :| s in todo;
      Stir(server, movers, routes, born, now);
      CloseVictim(server, s, routes, born);
      todo := todo - {s};
    }
  }

  /** gcIdleSessions: the idle sessions leave the tables, and are then closed and stopped one by one, with anything
      that needs no server mutex in between. */
  method Sweep(server: Server, movers: set<Route>, ghost routes: set<Route>, born: set<Session>, now: nat)
    requires World(server, routes, born) && movers <= routes
    modifies server, movers`step, born`txBuf, born`firstQueuedAt, born`stream, born`closeReq, born`stopped,
             born`rxInbox, born`rxSeq, born`rxQueue, born`rxClosed, born`loop, born`have, born`delivered, born`sent,
             born`panicked, born`rxChan, born`rxChanClosed, born`heardFrom, born`arrived
    ensures World(server, routes, born) && Later(old(Now(server, born)), Now(server, born))
    ensures IdleTaken(old(server.sessions), old(server.lastActivity), server.sessions, now)
    ensures forall id <- old(server.sessions.Keys) - server.sessions.Keys ::
              old(server.sessions)[id].rxClosed && old(server.sessions)[id].stopped
  {
    hide World, Later, IdleTaken;
    var victims := TakeIdle(server, routes, born, now);
    CloseVictims(server, victims, movers, routes, born, now);
  }

  method Callback(server: Server, id: SessionID, ghost routes: set<Route>, ghost born: set<Session>)
    requires World(server, routes, born) && id in server.callbacks
    modifies server`txReady, server`callbacks
    ensures World(server, routes, born)
  {
    hide Server.Valid, Session.Valid, Route.Course, Landed, Standing, Keeps;
    server.OnTx(id);
  }

  // ----- what was taken out of the sessions -----

  ghost function Emissions(born: set<Session>): map<Session, seq<Frame>>
    reads born`emitted
  {
    map s | s in born :: s.emitted
  }

  /** New objects have emitted nothing. */
  twostate lemma NewlyBorn(born0: set<Session>, new born: set<Session>)
    requires born0 <= born && forall s <- born :: if s in born0 then s.emitted == old(s.emitted) else s.emitted == []
    ensures Balanced(old(Emissions(born0)), Emissions(born), [])
  {
    assert forall s: Session :: Taken([], s) == [];
  }

  /** A poll, entered in the account. */
  method PollAs(server: Server, owner: ClientID, budget: int, ghost mine: bool, movers: set<Route>,
                ghost routes: set<Route>, born: set<Session>, now: nat)
    returns (out: seq<Frame>, urgent: bool, ghost log: seq<Answer>)
    requires World(server, routes, born) && movers <= routes
    modifies server, movers`step, born
    ensures World(server, routes, born) && Later(old(Now(server, born)), Now(server, born))
    ensures log == [Answer(mine, out, server.sessions)] && Balanced(old(Emissions(born)), Emissions(born), log)
    ensures budget > 0 ==> |Payloads(OfSessions(out))| < budget + OVERSHOOT
    ensures forall f <- OfSessions(out) :: FromClient(f, owner, born)
  {
    hide World, Later, Payloads, OfSessions, OfId, Server.Quiet, FromClient, Owned, Queued, BatchCap;
    ghost var emitted := Emissions(born);
    out, urgent := Poll(server, owner, budget, movers, routes, born, now);
    log := [Answer(mine, out, server.sessions)];
    OneAnswer(log[0]);
    RegisteredUnder(server, routes, born);
    forall s <- born ensures s.emitted == emitted[s] + Taken(log, s) {
      assert s in server.sessions.Values <==> s.id in server.sessions && server.sessions[s.id] == s;
    }
  }

  lemma RegisteredUnder(server: Server, routes: set<Route>, born: set<Session>)
    requires World(server, routes, born)
    ensures server.sessions.Values <= born
    ensures forall s :: s in server.sessions.Values <==> s.id in server.sessions && server.sessions[s.id] == s
  {
    hide Session.Valid;
    forall id | id in server.sessions ensures server.sessions[id].id == id { server.SlotAt(id); }
  }

  method PollOthers(server: Server, owner: ClientID, budget: int, movers: set<Route>, ghost routes: set<Route>,
                    born: set<Session>, now: nat)
    returns (ghost log: seq<Answer>)
    requires World(server, routes, born) && movers <= routes
    modifies server, movers`step, born
    ensures World(server, routes, born) && Later(old(Now(server, born)), Now(server, born))
    ensures (forall a <- log :: !a.mine) && Balanced(old(Emissions(born)), Emissions(born), log)
  {
    hide World, Later, Payloads, OfSessions, FromClient, Balanced, Emissions;
    var out, urgent;
    out, urgent, log := PollAs(server, owner, budget, false, movers, routes, born, now);
  }

  // ----- every interleaving -----

  /** One step of anything but the routing calls outside `movers`; a poll runs to its end, stirred by steps
      that need no server mutex. */
  method Act(server: Server, movers: set<Route>, ghost routes: set<Route>, born0: set<Session>, now: nat)
    returns (born: set<Session>, ghost log: seq<Answer>)
    requires World(server, routes, born0) && movers <= routes
    modifies server, movers, born0
    ensures World(server, routes, born) && born0 <= born && fresh(born - born0)
    ensures Later(old(Now(server, born0)), Now(server, born)) && forall a <- log :: !a.mine
    ensures Balanced(old(Emissions(born0)), Emissions(born), log)
  {
    hide World, Later, Route.Course, Landed, OfSessions, OfId, Owned, FromClient, Payloads, Queued, Server.Quiet,
         BatchCap;
    LaterSame(Now(server, born0));
    born, log := born0, [];
    BalancedStart(Emissions(born0));
    var kind: nat := *;
    if kind == 0 && movers != {} {
      var r :| r in movers;
      if !r.step.Finished? {
        born := Turn(server, r, routes, born, now);
        NewlyBorn(born0, born);
      }
    } else if kind == 1 {
      var owner: ClientID, budget: int := *, *;
      log := PollOthers(server, owner, budget, movers, routes, born, now);
    } else if kind == 2 {
      Collect(server, movers, routes, born, now);
    } else if kind == 3 {
      Sweep(server, movers, routes, born, now);
    } else if kind == 4 && born != {} {
      var s :| s in born;
      Pump(server, s, routes, born, now);
    } else if server.callbacks != multiset{} {
      var id :| id in server.callbacks;
      Callback(server, id, routes, born);
    }
  }

  /** Every interleaving keeps the world as it should be. */
  method Interleave(server: Server, movers: set<Route>, ghost routes: set<Route>, born0: set<Session>, now: nat)
    returns (born: set<Session>, time: nat, ghost log: seq<Answer>)
    requires World(server, routes, born0) && movers <= routes
    modifies server, movers, born0
    ensures World(server, routes, born) && born0 <= born && fresh(born - born0) && time >= now
    ensures Later(old(Now(server, born0)), Now(server, born)) && forall a <- log :: !a.mine
    ensures Balanced(old(Emissions(born0)), Emissions(born), log)
  {
    hide World, Later, Balanced, Emissions;
    ghost var before, emitted := Now(server, born0), Emissions(born0);
    LaterSame(before);
    BalancedStart(emitted);
    born, time, log := born0, now, [];
    var n: nat, pass: nat := *, *;
    while n > 0
      invariant World(server, routes, born) && born0 <= born && fresh(born - born0) && time >= now
      invariant Later(before, Now(server, born)) && Balanced(emitted, Emissions(born), log)
      invariant forall a <- log :: !a.mine
    {
      time := time + pass;
      pass := *;
      ghost var was, mid := Now(server, born), Emissions(born);
      ghost var more;
      born, more := Act(server, movers, routes, born, time);
      LaterOn(before, was, Now(server, born));
      BalancedOn(emitted, mid, Emissions(born), log, more);
      log := log + more;
      n := n - 1;
    }
  }

  lemma StartWorld(server: Server, routes: set<Route>, born: set<Session>)
    requires server.Valid() && server.sessions.Values <= born && forall s <- born :: Sound(s)
    requires forall r <- routes :: r.server == server && r.Course() && r.step.Looking?
    ensures World(server, routes, born)
  {
    hide Server.Valid, Session.Valid;
  }

  /** Started from any server whose sessions heard from their openers alone, and any calls to come, every
      reachable state has its tables in step, every registered session owned by its opener and not stranded,
      and every session object, registered or not, heard from its opener alone; and every call that is through
      saw its frame to its session, or drew a reset or an answer, or failed to dial. */
  method AnyRun(server: Server, routes: set<Route>, now: nat) returns (born: set<Session>)
    requires server.Valid() && forall s <- server.sessions.Values :: s.heardFrom <= {s.opener}
    requires forall r <- routes :: r.server == server && r.Course() && r.step.Looking?
    modifies server, routes, server.sessions.Values
    ensures server.Valid() && server.sessions.Values <= born && old(server.sessions.Values) <= born
    ensures forall s <- born :: s.Valid() && s.heardFrom <= {s.opener}
    ensures forall r <- routes :: r.accepted && server.losses[r.f.id] == r.mark ==>
              r.f.id in server.sessionOwners && server.sessionOwners[r.f.id] == r.owner
    ensures forall r <- routes :: r.step.Finished? ==> r.Through()
  {
    hide Server.Valid, Session.Valid, Route.Course, Route.Through, Route.Arrived;
    forall s <- server.sessions.Values ensures s.Valid() { server.RegisteredValid(s); }
    StartWorld(server, routes, server.sessions.Values);
    var time;
    ghost var log;
    born, time, log := Interleave(server, routes, routes, server.sessions.Values, now);
    AllThrough(server, routes, born);
  }

  lemma AllThrough(server: Server, routes: set<Route>, born: set<Session>)
    requires World(server, routes, born)
    ensures forall r <- routes :: r.step.Finished? ==> r.Through()
  {
    hide Server.Valid, Session.Valid, Route.Course, Route.Arrived, Route.Through;
    forall r <- routes | r.step.Finished? ensures r.Through() {
      assert Underway(server, r, born);
      r.AtEnd();
    }
  }
}
