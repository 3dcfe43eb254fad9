/** One batch of frames on the server (internal/exit/exit.go, handleTunnel): its SYNs first, each in a call of
    its own; when all of these are through, its other frames one by one. All the while anything else may run. */
module ExitBatches {
  import opened Bytes
  import opened Frames
  import RxChannel
  import opened Sessions
  import opened SessionTables
  import opened ExitServer
  import opened ExitRouting
  import opened ExitWorlds

  /** The frame draws a reset: its session is another client's, or unknown and the frame is no probe. */
  predicate Draws(f: Frame, owner: ClientID, owners: map<SessionID, ClientID>) {
    if f.id in owners then owners[f.id] != owner else !IsProbe(f.payload)
  }

  /** The frame joined the inbox, unless the session does not receive any more, is stopped, or had no room. */
  twostate predicate Joined(s: Session, f: Frame)
    reads s
  {
    if old(s.rxClosed || s.stopped || |s.rxInbox| >= RxChannel.INBOX_CAP) then
      s.rxInbox == old(s.rxInbox) || s.rxInbox == old(s.rxInbox) + [f]
    else s.rxInbox == old(s.rxInbox) + [f]
  }

  /** A data frame, routed to the end with nothing in between: it changes no registration, and draws a reset
      exactly as `Draws` says. */
  method RouteData(server: Server, f: Frame, owner: ClientID, now: nat)
    requires server.Valid() && !f.IsSyn()
    modifies server`pendingRSTs, server`pendingCtrl, server`lastActivity
    modifies server.sessions.Values`rxInbox, server.sessions.Values`arrived, server.sessions.Values`stopped,
             server.sessions.Values`heardFrom
    ensures server.Valid()
    ensures server.pendingRSTs == if Draws(f, owner, server.sessionOwners)
                                  then old(server.pendingRSTs)[owner := old(Queued(server.pendingRSTs, owner))
                                      + [ResetFrame(f.id, [])]]
                                  else old(server.pendingRSTs)
    ensures f.id in server.sessionOwners || !IsProbe(f.payload) ==> server.pendingCtrl == old(server.pendingCtrl)
    ensures f.id !in server.sessionOwners && IsProbe(f.payload) ==> exists info ::
              server.pendingCtrl
                == old(server.pendingCtrl)[owner := old(Queued(server.pendingCtrl, owner)) + [ResetFrame(f.id, info)]]
    ensures f.id in server.sessions && f.id in server.sessionOwners && server.sessionOwners[f.id] == owner ==>
              owner in server.sessions[f.id].heardFrom && Joined(server.sessions[f.id], f)
  {
    hide Server.Valid, Session.Valid, Route.Course;
    server.CoherentNow();
    var r := new Route(server, f, owner);
    r.Look();
    match r.step
    case Rejecting => r.Reject();
    case Answering =>
      var info: bytes := *;
      r.Answer(info);
    case Delivering(_) =>
      r.Enter();
      if r.step.Offering? { r.Offer(); }
      r.Touch(now);
  }

  // ----- with anything else running -----

  /** If the call has looked, and one of these SYN calls had registered its session, for the same client, and
      the session was not lost since, then it found its own client's session. */
  ghost predicate Fair(r: Route, syns: set<Route>, losses: multiset<SessionID>)
    reads r, syns
  {
    !r.step.Looking? ==>
      forall c <- syns :: c.accepted && c.f.id == r.f.id && c.owner == r.owner && losses[c.f.id] == c.mark ==>
          r.seen.Mine?
  }

  lemma FairOn(r: Route, syns: set<Route>, a: Moment, b: Moment)
    requires Fair(r, syns, a.losses) && Later(a, b) && forall c <- syns :: c.accepted ==> c.mark <= a.losses[c.f.id]
    ensures Fair(r, syns, b.losses)
  {
    forall c <- syns | b.losses[c.f.id] == c.mark && c.accepted ensures a.losses[c.f.id] == c.mark {
      assert a.losses[c.f.id] <= b.losses[c.f.id];
    }
  }

  /** What a look finds while the registrations of these calls stand. */
  lemma Stand(server: Server, routes: set<Route>, born: set<Session>, syns: set<Route>)
    requires World(server, routes, born) && syns <= routes
    ensures forall c <- syns :: c.accepted ==> c.mark <= server.losses[c.f.id]
    ensures forall c <- syns :: c.accepted && server.losses[c.f.id] == c.mark ==>
              SightOf(c.f, c.owner, server.sessions, server.sessionOwners) == Mine
  {
    hide Server.OnlyResets, Server.Slots, Session.Valid, Route.Course;
    forall c <- syns ensures Underway(server, c, born) { }
  }

  lemma SightSame(f: Frame, g: Frame, owner: ClientID, sessions: map<SessionID, Session>,
        owners: map<SessionID, ClientID>)
    requires f.id == g.id
    ensures SightOf(f, owner, sessions, owners) == SightOf(g, owner, sessions, owners)
  {
  }

  /** One step of a call, after any number of steps of anything else. */
  method Pace(server: Server, r: Route, movers: set<Route>, ghost syns: set<Route>, ghost routes: set<Route>,
              born0: set<Session>, now: nat)
    returns (born: set<Session>, time: nat)
    requires World(server, routes, born0) && r in routes && movers <= routes && r !in movers && !r.step.Finished?
    requires syns <= routes && syns !! movers && r !in syns && Fair(r, syns, server.losses)
    modifies server, r, movers, born0
    ensures World(server, routes, born) && born0 <= born && fresh(born - born0) && time >= now
    ensures Later(old(Now(server, born0)), Now(server, born))
    ensures Rank(r.step) < old(Rank(r.step)) && Fair(r, syns, server.losses)
  {
    hide World, Later, Route.Course, ResetFrame, Queued, Rank, SightOf;
    ghost var before := Now(server, born0);
    Stand(server, routes, born0, syns);
    ghost var log;
    born, time, log := Interleave(server, movers, routes, born0, now);
    ghost var stirred, looking := Now(server, born), r.step.Looking?;
    Stand(server, routes, born, syns);
    FairOn(r, syns, before, stirred);
    forall c <- syns | c.f.id == r.f.id ensures SightOf(c.f, r.owner, server.sessions, server.sessionOwners)
                                             == SightOf(r.f, r.owner, server.sessions, server.sessionOwners) {
      SightSame(c.f, r.f, r.owner, server.sessions, server.sessionOwners);
    }
    born := Turn(server, r, routes, born, time);
    LaterOn(before, stirred, Now(server, born));
    FairOn(r, syns, stirred, Now(server, born));
  }

  /** A call, seen through to its end. */
  method Through(server: Server, r: Route, movers: set<Route>, ghost syns: set<Route>, ghost routes: set<Route>,
                 born0: set<Session>, now: nat)
    returns (born: set<Session>, time: nat)
    requires World(server, routes, born0) && r in routes && movers <= routes && r !in movers
    requires syns <= routes && syns !! movers && r !in syns && Fair(r, syns, server.losses)
    modifies server, r, movers, born0
    ensures World(server, routes, born) && born0 <= born && fresh(born - born0) && time >= now
    ensures Later(old(Now(server, born0)), Now(server, born))
    ensures r.step.Finished? && Fair(r, syns, server.losses)
  {
    hide World, Later, Route.Course, Rank, Fair;
    ghost var before := Now(server, born0);
    LaterSame(before);
    born, time := born0, now;
    while !r.step.Finished?
      invariant World(server, routes, born) && born0 <= born && fresh(born - born0) && time >= now
      invariant Later(before, Now(server, born)) && Fair(r, syns, server.losses)
      decreases Rank(r.step)
    {
      ghost var was := Now(server, born);
      born, time := Pace(server, r, movers, syns, routes, born, time);
      LaterOn(before, was, Now(server, born));
    }
  }

  lemma OneMore(server: Server, routes: set<Route>, born: set<Session>, r: Route)
    requires World(server, routes, born) && r.server == server && r.Course() && r.step.Looking? && !r.accepted
             && r.at == null
    ensures World(server, routes + {r}, born)
  {
    hide Server.Valid, Session.Valid, Route.Course;
  }

  /** The calls of the batch's SYNs, about to begin. */
  method StartSyns(server: Server, frames: seq<Frame>, owner: ClientID, ghost others: set<Route>,
        ghost born: set<Session>)
    returns (syns: set<Route>)
    requires World(server, others, born)
    ensures fresh(syns) && World(server, others + syns, born)
    ensures forall r <- syns :: r.owner == owner && r.f.IsSyn() && r.f in frames
    ensures forall f <- frames :: f.IsSyn() ==> exists r <- syns :: r.f == f
  {
    hide World, Route.Course;
    syns := {};
    assert others + syns == others;
    for i := 0 to |frames|
      invariant fresh(syns) && World(server, others + syns, born)
      invariant forall r <- syns :: r.owner == owner && r.f.IsSyn() && r.f in frames
      invariant forall f <- frames[..i] :: f.IsSyn() ==> exists r <- syns :: r.f == f
    {
      if frames[i].IsSyn() {
        var r := new Route(server, frames[i], owner);
        OneMore(server, others + syns, born, r);
        assert others + (syns + {r}) == others + syns + {r};
        syns := syns + {r};
      }
    }
  }

  /** The SYN calls run in any interleaving with each other and with all else, until every one is through. */
  method RunSyns(server: Server, syns: set<Route>, others: set<Route>, born0: set<Session>, now: nat)
    returns (born: set<Session>, time: nat)
    requires World(server, others + syns, born0) && syns !! others
    modifies server, syns, others, born0
    ensures World(server, others + syns, born) && born0 <= born && fresh(born - born0) && time >= now
    ensures Later(old(Now(server, born0)), Now(server, born))
    ensures forall r <- syns :: r.step.Finished?
  {
    hide World, Later, Route.Course;
    ghost var before, routes := Now(server, born0), others + syns;
    ghost var log;
    born, time, log := Interleave(server, others + syns, routes, born0, now);
    var todo := syns;
    while todo != {}
      invariant todo <= syns && World(server, routes, born) && born0 <= born && fresh(born - born0) && time >= now
      invariant Later(before, Now(server, born)) && forall r <- syns - todo :: r.step.Finished?
      decreases todo
    {
      var r :| r in todo;
      ghost var was := Now(server, born);
      born, time := Through(server, r, others, {}, routes, born, time);
      LaterOn(before, was, Now(server, born));
      todo := todo - {r};
    }
  }

  /** The calls of the other frames, as far as they have run. */
  ghost predicate Answered(calls: set<Route>, syns: set<Route>, owner: ClientID, losses: multiset<SessionID>)
    reads calls, syns
  {
    forall q <- calls :: q.owner == owner && !q.f.IsSyn() && q.step.Finished? && Fair(q, syns, losses)
  }

  lemma AnsweredOn(calls: set<Route>, syns: set<Route>, owner: ClientID, a: Moment, b: Moment)
    requires Answered(calls, syns, owner, a.losses) && Later(a, b)
    requires forall c <- syns :: c.accepted ==> c.mark <= a.losses[c.f.id]
    ensures Answered(calls, syns, owner, b.losses)
  {
    hide Fair, Later;
    forall q <- calls ensures Fair(q, syns, b.losses) { FairOn(q, syns, a, b); }
  }

  lemma NoCalls(syns: set<Route>, owner: ClientID, losses: multiset<SessionID>)
    ensures Answered({}, syns, owner, losses)
  {
  }

  method RunData(server: Server, f: Frame, owner: ClientID, ghost calls: set<Route>, ghost syns: set<Route>,
        others: set<Route>, born0: set<Session>, now: nat)
    returns (q: Route, born: set<Session>, time: nat)
    requires World(server, others + syns + calls, born0) && syns !! others && calls !! others && calls !! syns
             && !f.IsSyn()
    requires Answered(calls, syns, owner, server.losses)
    modifies server, others, born0
    ensures World(server, others + syns + (calls + {q}), born) && born0 <= born && fresh(born - born0) && time >= now
    ensures fresh(q) && q.f == f && Answered(calls + {q}, syns, owner, server.losses)
  {
    hide World, Later, Route.Course, Fair;
    q := new Route(server, f, owner);
    OneMore(server, others + syns + calls, born0, q);
    assert others + syns + (calls + {q}) == others + syns + calls + {q};
    FairStart(q, syns, server.losses);
    ghost var before, routes := Now(server, born0), others + syns + (calls + {q});
    Stand(server, routes, born0, syns);
    born, time := Through(server, q, others, syns, routes, born0, now);
    AnsweredOn(calls, syns, owner, before, Now(server, born));
  }

  lemma FairStart(r: Route, syns: set<Route>, losses: multiset<SessionID>)
    requires r.step.Looking?
    ensures Fair(r, syns, losses)
  {
  }

  /** The other frames, one by one. */
  method RunAll(server: Server, frames: seq<Frame>, owner: ClientID, ghost syns: set<Route>, others: set<Route>,
                born0: set<Session>, now: nat)
    returns (calls: set<Route>, born: set<Session>)
    requires World(server, others + syns, born0) && syns !! others
    modifies server, others, born0
    ensures fresh(calls) && born0 <= born && World(server, others + syns + calls, born)
    ensures Answered(calls, syns, owner, server.losses)
    ensures forall q <- calls :: q.f in frames
    ensures forall f <- frames :: !f.IsSyn() ==> exists q <- calls :: q.f == f
  {
    hide World, Route.Course, Answered, Fair;
    calls := {};
    NoCalls(syns, owner, server.losses);
    assert others + syns + calls == others + syns;
    var time;
    born, time := born0, now;
    for i := 0 to |frames|
      invariant fresh(calls) && born0 <= born && fresh(born - born0)
      invariant World(server, others + syns + calls, born) && Answered(calls, syns, owner, server.losses)
      invariant forall q <- calls :: q.f in frames
      invariant forall f <- frames[..i] :: !f.IsSyn() ==> exists q <- calls :: q.f == f
    {
      if !frames[i].IsSyn() {
        var q;
        q, born, time := RunData(server, frames[i], owner, calls, syns, others, born, time);
        calls := calls + {q};
      }
    }
  }

  /** One batch, with any other calls, polls, collections, sweeps, pumps and callbacks in between. Every frame is
      seen through to its session, or to a reset, an answer or a failed dial. Each of its data frames draws a reset
      exactly if, when looked up, its session was another client's, or unknown and the frame no probe; so none is
      drawn for a session whose SYN came in the same batch, was dialled, and that was not lost since. */
  method RouteBatch(server: Server, frames: seq<Frame>, owner: ClientID, others: set<Route>, born0: set<Session>,
        now: nat)
    returns (syns: set<Route>, calls: set<Route>, born: set<Session>)
    requires World(server, others, born0)
    modifies server, others, born0
    ensures fresh(syns) && fresh(calls) && born0 <= born && World(server, others + syns + calls, born)
    ensures forall f <- frames :: exists r <- syns + calls :: r.f == f
    ensures forall r <- syns + calls :: r.f in frames && r.owner == owner && r.Through()
    ensures (forall r <- syns :: r.f.IsSyn()) && (forall q <- calls :: !q.f.IsSyn())
    ensures forall q <- calls :: q.drew <==> q.seen.Theirs? || (q.seen.Unknown? && !IsProbe(q.f.payload))
    ensures forall q <- calls, c <- syns :: c.f.id == q.f.id && c.accepted && server.losses[c.f.id] == c.mark ==>
              q.seen.Mine? && !q.drew
  {
    hide World, Route.Course, Answered, Fair, IsProbe;
    syns := StartSyns(server, frames, owner, others, born0);
    assert syns !! others;
    var time;
    born, time := RunSyns(server, syns, others, born0, now);
    calls, born := RunAll(server, frames, owner, syns, others, born, time);
    Drawn(server, others + syns + calls, born, calls, syns, owner);
    AllThrough(server, others + syns + calls, born);
    forall f <- frames ensures exists r <- syns + calls :: r.f == f {
      if f.IsSyn() {
        var r :| r in syns && r.f == f;
        assert r in syns + calls;
      } else {
        var q :| q in calls && q.f == f;
        assert q in syns + calls;
      }
    }
  }

  lemma Drawn(server: Server, routes: set<Route>, born: set<Session>, calls: set<Route>, syns: set<Route>,
        owner: ClientID)
    requires World(server, routes, born) && calls <= routes && Answered(calls, syns, owner, server.losses)
    requires forall c <- syns :: c.owner == owner
    ensures forall q <- calls :: q.owner == owner && !q.f.IsSyn() && q.step.Finished?
    ensures forall q <- calls :: q.drew <==> q.seen.Theirs? || (q.seen.Unknown? && !IsProbe(q.f.payload))
    ensures forall q <- calls, c <- syns :: c.f.id == q.f.id && c.accepted && server.losses[c.f.id] == c.mark ==>
              q.seen.Mine? && !q.drew
  {
    hide Server.Valid, Session.Valid, IsProbe;
    forall q <- calls ensures q.Course() {
      assert Underway(server, q, born);
    }
  }
}
