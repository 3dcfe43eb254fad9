/** A reset that overtakes its session's own SYN on the server (internal/exit/exit.go, routeIncoming): the session
    is in the tables before the SYN that opened it reaches its inbox. */
module ExitResets {
  import opened Bytes
  import opened Frames
  import opened Sessions
  import opened SessionTables
  import opened ExitServer
  import opened ExitRouting
  import opened SessionRx
  import opened Resets
  import Runs = SessionRuns
  import RxChannel

  /** The SYN's call has registered its session, and has yet to hand over the SYN. */
  method Opened(id: SessionID, target: bytes, owner: ClientID, data: bytes, now: nat)
    returns (server: Server, r: Route, s: Session)
    ensures fresh({server}) && fresh({r}) && fresh({s}) && server.Valid() && r.server == server && r.Valid()
    ensures r.owner == owner && r.f == Frame(id, 0, FLAG_SYN, target, data) && r.step == Delivering(s)
    ensures s.Side() == RxChannel.NEW_SIDE && server.sessions == With(map[], id, s)
    ensures server.sessionOwners.Keys == {id} && server.sessionOwners[id] == owner
  {
    hide Server.Valid, Session.Valid, Session.Side, Route.Course, With;
    server := new Server();
    server.CoherentNow();
    r := new Route(server, Frame(id, 0, FLAG_SYN, target, data), owner);
    r.Look();
    r.CheckDial(now);
    assert server.sessions == map[];
    assert server.sessionOwners == map[];
    s := r.Open(0, now);
    WithAt(map[], id, owner, id);
    r.Clear();
  }

  /** The two halves of ProcessRx, with room in the inbox. */
  method Joins(r: Route, s: Session)
    requires r.server.Valid() && r.Valid() && r.step == Delivering(s)
    requires !s.rxClosed && !s.stopped && |s.rxInbox| < RxChannel.INBOX_CAP
    modifies r`step, s`heardFrom, s`rxInbox, s`arrived, s`stopped
    ensures r.server.Valid() && s.Valid() && s.Side() == old(s.Side()).(inbox := old(s.rxInbox) + [r.f])
  {
    hide Server.Valid, Session.Valid, Route.Course;
    r.Enter();
    r.Offer();
  }

  /** A reset of the same client, routed while the session waits for its SYN. */
  method Overtakes(server: Server, id: SessionID, owner: ClientID, s: Session)
    requires server.Valid() && server.sessions == With(map[], id, s) && s.Side() == RxChannel.NEW_SIDE
    requires server.sessionOwners.Keys == {id} && server.sessionOwners[id] == owner
    modifies s`heardFrom, s`rxInbox, s`arrived, s`stopped
    ensures server.Valid() && s.Valid() && s.Side() == RxChannel.NEW_SIDE.(inbox := [ResetFrame(id, [])])
  {
    hide Server.Valid, Session.Valid, Route.Course, With;
    WithAt(map[], id, s, id);
    var r := new Route(server, ResetFrame(id, []), owner);
    r.Look();
    Joins(r, s);
  }

  /** The two frames are taken in the order in which they came. */
  lemma BothTaken(id: SessionID, syn: Frame)
    requires syn.seqNo == 0
    ensures var s0 := RxChannel.NEW_SIDE.(inbox := [ResetFrame(id, []), syn]);
            && RxChannel.Enabled(s0, RxChannel.Accept)
            && var s1 := RxChannel.Next(s0, RxChannel.Accept);
               && RxChannel.Enabled(s1, RxChannel.Accept)
               && var s2 := RxChannel.Next(s1, RxChannel.Accept);
                  s2.inbox == [] && s2.recv.rx == Rx(1, map[], false) && s2.recv.delivered == []
                  && s2.sent == [] && s2.loop.Selecting?
  {
    hide Deliver;
    var rst := ResetFrame(id, []);
    ResetAtStart(id);
    var s0 := RxChannel.NEW_SIDE.(inbox := [rst, syn]);
    assert s0.inbox[1..] == [syn] && [syn][1..] == [];
    assert Concat([]) == [];
    OldIgnored(Rx(1, map[], false), syn);
  }

  lemma OldIgnored(rx: Rx, f: Frame)
    requires !rx.closed && f.seqNo < rx.next
    ensures Deliver(rx, f) == Delivery(rx, [], false, false)
  {
  }

  /** The SYN's call goes on. */
  method SynNext(r: Route, s: Session, ghost id: SessionID)
    requires r.server.Valid() && r.Valid() && r.step == Delivering(s)
    requires s.Side() == RxChannel.NEW_SIDE.(inbox := [ResetFrame(id, [])])
    modifies r`step, s`heardFrom, s`rxInbox, s`arrived, s`stopped
    ensures r.server.Valid() && s.Valid() && s.Side() == RxChannel.NEW_SIDE.(inbox := [ResetFrame(id, []), r.f])
  {
    hide Server.Valid, Session.Valid, Route.Course;
    Joins(r, s);
    assert [ResetFrame(id, [])] + [r.f] == [ResetFrame(id, []), r.f];
  }

  /** The session ends up past its frame 0, with nothing of the SYN's data delivered, queued or waiting. */
  method SynLost(id: SessionID, target: bytes, owner: ClientID, data: bytes, now: nat) returns (s: Session)
    ensures s.Valid() && s.opener == owner && s.rxSeq == 1 && !s.rxClosed && s.rxQueue == map[]
    ensures s.rxInbox == [] && s.delivered == [] && s.sent == [] && s.loop.Selecting?
  {
    hide Server.Valid, Session.Valid, Route.Course, With, RxChannel.Next, RxChannel.Enabled;
    var server, r;
    server, r, s := Opened(id, target, owner, data, now);
    Overtakes(server, id, owner, s);
    SynNext(r, s, id);
    BothTaken(id, r.f);
    var _ := server.RxTurn(s, RxChannel.Accept);
    var _ := server.RxTurn(s, RxChannel.Accept);
    assert s.Side().recv.rx == Rx(1, map[], false);
  }
}
