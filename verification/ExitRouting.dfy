/** Routing of one client's frames on the server (internal/exit/exit.go, routeIncoming and the SYN-first
    order of handleTunnel). A `Route` is one call of routeIncoming; it takes the server mutex once a
    step, so between its steps any other call, collector or pump may run. */
module ExitRouting {
  import opened Bytes
  import opened Frames
  import opened Sessions
  import opened SessionTables
  import opened ExitServer
  import Runs = SessionRuns
  import RxChannel

  const PROBE_PREFIX: bytes :=
    [103, 111, 111, 115, 101, 95, 118, 101, 114, 115, 105, 111, 110, 95, 112, 114, 111, 98, 101, 58, 118, 49]

  predicate IsProbe(payload: bytes) {
    payload == PROBE_PREFIX || PROBE_PREFIX + [124] <= payload
  }

  /** A payload is a probe exactly if it is the bare prefix, or is made like EncodeProbePayload makes them: the
      prefix, a bar, and anything. */
  lemma ProbeIff(payload: bytes)
    ensures PROBE_PREFIX == Ascii("goose_version_probe:v1")
    ensures IsProbe(payload) <==>
            payload == Ascii("goose_version_probe:v1")
              || exists info: bytes :: payload == Ascii("goose_version_probe:v1|") + info
  {
    assert PROBE_PREFIX == Ascii("goose_version_probe:v1");
    var bar := Ascii("goose_version_probe:v1|");
    assert bar == PROBE_PREFIX + [124];
    if PROBE_PREFIX + [124] <= payload {
      assert payload == bar + payload[|bar|..];
    }
  }

  datatype Step =
    | Looking | Rejecting | Answering
    | CheckingDial | Dialling
    | Clearing(sess: Session) | Delivering(sess: Session) | Offering(sess: Session) | Touching
    | Finished

  /** What the first look found under the frame's identifier. */
  datatype Sight = Unlooked | Mine | Theirs | Unknown

  function Rank(s: Step): nat {
    match s
    case Looking => 8
    case CheckingDial => 7
    case Dialling => 6
    case Clearing(_) => 5
    case Delivering(_) => 4
    case Offering(_) => 3
    case Touching => 2
    case Rejecting => 1
    case Answering => 1
    case Finished => 0
  }

  lemma RankClearing(s: Session)
    ensures Rank(Clearing(s)) == 5
  {
  }

  predicate Holding(s: Step) {
    s.Clearing? || s.Delivering? || s.Offering?
  }

  /** Where the first look at the tables sends a frame. */
  function Destination(f: Frame, owner: ClientID, sessions: map<SessionID, Session>,
        owners: map<SessionID, ClientID>): Step {
    if f.id in sessions then
      if f.id in owners && owners[f.id] != owner then Rejecting else Delivering(sessions[f.id])
    else if f.IsSyn() then CheckingDial
    else if IsProbe(f.payload) then Answering
    else Rejecting
  }

  function SightOf(f: Frame, owner: ClientID, sessions: map<SessionID, Session>,
        owners: map<SessionID, ClientID>): Sight {
    if f.id !in sessions then Unknown
    else if f.id in owners && owners[f.id] != owner then Theirs else Mine
  }

  /** A session that heard from no one yet. */
  ghost predicate Unheard(s: Session)
    reads s
  {
    s.Valid() && s.heardFrom == {} && s.emitted == []
  }

  class Route {
    const server: Server
    const f: Frame
    const owner: ClientID
    var step: Step
    var accepted: bool     // this call opened a session and registered it
    ghost var seen: Sight
    ghost var drew: bool   // this call queued a reset
    ghost var told: bool   // this call queued an answer to a version probe
    ghost var missed: bool // its dial failed
    ghost var at: Session? // the session that the frame is for
    ghost var mark: nat    // how often the session had been lost when this call registered it

    constructor (server: Server, f: Frame, owner: ClientID)
      ensures this.server == server && this.f == f && this.owner == owner
      ensures step == Looking && seen == Unlooked && !accepted && !drew && at == null && Valid()
    {
      this.server, this.f, this.owner := server, f, owner;
      step, accepted, seen, drew, told, missed, mark := Looking, false, Unlooked, false, false, false, 0;
      at := null;
    }

    /** How the call came to be where it is: it queues a reset at most once, at its end, and for what it saw at
        its look; and a call that is through has queued a reset, answered a probe, failed to dial, or had a session
        for its frame. */
    ghost predicate Course()
      reads this
    {
      && (step.Looking? <==> seen.Unlooked?)
      && (Rank(step) >= 6 ==> !accepted) && (drew || told || missed ==> step.Finished?)
      && (step.Rejecting? || drew ==> seen.Theirs? || (seen.Unknown? && (f.IsSyn() || !IsProbe(f.payload))))
      && (step.Answering? || told ==> seen.Unknown? && !f.IsSyn() && IsProbe(f.payload))
      && (missed || accepted ==> f.IsSyn() && seen.Unknown?)
      && (at != null ==> (accepted || seen.Mine?) && at.opener == owner) && (accepted ==> at != null)
      && (drew || told || missed ==> at == null)
      && (Holding(step) ==> at == step.sess) && (step.Touching? ==> at != null)
      && (step.Finished? ==> drew || told || missed || at != null)
      && (!Holding(step) && !step.Touching? && !step.Finished? ==> at == null)
      && (step.CheckingDial? || step.Dialling? || step.Clearing? ==> f.IsSyn() && seen.Unknown?)
      && (step.Delivering? || step.Offering? || step.Touching? ==> f.IsSyn() || seen.Mine?)
      && (step.Finished? && !f.IsSyn() ==> (drew <==> seen.Theirs? || (seen.Unknown? && !IsProbe(f.payload))))
    }

    /** A frame is only ever on its way to a session its own client opened. */
    ghost predicate Valid()
      reads this, Held()
    {
      Course() && (Holding(step) ==> step.sess.opener == owner && step.sess.Valid())
    }

    ghost function At(): set<Session>
      reads this`at
    {
      if at == null then {} else {at}
    }

    /** No frame is lost on its way: once it is through, it is in the inbox of its session, or that session
        does not receive any more or is stopped. */
    ghost predicate Arrived()
      reads this`step, this`at, At()`arrived, At()`rxClosed, At()`stopped
    {
      at != null && (step.Touching? || step.Finished?) ==> f in at.arrived || at.rxClosed || at.stopped
    }

    /** How a call ends: a frame for a session of its client's, or for one that the call opened, is there; and any
        other one drew a reset or the answer to a probe, or its dial failed. */
    ghost predicate Through()
      reads this, At()`arrived, At()`rxClosed, At()`stopped
    {
      && step.Finished? && (at != null <==> seen.Mine? || accepted)
      && (at != null ==> at.opener == owner && (f in at.arrived || at.rxClosed || at.stopped) && !drew && !told)
      && (seen.Theirs? ==> drew) && (seen.Unknown? && f.IsSyn() && !accepted ==> drew || missed)
      && (seen.Unknown? && !f.IsSyn() ==> (told <==> IsProbe(f.payload)) && (drew <==> !told))
    }

    lemma AtEnd()
      requires Course() && Arrived() && step.Finished?
      ensures Through()
    {
    }

    function Held(): set<Session>
      reads this
    {
      if Holding(step) then {step.sess} else {}
    }

    method Look()
      requires server.Valid() && Valid() && step.Looking?
      modifies this`step, this`seen, this`at
      ensures Valid() && step == Destination(f, owner, server.sessions, server.sessionOwners)
      ensures seen == SightOf(f, owner, server.sessions, server.sessionOwners)
      ensures Rank(step) < 8 && (Holding(step) ==> step.sess in server.sessions.Values)
      ensures Arrived() && At() <= Held() && (seen.Mine? ==> f.id in server.sessions && at == server.sessions[f.id])
    {
      hide Session.Valid;
      var id := f.id;
      if id in server.sessions {
        server.SlotAt(id);
      }
      step := Destination(f, owner, server.sessions, server.sessionOwners);
      seen := SightOf(f, owner, server.sessions, server.sessionOwners);
      if step.Delivering? {
        at := step.sess;
      }
    }

    method Reject()
      requires server.Valid() && Valid() && step.Rejecting?
      modifies this`step, this`drew, server`pendingRSTs
      ensures server.Valid() && Valid() && step.Finished? && drew
      ensures server.pendingRSTs
              == old(server.pendingRSTs)[owner := old(Queued(server.pendingRSTs, owner)) + [ResetFrame(f.id, [])]]
    {
      hide Server.Valid;
      server.QueueRST(owner, f.id);
      step, drew := Finished, true;
    }

    method Answer(info: bytes)
      requires server.Valid() && Valid() && step.Answering?
      modifies this`step, this`told, server`pendingCtrl
      ensures server.Valid() && Valid() && step.Finished? && told
      ensures server.pendingCtrl
              == old(server.pendingCtrl)[owner := old(Queued(server.pendingCtrl, owner)) + [ResetFrame(f.id, info)]]
    {
      hide Server.Valid;
      server.QueueVersionResponse(owner, f.id, info);
      step, told := Finished, true;
    }

    method CheckDial(now: nat)
      requires server.Valid() && Valid() && step.CheckingDial?
      modifies this`step, server`dialFail
      ensures server.Valid() && Valid()
      ensures step == if f.target in old(server.dialFail) && now <= old(server.dialFail)[f.target] then Rejecting
              else Dialling
      ensures server.dialFail == if step.Rejecting? then old(server.dialFail) else old(server.dialFail) - {f.target}
    {
      hide Server.Valid;
      var suppressed := server.IsDialSuppressed(f.target, now);
      step := if suppressed then Rejecting else Dialling;
    }

    /** A failed dial answers nothing. */
    method GiveUp(eligible: bool, now: nat)
      requires server.Valid() && Valid() && step.Dialling?
      modifies this`step, this`missed, server`dialFail
      ensures server.Valid() && Valid() && step.Finished?
      ensures server.dialFail == if eligible then old(server.dialFail)[f.target := now + DIAL_FAILURE_BACKOFF]
              else old(server.dialFail)
    {
      hide Server.Valid;
      server.RecordDialFailure(f.target, eligible, now);
      step, missed := Finished, true;
    }

    /** A successful dial registers a new session, even if one was registered since the look-up. */
    method Open(conn: nat, now: nat) returns (sess: Session)
      requires server.Valid() && Valid() && step.Dialling?
      modifies this`step, this`accepted, this`mark, this`at
      modifies server`sessions, server`sessionOwners, server`upstreams, server`firstReply, server`lastActivity,
               server`losses
      ensures server.Valid() && Valid() && fresh(sess) && Unheard(sess) && step == Clearing(sess) && accepted
              && mark == server.losses[f.id]
      ensures sess.Log() == Runs.NewSender(f.id, f.target, false, now) && sess.Side() == RxChannel.NEW_SIDE
      ensures server.sessions == With(old(server.sessions), f.id, sess)
      ensures server.sessionOwners == With(old(server.sessionOwners), f.id, owner)
      ensures server.firstReply == old(server.firstReply) + {f.id}
      ensures Keeps(old(server.sessionOwners), old(server.losses), server.sessionOwners, server.losses)
    {
      hide Server.Valid, Session.Valid, Session.Log, Session.TxState, Session.Side, With, Keeps, Runs.NewSender,
           Route.Course;
      sess := server.OpenSession(f.id, f.target, owner, conn, now);
      Serve(sess);
    }

    method Serve(sess: Session)
      requires Valid() && step.Dialling? && sess.Valid() && sess.opener == owner
      modifies this`step, this`accepted, this`mark, this`at
      ensures Valid() && step == Clearing(sess) && accepted && mark == server.losses[f.id]
    {
      hide Session.Valid, Rank;
      step, accepted, mark, at := Clearing(sess), true, server.losses[f.id], sess;
      RankClearing(sess);
    }

    method Clear()
      requires server.Valid() && Valid() && step.Clearing?
      modifies this`step, server`dialFail
      ensures server.Valid() && Valid() && step == Delivering(old(step.sess))
      ensures server.dialFail == old(server.dialFail) - {f.target}
    {
      hide Server.Valid, Session.Valid;
      server.ClearDialFailure(f.target);
      step := Delivering(step.sess);
    }

    /** The locked half of ProcessRx. */
    method Enter()
      requires server.Valid() && Valid() && step.Delivering?
      modifies this`step, step.sess`heardFrom
      ensures server.Valid() && Valid() && step == if old(step.sess.rxClosed) then Touching
              else Offering(old(step.sess))
      ensures var s := old(step.sess); s.Valid() && s.heardFrom == old(s.heardFrom) + {owner}
    {
      hide Server.Valid, Session.Valid;
      var s := step.sess;
      var open := server.EnterRx(s, owner);
      step := if open then Offering(s) else Touching;
    }

    /** Its select. */
    method Offer()
      requires server.Valid() && Valid() && step.Offering?
      modifies this`step, step.sess`rxInbox, step.sess`arrived, step.sess`stopped
      ensures server.Valid() && Valid() && step.Touching?
      ensures var s := old(step.sess); s.arrived == old(s.arrived) + [f] || (s.arrived == old(s.arrived) && s.stopped)
      ensures old(step.sess.stopped) ==> old(step.sess).stopped
      ensures var s := old(step.sess);
              s.Valid() && (s.rxInbox == old(s.rxInbox) + [f] || (s.rxInbox == old(s.rxInbox) && s.stopped))
      ensures var s := old(step.sess);
              !old(s.stopped) && |old(s.rxInbox)| < RxChannel.INBOX_CAP ==>
                s.rxInbox == old(s.rxInbox) + [f] && !s.stopped
    {
      hide Server.Valid, Session.Valid;
      var s := step.sess;
      var _ := server.OfferRx(s, f);
      step := Touching;
    }

    method Touch(now: nat)
      requires server.Valid() && Valid() && step.Touching?
      modifies this`step, server`lastActivity
      ensures server.Valid() && Valid() && step.Finished?
      ensures server.lastActivity == if f.id in server.sessions then old(server.lastActivity)[f.id := now]
              else old(server.lastActivity)
    {
      hide Server.Valid;
      server.Touch(f.id, now);
      step := Finished;
    }

    /** The end of the dial, whichever way it went. */
    method Dial(now: nat)
      requires server.Valid() && Valid() && step.Dialling?
      modifies this`step, this`accepted, this`mark, this`missed, this`at, server`dialFail
      modifies server`sessions, server`sessionOwners, server`upstreams, server`firstReply, server`lastActivity,
               server`losses
      ensures server.Valid() && Valid() && (step.Finished? || step.Clearing?)
      ensures forall s <- Held() + server.sessions.Values ::
              s in old(server.sessions.Values) || (fresh(s) && Unheard(s))
      ensures Bound(old(accepted), old(at)) && Arrived() && At() <= Held()
      ensures Onward(old(server.sessions.Keys), old(server.sessionOwners), old(accepted), old(mark))
      ensures Keeps(old(server.sessionOwners), old(server.losses), server.sessionOwners, server.losses)
    {
      hide Server.Valid, Session.Valid, Keeps;
      Unbound();
      KeepsAll(server.sessionOwners, server.losses);
      var ok: bool := *;
      if ok {
        var conn: nat := *;
        var sess := Open(conn, now);
      } else {
        var eligible: bool := *;
        GiveUp(eligible, now);
      }
    }

    /** The session of the frame stays the same, and is the one that the call registers, if it does. */
    ghost predicate Bound(before: bool, was: Session?)
      reads this`accepted, this`at, server`sessions
    {
      && (was != null ==> at == was)
      && (accepted && !before ==> f.id in server.sessions && server.sessions[f.id] == at)
    }

    /** The step kept every registration, or took it over for this client; if it registered the frame's
        session, that session now belongs to this client, and the count of its losses is marked. */
    ghost predicate Onward(keys: set<SessionID>, owners: map<SessionID, ClientID>, before: bool, marked: nat)
      reads this, server
    {
      && server.sessions.Keys == keys + (if accepted && !before then {f.id} else {})
      && (forall k <- owners :: k in server.sessionOwners
            && (server.sessionOwners[k] == owners[k] || server.sessionOwners[k] == owner))
      && (before ==> accepted && mark == marked)
      && (accepted && !before ==>
           mark == server.losses[f.id] && f.id in server.sessionOwners && server.sessionOwners[f.id] == owner)
    }

    /** One control frame for the session of the frame was queued. */
    ghost predicate Told(was: seq<Frame>, queue: seq<Frame>)
    {
      |queue| == |was| + 1 && queue == was + [ResetFrame(f.id, queue[|was|].payload)]
    }

    /** What the step did for its client and for the session of its frame. */
    twostate predicate Did(now: nat)
      reads this, server
    {
      && Queued(server.pendingRSTs, owner)
           == old(Queued(server.pendingRSTs, owner)) + (if old(step.Rejecting?) then [ResetFrame(f.id, [])] else [])
      && (old(step.Answering?) ==>
            Told(old(Queued(server.pendingCtrl, owner)), Queued(server.pendingCtrl, owner)))
      && (!old(step.Answering?) ==> server.pendingCtrl == old(server.pendingCtrl))
      && drew == (old(drew) || old(step.Rejecting?)) && told == (old(told) || old(step.Answering?))
      && seen == (if old(step.Looking?) then old(SightOf(f, owner, server.sessions, server.sessionOwners))
                  else old(seen))
      && (old(step.Looking?) && seen.Mine? ==> f.id in server.sessions && at == server.sessions[f.id])
      && Bound(old(accepted), old(at)) && (old(accepted) ==> accepted && mark == old(mark))
      && (old(step.CheckingDial?) ==>
            (step.Rejecting? <==> f.target in old(server.dialFail) && now <= old(server.dialFail)[f.target]))
      && (old(step.Clearing?) ==> f.target !in server.dialFail)
      && (old(step.Touching?) && f.id in server.sessions ==>
            f.id in server.lastActivity && server.lastActivity[f.id] == now)
    }

    /** The two halves of ProcessRx. */
    method HandOver(ghost now: nat)
      requires server.Valid() && Valid() && (step.Delivering? || step.Offering?)
      modifies this`step, step.sess`rxInbox, step.sess`arrived, step.sess`stopped, step.sess`heardFrom
      ensures server.Valid() && Valid() && Arrived() && Rank(step) < Rank(old(step)) && Held() <= old(Held())
      ensures Did(now)
      ensures var s := old(step.sess); s.Valid() && s.heardFrom <= old(s.heardFrom) + {owner} && Onwards(s)
    {
      hide Server.Valid, Session.Valid, Route.Course;
      HoldsAt();
      if step.Delivering? {
        Enter();
      } else {
        Offer();
      }
    }

    lemma HoldsAt()
      requires Course() && Holding(step)
      ensures at == step.sess && At() == Held()
    {
    }

    /** What arrived stays arrived, and what is stopped stays stopped. */
    twostate predicate Onwards(s: Session)
      reads s`arrived, s`stopped
    {
      old(s.arrived) <= s.arrived && (old(s.stopped) ==> s.stopped)
    }

    lemma Unbound()
      requires Course() && !Holding(step) && !step.Touching? && !step.Finished?
      ensures at == null
    {
    }

    /** The steps that find the frame its session. */
    method Decide(now: nat)
      requires server.Valid() && Valid() && (step.Looking? || step.CheckingDial? || step.Dialling? || step.Clearing?)
      modifies this`step, this`accepted, this`mark, this`seen, this`missed, this`at, server`dialFail
      modifies server`sessions, server`sessionOwners, server`upstreams, server`firstReply, server`lastActivity,
               server`losses
      ensures server.Valid() && Valid() && Rank(step) < Rank(old(step)) && Arrived()
      ensures forall s <- Held() + server.sessions.Values ::
              s in old(server.sessions.Values) + old(Held()) || (fresh(s) && Unheard(s))
      ensures Onward(old(server.sessions.Keys), old(server.sessionOwners), old(accepted), old(mark))
      ensures Keeps(old(server.sessionOwners), old(server.losses), server.sessionOwners, server.losses)
      ensures At() <= old(At()) + Held() && Did(now)
    {
      hide Server.Valid, Session.Valid, Route.Course, Destination, SightOf, Keeps;
      KeepsAll(server.sessionOwners, server.losses);
      if step.Clearing? { HoldsAt(); } else { Unbound(); }
      match step
      case Looking => Look();
      case CheckingDial => CheckDial(now);
      case Dialling => Dial(now);
      case Clearing(_) => Clear();
    }

    /** The last steps. */
    method Conclude(now: nat)
      requires server.Valid() && Valid() && (step.Rejecting? || step.Answering? || step.Touching?) && Arrived()
      modifies this`step, this`drew, this`told, server`pendingRSTs, server`pendingCtrl, server`lastActivity
      ensures server.Valid() && Valid() && Rank(step) < Rank(old(step)) && Arrived()
      ensures Did(now)
    {
      hide Server.Valid, Session.Valid, Route.Course;
      if !step.Touching? { Unbound(); }
      match step
      case Rejecting => Reject();
      case Answering =>
        var info: bytes := *;
        Answer(info);
        assert Queued(server.pendingCtrl, owner) == old(Queued(server.pendingCtrl, owner)) + [ResetFrame(f.id, info)];
      case Touching => Touch(now);
    }

    /** One more step of the call, whatever the dial does. */
    method Advance(now: nat)
      requires server.Valid() && Valid() && !step.Finished? && Arrived()
      modifies this`step, this`accepted, this`mark, this`seen, this`drew, this`told, this`missed, this`at, server
      modifies Held()`rxInbox, Held()`arrived, Held()`stopped, Held()`heardFrom
      ensures server.Valid() && Valid() && Rank(step) < Rank(old(step)) && server.callbacks == old(server.callbacks)
      ensures forall s <- old(Held()) :: s.Valid() && s.heardFrom <= old(s.heardFrom) + {owner} && Onwards(s)
      ensures forall s <- Held() + server.sessions.Values ::
              s in old(server.sessions.Values) + old(Held()) || (fresh(s) && Unheard(s))
      ensures Onward(old(server.sessions.Keys), old(server.sessionOwners), old(accepted), old(mark))
      ensures Keeps(old(server.sessionOwners), old(server.losses), server.sessionOwners, server.losses)
      ensures Arrived() && At() <= old(At()) + Held() && Did(now)
    {
      hide Server.Valid, Session.Valid, Route.Course, Destination, SightOf, ResetFrame, Keeps, Route.Did;
      if step.Delivering? || step.Offering? {
        KeepsAll(server.sessionOwners, server.losses);
        HandOver(now);
      } else if step.Rejecting? || step.Answering? || step.Touching? {
        KeepsAll(server.sessionOwners, server.losses);
        Conclude(now);
      } else {
        Decide(now);
      }
    }
  }
}
